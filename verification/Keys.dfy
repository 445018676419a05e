/** Keys are byte strings, compared lexicographically as the standard library
    compares byte slices. */
module Keys {

  type Byte = b: int | 0 <= b < 256

  type Key = seq<Byte>

  type Value = seq<Byte>

  /** `a < b` on byte slices */
  predicate Less(a: Key, b: Key) {
    b != [] && (a == [] || a[0] < b[0] || (a[0] == b[0] && Less(a[1..], b[1..])))
  }

  /** `a <= b` on byte slices */
  predicate Leq(a: Key, b: Key) {
    !Less(b, a)
  }

  function Min(a: Key, b: Key): Key {
    if Less(b, a) then b else a
  }

  function Max(a: Key, b: Key): Key {
    if Less(a, b) then b else a
  }

  /** Is `k` in the closed range from `lo` to `hi`? */
  predicate Within(k: Key, lo: Key, hi: Key) {
    Leq(lo, k) && Leq(k, hi)
  }

  /** Do the closed ranges from `a` to `b` and from `c` to `d` meet? */
  predicate Meets(a: Key, b: Key, c: Key, d: Key) {
    Leq(c, b) && Leq(a, d)
  }

  lemma {:induction false} LessAsymmetric(a: Key, b: Key)
    ensures !(Less(a, b) && Less(b, a))
  {
    if a != [] && b != [] && a[0] == b[0] {
      LessAsymmetric(a[1..], b[1..]);
    }
  }

  lemma {:induction false} LessTransitive(a: Key, b: Key, c: Key)
    requires Less(a, b) && Less(b, c)
    ensures Less(a, c)
  {
    if a != [] && a[0] == b[0] == c[0] {
      LessTransitive(a[1..], b[1..], c[1..]);
    }
  }

  lemma {:induction false} LessTotal(a: Key, b: Key)
    ensures Less(a, b) || Less(b, a) || a == b
  {
    if a != [] && b != [] && a[0] == b[0] {
      LessTotal(a[1..], b[1..]);
      assert a == [a[0]] + a[1..] && b == [b[0]] + b[1..];
    }
  }

  /** Where two keys first differ, the smaller byte decides; a proper prefix is smaller. */
  ghost predicate DecidedAt(a: Key, b: Key, n: nat) {
    && n <= |a| && n <= |b| && a[..n] == b[..n]
    && ((n == |a| < |b|) || (n < |a| && n < |b| && a[n] < b[n]))
  }

  /** The order on keys is the lexicographic order on bytes. */
  lemma {:induction false} LessIsLexicographic(a: Key, b: Key)
    ensures Less(a, b) <==>
            exists n: nat ::
              && n <= |a| && n <= |b| && a[..n] == b[..n]
              && ((n == |a| < |b|) || (n < |a| && n < |b| && a[n] < b[n]))
  {
    if Less(a, b) {
      var n := FirstDifference(a, b);
      assert a[..n] == b[..n];
    }
    if n: nat :| n <= |a| && n <= |b| && a[..n] == b[..n] && ((n == |a| < |b|) || (n < |a| && n < |b| && a[n] < b[n])) {
      DecidedLess(a, b, n);
    }
  }

  lemma {:induction false} FirstDifference(a: Key, b: Key) returns (n: nat)
    requires Less(a, b)
    ensures DecidedAt(a, b, n)
  {
    if a == [] || a[0] < b[0] {
      n := 0;
    } else {
      var m := FirstDifference(a[1..], b[1..]);
      n := m + 1;
      assert a[..n] == [a[0]] + a[1..][..m] && b[..n] == [b[0]] + b[1..][..m];
    }
  }

  lemma {:induction false} DecidedLess(a: Key, b: Key, n: nat)
    requires DecidedAt(a, b, n)
    ensures Less(a, b)
  {
    if n > 0 {
      assert a[..n][0] == a[0] && b[..n][0] == b[0];
      assert a[1..][..n - 1] == a[..n][1..] && b[1..][..n - 1] == b[..n][1..];
      DecidedLess(a[1..], b[1..], n - 1);
    }
  }

  lemma LeqTransitive(a: Key, b: Key, c: Key)
    requires Leq(a, b) && Leq(b, c)
    ensures Leq(a, c)
  {
    LessTotal(a, b);
    LessTotal(b, c);
    if Less(c, a) {
      if a != b { LessTransitive(c, a, b); }
    }
  }

  /** Two closed ranges that share a key meet. */
  lemma SharedKeyMeets(k: Key, a: Key, b: Key, c: Key, d: Key)
    requires Within(k, a, b) && Within(k, c, d)
    ensures Meets(a, b, c, d)
  {
    LeqTransitive(c, k, b);
    LeqTransitive(a, k, d);
  }

  /** Two closed ranges that are not empty meet exactly if they share a key. */
  lemma MeetsIfShared(a: Key, b: Key, c: Key, d: Key)
    requires !Less(b, a) && !Less(d, c)
    ensures Meets(a, b, c, d) <==> exists k :: !Less(k, a) && !Less(b, k) && !Less(k, c) && !Less(d, k)
  {
    if Meets(a, b, c, d) {
      LessAsymmetric(a, a);
      LessAsymmetric(c, c);
      LessAsymmetric(a, c);
      var k := Max(a, c);
      assert !Less(k, a) && !Less(b, k) && !Less(k, c) && !Less(d, k);
    }
    if k :| !Less(k, a) && !Less(b, k) && !Less(k, c) && !Less(d, k) {
      SharedKeyMeets(k, a, b, c, d);
    }
  }

  /** The hull of two ranges contains both. */
  lemma HullContains(a: Key, b: Key, c: Key, d: Key)
    ensures Leq(Min(a, c), a) && Leq(Min(a, c), c) && Leq(b, Max(b, d)) && Leq(d, Max(b, d))
  {
    LessAsymmetric(a, c);
    LessAsymmetric(b, d);
    LessAsymmetric(a, a);
    LessAsymmetric(b, b);
    LessAsymmetric(c, c);
    LessAsymmetric(d, d);
  }

  lemma LessLeqTransitive(a: Key, b: Key, c: Key)
    requires Less(a, b) && Leq(b, c)
    ensures Less(a, c)
  {
    LessTotal(b, c);
    if b != c { LessTransitive(a, b, c); }
  }

  /** The hull of two meeting ranges is their union: a range apart from both is apart from the hull. */
  lemma HullIsUnion(a: Key, b: Key, c: Key, d: Key, e: Key, f: Key)
    requires Meets(a, b, c, d) && Leq(e, f)
    requires !Meets(e, f, a, b) && !Meets(e, f, c, d)
    ensures !Meets(e, f, Min(a, c), Max(b, d))
  {
    if Less(f, a) && Less(d, e) {
      LessLeqTransitive(d, e, f);
      LessTransitive(d, f, a);
      assert false;
    }
    if Less(b, e) && Less(f, c) {
      LessLeqTransitive(b, e, f);
      LessTransitive(b, f, c);
      assert false;
    }
  }
}
