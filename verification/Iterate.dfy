/** Iterating over the database: a merge of memtable and table iterators, in either direction. */
module Iterate {
  import opened Keys
  import opened Versions
  import opened Merge

  /** A frozen memtable or table, its entries in iteration order */
  datatype Source = Source(rows: seq<Row>, memtable: bool)

  /** Does `a` come before `b` in iteration order? */
  predicate Before(reverse: bool, a: Key, b: Key) {
    if reverse then Less(b, a) else Less(a, b)
  }

  lemma BeforeOrder(reverse: bool, a: Key, b: Key, c: Key)
    ensures !(Before(reverse, a, b) && Before(reverse, b, a))
    ensures Before(reverse, a, b) || Before(reverse, b, a) || a == b
    ensures Before(reverse, a, b) && Before(reverse, b, c) ==> Before(reverse, a, c)
  {
    LessAsymmetric(a, b);
    LessTotal(a, b);
    if Less(a, b) && Less(b, c) { LessTransitive(a, b, c); }
    if Less(c, b) && Less(b, a) { LessTransitive(c, b, a); }
  }

  ghost predicate Ordered(reverse: bool, rows: seq<Row>) {
    forall i, j :: 0 <= i < j < |rows| ==> Before(reverse, rows[i].key, rows[j].key)
  }

  /** The requested range in iteration order: `start` is included, `stop` is not. */
  datatype Range = Range(reverse: bool, start: Option<Key>, stop: Option<Key>)
  {
    predicate TooEarly(k: Key) {
      start.Some? && Before(reverse, k, start.value)
    }

    predicate TooLate(k: Key) {
      stop.Some? && !Before(reverse, k, stop.value)
    }

    predicate Contains(k: Key) {
      !TooEarly(k) && !TooLate(k)
    }

    /** Already returned or skipped, or before the range */
    predicate Done(last: Option<Key>, k: Key) {
      (last.Some? && !Before(reverse, last.value, k)) || TooEarly(k)
    }
  }

  /** Forward iteration covers the keys from `min` up to but not `max`, reverse iteration those
      from `max` down to but not `min`. */
  function MakeRange(reverse: bool, min: Option<Key>, max: Option<Key>): Range {
    if reverse then Range(true, max, min) else Range(false, min, max)
  }

  /** A forward range includes its lower end but not its upper one. */
  lemma ForwardRange(min: Option<Key>, max: Option<Key>, k: Key)
    ensures MakeRange(false, min, max).Contains(k) <==>
            (min.Some? ==> !Less(k, min.value)) && (max.Some? ==> Less(k, max.value))
  {
  }

  /** A reverse range includes its upper end but not its lower one. */
  lemma ReverseRange(min: Option<Key>, max: Option<Key>, k: Key)
    ensures MakeRange(true, min, max).Contains(k) <==>
            (min.Some? ==> Less(min.value, k)) && (max.Some? ==> !Less(max.value, k))
  {
  }

  /** Source `i` has version `v` of `k`. */
  ghost predicate At(sources: seq<Source>, i: nat, k: Key, v: Version) {
    i < |sources| && exists n :: 0 <= n < |sources[i].rows| && sources[i].rows[n] == Row(k, v)
  }

  /** `v` in source `i` is the newest version of `k`; among equals the first source wins. */
  ghost predicate Newest(sources: seq<Source>, i: nat, k: Key, v: Version) {
    && At(sources, i, k, v)
    && forall j, w :: At(sources, j, k, w) ==> w.num < v.num || (w.num == v.num && i <= j)
  }

  /** What an iterator hands out for an entry: a table's deletion is skipped, but a memtable's is not. */
  predicate Shown(s: Source, v: Version) {
    s.memtable || v.value.Some?
  }

  lemma DoneGrows(range: Range, last: Option<Key>, k: Key, k': Key)
    requires !range.Done(last, k) && Before(range.reverse, k, k')
    ensures !range.Done(last, k')
  {
    if last.Some? { BeforeOrder(range.reverse, last.value, k, k'); }
    if range.start.Some? {
      BeforeOrder(range.reverse, k', range.start.value, k);
      BeforeOrder(range.reverse, k, k', range.start.value);
    }
  }

  lemma LateGrows(range: Range, k: Key, k': Key)
    requires range.TooLate(k) && Before(range.reverse, k, k')
    ensures range.TooLate(k')
  {
    BeforeOrder(range.reverse, k, k', range.stop.value);
  }

  /** The first `p` entries are done, the others are not. */
  ghost predicate Cut(rows: seq<Row>, p: nat, range: Range, last: Option<Key>) {
    && p <= |rows|
    && (forall n :: 0 <= n < p ==> range.Done(last, rows[n].key))
    && (forall n :: p <= n < |rows| ==> !range.Done(last, rows[n].key))
  }

  /** The entry an iterator offers: where it stands, if that is still in the range */
  predicate Offers(s: Source, p: nat, range: Range) {
    p < |s.rows| && !range.TooLate(s.rows[p].key)
  }

  /** `best` is the source among the first `n` whose offer comes first and, for that key, is newest. */
  ghost predicate IsBest(sources: seq<Source>, pos: seq<nat>, range: Range, n: nat, best: Option<nat>)
    requires |pos| == |sources| && n <= |sources|
  {
    && (best.None? ==> forall i :: 0 <= i < n ==> !Offers(sources[i], pos[i], range))
    && (best.Some? ==>
          && best.value < n && Offers(sources[best.value], pos[best.value], range)
          && forall i :: 0 <= i < n && Offers(sources[i], pos[i], range) ==>
               Better(range.reverse, sources[best.value].rows[pos[best.value]], best.value, sources[i].rows[pos[i]], i))
  }

  predicate Better(reverse: bool, a: Row, i: nat, b: Row, j: nat) {
    || Before(reverse, a.key, b.key)
    || (a.key == b.key && (b.version.num < a.version.num || (b.version.num == a.version.num && i <= j)))
  }

  /** The entry for `k` that iteration must hand out: the newest, in the range, and shown */
  ghost predicate Visible(sources: seq<Source>, range: Range, i: nat, k: Key, v: Version) {
    Newest(sources, i, k, v) && range.Contains(k) && Shown(sources[i], v)
  }

  /** Some source has `r` as the entry to hand out for its key. */
  ghost predicate Yields(sources: seq<Source>, range: Range, r: Row) {
    exists i: nat :: Visible(sources, range, i, r.key, r.version)
  }

  ghost predicate AllCut(sources: seq<Source>, pos: seq<nat>, range: Range, last: Option<Key>) {
    |pos| == |sources| &&
    forall i :: 0 <= i < |sources| ==>
      Ordered(range.reverse, sources[i].rows) && Cut(sources[i].rows, pos[i], range, last)
  }

  /** An entry in the range that is not done yet lies at or behind its source's offer. */
  lemma OfferFirst(sources: seq<Source>, pos: seq<nat>, range: Range, last: Option<Key>, i: nat, k: Key, v: Version)
    requires AllCut(sources, pos, range, last) && At(sources, i, k, v) && range.Contains(k) && !range.Done(last, k)
    ensures Offers(sources[i], pos[i], range)
    ensures sources[i].rows[pos[i]] == Row(k, v) || Before(range.reverse, sources[i].rows[pos[i]].key, k)
  {
    var rows := sources[i].rows;
    var n :| 0 <= n < |rows| && rows[n] == Row(k, v);
    assert Cut(rows, pos[i], range, last);
    if pos[i] < n && range.TooLate(rows[pos[i]].key) {
      LateGrows(range, rows[pos[i]].key, k);
    }
  }

  /** The best offer is the newest version of its key, and no key that is left comes before it. */
  lemma BestIsNext(sources: seq<Source>, pos: seq<nat>, range: Range, last: Option<Key>, b: nat)
    requires AllCut(sources, pos, range, last) && IsBest(sources, pos, range, |sources|, Some(b))
    ensures
      var r := sources[b].rows[pos[b]];
      && !range.Done(last, r.key) && range.Contains(r.key) && Newest(sources, b, r.key, r.version)
      && forall i, k, v :: At(sources, i, k, v) && range.Contains(k) && !range.Done(last, k) ==>
          !Before(range.reverse, k, r.key)
  {
    var r := sources[b].rows[pos[b]];
    assert Cut(sources[b].rows, pos[b], range, last);
    forall i: nat, k, v | At(sources, i, k, v) && range.Contains(k) && !range.Done(last, k)
      ensures !Before(range.reverse, k, r.key)
      ensures k == r.key ==> v.num < r.version.num || (v.num == r.version.num && b <= i)
    {
      OfferFirst(sources, pos, range, last, i, k, v);
      var o := sources[i].rows[pos[i]];
      BeforeOrder(range.reverse, k, r.key, o.key);
      BeforeOrder(range.reverse, o.key, k, r.key);
    }
  }

  ghost function Left(sources: seq<Source>, range: Range, last: Option<Key>): set<Key> {
    set i, n | 0 <= i < |sources| && 0 <= n < |sources[i].rows| && !range.Done(last, sources[i].rows[n].key) ::
      sources[i].rows[n].key
  }

  /** Moving on to key `k` makes `k` and everything before it done, and nothing after it. */
  lemma MoveOn(sources: seq<Source>, range: Range, last: Option<Key>, i: nat, n: nat)
    requires i < |sources| && n < |sources[i].rows| && !range.Done(last, sources[i].rows[n].key)
    ensures
      var k := sources[i].rows[n].key;
      && range.Done(Some(k), k)
      && (forall k' :: range.Done(last, k') ==> range.Done(Some(k), k'))
      && (forall k' :: Before(range.reverse, k, k') ==> !range.Done(Some(k), k'))
      && Left(sources, range, Some(k)) < Left(sources, range, last)
  {
    var k := sources[i].rows[n].key;
    BeforeOrder(range.reverse, k, k, k);
    forall k' | range.Done(last, k') ensures range.Done(Some(k), k') {
      if !range.TooEarly(k') {
        BeforeOrder(range.reverse, last.value, k, k');
      }
    }
    forall k' | Before(range.reverse, k, k') ensures !range.Done(Some(k), k') {
      DoneGrows(range, last, k, k');
    }
    assert k in Left(sources, range, last);
  }

  class DbIterator {
    const sources: seq<Source>
    const range: Range
    var pos: seq<nat>
    var last: Option<Key>

    /** Every iterator has passed only entries that are done. */
    ghost predicate Valid()
      reads this
    {
      && |pos| == |sources|
      && (forall i :: 0 <= i < |sources| ==> Ordered(range.reverse, sources[i].rows))
      && forall i :: 0 <= i < |sources| ==>
           pos[i] <= |sources[i].rows| && forall n :: 0 <= n < pos[i] ==> range.Done(last, sources[i].rows[n].key)
    }

    constructor (sources: seq<Source>, reverse: bool, min: Option<Key>, max: Option<Key>)
      requires forall i :: 0 <= i < |sources| ==> Ordered(reverse, sources[i].rows)
      ensures Valid() && last == None && this.sources == sources && range == MakeRange(reverse, min, max)
    {
      this.sources := sources;
      range := MakeRange(reverse, min, max);
      pos := seq(|sources|, i => 0);
      last := None;
    }

    /** Let iterator `i` compete with the best offer so far: first skip what is done. */
    method ParseIter(i: nat, best: Option<nat>) returns (change: bool, best': Option<nat>)
      requires Valid() && i < |sources| && IsBest(sources, pos, range, i, best)
      modifies this`pos
      ensures Valid() && Cut(sources[i].rows, pos[i], range, last)
      ensures forall j :: 0 <= j < |sources| && j != i ==> pos[j] == old(pos)[j]
      ensures change == (best' != best) && IsBest(sources, pos, range, i + 1, best')
    {
      hide Less;
      var rows := sources[i].rows;
      var p := pos[i];
      while p < |rows| && last.Some? && !Before(range.reverse, last.value, rows[p].key)
        invariant pos[i] <= p <= |rows| && forall n :: 0 <= n < p ==> range.Done(last, rows[n].key)
      {
        p := p + 1;
      }
      ghost var q := p;
      while p < |rows| && range.start.Some? && Before(range.reverse, rows[p].key, range.start.value)
        invariant q <= p <= |rows| && forall n :: 0 <= n < p ==> range.Done(last, rows[n].key)
      {
        p := p + 1;
      }
      CutHere(rows, q, p, range, last);
      pos := pos[i := p];
      assert best.Some? ==> pos[best.value] == old(pos)[best.value];
      if p == |rows| || range.TooLate(rows[p].key) {
        return false, best;
      }
      if best.None? {
        return true, Some(i);
      }
      var b := best.value;
      var theirs := sources[b].rows[pos[b]];
      if Before(range.reverse, rows[p].key, theirs.key) ||
         (rows[p].key == theirs.key && rows[p].version.num > theirs.version.num)
      {
        NewBest(sources, pos, range, i, b);
        return true, Some(i);
      }
      BeforeOrder(range.reverse, rows[p].key, theirs.key, theirs.key);
      return false, best;
    }

    /** Let all iterators compete. */
    method FindBest() returns (best: Option<nat>)
      requires Valid()
      modifies this`pos
      ensures Valid() && AllCut(sources, pos, range, last) && IsBest(sources, pos, range, |sources|, best)
    {
      hide Ordered, Cut, IsBest;
      NoneBest(sources, pos, range);
      best := None;
      for i := 0 to |sources|
        invariant Valid() && IsBest(sources, pos, range, i, best)
        invariant forall j :: 0 <= j < i ==> Cut(sources[j].rows, pos[j], range, last)
      {
        var change, kv := ParseIter(i, best);
        if change {
          best := kv;
        }
      }
    }

    /** The next entry to hand out: the first key after `last` whose newest entry is shown. */
    method Next() returns (r: Option<Row>)
      requires Valid()
      modifies this
      ensures Valid()
      ensures r.Some? ==>
                && last == Some(r.value.key) && !range.Done(old(last), r.value.key)
                && Yields(sources, range, r.value)
      ensures r.Some? ==> forall r' :: Yields(sources, range, r') && !range.Done(old(last), r'.key) ==>
                            !Before(range.reverse, r'.key, r.value.key)
      ensures r.None? ==> forall r' :: Yields(sources, range, r') ==> range.Done(old(last), r'.key)
      ensures forall k :: range.Done(old(last), k) ==> range.Done(last, k)
    {
      while true
        invariant Valid()
        invariant forall r' :: Yields(sources, range, r') && range.Done(last, r'.key) ==> range.Done(old(last), r'.key)
        invariant forall k :: range.Done(old(last), k) ==> range.Done(last, k)
        decreases Left(sources, range, last)
      {
        var best := FindBest();
        if best.None? {
          NothingLeft(sources, pos, range, last);
          return None;
        }
        var b := best.value;
        BestIsNext(sources, pos, range, last, b);
        var row := sources[b].rows[pos[b]];
        MoveOn(sources, range, last, b, pos[b]);
        SkipsOnly(sources, pos, range, last, b);
        last := Some(row.key);
        if Shown(sources[b], row.version) {
          assert Visible(sources, range, b, row.key, row.version);
          return Some(row);
        }
      }
    }
  }

  /** Run an iterator to its end. It yields every visible key exactly once, in order, with its newest version:
      forwards the keys from `min` up to but not `max`, backwards those from `max` down to but not `min`. */
  method Collect(sources: seq<Source>, reverse: bool, min: Option<Key>, max: Option<Key>) returns (out: seq<Row>)
    requires forall i :: 0 <= i < |sources| ==> Ordered(reverse, sources[i].rows)
    ensures forall i, j :: 0 <= i < j < |out| ==>
              if reverse then Less(out[j].key, out[i].key) else Less(out[i].key, out[j].key)
    ensures forall r :: r in out <==> Yields(sources, MakeRange(reverse, min, max), r)
    ensures forall r :: r in out ==>
              if reverse then (min.Some? ==> Less(min.value, r.key)) && (max.Some? ==> !Less(max.value, r.key))
              else (min.Some? ==> !Less(r.key, min.value)) && (max.Some? ==> Less(r.key, max.value))
    ensures forall i: nat, r: Row :: Newest(sources, i, r.key, r.version) && Shown(sources[i], r.version) ==>
              (r in out <==>
                 if reverse then (min.Some? ==> Less(min.value, r.key)) && (max.Some? ==> !Less(max.value, r.key))
                 else (min.Some? ==> !Less(r.key, min.value)) && (max.Some? ==> Less(r.key, max.value)))
  {
    var it := new DbIterator(sources, reverse, min, max);
    var range := it.range;
    out := [];
    while true
      invariant it.Valid() && it.sources == sources && it.range == range && fresh(it)
      invariant Collected(sources, range, out, it.last)
      decreases Left(sources, range, it.last)
    {
      ghost var last := it.last;
      var r := it.Next();
      if r.None? {
        break;
      }
      CollectMore(sources, range, out, last, r.value);
      out := out + [r.value];
    }
    CollectedRange(sources, reverse, min, max, out);
  }

  lemma CollectedRange(sources: seq<Source>, reverse: bool, min: Option<Key>, max: Option<Key>, out: seq<Row>)
    requires forall r :: r in out <==> Yields(sources, MakeRange(reverse, min, max), r)
    ensures forall r :: r in out ==>
              if reverse then (min.Some? ==> Less(min.value, r.key)) && (max.Some? ==> !Less(max.value, r.key))
              else (min.Some? ==> !Less(r.key, min.value)) && (max.Some? ==> Less(r.key, max.value))
    ensures forall i: nat, r: Row :: Newest(sources, i, r.key, r.version) && Shown(sources[i], r.version) ==>
              (r in out <==>
                 if reverse then (min.Some? ==> Less(min.value, r.key)) && (max.Some? ==> !Less(max.value, r.key))
                 else (min.Some? ==> !Less(r.key, min.value)) && (max.Some? ==> Less(r.key, max.value)))
  {
    hide Less;
    var range := MakeRange(reverse, min, max);
    forall r | r in out ensures range.Contains(r.key) {
      var i: nat :| Visible(sources, range, i, r.key, r.version);
    }
    forall i: nat, r: Row |
      Newest(sources, i, r.key, r.version) && Shown(sources[i], r.version) && range.Contains(r.key)
      ensures r in out
    {
      assert Visible(sources, range, i, r.key, r.version);
    }
  }

  /** Collected so far: ordered, all visible, all done, and every visible key that is done */
  ghost predicate Collected(sources: seq<Source>, range: Range, out: seq<Row>, last: Option<Key>) {
    && Ordered(range.reverse, out)
    && (forall n :: 0 <= n < |out| ==> range.Done(last, out[n].key))
    && (forall r <- out :: Yields(sources, range, r))
    && (forall r :: Yields(sources, range, r) && range.Done(last, r.key) ==> r in out)
  }

  lemma CollectMore(sources: seq<Source>, range: Range, out: seq<Row>, last: Option<Key>, r: Row)
    requires Collected(sources, range, out, last) && !range.Done(last, r.key)
    requires forall i :: 0 <= i < |sources| ==> Ordered(range.reverse, sources[i].rows)
    requires Yields(sources, range, r)
    requires forall r' :: Yields(sources, range, r') && !range.Done(last, r'.key) ==>
        !Before(range.reverse, r'.key, r.key)
    ensures Collected(sources, range, out + [r], Some(r.key))
    ensures Left(sources, range, Some(r.key)) < Left(sources, range, last)
  {
    var b: nat :| Visible(sources, range, b, r.key, r.version);
    var m :| 0 <= m < |sources[b].rows| && sources[b].rows[m] == r;
    MoveOn(sources, range, last, b, m);
    var out' := out + [r];
    forall n | 0 <= n < |out| ensures Before(range.reverse, out[n].key, r.key) {
      DoneBefore(range, last, out[n].key, r.key);
    }
    forall r' | Yields(sources, range, r') && range.Done(Some(r.key), r'.key) ensures r' in out' {
      if !range.Done(last, r'.key) {
        var i: nat :| Visible(sources, range, i, r'.key, r'.version);
        BeforeOrder(range.reverse, r.key, r'.key, r'.key);
        NewestUnique(sources, b, r.version, i, r'.version, r.key);
      }
    }
  }

  lemma DoneBefore(range: Range, last: Option<Key>, k: Key, k': Key)
    requires range.Done(last, k) && !range.Done(last, k')
    ensures Before(range.reverse, k, k')
  {
    BeforeOrder(range.reverse, k, k', k);
    if Before(range.reverse, k', k) {
      DoneGrows(range, last, k', k);
    }
  }

  lemma NoneBest(sources: seq<Source>, pos: seq<nat>, range: Range)
    requires |pos| == |sources|
    ensures IsBest(sources, pos, range, 0, None)
  {
  }

  lemma NothingLeft(sources: seq<Source>, pos: seq<nat>, range: Range, last: Option<Key>)
    requires AllCut(sources, pos, range, last) && IsBest(sources, pos, range, |sources|, None)
    ensures forall r :: Yields(sources, range, r) ==> range.Done(last, r.key)
  {
    forall r | Yields(sources, range, r) ensures range.Done(last, r.key) {
      if !range.Done(last, r.key) {
        var i: nat :| Visible(sources, range, i, r.key, r.version);
        OfferFirst(sources, pos, range, last, i, r.key, r.version);
        assert false;
      }
    }
  }

  /** Moving on to the best offer passes no other visible key. */
  lemma SkipsOnly(sources: seq<Source>, pos: seq<nat>, range: Range, last: Option<Key>, b: nat)
    requires AllCut(sources, pos, range, last) && IsBest(sources, pos, range, |sources|, Some(b))
    ensures
      var r := sources[b].rows[pos[b]];
      forall r' :: Yields(sources, range, r') && range.Done(Some(r.key), r'.key) ==> range.Done(last, r'.key) || r' == r
  {
    var r := sources[b].rows[pos[b]];
    BestIsNext(sources, pos, range, last, b);
    forall r' | Yields(sources, range, r') && range.Done(Some(r.key), r'.key) && !range.Done(last, r'.key)
      ensures r' == r
    {
      var i: nat :| Visible(sources, range, i, r'.key, r'.version);
      BeforeOrder(range.reverse, r.key, r'.key, r'.key);
      assert At(sources, i, r'.key, r'.version);
      NewestUnique(sources, b, r.version, i, r'.version, r.key);
    }
  }

  lemma NewestUnique(sources: seq<Source>, i: nat, v: Version, j: nat, w: Version, k: Key)
    requires Newest(sources, i, k, v) && Newest(sources, j, k, w)
    requires i < |sources| && exists reverse :: Ordered(reverse, sources[i].rows)
    ensures i == j && v == w
  {
    var reverse :| Ordered(reverse, sources[i].rows);
    var rows := sources[i].rows;
    var n :| 0 <= n < |rows| && rows[n] == Row(k, v);
    var m :| 0 <= m < |rows| && rows[m] == Row(k, w);
    BeforeOrder(reverse, k, k, k);
  }

  lemma CutHere(rows: seq<Row>, q: nat, p: nat, range: Range, last: Option<Key>)
    requires Ordered(range.reverse, rows) && q <= p <= |rows|
    requires forall n :: 0 <= n < p ==> range.Done(last, rows[n].key)
    requires q < |rows| ==> last.None? || Before(range.reverse, last.value, rows[q].key)
    requires p < |rows| ==> !range.TooEarly(rows[p].key)
    ensures Cut(rows, p, range, last)
  {
    if p < |rows| {
      if last.Some? && q < p {
        BeforeOrder(range.reverse, last.value, rows[q].key, rows[p].key);
      }
      assert !range.Done(last, rows[p].key);
      forall n | p < n < |rows| ensures !range.Done(last, rows[n].key) {
        DoneGrows(range, last, rows[p].key, rows[n].key);
      }
    }
  }

  lemma NewBest(sources: seq<Source>, pos: seq<nat>, range: Range, i: nat, b: nat)
    requires |pos| == |sources| && i < |sources| && IsBest(sources, pos, range, i, Some(b))
    requires Offers(sources[i], pos[i], range)
    requires
      var mine, theirs := sources[i].rows[pos[i]], sources[b].rows[pos[b]];
      Before(range.reverse, mine.key, theirs.key) || (mine.key == theirs.key && mine.version.num > theirs.version.num)
    ensures IsBest(sources, pos, range, i + 1, Some(i))
  {
    var mine, theirs := sources[i].rows[pos[i]], sources[b].rows[pos[b]];
    forall j | 0 <= j < i && Offers(sources[j], pos[j], range)
      ensures Better(range.reverse, mine, i, sources[j].rows[pos[j]], j)
    {
      BeforeOrder(range.reverse, mine.key, theirs.key, sources[j].rows[pos[j]].key);
    }
  }

  // ---- choosing the tables to iterate over ----

  /** A table with the key range recorded in its index block */
  datatype TableSource = TableSource(min: Key, max: Key, rows: seq<Row>)

  ghost predicate InBounds(t: TableSource) {
    forall n :: 0 <= n < |t.rows| ==> Within(t.rows[n].key, t.min, t.max)
  }

  /** The test by which a table is left out */
  predicate Skipped(t: TableSource, min: Option<Key>, max: Option<Key>) {
    (min.Some? && Less(t.max, min.value)) || (max.Some? && Less(max.value, t.min))
  }

  ghost predicate NoKeyIn(s: Source, range: Range) {
    forall n :: 0 <= n < |s.rows| ==> !range.Contains(s.rows[n].key)
  }

  lemma SkippedHasNone(t: TableSource, reverse: bool, min: Option<Key>, max: Option<Key>)
    requires InBounds(t) && Skipped(t, min, max)
    ensures NoKeyIn(Source(t.rows, false), MakeRange(reverse, min, max))
  {
    forall n | 0 <= n < |t.rows| ensures !MakeRange(reverse, min, max).Contains(t.rows[n].key) {
      var k := t.rows[n].key;
      if min.Some? && Less(t.max, min.value) {
        LeqLess(k, t.max, min.value);
        LessAsymmetric(k, min.value);
      } else {
        LessLeqTransitive(max.value, t.min, k);
        LessAsymmetric(max.value, k);
      }
    }
  }

  lemma LeqLess(a: Key, b: Key, c: Key)
    requires Leq(a, b) && Less(b, c)
    ensures Less(a, c)
  {
    LessTotal(a, b);
    if a != b { LessTransitive(a, b, c); }
  }

  /** `kept` is `all` without sources that have no key in the range; `idx` says where the kept ones were. */
  ghost predicate Kept(all: seq<Source>, kept: seq<Source>, idx: seq<nat>, range: Range) {
    && |idx| == |kept| && (forall a, b :: 0 <= a < b < |idx| ==> idx[a] < idx[b])
    && (forall a :: 0 <= a < |idx| ==> idx[a] < |all| && all[idx[a]] == kept[a])
    && (forall j :: 0 <= j < |all| ==> j in idx || NoKeyIn(all[j], range))
  }

  lemma KeptAt(all: seq<Source>, kept: seq<Source>, idx: seq<nat>, range: Range, j: nat, k: Key, v: Version)
    returns (b: nat)
    requires Kept(all, kept, idx, range) && At(all, j, k, v) && range.Contains(k)
    ensures b < |kept| && idx[b] == j && At(kept, b, k, v)
  {
    assert !NoKeyIn(all[j], range);
    b :| 0 <= b < |idx| && idx[b] == j;
  }

  lemma KeptYields(all: seq<Source>, kept: seq<Source>, idx: seq<nat>, range: Range, r: Row)
    requires Kept(all, kept, idx, range)
    ensures Yields(kept, range, r) <==> Yields(all, range, r)
  {
    if Yields(kept, range, r) {
      var a: nat :| Visible(kept, range, a, r.key, r.version);
      forall j: nat, w | At(all, j, r.key, w)
        ensures w.num < r.version.num || (w.num == r.version.num && idx[a] <= j)
      {
        var b := KeptAt(all, kept, idx, range, j, r.key, w);
        assert a <= b ==> idx[a] <= idx[b];
      }
      assert At(all, idx[a], r.key, r.version);
      assert Visible(all, range, idx[a], r.key, r.version);
    }
    if Yields(all, range, r) {
      var j: nat :| Visible(all, range, j, r.key, r.version);
      var b := KeptAt(all, kept, idx, range, j, r.key, r.version);
      forall c: nat, w | At(kept, c, r.key, w)
        ensures w.num < r.version.num || (w.num == r.version.num && b <= c)
      {
        assert At(all, idx[c], r.key, w);
        assert c < b ==> idx[c] < idx[b];
      }
      assert Visible(kept, range, b, r.key, r.version);
    }
  }

  function TableSources(tables: seq<TableSource>): seq<Source> {
    seq(|tables|, i requires 0 <= i < |tables| => Source(tables[i].rows, false))
  }

  /** The tables whose range reaches into the requested one, both ends of it included */
  function Near(tables: seq<TableSource>, min: Option<Key>, max: Option<Key>): (r: seq<TableSource>)
    ensures forall t :: t in r <==>
              t in tables && (min.Some? ==> !Less(t.max, min.value)) && (max.Some? ==> !Less(max.value, t.min))
  {
    if tables == [] then []
    else
      var n := |tables| - 1;
      Near(tables[..n], min, max) + if Skipped(tables[n], min, max) then [] else [tables[n]]
  }

  lemma NearNext(tables: seq<TableSource>, i: nat, min: Option<Key>, max: Option<Key>)
    requires i < |tables|
    ensures
      TableSources(Near(tables[..i + 1], min, max)) ==
      TableSources(Near(tables[..i], min, max)) +
      if Skipped(tables[i], min, max) then [] else [Source(tables[i].rows, false)]
  {
    assert tables[..i + 1][..i] == tables[..i];
  }

  /** Collect the sources of an iteration: the memtables, and the tables near the range. Leaving out the others loses
      nothing. */
  method PrepareIter(mems: seq<Source>, tables: seq<TableSource>, reverse: bool, min: Option<Key>, max: Option<Key>)
    returns (sources: seq<Source>)
    requires forall i :: 0 <= i < |tables| ==> InBounds(tables[i])
    ensures sources == mems + TableSources(Near(tables, min, max))
    ensures forall r ::
              Yields(sources, MakeRange(reverse, min, max), r) <==>
              Yields(mems + TableSources(tables), MakeRange(reverse, min, max), r)
  {
    hide Near, Skipped, MakeRange, Yields, Kept, NoKeyIn, Less;
    ghost var range := MakeRange(reverse, min, max);
    ghost var all := mems;
    ghost var idx: seq<nat> := KeptAll(mems, range);
    sources := mems;
    assert TableSources(Near(tables[..0], min, max)) == [] by { NoneNear(min, max); }
    for i := 0 to |tables|
      invariant all == mems + TableSources(tables)[..i] && Kept(all, sources, idx, range)
      invariant sources == mems + TableSources(Near(tables[..i], min, max))
    {
      NearNext(tables, i, min, max);
      var s := Source(tables[i].rows, false);
      assert TableSources(tables)[..i + 1] == TableSources(tables)[..i] + [s];
      if Skipped(tables[i], min, max) {
        SkippedHasNone(tables[i], reverse, min, max);
        KeptSkip(all, sources, idx, range, s);
      } else {
        KeptPush(all, sources, idx, range, s);
        sources := sources + [s];
        idx := idx + [|all|];
      }
      all := all + [s];
    }
    assert all == mems + TableSources(tables) && tables[..|tables|] == tables;
    forall r ensures Yields(sources, range, r) <==> Yields(all, range, r) {
      KeptYields(all, sources, idx, range, r);
    }
  }

  lemma NoneNear(min: Option<Key>, max: Option<Key>)
    ensures Near([], min, max) == []
  {
  }

  lemma KeptAll(all: seq<Source>, range: Range) returns (idx: seq<nat>)
    ensures Kept(all, all, idx, range)
  {
    idx := seq(|all|, i requires 0 <= i < |all| => i);
    assert forall j :: 0 <= j < |all| ==> idx[j] == j;
  }

  lemma KeptSkip(all: seq<Source>, kept: seq<Source>, idx: seq<nat>, range: Range, s: Source)
    requires Kept(all, kept, idx, range) && NoKeyIn(s, range)
    ensures Kept(all + [s], kept, idx, range)
  {
  }

  lemma KeptPush(all: seq<Source>, kept: seq<Source>, idx: seq<nat>, range: Range, s: Source)
    requires Kept(all, kept, idx, range)
    ensures Kept(all + [s], kept + [s], idx + [|all|], range)
  {
    forall j | 0 <= j < |all + [s]| ensures j in idx + [|all|] || NoKeyIn((all + [s])[j], range) {
      if j == |all| {
        assert (idx + [|all|])[|idx|] == j;
      } else if j in idx {
        var a :| 0 <= a < |idx| && idx[a] == j;
        assert (idx + [|all|])[a] == j;
      }
    }
  }

  // ---- deleted keys ----

  /** The newest version of `k` is a deletion that a memtable holds. */
  ghost predicate GhostKey(sources: seq<Source>, range: Range, k: Key) {
    exists i: nat, v :: Newest(sources, i, k, v) && range.Contains(k) && v.value.None? && sources[i].memtable
  }

  /** Iteration hands out only keys that have a value exactly when no key of the range was
      deleted in a memtable: there a deletion is not skipped, as it is in a table. */
  lemma OnlyLiveKeys(sources: seq<Source>, range: Range)
    ensures (forall r :: Yields(sources, range, r) ==> r.version.value.Some?) <==>
            (forall k :: !GhostKey(sources, range, k))
  {
    if k :| GhostKey(sources, range, k) {
      var i: nat, v :| Newest(sources, i, k, v) && range.Contains(k) && v.value.None? && sources[i].memtable;
      assert Visible(sources, range, i, k, v);
      assert Yields(sources, range, Row(k, v));
    } else {
      forall r | Yields(sources, range, r) ensures r.version.value.Some? {
        var i: nat :| Visible(sources, range, i, r.key, r.version);
        assert !GhostKey(sources, range, r.key);
      }
    }
  }

  /** A key deleted in the memtable is handed out. */
  lemma DeletedKeyShown()
    ensures
      var deleted := Row([1], Version(1, None));
      Yields([Source([deleted], true)], MakeRange(false, None, None), deleted)
  {
    var sources := [Source([Row([1], Version(1, None))], true)];
    assert sources[0].rows[0] == Row([1], Version(1, None));
    assert Visible(sources, MakeRange(false, None, None), 0, [1], Version(1, None));
  }
}
