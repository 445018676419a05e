/** Fixed-width little-endian numbers, as the on-disk structures hold them. */
module Codec {
  import opened Keys

  function Pow256(n: nat): nat {
    if n == 0 then 1 else 256 * Pow256(n - 1)
  }

  /** The `n` low bytes of `x`, least significant first */
  function Le(x: nat, n: nat): (b: seq<Byte>)
    ensures |b| == n
  {
    if n == 0 then [] else [x % 256] + Le(x / 256, n - 1)
  }

  function FromLe(b: seq<Byte>): nat {
    if b == [] then 0 else b[0] + 256 * FromLe(b[1..])
  }

  lemma {:induction false} LeRoundTrip(x: nat, n: nat)
    requires x < Pow256(n)
    ensures FromLe(Le(x, n)) == x
  {
    if n > 0 {
      LeRoundTrip(x / 256, n - 1);
      assert Le(x, n)[1..] == Le(x / 256, n - 1);
    }
  }

  /** Byte `i` of a number in little-endian order */
  lemma {:induction false} LeByte(x: nat, n: nat, i: nat)
    requires i < n
    ensures 0 < Pow256(i) && Le(x, n)[i] == x / Pow256(i) % 256
  {
    if i > 0 {
      LeByte(x / 256, n - 1, i - 1);
      DivTwice(x, Pow256(i - 1));
    }
  }

  lemma DivTwice(x: nat, d: nat)
    requires 0 < d
    ensures x / 256 / d == x / (256 * d)
  {
    var a, b := x / 256, x % 256;
    var q, r := a / d, a % d;
    assert x == 256 * (q * d + r) + b;
    assert x == q * (256 * d) + (256 * r + b);
    assert 256 * r + b < 256 * d;
    DivIs(x, 256 * d, q, 256 * r + b);
  }

  lemma DivIs(x: int, d: int, q: int, m: int)
    requires 0 < d && x == q * d + m && 0 <= m < d
    ensures x / d == q && x % d == m
  {
    var e := x / d - q;
    assert x == (x / d) * d + x % d;
    assert e * d == m - x % d by { assert (x / d) * d == (e + q) * d == e * d + q * d; }
    MulSign(e, d);
  }

  lemma MulSign(e: int, d: int)
    requires 0 < d
    ensures (1 <= e ==> d <= e * d) && (e <= -1 ==> e * d <= -d)
  {
    if 1 <= e { assert e * d == d + (e - 1) * d; }
    if e <= -1 { assert e * d == -d + (e + 1) * d; }
  }

  /** A number below 256 is its byte and zeros. */
  lemma {:induction false} SmallLe(x: nat, zeros: nat)
    requires x < 256
    ensures Le(x, zeros + 1) == [x] + Zeros(zeros)
  {
    NoneLe(zeros);
  }

  lemma {:induction false} NoneLe(n: nat)
    ensures Le(0, n) == Zeros(n)
  {
    if n > 0 {
      NoneLe(n - 1);
    }
  }

  const U32: nat := 0x1_0000_0000
  const U64: nat := 0x1_0000_0000_0000_0000

  function Le32(x: nat): (b: seq<Byte>)
    ensures |b| == 4
  {
    Le(x, 4)
  }

  function Le64(x: nat): (b: seq<Byte>)
    ensures |b| == 8
  {
    Le(x, 8)
  }

  lemma Le32RoundTrip(x: nat)
    requires x < U32
    ensures FromLe(Le32(x)) == x
  {
    assert Pow256(4) == U32 by {
      assert Pow256(2) == 0x1_0000;
      assert Pow256(3) == 0x100_0000;
    }
    LeRoundTrip(x, 4);
  }

  lemma Le64RoundTrip(x: nat)
    requires x < U64
    ensures FromLe(Le64(x)) == x
  {
    assert Pow256(8) == U64 by {
      assert Pow256(2) == 0x1_0000;
      assert Pow256(3) == 0x100_0000;
      assert Pow256(4) == U32;
      assert Pow256(5) == 0x100_0000_0000;
      assert Pow256(6) == 0x1_0000_0000_0000;
      assert Pow256(7) == 0x100_0000_0000_0000;
    }
    LeRoundTrip(x, 8);
  }

  function Zeros(n: nat): (b: seq<Byte>)
    ensures |b| == n && forall i :: 0 <= i < n ==> b[i] == 0
  {
    seq(n, i => 0)
  }

  /** `data` has `piece` at offset `off`. */
  predicate Holds(data: seq<Byte>, off: nat, piece: seq<Byte>) {
    off + |piece| <= |data| && data[off..off + |piece|] == piece
  }

  lemma HoldsConcat(data: seq<Byte>, off: nat, a: seq<Byte>, b: seq<Byte>)
    ensures Holds(data, off, a + b) <==> Holds(data, off, a) && Holds(data, off + |a|, b)
  {
    if off + |a| + |b| <= |data| {
      var d := data[off..off + |a| + |b|];
      assert d[..|a|] == data[off..off + |a|] && d[|a|..] == data[off + |a|..off + |a| + |b|];
      assert d == d[..|a|] + d[|a|..];
      assert (a + b)[..|a|] == a && (a + b)[|a|..] == b;
    }
  }

  lemma HoldsMiddle(a: seq<Byte>, b: seq<Byte>, c: seq<Byte>)
    ensures Holds(a + b + c, |a|, b)
  {
    assert (a + b + c)[|a|..|a| + |b|] == b;
  }

  lemma SliceOfSlice(data: seq<Byte>, o: nat, n: nat, a: nat, b: nat)
    requires o + n <= |data| && a <= b <= n
    ensures data[o..o + n][a..b] == data[o + a..o + b]
  {
    var s, t := data[o..o + n][a..b], data[o + a..o + b];
    assert |s| == |t|;
    forall i | 0 <= i < |s| ensures s[i] == t[i] {
      assert s[i] == data[o..o + n][a + i] == data[o + (a + i)];
    }
  }

  lemma HoldsThrough(data: seq<Byte>, off: nat, piece: seq<Byte>, inner: nat, part: seq<Byte>)
    requires Holds(data, off, piece) && Holds(piece, inner, part)
    ensures Holds(data, off + inner, part)
  {
    SliceOfSlice(data, off, |piece|, inner, inner + |part|);
    assert off + (inner + |part|) == off + inner + |part|;
  }

  lemma HoldsAppend(data: seq<Byte>, more: seq<Byte>, off: nat, piece: seq<Byte>)
    requires Holds(data, off, piece)
    ensures Holds(data + more, off, piece)
  {
    assert (data + more)[off..off + |piece|] == data[off..off + |piece|];
  }

  /** Overwrite the bytes at `at`. */
  function Overwrite(data: seq<Byte>, at: nat, piece: seq<Byte>): (r: seq<Byte>)
    requires at + |piece| <= |data|
    ensures |r| == |data|
  {
    data[..at] + piece + data[at + |piece|..]
  }

  lemma HoldsOverwrite(data: seq<Byte>, at: nat, piece: seq<Byte>, off: nat, other: seq<Byte>)
    requires at + |piece| <= |data| && Holds(data, off, other) && (off + |other| <= at || at + |piece| <= off)
    ensures Holds(Overwrite(data, at, piece), off, other)
    ensures Holds(Overwrite(data, at, piece), at, piece)
  {
    var r := Overwrite(data, at, piece);
    assert r[at..at + |piece|] == piece;
    assert r[off..off + |other|] == data[off..off + |other|];
  }
}
