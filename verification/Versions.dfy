/** Operations, versions of a key, and what replaying operations leaves behind. */
module Versions {
  import opened Keys

  datatype Option<+T> = None | Some(value: T)

  /** A write operation of a batch */
  datatype Op = Put(key: Key, value: Value) | Delete(key: Key)
  {
    function Effect(): Option<Value> {
      if Put? then Some(value) else None
    }
  }

  /** One version of a key: its sequence number and its value, or None for a deletion */
  datatype Version = Version(num: nat, value: Option<Value>)

  /** At most one version per key */
  type Rows = map<Key, Version>

  /** Apply operations in order; the first gets sequence number `next`. */
  function Replay(rows: Rows, ops: seq<Op>, next: nat): Rows {
    if ops == [] then rows
    else
      var n := |ops| - 1;
      Replay(rows, ops[..n], next)[ops[n].key := Version(next + n, ops[n].Effect())]
  }

  /** What a plain map holds after the same operations: no sequence numbers, deletions remembered. */
  function Plain(ops: seq<Op>): map<Key, Option<Value>> {
    if ops == [] then map[]
    else
      var n := |ops| - 1;
      Plain(ops[..n])[ops[n].key := ops[n].Effect()]
  }

  /** Forget sequence numbers. */
  function Values(rows: Rows): map<Key, Option<Value>> {
    map k | k in rows :: rows[k].value
  }

  lemma {:induction false} ReplayIsOverlay(rows: Rows, ops: seq<Op>, next: nat)
    ensures Replay(rows, ops, next) == rows + Replay(map[], ops, next)
  {
    if ops != [] {
      ReplayIsOverlay(rows, ops[..|ops| - 1], next);
    }
  }

  lemma {:induction false} ReplayConcat(rows: Rows, a: seq<Op>, b: seq<Op>, next: nat)
    ensures Replay(rows, a + b, next) == Replay(Replay(rows, a, next), b, next + |a|)
  {
    if b == [] {
      assert a + b == a;
    } else {
      assert (a + b)[..|a + b| - 1] == a + b[..|b| - 1];
      ReplayConcat(rows, a, b[..|b| - 1], next);
    }
  }

  lemma {:induction false} ReplayNumbers(ops: seq<Op>, next: nat, k: Key)
    requires k in Replay(map[], ops, next)
    ensures next <= Replay(map[], ops, next)[k].num < next + |ops|
  {
    var n := |ops| - 1;
    if ops[n].key != k {
      ReplayNumbers(ops[..n], next, k);
    }
  }

  /** Values do not depend on where numbering starts. */
  lemma {:induction false} ReplayValues(ops: seq<Op>, next: nat)
    ensures Values(Replay(map[], ops, next)) == Plain(ops)
  {
    if ops != [] {
      ReplayValues(ops[..|ops| - 1], next);
    }
  }

  lemma {:induction false} PlainConcat(a: seq<Op>, b: seq<Op>)
    ensures Plain(a + b) == Plain(a) + Plain(b)
  {
    if b == [] {
      assert a + b == a;
    } else {
      assert (a + b)[..|a + b| - 1] == a + b[..|b| - 1];
      PlainConcat(a, b[..|b| - 1]);
    }
  }

  lemma ValuesOverlay(a: Rows, b: Rows)
    ensures Values(a + b) == Values(a) + Values(b)
  {
  }

  /** The last operation on a key decides: a put leaves its value, a deletion none. */
  lemma {:induction false} LastDecides(ops: seq<Op>, n: nat)
    requires n < |ops| && forall i :: n < i < |ops| ==> ops[i].key != ops[n].key
    ensures ops[n].key in Plain(ops)
    ensures Plain(ops)[ops[n].key] == if ops[n].Put? then Some(ops[n].value) else None
  {
    var last := |ops| - 1;
    if n < last {
      LastDecides(ops[..last], n);
    }
  }

  /** A key that no operation names is not there. */
  lemma {:induction false} NeverWritten(ops: seq<Op>, k: Key)
    requires forall op <- ops :: op.key != k
    ensures k !in Plain(ops)
  {
    if ops != [] {
      var last := |ops| - 1;
      assert forall op <- ops[..last] :: op in ops;
      assert ops[last] in ops;
      NeverWritten(ops[..last], k);
    }
  }
}
