/** Iterating over the store: what the database iterator yields, in terms of the operations that were written. */
module StoreIterate {
  import opened Keys
  import opened Versions
  import opened Levels
  import LevelSafety
  import opened LevelMotion
  import opened Store
  import opened StoreSafety
  import opened StoreTheorems
  import opened Merge
  import opened Iterate

  /** The memtable or the immutable memtable has this version. */
  ghost predicate InMemory(e: Engine, k: Key, v: Version) {
    (k in e.mem && e.mem[k] == v) || (e.imm.Some? && k in e.imm.value.rows && e.imm.value.rows[k] == v)
  }

  /** The sources are the store's layers at one moment: the memtables, and after them the tables of all levels. */
  ghost predicate LayersHeld(sources: seq<Source>, e: Engine) {
    && (forall i: nat, k, v :: At(sources, i, k, v) ==>
          if sources[i].memtable then InMemory(e, k, v) else Stored(e.tree.tables, k, v))
    && (forall k, v :: InMemory(e, k, v) ==>
          exists i: nat :: At(sources, i, k, v) && i < |sources| && sources[i].memtable)
    && (forall k, v :: Stored(e.tree.tables, k, v) ==>
          exists i: nat :: At(sources, i, k, v) && i < |sources| && !sources[i].memtable)
    && (forall i, j :: 0 <= i < |sources| && 0 <= j < |sources| ==>
          sources[i].memtable && !sources[j].memtable ==> i < j)
  }

  /** Every version in some layer was the newest of its key at some time. */
  lemma LayersCommitted(e: Engine, k: Key, v: Version)
    requires Inv(e) && (InMemory(e, k, v) || Stored(e.tree.tables, k, v))
    ensures k in Current(e) && NotOlder(v, Current(e)[k])
  {
    hide LevelSafety.Safe, LogOk, CoverOk, FlushedOk, ReaderOk, Stored, Replay;
    if k in e.mem && e.mem[k] == v {
      InvMemPart(e);
    } else {
      assert Committed(e.hist, k, v);
      CommittedNotNewer(e, k, v);
    }
  }

  lemma InvMemPart(e: Engine)
    requires Inv(e)
    ensures Part(e.mem, Current(e))
  {
    hide LevelSafety.Safe, CoverOk, FlushedOk, ReaderOk, Replay, StoredOk, FrozenOk;
    MemPart(e);
  }

  /** The newest version of a key is in some layer. */
  lemma CurrentHeld(e: Engine, k: Key)
    requires Inv(e) && e.taken.None? && k in Current(e)
    ensures InMemory(e, k, Current(e)[k]) || Stored(e.tree.tables, k, Current(e)[k])
  {
    hide Inv, Stored;
    LookupIsCurrent(e, k);
    if k !in e.mem && !(e.imm.Some? && k in e.imm.value.rows) {
      SearchFromStored(e.tree.tables, 0, k);
    }
  }

  lemma NewestIsCurrent(sources: seq<Source>, e: Engine, i: nat, k: Key, v: Version)
    requires Inv(e) && e.taken.None? && LayersHeld(sources, e) && Newest(sources, i, k, v)
    ensures k in Current(e) && Current(e)[k] == v
    ensures sources[i].memtable <==> InMemory(e, k, v)
  {
    hide Inv, Stored, InMemory, At;
    HistNotEmpty(e);
    LayersCommitted(e, k, v);
    var c := Current(e)[k];
    CurrentHeld(e, k);
    var j: nat :| At(sources, j, k, c);
    AtInside(sources, i, k, v);
    if InMemory(e, k, v) {
      var m: nat :| At(sources, m, k, v) && m < |sources| && sources[m].memtable;
    }
  }

  lemma AtInside(sources: seq<Source>, i: nat, k: Key, v: Version)
    requires At(sources, i, k, v)
    ensures i < |sources|
  {
  }

  /** The first source that has the newest version */
  lemma CurrentIsNewest(sources: seq<Source>, e: Engine, k: Key) returns (i: nat)
    requires Inv(e) && e.taken.None? && LayersHeld(sources, e) && k in Current(e)
    ensures Newest(sources, i, k, Current(e)[k])
  {
    hide Inv, Stored, InMemory, At;
    HistNotEmpty(e);
    var v := Current(e)[k];
    CurrentHeld(e, k);
    i :| At(sources, i, k, v);
    i := FirstAt(sources, i, k, v);
    forall j: nat, w | At(sources, j, k, w) ensures w.num < v.num || (w.num == v.num && i <= j) {
      LayersCommitted(e, k, w);
    }
  }

  lemma {:induction false} FirstAt(sources: seq<Source>, n: nat, k: Key, v: Version) returns (i: nat)
    requires At(sources, n, k, v)
    ensures At(sources, i, k, v) && forall j: nat :: At(sources, j, k, v) ==> i <= j
  {
    if j: nat :| j < n && At(sources, j, k, v) {
      i := FirstAt(sources, j, k, v);
    } else {
      i := n;
    }
  }

  /** Iterating over the layers of a reachable store hands out, for the keys of the range, exactly the newest
      versions that have a value, and the deletions that a memtable holds. */
  lemma IterationIsCurrent(levels: nat, run: seq<Engine>, steps: seq<Store.Step>, n: nat, sources: seq<Source>,
                           range: Range, r: Row)
    requires Run(levels, run, steps) && n < |run| && run[n].taken.None? && LayersHeld(sources, run[n])
    ensures run[n].hist != []
    ensures Yields(sources, range, r) <==>
            && range.Contains(r.key) && Get(Current(run[n]), r.key) == Some(r.version)
            && (r.version.value.Some? || InMemory(run[n], r.key, r.version))
  {
    RunInv(levels, run, steps, n);
    HistNotEmpty(run[n]);
    hide Inv, Run, LayersHeld, InMemory, Newest;
    var e := run[n];
    if Yields(sources, range, r) {
      var i: nat :| Visible(sources, range, i, r.key, r.version);
      NewestIsCurrent(sources, e, i, r.key, r.version);
    }
    if range.Contains(r.key) && Get(Current(e), r.key) == Some(r.version) &&
       (r.version.value.Some? || InMemory(e, r.key, r.version))
    {
      var i := CurrentIsNewest(sources, e, r.key);
      NewestIsCurrent(sources, e, i, r.key, r.version);
      NewestInside(sources, i, r.key, r.version);
      assert Visible(sources, range, i, r.key, r.version);
    }
  }

  lemma NewestInside(sources: seq<Source>, i: nat, k: Key, v: Version)
    requires Newest(sources, i, k, v)
    ensures i < |sources|
  {
  }

  /** The keys from `min` up to but not `max`, or in reverse those from `max` down to but not `min` */
  predicate Requested(reverse: bool, min: Option<Key>, max: Option<Key>, k: Key) {
    if reverse then (min.Some? ==> Less(min.value, k)) && (max.Some? ==> !Less(max.value, k))
    else (min.Some? ==> !Less(k, min.value)) && (max.Some? ==> Less(k, max.value))
  }

  lemma RequestedIs(reverse: bool, min: Option<Key>, max: Option<Key>)
    ensures forall k :: MakeRange(reverse, min, max).Contains(k) <==> Requested(reverse, min, max, k)
  {
  }

  /** The live keys it hands out are those of a plain map after all operations, with their values: forwards the keys
      from `min` up to but not `max`, in reverse those from `max` down to but not `min`. */
  lemma IterationIsPlain(levels: nat, run: seq<Engine>, steps: seq<Store.Step>, n: nat, sources: seq<Source>,
                         reverse: bool, min: Option<Key>, max: Option<Key>, k: Key, value: Value)
    requires Run(levels, run, steps) && n < |run| && run[n].taken.None? && LayersHeld(sources, run[n])
    ensures (exists num: nat :: Yields(sources, MakeRange(reverse, min, max), Row(k, Version(num, Some(value))))) <==>
            && PlainGet(run[n].ops, k) == Some(value)
            && if reverse then (min.Some? ==> Less(min.value, k)) && (max.Some? ==> !Less(max.value, k))
               else (min.Some? ==> !Less(k, min.value)) && (max.Some? ==> Less(k, max.value))
  {
    RunInv(levels, run, steps, n);
    HistNotEmpty(run[n]);
    hide Run, LayersHeld, Yields, InMemory, MakeRange;
    var e, range := run[n], MakeRange(reverse, min, max);
    RequestedIs(reverse, min, max);
    PlainCurrent(e, k);
    hide Inv;
    if num: nat :| Yields(sources, range, Row(k, Version(num, Some(value)))) {
      IterationIsCurrent(levels, run, steps, n, sources, range, Row(k, Version(num, Some(value))));
    }
    if range.Contains(k) && PlainGet(e.ops, k) == Some(value) {
      var v := Current(e)[k];
      IterationIsCurrent(levels, run, steps, n, sources, range, Row(k, v));
      assert Row(k, v) == Row(k, Version(v.num, Some(value)));
    }
  }

  /** Iterate over the layers of a reachable store: in key order, or in reverse, this hands out for every key of the
      range what a read finds, except deletions that only tables hold. So the live keys are those of a plain map after
      all operations, with their values. */
  method IterateStore(sources: seq<Source>, reverse: bool, min: Option<Key>, max: Option<Key>,
                      ghost levels: nat, ghost run: seq<Engine>, ghost steps: seq<Store.Step>, ghost n: nat)
    returns (out: seq<Row>)
    requires Run(levels, run, steps) && n < |run| && run[n].taken.None? && LayersHeld(sources, run[n])
    requires forall i :: 0 <= i < |sources| ==> Ordered(reverse, sources[i].rows)
    ensures forall i, j :: 0 <= i < j < |out| ==>
              if reverse then Less(out[j].key, out[i].key) else Less(out[i].key, out[j].key)
    ensures forall r: Row ::
              r in out <==>
              && Requested(reverse, min, max, r.key) && Lookup(run[n], r.key) == Some(r.version)
              && (r.version.value.Some? || InMemory(run[n], r.key, r.version))
    ensures forall k, value ::
              (exists num: nat :: Row(k, Version(num, Some(value))) in out) <==>
              && k in Plain(run[n].ops) && Plain(run[n].ops)[k] == Some(value)
              && if reverse then (min.Some? ==> Less(min.value, k)) && (max.Some? ==> !Less(max.value, k))
                 else (min.Some? ==> !Less(k, min.value)) && (max.Some? ==> Less(k, max.value))
  {
    hide Run, LayersHeld, InMemory, Yields, Newest, Lookup, MakeRange;
    ghost var range := MakeRange(reverse, min, max);
    out := Collect(sources, reverse, min, max);
    forall k, value
      ensures (exists num: nat :: Row(k, Version(num, Some(value))) in out) <==>
              && k in Plain(run[n].ops) && Plain(run[n].ops)[k] == Some(value)
              && if reverse then (min.Some? ==> Less(min.value, k)) && (max.Some? ==> !Less(max.value, k))
                 else (min.Some? ==> !Less(k, min.value)) && (max.Some? ==> Less(k, max.value))
    {
      IterationIsPlain(levels, run, steps, n, sources, reverse, min, max, k, value);
    }
    RequestedIs(reverse, min, max);
    forall r: Row
      ensures r in out <==>
              && Requested(reverse, min, max, r.key) && Lookup(run[n], r.key) == Some(r.version)
              && (r.version.value.Some? || InMemory(run[n], r.key, r.version))
    {
      IterationIsCurrent(levels, run, steps, n, sources, range, r);
      RunInv(levels, run, steps, n);
      LookupIsCurrent(run[n], r.key);
    }
  }

  lemma PlainCurrent(e: Engine, k: Key)
    requires Inv(e)
    ensures e.hist != [] && ValueOf(Get(Current(e), k)) == PlainGet(e.ops, k)
  {
    hide LevelSafety.Safe, LogOk, CoverOk, FlushedOk, ReaderOk, Replay, StoredOk, FrozenOk;
    CurrentIsPlain(e, k);
  }
}
