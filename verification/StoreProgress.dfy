/** The store makes progress: a writer that waits for room, and a read that waits for a level's lock, go on. */
module StoreProgress {
  import opened Keys
  import opened Versions
  import opened Levels
  import LevelSafety
  import LevelMotion
  import LevelProgress
  import LevelContention
  import opened Store
  import opened StoreSafety
  import opened StoreTheorems
  import Wal = WalRecovery

  /** The step can be taken. */
  ghost predicate CanStep(e: Engine, st: Store.Step) {
    Shape(e.tree) && Store.Enabled(e, st) && (st.AddTable? ==> AddEnabled(e, st.min, st.max))
  }

  // ---- the flush ----

  /** How many steps the flush is away from room for the next full memtable */
  function FlushLeft(e: Engine): nat {
    if e.imm.None? then 0
    else match e.flush
      case Truncated => 1
      case Added => 2
      case Drawn => 3
      case Idle => 4
  }

  /** The smallest and the greatest of some keys */
  lemma {:induction false} Extremes(keys: set<Key>) returns (min: Key, max: Key)
    requires keys != {}
    ensures min in keys && max in keys && forall k <- keys :: Within(k, min, max)
  {
    var x :| x in keys;
    var rest := keys - {x};
    if rest == {} {
      min, max := x, x;
      LessAsymmetric(x, x);
      assert keys == rest + {x};
    } else {
      var lo, hi := Extremes(rest);
      min, max := Min(x, lo), Max(x, hi);
      HullContains(x, x, lo, hi);
      hide Less;
      forall k | k in keys ensures Within(k, min, max) {
        if k != x {
          assert k in rest;
          LeqTransitive(min, lo, k);
          LeqTransitive(k, hi, max);
        }
      }
    }
  }

  lemma ImmNotEmpty(e: Engine)
    requires LogOk(e) && e.imm.Some?
    ensures e.imm.value.rows != map[]
  {
    var f := e.imm.value;
    var ops := e.ops[f.from..f.to];
    assert ops[|ops| - 1].key in Replay(map[], ops, f.from + e.shift);
  }

  /** Whoever holds the lock of a level, some compaction can take a step. */
  lemma LockedGoesOn(tr: Tree, level: nat) returns (st: Levels.Step)
    requires LevelSafety.Safe(tr) && !Unlocked(tr, level)
    ensures Shape(tr) && Levels.Enabled(tr, st) && LevelProgress.Mover(st).Some?
  {
    hide LevelSafety.Safe, LevelProgress.WaitChain, LevelProgress.Mover, Levels.Enabled;
    LevelProgress.SafeShape(tr);
    var j :| j in tr.jobs;
    var chain;
    chain, st := LevelProgress.NoDeadlock(tr, j);
  }

  /** The flush is never stuck: it takes its next step, or a compaction does that holds the lock of level 0. */
  lemma FlushGoesOn(e: Engine) returns (st: Store.Step)
    requires Inv(e) && e.imm.Some?
    ensures CanStep(e, st) && (st.DrawId? || st.AddTable? || st.Truncate? || st.Pop? || st.Compact?)
    ensures st.Compact? ==> e.flush == Drawn && !Unlocked(e.tree, 0)
  {
    hide LevelSafety.Safe, HistOk, StoredOk, FrozenOk, FlushedOk, CoverOk, ReaderOk, Replay, AddEnabled, Unlocked,
      Segment;
    LevelProgress.SafeShape(e.tree);
    match e.flush
    case Idle => st := DrawId;
    case Added => st := Truncate;
    case Truncated => st := Pop;
    case Drawn =>
      if Unlocked(e.tree, 0) {
        ImmNotEmpty(e);
        var min, max := Extremes(e.imm.value.rows.Keys);
        st := AddTable(min, max);
        AddTableEnabled(e, min, max);
      } else {
        hide Levels.Enabled;
        var s := LockedGoesOn(e.tree, 0);
        st := Compact(s);
        assert LevelProgress.Mover(s).Some?;
      }
  }

  /** A write never waits in vain. In every reachable state the batch is taken at once, unless another writer has filled
      the memtable. Then that one can queue its memtable, or the flush that must make room can go on, or a compaction
      that keeps the flush from level 0. */
  lemma WriterGoesOn(levels: nat, run: seq<Engine>, steps: seq<Store.Step>, i: nat, batch: seq<Op>)
    returns (st: Store.Step)
    requires Run(levels, run, steps) && i < |run| && forall op <- batch :: Wal.Storable(op)
    ensures CanStep(run[i], st)
    ensures
      if run[i].taken.None? then st == Write(batch, false)
      else if run[i].imm.None? then st == Push
      else st.DrawId? || st.AddTable? || st.Truncate? || st.Pop? || st.Compact?
  {
    hide Run, Inv, AddEnabled, Wal.Storable;
    RunInv(levels, run, steps, i);
    InvShape(run[i]);
    if run[i].taken.None? {
      st := Write(batch, false);
    } else if run[i].imm.None? {
      st := Push;
    } else {
      st := FlushGoesOn(run[i]);
    }
  }

  lemma InvShape(e: Engine)
    requires Inv(e)
    ensures Shape(e.tree)
  {
    hide LevelSafety.Safe, HistOk, StoredOk, FrozenOk, FlushedOk, CoverOk, ReaderOk, LogOk;
    LevelProgress.SafeShape(e.tree);
  }

  /** The steps of the flush make room, one by one, and no other step undoes what they did while a writer waits. */
  lemma FlushMakesRoom(e: Engine, st: Store.Step, e': Engine)
    requires Inv(e) && Next(e, st, e') && st != Crash
    ensures st.DrawId? || st.AddTable? || st.Truncate? || st.Pop? ==> FlushLeft(e') == FlushLeft(e) - 1
    ensures st.Push? ==> e'.taken.None? && e'.imm == e.taken
    ensures st.Write? || st.Compact? || st.ReadMem? || st.ReadNext? ==> FlushLeft(e') == FlushLeft(e)
    ensures e.taken.Some? && !st.Push? ==> e'.taken == e.taken
  {
    hide LevelSafety.Safe, HistOk, StoredOk, FrozenOk, FlushedOk, CoverOk, ReaderOk, Replay, AddEnabled, Unlocked,
      Segment, Levels.Apply, Levels.Enabled;
  }

  // ---- compactions ----

  /** In every reachable state a compaction can start at any table of a level that has one below it, next to any other
      compactions, as long as none of them holds the table or the write lock of its level. */
  lemma CompactionBegins(levels: nat, run: seq<Engine>, steps: seq<Store.Step>, i: nat, j: JobId, level: nat, t: Table)
    requires Run(levels, run, steps) && i < |run| && j !in run[i].tree.jobs && Has(run[i].tree.tables, level, t)
    ensures
      var tr := run[i].tree;
      CanStep(run[i], Compact(Start(j, level, t))) <==>
        && level + 1 < |tr.tables|
        && (forall m <- tr.jobs :: t !in tr.jobs[m].sel + tr.jobs[m].kids)
        && (forall m <- tr.jobs :: tr.jobs[m].phase.Merging? && tr.jobs[m].phase.locked ==> tr.jobs[m].parent != level)
  {
    hide Run, Inv, AddEnabled, LevelSafety.Safe, Levels.Enabled;
    RunInv(levels, run, steps, i);
    InvSafe(run[i]);
    LevelContention.StartCondition(run[i].tree, j, level, t);
  }

  // ---- reads ----

  /** How many layers a read has yet to visit */
  function LayersLeft(e: Engine, rd: Reader): int {
    match rd.next
    case ImmLayer => |e.tree.tables| + 2
    case LevelLayer(l) => |e.tree.tables| + 1 - l
  }

  /** A read can begin unless a writer waits, which then goes on. */
  lemma ReadBegins(levels: nat, run: seq<Engine>, steps: seq<Store.Step>, i: nat, r: nat, key: Key)
    returns (st: Store.Step)
    requires Run(levels, run, steps) && i < |run| && r !in run[i].readers
    ensures CanStep(run[i], st)
    ensures if run[i].taken.None? then st == ReadMem(r, key) else !st.ReadMem? && !st.ReadNext? && !st.Crash?
  {
    hide Run, AddEnabled;
    if run[i].taken.None? {
      RunInv(levels, run, steps, i);
      hide Inv;
      InvShape(run[i]);
      st := ReadMem(r, key);
    } else {
      st := WriterGoesOn(levels, run, steps, i, []);
    }
  }

  /** A read is never stuck: it can visit its next layer, or a compaction can take a step that holds the lock of that
      level. */
  lemma ReadGoesOn(levels: nat, run: seq<Engine>, steps: seq<Store.Step>, i: nat, r: nat) returns (st: Store.Step)
    requires Run(levels, run, steps) && i < |run| && r in run[i].readers && run[i].readers[r].result.None?
    ensures CanStep(run[i], st) && (st == ReadNext(r) || st.Compact?)
    ensures st.Compact? ==> run[i].readers[r].next.LevelLayer? && !NoWriter(run[i].tree, run[i].readers[r].next.level)
  {
    hide Run, Inv, AddEnabled, NoWriter;
    RunInv(levels, run, steps, i);
    InvShape(run[i]);
    st := ReadNext(r);
    var next := run[i].readers[r].next;
    if next.LevelLayer? && !NoWriter(run[i].tree, next.level) {
      WriterLocks(run[i].tree, next.level);
      InvSafe(run[i]);
      hide Levels.Enabled;
      var s := LockedGoesOn(run[i].tree, next.level);
      st := Compact(s);
      assert LevelProgress.Mover(s).Some?;
    }
  }

  lemma WriterLocks(tr: Tree, level: nat)
    requires !NoWriter(tr, level)
    ensures !Unlocked(tr, level)
  {
  }

  lemma InvSafe(e: Engine)
    requires Inv(e)
    ensures LevelSafety.Safe(e.tree)
  {
    hide LevelSafety.Safe, HistOk, StoredOk, FrozenOk, FlushedOk, CoverOk, ReaderOk, LogOk;
  }

  /** Each step of a read returns a result or brings it one layer closer to the end, where it returns at the latest;
      no other step delays it or takes its result away. */
  lemma ReadEnds(e: Engine, st: Store.Step, e': Engine, r: nat)
    requires Next(e, st, e') && st != Crash && r in e.readers
    ensures r in e'.readers
    ensures st == ReadNext(r) ==>
              e'.readers[r].result.Some? || LayersLeft(e', e'.readers[r]) == LayersLeft(e, e.readers[r]) - 1
    ensures st == ReadNext(r) && LayersLeft(e, e.readers[r]) <= 1 ==> e'.readers[r].result.Some?
    ensures st != ReadNext(r) ==>
              e'.readers[r] == e.readers[r] && LayersLeft(e', e.readers[r]) == LayersLeft(e, e.readers[r])
  {
    hide LevelSafety.Safe, Replay, AddEnabled, Unlocked, Levels.Apply, Levels.Enabled, LevelMotion.SearchLevel,
      DoReload;
    LevelsStay(e, st, e');
  }

  lemma LevelsStay(e: Engine, st: Store.Step, e': Engine)
    requires Next(e, st, e') && st != Crash
    ensures |e'.tree.tables| == |e.tree.tables|
  {
    hide LevelSafety.Safe, Replay, Levels.Apply, Levels.Enabled, LevelMotion.SearchLevel, DoReload;
    LevelParts(e.tree);
    match st
    case DrawId => SameCount(e.tree, Reserve);
    case AddTable(min, max) => SameCount(e.tree, AddL0(min, max, e.imm.value.rows));
    case Compact(s) => SameCount(e.tree, s);
    case _ =>
  }

  lemma SameCount(tr: Tree, st: Levels.Step)
    requires Shape(tr) && Loadable(tr) && Levels.Enabled(tr, st) && st != Reload
    ensures |Levels.Apply(tr, st).tables| == |tr.tables|
  {
    hide Loadable, HoldId, Held, Meets, Unlocked, NoWriter, Without, Place, InsertTable, InsertId, RemoveIds;
  }
}
