/** The main results about the store, for every run of its step machine. */
module StoreTheorems {
  import opened Keys
  import opened Versions
  import opened Levels
  import LevelSafety
  import opened LevelMotion
  import opened Store
  import opened StoreSafety
  import LevelProgress

  /** One step of the store */
  ghost predicate Next(e: Engine, st: Store.Step, e': Engine) {
    && Wf(e) && Store.Enabled(e, st) && (st.AddTable? ==> AddEnabled(e, st.min, st.max))
    && e' == Store.Apply(e, st)
  }

  ghost predicate Run(levels: nat, run: seq<Engine>, steps: seq<Store.Step>) {
    && 0 < levels && |run| == |steps| + 1 && run[0] == Empty(levels)
    && forall i :: 0 <= i < |steps| ==> Next(run[i], steps[i], run[i + 1])
  }

  lemma NextInv(e: Engine, st: Store.Step, e': Engine)
    requires Inv(e) && SizesOk(e) && Next(e, st, e')
    ensures Inv(e') && SizesOk(e')
  {
    NextSizes(e, st, e');
    hide CanReopen, Replayed, SizesOk, LevelSafety.Safe, LogOk, HistOk, StoredOk, FrozenOk, FlushedOk, CoverOk,
      ReaderOk, DoWrite, DoCrash, DoReadMem, DoReadNext, AddEnabled, Levels.Enabled, Levels.Apply, Unlocked,
      Table.WellFormed, Replay;
    assert Shape(e.tree) && Loadable(e.tree) by { LevelParts(e.tree); }
    match st
    case Write(batch, full) => WriteInv(e, batch, full, e');
    case Push => PushInv(e, e');
    case DrawId => DrawIdInv(e, e');
    case AddTable(min, max) => AddTableInv(e, min, max, e');
    case Truncate => TruncateInv(e, e');
    case Pop => PopInv(e, e');
    case Compact(s) => CompactInv(e, s, e');
    case ReadMem(r, key) =>
      ReadMemOk(e, r, key);
      ReadMemInv(e, r, key, e');
    case ReadNext(r) =>
      ReadNextOk(e, r);
      ReadNextInv(e, r, e');
    case Crash =>
      ReopenedIs(e, e');
      CrashInv(e, e');
  }

  lemma NextSizes(e: Engine, st: Store.Step, e': Engine)
    requires SizesOk(e) && Next(e, st, e')
    ensures SizesOk(e')
  {
    hide Wf, CanReopen, Replayed, Levels.Apply, Levels.Enabled, AddEnabled, Replay, DoReload;
  }

  /** Reopening gives the state that replaying every operation from the log offset on gives. */
  lemma ReopenedIs(e: Engine, e': Engine)
    requires SizesOk(e) && Next(e, Crash, e')
    ensures e' == DoCrash(e)
  {
    hide Replayed, SizesOk, LevelSafety.Safe, DoReload, Replay;
    ReopenExact(e);
  }

  lemma LevelParts(tr: Tree)
    requires LevelSafety.Safe(tr)
    ensures Shape(tr) && Loadable(tr) && LevelSafety.TablesOk(tr.tables)
  {
  }

  lemma ReadMemInv(e: Engine, r: nat, key: Key, e': Engine)
    requires e.hist != [] && e' == DoReadMem(e, r, key) && Inv(e) && ReaderOk(e', e'.readers[r])
    ensures Inv(e')
  {
    hide LevelSafety.Safe, LogOk, HistOk, StoredOk, FrozenOk, FlushedOk, CoverOk;
    assert ReaderOk(e, e'.readers[r]) by { SameReader(e', e, e'.readers[r]); }
    hide ReaderOk;
    ReadInv(e, r, e'.readers[r], e');
  }

  lemma SameReader(e: Engine, e': Engine, rd: Reader)
    requires ReaderOk(e, rd) && e'.hist == e.hist && e'.imm == e.imm && e'.tree == e.tree
    ensures ReaderOk(e', rd)
  {
  }

  lemma ReadNextInv(e: Engine, r: nat, e': Engine)
    requires r in e.readers && e' == DoReadNext(e, r) && Inv(e) && ReaderOk(e, e'.readers[r])
    ensures Inv(e')
  {
    hide LevelSafety.Safe, LogOk, HistOk, StoredOk, FrozenOk, FlushedOk, CoverOk, ReaderOk;
    ReadInv(e, r, e'.readers[r], e');
  }

  /** The invariant holds in every state of every run. */
  lemma {:induction false} RunInv(levels: nat, run: seq<Engine>, steps: seq<Store.Step>, i: nat)
    requires Run(levels, run, steps) && i < |run|
    ensures Inv(run[i]) && SizesOk(run[i])
  {
    hide Inv, Next;
    if i == 0 {
      EmptyInv(levels);
    } else {
      RunInv(levels, run, steps, i - 1);
      assert Next(run[i - 1], steps[i - 1], run[i - 1 + 1]);
      NextInv(run[i - 1], steps[i - 1], run[i]);
    }
  }

  // ---- refinement of a plain map ----

  /** Read through all layers at one moment, newest first. */
  function Lookup(e: Engine, k: Key): Option<Version> {
    if k in e.mem then Some(e.mem[k])
    else if e.taken.Some? && k in e.taken.value.rows then Some(e.taken.value.rows[k])
    else if e.imm.Some? && k in e.imm.value.rows then Some(e.imm.value.rows[k])
    else SearchFrom(e.tree.tables, 0, k)
  }

  /** What a plain map holds for `k` after all operations: None if absent or deleted */
  function PlainGet(ops: seq<Op>, k: Key): Option<Value> {
    if k in Plain(ops) then Plain(ops)[k] else None
  }

  function ValueOf(v: Option<Version>): Option<Value> {
    if v.Some? then v.value.value else None
  }

  /** The unflushed part of the log is what the memtables hold, upper over lower. */
  lemma UnflushedLayers(e: Engine)
    requires LogOk(e)
    ensures
      var taken := if e.taken.Some? then e.taken.value.rows else map[];
      var imm := if e.imm.Some? && e.flush != Truncated then e.imm.value.rows else map[];
      Unflushed(e) == imm + taken + e.mem
  {
    hide Replay;
    ReplayNothing(|e.ops| + e.shift);
    if e.imm.Some? && e.flush != Truncated { UnflushedSplit(e); }
    if e.taken.Some? {
      var f := e.taken.value;
      assert e.ops[f.from..] == e.ops[f.from..f.to] && e.ops[e.memFrom..] == [];
    }
  }

  lemma CommittedNotNewer(e: Engine, k: Key, v: Version)
    requires HistOk(e) && Committed(e.hist, k, v)
    ensures k in Current(e) && NotOlder(v, Current(e)[k])
  {
  }

  /** If the lookup goes below the memtables, it finds the current version there. */
  lemma LevelLookup(e: Engine, k: Key)
    requires LevelSafety.TablesOk(e.tree.tables) && HistOk(e) && StoredOk(e)
    requires k in Current(e) ==> HasFrom(e.tree.tables, 0, k, Current(e)[k].num)
    ensures SearchFrom(e.tree.tables, 0, k) == Get(Current(e), k)
  {
    hide LevelSafety.TablesOk, Grows, Part, Replay, HasFrom, Committed;
    if SearchFrom(e.tree.tables, 0, k).Some? {
      SearchFromStored(e.tree.tables, 0, k);
      CommittedNotNewer(e, k, SearchFrom(e.tree.tables, 0, k).value);
    }
    if k in Current(e) {
      SearchFromNewest(e.tree.tables, 0, k, Current(e)[k].num);
    }
  }

  /** A flushed but not yet dropped immutable memtable still answers with the current version. */
  lemma TruncatedLookup(e: Engine, k: Key)
    requires LogOk(e) && HistOk(e) && StoredOk(e) && FlushedOk(e) && FrozenOk(e.hist, e.imm)
    requires e.imm.Some? && k in e.imm.value.rows
    requires k in Current(e) ==> HasFrom(e.tree.tables, 0, k, Current(e)[k].num)
    ensures Get(Current(e), k) == Some(e.imm.value.rows[k])
  {
    CommittedNotNewer(e, k, e.imm.value.rows[k]);
    ImmTop(e, k, Current(e)[k].num);
  }

  /** Reading through all layers gives the newest version ever written. */
  lemma LookupIsCurrent(e: Engine, k: Key)
    requires Inv(e)
    ensures Lookup(e, k) == Get(Current(e), k)
  {
    LevelParts(e.tree);
    UnflushedLayers(e);
    hide LevelSafety.Safe, LevelSafety.TablesOk, LogOk, Replay, FlushedOk, StoredOk, HasFrom, Committed, Grows,
      ReaderOk, FrozenOk;
    if k !in Unflushed(e) {
      if e.imm.Some? && k in e.imm.value.rows {
        TruncatedLookup(e, k);
      } else {
        LevelLookup(e, k);
      }
    }
  }

  /** The batches of all writes among the steps, in order */
  function Written(steps: seq<Store.Step>): seq<Op> {
    if steps == [] then []
    else
      var last := steps[|steps| - 1];
      Written(steps[..|steps| - 1]) + if last.Write? then last.batch else []
  }

  lemma {:induction false} OpsAreWritten(levels: nat, run: seq<Engine>, steps: seq<Store.Step>, i: nat)
    requires Run(levels, run, steps) && i < |run|
    ensures run[i].ops == Written(steps[..i])
  {
    hide Next;
    if i > 0 {
      OpsAreWritten(levels, run, steps, i - 1);
      RunStep(levels, run, steps, i - 1);
      NextOps(run[i - 1], steps[i - 1], run[i]);
      assert steps[..i][..i - 1] == steps[..i - 1];
    }
  }

  /** In every reachable state the store reads like a plain map to which all batches were applied in order. */
  lemma StoreRefinesMap(levels: nat, run: seq<Engine>, steps: seq<Store.Step>, i: nat, k: Key)
    requires Run(levels, run, steps) && i < |run|
    ensures ValueOf(Lookup(run[i], k)) == PlainGet(run[i].ops, k)
    ensures run[i].ops == Written(steps[..i])
  {
    OpsAreWritten(levels, run, steps, i);
    RunInv(levels, run, steps, i);
    var e := run[i];
    LookupIsCurrent(e, k);
    CurrentIsPlain(e, k);
  }

  lemma CurrentIsPlain(e: Engine, k: Key)
    requires HistOk(e)
    ensures ValueOf(Get(Current(e), k)) == PlainGet(e.ops, k)
  {
    assert k in Current(e) <==> k in Values(Current(e));
  }

  /** Only a write changes what the store reads; flush, compaction and reads do not, nor does a crash,
      which can be followed by further steps only if the log is replayable. */
  lemma OnlyWritesChange(levels: nat, run: seq<Engine>, steps: seq<Store.Step>, i: nat, k: Key)
    requires Run(levels, run, steps) && i < |steps|
    ensures ValueOf(Lookup(run[i + 1], k)) ==
            if steps[i].Write? then PlainGet(run[i].ops + steps[i].batch, k) else ValueOf(Lookup(run[i], k))
    ensures steps[i] == Crash ==> run[i].logOffset <= |run[i].ops| && Replayable(run[i])
  {
    hide Run, Lookup, ValueOf, PlainGet, Inv, Next, Replayable;
    RunStep(levels, run, steps, i);
    RunInv(levels, run, steps, i);
    if steps[i] == Crash { CrashReplayable(run[i], run[i + 1]); }
    assert run[i].ops + [] == run[i].ops;
    StoreRefinesMap(levels, run, steps, i, k);
    StoreRefinesMap(levels, run, steps, i + 1, k);
    NextOps(run[i], steps[i], run[i + 1]);
  }

  lemma RunLength(levels: nat, run: seq<Engine>, steps: seq<Store.Step>)
    requires Run(levels, run, steps)
    ensures |run| == |steps| + 1
  {
  }

  lemma RunStep(levels: nat, run: seq<Engine>, steps: seq<Store.Step>, i: nat)
    requires Run(levels, run, steps) && i < |steps|
    ensures |run| == |steps| + 1 && Next(run[i], steps[i], run[i + 1])
  {
  }

  lemma NextOps(e: Engine, st: Store.Step, e': Engine)
    requires Next(e, st, e')
    ensures e'.ops == e.ops + if st.Write? then st.batch else []
  {
    assert e.ops + [] == e.ops;
    hide Wf, Levels.Apply, Levels.Enabled, AddEnabled, Replay, DoReload;
  }

  // ---- concurrent reads ----

  /** A step appends at most one state to the history. */
  lemma NextHist(e: Engine, st: Store.Step, e': Engine)
    requires Next(e, st, e')
    ensures e.hist != [] && |e.hist| <= |e'.hist| <= |e.hist| + 1 && e.hist <= e'.hist
  {
    hide Levels.Apply, Levels.Enabled, AddEnabled, Replay, DoReload, LevelSafety.Safe;
  }

  lemma {:induction false} RunHist(levels: nat, run: seq<Engine>, steps: seq<Store.Step>, i: nat, j: nat)
    requires Run(levels, run, steps) && i <= j < |run|
    ensures run[i].hist <= run[j].hist && run[i].hist != []
    decreases j - i
  {
    hide Run, Next;
    if i == j {
      RunInv(levels, run, steps, i);
      HistNotEmpty(run[i]);
    } else {
      RunHist(levels, run, steps, i, j - 1);
      RunLength(levels, run, steps);
      RunStep(levels, run, steps, j - 1);
      NextHist(run[j - 1], steps[j - 1], run[j]);
    }
  }

  lemma HistNotEmpty(e: Engine)
    requires Inv(e)
    ensures e.hist != []
  {
    hide LevelSafety.Safe, LogOk, StoredOk, FrozenOk, FlushedOk, CoverOk, ReaderOk;
  }

  /** Every state in the history between two moments was current at some moment between them. */
  lemma {:induction false} MomentOf(levels: nat, run: seq<Engine>, steps: seq<Store.Step>, i: nat, j: nat, n: nat)
    returns (m: nat)
    requires Run(levels, run, steps) && i <= j < |run| && |run[i].hist| - 1 <= n < |run[j].hist|
    ensures i <= m <= j && run[m].hist != [] && Current(run[m]) == run[j].hist[n]
    decreases j - i
  {
    hide Next;
    RunHist(levels, run, steps, i, j);
    if n == |run[j].hist| - 1 {
      m := j;
    } else {
      RunHist(levels, run, steps, j - 1, j);
      RunStep(levels, run, steps, j - 1);
      NextHist(run[j - 1], steps[j - 1], run[j]);
      m := MomentOf(levels, run, steps, i, j - 1, n);
    }
  }

  /** Between a read's first step and a later moment without a crash, the read keeps its key and start. */
  lemma {:induction false} ReaderStays(levels: nat, run: seq<Engine>, steps: seq<Store.Step>, i: nat, j: nat,
                                       r: nat, key: Key)
    requires Run(levels, run, steps) && i < j < |run| && steps[i] == ReadMem(r, key)
    requires forall m :: i < m < j ==> steps[m] != Crash
    ensures r in run[j].readers && run[j].readers[r].key == key && run[j].readers[r].start + 1 == |run[i].hist|
    decreases j
  {
    hide Run, Next;
    RunLength(levels, run, steps);
    RunStep(levels, run, steps, j - 1);
    if j == i + 1 {
      NewReader(run[i], run[j], r, key);
    } else {
      ReaderStays(levels, run, steps, i, j - 1, r, key);
      NextReader(run[j - 1], steps[j - 1], run[j], r);
    }
  }

  lemma NewReader(e: Engine, e': Engine, r: nat, key: Key)
    requires Next(e, ReadMem(r, key), e')
    ensures r in e'.readers && e'.readers[r].key == key && e'.readers[r].start + 1 == |e.hist|
  {
    hide Levels.Apply, Levels.Enabled, AddEnabled, Replay, DoReload, LevelSafety.Safe;
  }

  lemma NextReader(e: Engine, st: Store.Step, e': Engine, r: nat)
    requires Next(e, st, e') && st != Crash && r in e.readers
    ensures r in e'.readers && e'.readers[r].key == e.readers[r].key && e'.readers[r].start == e.readers[r].start
  {
    hide Levels.Apply, Levels.Enabled, AddEnabled, Replay, DoReload, LevelSafety.Safe;
  }

  /** A point read that visits the layers one by one, while writes, rotations, flushes and
      compactions go on, returns what the store held for the key at some moment between
      the read's first and last step. */
  lemma ReadsAreAtomic(levels: nat, run: seq<Engine>, steps: seq<Store.Step>, i: nat, j: nat, r: nat, key: Key)
    returns (m: nat)
    requires Run(levels, run, steps) && i < j < |run| && steps[i] == ReadMem(r, key)
    requires forall m :: i < m < j ==> steps[m] != Crash
    requires r in run[j].readers && run[j].readers[r].result.Some?
    ensures i <= m <= j && run[j].readers[r].result.value == Lookup(run[m], key)
    ensures ValueOf(run[j].readers[r].result.value) == PlainGet(run[m].ops, key)
  {
    ReaderStays(levels, run, steps, i, j, r, key);
    var rd := run[j].readers[r];
    RunInv(levels, run, steps, j);
    assert ReaderOk(run[j], rd);
    hide Inv, Lookup;
    var n :| rd.start <= n < |run[j].hist| && Get(run[j].hist[n], key) == rd.result.value;
    m := MomentOf(levels, run, steps, i, j, n);
    RunInv(levels, run, steps, m);
    LookupIsCurrent(run[m], key);
    StoreRefinesMap(levels, run, steps, m, key);
  }

  // ---- recovery ----

  /** Reopening any reachable store gives back the same keys and values, provided its log is replayable: otherwise
      it does not come to an end. The sequence numbers are the same too exactly when the crash did not fall between
      adding the flushed table to level 0 and moving the log offset. */
  lemma RecoveryKeepsMap(levels: nat, run: seq<Engine>, steps: seq<Store.Step>, i: nat, e': Engine)
    requires Run(levels, run, steps) && i < |run| && Next(run[i], Crash, e')
    ensures run[i].logOffset <= |run[i].ops| && Replayable(run[i])
    ensures e'.hist != [] && run[i].hist != []
    ensures Values(Current(e')) == Values(Current(run[i])) == Plain(run[i].ops)
    ensures forall k :: ValueOf(Lookup(e', k)) == ValueOf(Lookup(run[i], k))
    ensures Current(e') == Current(run[i]) <==> run[i].flush != Added
  {
    hide Inv, Lookup, ValueOf;
    RunInv(levels, run, steps, i);
    var e := run[i];
    CrashReplayable(e, e');
    ReopenedIs(e, e');
    RecoverOne(e, e');
    NextInv(e, Crash, e');
    forall k ensures ValueOf(Lookup(e', k)) == ValueOf(Lookup(e, k)) {
      LookupIsCurrent(e, k);
      LookupIsCurrent(e', k);
      SameValues(Current(e), Current(e'), k);
    }
  }

  lemma CrashReplayable(e: Engine, e': Engine)
    requires SizesOk(e) && Next(e, Crash, e')
    ensures e.logOffset <= |e.ops| && Replayable(e)
  {
    hide Replayed, Replayable, SizesOk, LevelSafety.Safe, DoReload, Replay;
    ReopenExact(e);
  }

  lemma SameValues(a: Rows, b: Rows, k: Key)
    requires Values(a) == Values(b)
    ensures ValueOf(Get(a, k)) == ValueOf(Get(b, k))
  {
    assert k in a <==> k in Values(a);
    assert k in b <==> k in Values(b);
  }

  lemma RecoverOne(e: Engine, e': Engine)
    requires Wf(e) && e' == DoCrash(e) && Inv(e)
    ensures Values(Current(e')) == Values(Current(e)) == Plain(e.ops)
    ensures Current(e') == Current(e) <==> e.flush != Added
  {
    hide LevelSafety.Safe, Replay, StoredOk, FlushedOk, CoverOk, ReaderOk, FrozenOk, Grows, DoReload;
    CrashHist(e, e');
    CrashMem(e);
    if e.flush == Added {
      AddedNotEmpty(e);
      var k :| k in Unflushed(e);
      assert Current(e)[k] == Unflushed(e)[k];
      assert Current(e')[k].num == Current(e)[k].num + Renumbered(e);
    } else {
      assert Current(e') == Current(e);
    }
  }

  lemma AddedNotEmpty(e: Engine)
    requires LogOk(e) && e.flush == Added
    ensures 0 < Renumbered(e) && Unflushed(e) != map[]
  {
    var n := |e.ops| - 1;
    assert e.ops[e.logOffset..][n - e.logOffset] == e.ops[n];
    assert e.ops[n].key in Unflushed(e);
  }

  /** The manifest's two offsets only ever increase, so its checks on them never fail. */
  lemma OffsetsIncrease(e: Engine, st: Store.Step, e': Engine)
    requires Inv(e) && Next(e, st, e')
    ensures st.AddTable? ==> e.seqOffset < e'.seqOffset
    ensures st.Truncate? ==> e.logOffset < e'.logOffset
    ensures !st.AddTable? ==> e'.seqOffset == e.seqOffset
    ensures !st.Truncate? ==> e'.logOffset == e.logOffset
  {
    hide LevelSafety.Safe, Levels.Apply, Levels.Enabled, AddEnabled, Replay, DoReload, StoredOk, FlushedOk, CoverOk,
      ReaderOk, FrozenOk, HistOk;
  }

  // ---- levels ----

  /** In every reachable state, below level 0 the tables of a level are pairwise disjoint, and a version
      found earlier in a search is newer, whatever compactions are in flight. */
  lemma LevelsStayOrdered(levels: nat, run: seq<Engine>, steps: seq<Store.Step>, i: nat)
    requires Run(levels, run, steps) && i < |run|
    ensures LevelSafety.Disjoint(run[i].tree.tables) && LevelSafety.Recent(run[i].tree.tables)
  {
    RunInv(levels, run, steps, i);
    hide Run;
    LevelParts(run[i].tree);
  }

  // ---- the memtables above the levels ----

  /** Where both have a key, `a` has the older version. */
  ghost predicate Older(a: Rows, b: Rows) {
    forall k <- a :: k in b ==> a[k].num < b[k].num
  }

  /** What is on the levels is older than `rows`, or not newer if `strict` is not set. */
  ghost predicate Beneath(tables: seq<seq<Table>>, rows: Rows, strict: bool) {
    forall k, v :: Stored(tables, k, v) && k in rows ==> v.num <= rows[k].num && (strict ==> v.num < rows[k].num)
  }

  /** Where the numbers of a part of the log lie */
  lemma NumberRange(rows: Rows, ops: seq<Op>, from: nat, to: nat, shift: nat)
    requires from <= to <= |ops| && rows == Replay(map[], ops[from..to], from + shift)
    ensures forall k <- rows :: from + shift <= rows[k].num < to + shift
  {
    hide Replay;
    forall k | k in rows ensures from + shift <= rows[k].num < to + shift {
      ReplayNumbers(ops[from..to], from + shift, k);
    }
  }

  lemma MemNumbers(e: Engine)
    requires LogOk(e)
    ensures forall k <- e.mem :: e.memFrom + e.shift <= e.mem[k].num
    ensures e.taken.Some? ==>
              forall k <- e.taken.value.rows ::
                FrontFrom(e) + e.shift <= e.taken.value.rows[k].num < e.memFrom + e.shift
    ensures e.imm.Some? ==>
              forall k <- e.imm.value.rows ::
                e.imm.value.from + e.shift <= e.imm.value.rows[k].num < FrontFrom(e) + e.shift
  {
    hide Replay;
    assert e.ops[e.memFrom..] == e.ops[e.memFrom..|e.ops|];
    NumberRange(e.mem, e.ops, e.memFrom, |e.ops|, e.shift);
    if e.taken.Some? {
      var f := e.taken.value;
      NumberRange(f.rows, e.ops, f.from, f.to, e.shift);
    }
    if e.imm.Some? {
      var f := e.imm.value;
      NumberRange(f.rows, e.ops, f.from, f.to, e.shift);
    }
  }

  /** In every reachable state each layer is newer than those below it: the memtable, a full memtable that waits to
      be queued, the immutable memtable, and the levels. Only while the immutable memtable is on level 0 too are some
      versions the same. */
  lemma LayersStayOrdered(levels: nat, run: seq<Engine>, steps: seq<Store.Step>, i: nat)
    requires Run(levels, run, steps) && i < |run|
    ensures
      var e := run[i];
      && (e.taken.Some? ==> Older(e.taken.value.rows, e.mem) && Beneath(e.tree.tables, e.taken.value.rows, true))
      && (e.imm.Some? ==> Older(e.imm.value.rows, e.mem))
      && (e.imm.Some? && e.taken.Some? ==> Older(e.imm.value.rows, e.taken.value.rows))
      && (e.imm.Some? ==> Beneath(e.tree.tables, e.imm.value.rows, e.flush == Idle || e.flush == Drawn))
      && Beneath(e.tree.tables, e.mem, true) && LevelSafety.Recent(e.tree.tables)
  {
    RunInv(levels, run, steps, i);
    LevelsStayOrdered(levels, run, steps, i);
    hide Run;
    InvLayers(run[i]);
  }

  lemma InvLayers(e: Engine)
    requires Inv(e)
    ensures e.taken.Some? ==> Older(e.taken.value.rows, e.mem) && Beneath(e.tree.tables, e.taken.value.rows, true)
    ensures e.imm.Some? ==> Older(e.imm.value.rows, e.mem)
    ensures e.imm.Some? && e.taken.Some? ==> Older(e.imm.value.rows, e.taken.value.rows)
    ensures e.imm.Some? ==> Beneath(e.tree.tables, e.imm.value.rows, e.flush == Idle || e.flush == Drawn)
    ensures Beneath(e.tree.tables, e.mem, true)
  {
    hide Replay, LevelSafety.Safe, HistOk, CoverOk, ReaderOk, FrozenOk, Committed, HasFrom, Stored;
    MemNumbers(e);
  }

  /** In every reachable state a compaction that is going on can take a step, or waits for one that can. */
  lemma CompactionsNeverStick(levels: nat, run: seq<Engine>, steps: seq<Store.Step>, i: nat, j: JobId)
    returns (chain: seq<JobId>, st: Levels.Step)
    requires Run(levels, run, steps) && i < |run| && j in run[i].tree.jobs
    ensures LevelProgress.WaitChain(run[i].tree, chain) && chain != [] && chain[0] == j
    ensures Shape(run[i].tree) && Store.Enabled(run[i], Compact(st))
    ensures LevelProgress.Mover(st) == Some(chain[|chain| - 1])
  {
    hide Run, Inv, LevelSafety.Safe, LevelProgress.WaitChain, Levels.Enabled;
    RunInv(levels, run, steps, i);
    InvTree(run[i]);
    LevelParts(run[i].tree);
    chain, st := LevelProgress.NoDeadlock(run[i].tree, j);
  }

  lemma InvTree(e: Engine)
    requires Inv(e)
    ensures LevelSafety.Safe(e.tree)
  {
    hide LevelSafety.Safe, LogOk, HistOk, StoredOk, FrozenOk, FlushedOk, CoverOk, ReaderOk;
  }
}
