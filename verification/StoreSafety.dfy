/** What every step of the store keeps, and what that means for reads, writes and recovery. */
module StoreSafety {
  import opened Keys
  import opened Versions
  import opened Levels
  import LevelSafety
  import LevelSteps
  import opened LevelMotion
  import opened Store
  import Wal = WalRecovery
  import WalPages

  // ---- the log on disk ----

  /** Every operation fits a log record. */
  ghost predicate SizesOk(e: Engine) {
    forall op <- e.ops :: Wal.Storable(op)
  }

  /** What reopening needs of the log: no operation to be replayed has an empty key or value,
      and the log does not end on a page boundary */
  ghost predicate Replayable(e: Engine)
    requires e.logOffset <= |e.ops|
  {
    (forall op <- e.ops[e.logOffset..] :: Wal.Whole(op)) && |Wal.Records(e.ops)| % WalPages.PAGE_SIZE != 0
  }

  /** Reopening comes to an end exactly then, and it finds exactly the operations after the log offset. */
  lemma ReopenExact(e: Engine)
    requires SizesOk(e) && e.logOffset <= |e.ops|
    ensures CanReopen(e) <==> Replayable(e)
    ensures CanReopen(e) ==> Replayed(e) == Wal.Recovery(e.ops[e.logOffset..], Wal.Finished(|Wal.Records(e.ops)|))
  {
    hide Wal.Recover, Wal.Records;
    var n := e.logOffset;
    var tail := e.ops[n..];
    Wal.RecordsPrefix(e.ops, n);
    assert forall op <- tail :: op in e.ops;
    Wal.RecoverLog(Wal.Records(e.ops[..n]), tail);
    var bad := Wal.FirstBad(tail);
    if bad < |tail| {
      assert tail[bad] in tail && !Wal.Whole(tail[bad]);
    } else {
      assert tail[..bad] == tail;
    }
  }

  // ---- the log and the memtables ----

  ghost predicate Segment(ops: seq<Op>, shift: nat, f: Frozen) {
    f.from < f.to <= |ops| && f.rows == Replay(map[], ops[f.from..f.to], f.from + shift)
  }

  /** Where the operations not yet handed to the flush queue start */
  function FrontFrom(e: Engine): nat {
    if e.taken.Some? then e.taken.value.from else e.memFrom
  }

  /** Each memtable is the replay of its part of the log, and the manifest's offsets match the flush progress. */
  ghost predicate LogOk(e: Engine) {
    && e.memFrom <= |e.ops| && e.mem == Replay(map[], e.ops[e.memFrom..], e.memFrom + e.shift)
    && (e.taken.Some? ==> Segment(e.ops, e.shift, e.taken.value) && e.taken.value.to == e.memFrom == |e.ops|)
    && (e.imm.Some? ==> Segment(e.ops, e.shift, e.imm.value) && e.imm.value.to == FrontFrom(e))
    && (e.flush != Idle ==> e.imm.Some?)
    && e.logOffset == (if e.imm.Some? && e.flush != Truncated then e.imm.value.from else FrontFrom(e))
    && e.seqOffset == e.shift + (if e.flush == Added then e.imm.value.to else e.logOffset)
    && (e.tree.pending.Some? <==> e.flush == Drawn)
  }

  /** What recovery would replay, as currently numbered */
  function Unflushed(e: Engine): Rows
    requires e.logOffset <= |e.ops|
  {
    Replay(map[], e.ops[e.logOffset..], e.logOffset + e.shift)
  }

  // ---- history ----

  predicate NotOlder(a: Version, b: Version) {
    a.num <= b.num && (a.num == b.num ==> a == b)
  }

  /** Over time a key's newest version is only ever replaced by a newer one. */
  ghost predicate Grows(hist: seq<Rows>) {
    forall n, m, k :: 0 <= n <= m < |hist| && k in hist[n] ==> k in hist[m] && NotOlder(hist[n][k], hist[m][k])
  }

  ghost predicate Part(a: Rows, b: Rows) {
    forall k <- a :: k in b && b[k] == a[k]
  }

  ghost predicate HistOk(e: Engine) {
    && e.hist != [] && e.logOffset <= |e.ops|
    && Grows(e.hist)
    && Values(Current(e)) == Plain(e.ops)
    && Part(Unflushed(e), Current(e))
    && forall k <- Current(e) :: Current(e)[k].num < |e.ops| + e.shift
  }

  /** `v` was the newest version of `k` after some batch. */
  ghost predicate Committed(hist: seq<Rows>, k: Key, v: Version) {
    exists n :: 0 <= n < |hist| && k in hist[n] && hist[n][k] == v
  }

  // ---- the levels as seen from the memtables ----

  ghost predicate StoredOk(e: Engine) {
    forall k, v :: Stored(e.tree.tables, k, v) ==> Committed(e.hist, k, v) && v.num < e.seqOffset
  }

  ghost predicate FrozenOk(hist: seq<Rows>, f: Option<Frozen>) {
    f.Some? ==> forall k <- f.value.rows :: Committed(hist, k, f.value.rows[k])
  }

  /** Once added to level 0, an immutable memtable has copies below it and nothing newer. */
  ghost predicate FlushedOk(e: Engine) {
    (e.flush == Added || e.flush == Truncated) && e.imm.Some? ==>
      forall k <- e.imm.value.rows ::
        && HasFrom(e.tree.tables, 0, k, e.imm.value.rows[k].num)
        && forall v :: Stored(e.tree.tables, k, v) ==> v.num <= e.imm.value.rows[k].num
  }

  /** No key is lost: its newest version is in a memtable still covered by the log, or on a level. */
  ghost predicate CoverOk(e: Engine)
    requires e.hist != [] && e.logOffset <= |e.ops|
  {
    forall k <- Current(e) :: k in Unflushed(e) || HasFrom(e.tree.tables, 0, k, Current(e)[k].num)
  }

  // ---- readers ----

  /** From layer `next` on there is a version of `k` numbered at least `num`. */
  ghost predicate Ahead(e: Engine, next: Layer, k: Key, num: nat) {
    match next
    case ImmLayer =>
      (e.imm.Some? && k in e.imm.value.rows && num <= e.imm.value.rows[k].num) || HasFrom(e.tree.tables, 0, k, num)
    case LevelLayer(l) => HasFrom(e.tree.tables, l, k, num)
  }

  /** The result was right at some moment since the read started. */
  ghost predicate WasCurrent(hist: seq<Rows>, start: nat, k: Key, result: Option<Version>) {
    exists n :: start <= n < |hist| && Get(hist[n], k) == result
  }

  ghost predicate ReaderOk(e: Engine, rd: Reader) {
    && rd.start < |e.hist|
    && (rd.result.None? && rd.key in e.hist[rd.start] ==> Ahead(e, rd.next, rd.key, e.hist[rd.start][rd.key].num))
    && (rd.result.Some? ==> WasCurrent(e.hist, rd.start, rd.key, rd.result.value))
  }

  ghost predicate Inv(e: Engine) {
    && LevelSafety.Safe(e.tree) && LogOk(e) && HistOk(e)
    && StoredOk(e) && FrozenOk(e.hist, e.taken) && FrozenOk(e.hist, e.imm) && FlushedOk(e) && CoverOk(e)
    && forall r <- e.readers :: ReaderOk(e, e.readers[r])
  }

  lemma EmptyInv(levels: nat)
    requires 0 < levels
    ensures Inv(Empty(levels))
  {
    LevelSafety.FreshInv(levels);
    hide LevelSafety.Safe;
    var e := Empty(levels);
    assert e.ops[e.memFrom..] == [] && e.ops[e.logOffset..] == [];
    assert Values(Current(e)) == map[];
  }

  // ---- appending a state to the history ----

  lemma HistExtends(hist: seq<Rows>, rows: Rows)
    ensures forall k, v :: Committed(hist, k, v) ==> Committed(hist + [rows], k, v)
    ensures forall k :: k in rows ==> Committed(hist + [rows], k, rows[k])
  {
    var hist' := hist + [rows];
    forall k, v | Committed(hist, k, v) ensures Committed(hist', k, v) {
      var n :| 0 <= n < |hist| && k in hist[n] && hist[n][k] == v;
      assert hist'[n] == hist[n];
    }
    assert hist'[|hist|] == rows;
  }

  lemma GrowsExtends(hist: seq<Rows>, rows: Rows)
    requires hist != [] && Grows(hist)
    requires forall k :: k in hist[|hist| - 1] ==> k in rows && NotOlder(hist[|hist| - 1][k], rows[k])
    ensures Grows(hist + [rows])
  {
    var hist' := hist + [rows];
    forall n, m, k | 0 <= n <= m < |hist'| && k in hist'[n]
      ensures k in hist'[m] && NotOlder(hist'[n][k], hist'[m][k])
    {
      if n < |hist| {
        assert k in hist[n] && k in hist[|hist| - 1];
      }
    }
  }

  lemma ReadersExtend(e: Engine, e': Engine, rows: Rows, rd: Reader)
    requires ReaderOk(e, rd) && e'.hist == e.hist + [rows] && e'.imm == e.imm && e'.tree.tables == e.tree.tables
    ensures ReaderOk(e', rd)
  {
    if rd.result.Some? {
      var n :| rd.start <= n < |e.hist| && Get(e.hist[n], rd.key) == rd.result.value;
      assert e'.hist[n] == e.hist[n];
    }
    assert e'.hist[rd.start] == e.hist[rd.start];
  }

  // ---- writing ----

  /** The memtable holds the newest versions of its keys. */
  lemma MemPart(e: Engine)
    requires LogOk(e) && HistOk(e)
    ensures Part(e.mem, Current(e))
  {
    hide Replay;
    assert e.ops[e.logOffset..] == e.ops[e.logOffset..e.memFrom] + e.ops[e.memFrom..];
    ReplayConcat(map[], e.ops[e.logOffset..e.memFrom], e.ops[e.memFrom..], e.logOffset + e.shift);
    ReplayIsOverlay(Replay(map[], e.ops[e.logOffset..e.memFrom], e.logOffset + e.shift),
                    e.ops[e.memFrom..], e.memFrom + e.shift);
  }

  lemma WriteMem(e: Engine, batch: seq<Op>)
    requires LogOk(e)
    ensures Replay(e.mem, batch, |e.ops| + e.shift) == Replay(map[], (e.ops + batch)[e.memFrom..], e.memFrom + e.shift)
  {
    assert (e.ops + batch)[e.memFrom..] == e.ops[e.memFrom..] + batch;
    ReplayConcat(map[], e.ops[e.memFrom..], batch, e.memFrom + e.shift);
  }

  lemma SegmentExtends(ops: seq<Op>, batch: seq<Op>, shift: nat, f: Frozen)
    requires Segment(ops, shift, f)
    ensures Segment(ops + batch, shift, f)
  {
    assert (ops + batch)[f.from..f.to] == ops[f.from..f.to];
  }

  lemma ReplayNothing(next: nat)
    ensures Replay(map[], [], next) == map[]
  {
  }

  lemma WriteLog(e: Engine, batch: seq<Op>, full: bool)
    requires LogOk(e) && e.hist != [] && e.taken.None?
    requires full ==> Replay(e.mem, batch, |e.ops| + e.shift) != map[]
    ensures LogOk(DoWrite(e, batch, full))
  {
    hide Replay;
    WriteMem(e, batch);
    var e' := DoWrite(e, batch, full);
    if full {
      assert e'.ops[e.memFrom..] == e'.ops[e.memFrom..|e'.ops|];
      assert e'.ops[e'.memFrom..] == [];
      ReplayNothing(e'.memFrom + e.shift);
    }
    if e.imm.Some? {
      SegmentExtends(e.ops, batch, e.shift, e.imm.value);
    }
    if full {
      assert e.memFrom < |e'.ops| && Segment(e'.ops, e.shift, e'.taken.value);
    }
    hide Segment;
  }

  /** The rows the batch writes: they go on top of everything. */
  lemma WriteOverlay(e: Engine, batch: seq<Op>, full: bool)
    requires e.hist != [] && e.logOffset <= |e.ops|
    ensures
      var news := Replay(map[], batch, |e.ops| + e.shift);
      var e' := DoWrite(e, batch, full);
      && e'.logOffset <= |e'.ops|
      && Current(e') == Current(e) + news
      && Unflushed(e') == Unflushed(e) + news
  {
    hide Replay;
    var next := |e.ops| + e.shift;
    assert (e.ops + batch)[e.logOffset..] == e.ops[e.logOffset..] + batch;
    ReplayConcat(map[], e.ops[e.logOffset..], batch, e.logOffset + e.shift);
    ReplayIsOverlay(Unflushed(e), batch, next);
    ReplayIsOverlay(Current(e), batch, next);
  }

  lemma WriteHist(e: Engine, batch: seq<Op>, full: bool)
    requires HistOk(e)
    ensures HistOk(DoWrite(e, batch, full))
  {
    hide Replay, Plain;
    var next := |e.ops| + e.shift;
    var news := Replay(map[], batch, next);
    var e' := DoWrite(e, batch, full);
    WriteOverlay(e, batch, full);
    forall k | k in news ensures next <= news[k].num < next + |batch| {
      ReplayNumbers(batch, next, k);
    }
    GrowsExtends(e.hist, Current(e) + news);
    assert Values(Current(e')) == Plain(e'.ops) by {
      ValuesOverlay(Current(e), news);
      ReplayValues(batch, next);
      PlainConcat(e.ops, batch);
    }
  }

  lemma WriteInv(e: Engine, batch: seq<Op>, full: bool, e': Engine)
    requires e.hist != [] && e' == DoWrite(e, batch, full) && e.taken.None?
    requires full ==> Replay(e.mem, batch, |e.ops| + e.shift) != map[]
    requires Inv(e)
    ensures Inv(e')
  {
    hide LevelSafety.Safe, LogOk, ReaderOk, HasFrom, Stored, Committed, Replay, Plain;
    WriteLog(e, batch, full);
    WriteHist(e, batch, full);
    WriteOverlay(e, batch, full);
    var rows := Current(e');
    HistExtends(e.hist, rows);
    assert e'.hist == e.hist + [rows];
    forall r | r in e.readers ensures ReaderOk(e', e.readers[r]) {
      ReadersExtend(e, e', rows, e.readers[r]);
    }
    if full {
      TakenPart(e, batch, e');
    }
  }

  lemma TakenPart(e: Engine, batch: seq<Op>, e': Engine)
    requires e.hist != [] && e' == DoWrite(e, batch, true)
    requires LogOk(e) && HistOk(e) && e.taken.None?
    ensures Part(e'.taken.value.rows, Current(e'))
  {
    var next := |e.ops| + e.shift;
    MemPart(e);
    ReplayIsOverlay(e.mem, batch, next);
    ReplayIsOverlay(Current(e), batch, next);
  }

  // ---- rotating and flushing ----

  lemma PushInv(e: Engine, e': Engine)
    requires Inv(e) && e.taken.Some? && e.imm.None? && e' == e.(imm := e.taken, taken := None)
    ensures Inv(e')
  {
    hide LevelSafety.Safe, HasFrom, Stored, Committed, Grows, Segment, WasCurrent;
    forall r | r in e.readers ensures ReaderOk(e', e.readers[r]) {
      assert ReaderOk(e, e.readers[r]);
    }
  }

  /** A step on the levels that neither adds nor loses versions */
  lemma TreeKept(e: Engine, e': Engine)
    requires Inv(e) && LevelSafety.Safe(e'.tree) && e' == e.(tree := e'.tree, flush := e'.flush)
    requires LogOk(e') && (e'.flush == e.flush || e'.flush == Drawn)
    requires forall k, v :: Stored(e'.tree.tables, k, v) ==> Stored(e.tree.tables, k, v)
    requires forall l, k, num :: HasFrom(e.tree.tables, l, k, num) ==> HasFrom(e'.tree.tables, l, k, num)
    ensures Inv(e')
  {
    hide LevelSafety.Safe, LogOk, HasFrom, Stored, Committed, Grows, WasCurrent;
    forall r | r in e.readers ensures ReaderOk(e', e.readers[r]) {
      assert ReaderOk(e, e.readers[r]);
    }
  }

  lemma DrawIdInv(e: Engine, e': Engine)
    requires Inv(e) && Shape(e.tree) && Store.Enabled(e, DrawId) && Loadable(e.tree)
    requires e' == e.(flush := Drawn, tree := Levels.Apply(e.tree, Reserve))
    ensures Inv(e')
  {
    LevelSteps.StepInv(e.tree, Reserve);
    hide LevelSafety.Safe, HasFrom, Stored;
    TreeKept(e, e');
  }

  lemma CompactInv(e: Engine, s: Levels.Step, e': Engine)
    requires Inv(e) && Shape(e.tree) && Store.Enabled(e, Compact(s)) && Loadable(e.tree)
    requires e' == e.(tree := Levels.Apply(e.tree, s))
    ensures Inv(e')
  {
    hide LevelSafety.Safe, Levels.Apply, Levels.Enabled;
    LevelSteps.StepInv(e.tree, s);
    CompactKeepsPending(e.tree, s);
    forall k, v | Stored(e'.tree.tables, k, v) ensures Stored(e.tree.tables, k, v) {
      StepDraws(e.tree, s, k, v);
    }
    forall l, k, num | HasFrom(e.tree.tables, l, k, num) ensures HasFrom(e'.tree.tables, l, k, num) {
      StepSinks(e.tree, s, l, k, num);
    }
    hide HasFrom, Stored;
    TreeKept(e, e');
  }

  lemma CompactKeepsPending(tr: Tree, s: Levels.Step)
    requires Shape(tr) && Loadable(tr) && Levels.Enabled(tr, s) && !s.Reserve? && !s.AddL0? && !s.Reload?
    ensures Levels.Apply(tr, s).pending == tr.pending
  {
  }

  /** Everything on the levels is older than a memtable that has not been added yet. */
  lemma ImmNewer(e: Engine, k: Key, v: Version)
    requires LogOk(e) && StoredOk(e) && e.imm.Some? && (e.flush == Idle || e.flush == Drawn)
    requires k in e.imm.value.rows && Stored(e.tree.tables, k, v)
    ensures v.num < e.imm.value.rows[k].num < e.imm.value.to + e.shift
  {
    var f := e.imm.value;
    ReplayNumbers(e.ops[f.from..f.to], f.from + e.shift, k);
  }

  lemma AddTableEnabled(e: Engine, min: Key, max: Key)
    requires LogOk(e) && StoredOk(e) && Shape(e.tree) && Store.Enabled(e, AddTable(min, max))
    ensures AddEnabled(e, min, max)
  {
    hide LogOk, StoredOk;
    var rows := e.imm.value.rows;
    forall l, t, k | Has(e.tree.tables, l, t) && k in t.rows && k in rows
      ensures t.rows[k].num < rows[k].num
    {
      assert Stored(e.tree.tables, k, t.rows[k]);
      ImmNewer(e, k, t.rows[k]);
    }
  }

  ghost predicate Adds(e: Engine, min: Key, max: Key, e': Engine) {
    && Shape(e.tree) && Loadable(e.tree) && AddEnabled(e, min, max) && Store.Enabled(e, AddTable(min, max))
    && e' == e.(flush := Added, tree := Levels.Apply(e.tree, AddL0(min, max, e.imm.value.rows)),
                seqOffset := e.imm.value.to + e.shift)
  }

  lemma AddTableStored(e: Engine, min: Key, max: Key, e': Engine)
    requires Adds(e, min, max, e') && LevelSafety.Safe(e.tree) && LogOk(e) && StoredOk(e) && FrozenOk(e.hist, e.imm)
    ensures StoredOk(e')
    ensures forall k, v :: k in e.imm.value.rows && Stored(e'.tree.tables, k, v) ==> v.num <= e.imm.value.rows[k].num
  {
    hide LevelSafety.Safe, Levels.Apply, Committed, Stored, Levels.Enabled;
    var f := e.imm.value;
    forall k, v | Stored(e'.tree.tables, k, v)
      ensures Committed(e.hist, k, v) && v.num < e'.seqOffset
      ensures k in f.rows ==> v.num <= f.rows[k].num
    {
      StepDraws(e.tree, AddL0(min, max, f.rows), k, v);
      if Stored(e.tree.tables, k, v) {
        if k in f.rows { ImmNewer(e, k, v); }
      } else {
        ReplayNumbers(e.ops[f.from..f.to], f.from + e.shift, k);
      }
    }
  }

  lemma AddTableSinks(e: Engine, min: Key, max: Key, e': Engine)
    requires Adds(e, min, max, e') && LevelSafety.Safe(e.tree)
    ensures LevelSafety.Safe(e'.tree) && e'.tree.pending == None
    ensures forall l, k, num :: HasFrom(e.tree.tables, l, k, num) ==> HasFrom(e'.tree.tables, l, k, num)
    ensures forall k <- e.imm.value.rows :: HasFrom(e'.tree.tables, 0, k, e.imm.value.rows[k].num)
  {
    var rows := e.imm.value.rows;
    var n := Table(e.tree.pending.value, min, max, rows);
    LevelSteps.AddL0Has(e.tree, min, max, rows, e'.tree);
    LevelSteps.StepInv(e.tree, AddL0(min, max, rows));
    hide LevelSafety.Safe, Levels.Apply, Levels.Enabled;
    forall k | k in rows ensures HasFrom(e'.tree.tables, 0, k, rows[k].num) {
      assert Has(e'.tree.tables, 0, n);
    }
    forall l, k, num | HasFrom(e.tree.tables, l, k, num) ensures HasFrom(e'.tree.tables, l, k, num) {
      StepSinks(e.tree, AddL0(min, max, rows), l, k, num);
    }
  }

  lemma AddTableInv(e: Engine, min: Key, max: Key, e': Engine)
    requires Adds(e, min, max, e') && Inv(e)
    ensures Inv(e')
  {
    hide LevelSafety.Safe, Committed, Stored, HasFrom, Levels.Enabled, Segment, Grows, WasCurrent, Table.WellFormed,
      Unlocked;
    AddTableStored(e, min, max, e');
    AddTableSinks(e, min, max, e');
    hide StoredOk;
    forall r | r in e.readers ensures ReaderOk(e', e.readers[r]) {
      assert ReaderOk(e, e.readers[r]);
    }
  }

  /** The replayed part of the log splits where the immutable memtable ends. */
  lemma UnflushedSplit(e: Engine)
    requires LogOk(e) && e.imm.Some? && e.flush != Truncated
    ensures Unflushed(e) == e.imm.value.rows + Replay(map[], e.ops[e.imm.value.to..], e.imm.value.to + e.shift)
  {
    hide Replay;
    var f := e.imm.value;
    assert e.ops[f.from..] == e.ops[f.from..f.to] + e.ops[f.to..];
    ReplayConcat(map[], e.ops[f.from..f.to], e.ops[f.to..], f.from + e.shift);
    ReplayIsOverlay(f.rows, e.ops[f.to..], f.to + e.shift);
  }

  lemma TruncateInv(e: Engine, e': Engine)
    requires Inv(e) && e.flush.Added? && e' == e.(flush := Truncated, logOffset := e.imm.value.to)
    ensures Inv(e')
  {
    hide LevelSafety.Safe, Committed, Stored, HasFrom, Grows, WasCurrent, Replay;
    UnflushedSplit(e);
    assert Segment(e.ops, e.shift, e.imm.value);
    forall r | r in e.readers ensures ReaderOk(e', e.readers[r]) {
      assert ReaderOk(e, e.readers[r]);
    }
  }

  lemma HasFromFewer(tables: seq<seq<Table>>, l: int, k: Key, num: nat, num': nat)
    requires HasFrom(tables, l, k, num) && num' <= num
    ensures HasFrom(tables, l, k, num')
  {
  }

  lemma PopInv(e: Engine, e': Engine)
    requires Inv(e) && e.flush.Truncated? && e' == e.(flush := Idle, imm := None)
    ensures Inv(e')
  {
    hide LevelSafety.Safe, Committed, Stored, HasFrom, Segment, Grows, WasCurrent, Replay;
    forall r | r in e.readers ensures ReaderOk(e', e.readers[r]) {
      var rd := e.readers[r];
      assert ReaderOk(e, rd);
      if rd.next == ImmLayer && rd.key in e.imm.value.rows && rd.key in e.hist[rd.start] &&
         e.hist[rd.start][rd.key].num <= e.imm.value.rows[rd.key].num
      {
        HasFromFewer(e.tree.tables, 0, rd.key, e.imm.value.rows[rd.key].num, e.hist[rd.start][rd.key].num);
      }
    }
  }

  // ---- reading ----

  /** A version that was committed, and is not older than what was current at the start, was current since. */
  lemma FoundWasCurrent(hist: seq<Rows>, start: nat, k: Key, v: Version)
    requires Grows(hist) && Committed(hist, k, v) && start < |hist|
    requires k in hist[start] ==> hist[start][k].num <= v.num
    ensures WasCurrent(hist, start, k, Some(v))
  {
    var n :| 0 <= n < |hist| && k in hist[n] && hist[n][k] == v;
    if n < start {
      assert k in hist[start] && NotOlder(hist[n][k], hist[start][k]);
      assert Get(hist[start], k) == Some(v);
    } else {
      assert Get(hist[n], k) == Some(v);
    }
  }

  /** A key not in the memtable is found further down. */
  lemma MissAhead(e: Engine, k: Key)
    requires LogOk(e) && HistOk(e) && CoverOk(e) && e.taken.None? && k !in e.mem && k in Current(e)
    ensures Ahead(e, ImmLayer, k, Current(e)[k].num)
  {
    if k in Unflushed(e) && e.imm.Some? && e.flush != Truncated {
      UnflushedSplit(e);
    }
  }

  lemma ReadMemOk(e: Engine, r: nat, key: Key)
    requires LogOk(e) && HistOk(e) && CoverOk(e) && e.taken.None?
    ensures ReaderOk(DoReadMem(e, r, key), DoReadMem(e, r, key).readers[r])
  {
    if key in e.mem {
      MemPart(e);
      assert Get(e.hist[|e.hist| - 1], key) == Some(e.mem[key]);
    } else if key in Current(e) {
      MissAhead(e, key);
    }
  }

  /** What the reader finds in the immutable memtable is at least as new as what is below. */
  lemma ImmTop(e: Engine, k: Key, num: nat)
    requires LogOk(e) && StoredOk(e) && FlushedOk(e)
    requires e.imm.Some? && k in e.imm.value.rows && Ahead(e, ImmLayer, k, num)
    ensures num <= e.imm.value.rows[k].num
  {
    if HasFrom(e.tree.tables, 0, k, num) {
      var l, t :| 0 <= l && Has(e.tree.tables, l, t) && k in t.rows && num <= t.rows[k].num;
      assert Stored(e.tree.tables, k, t.rows[k]);
      if e.flush == Idle || e.flush == Drawn {
        ImmNewer(e, k, t.rows[k]);
      }
    }
  }

  lemma ReadImmOk(e: Engine, rd: Reader, rd': Reader)
    requires LogOk(e) && HistOk(e) && StoredOk(e) && FlushedOk(e) && FrozenOk(e.hist, e.imm)
    requires ReaderOk(e, rd) && rd.result.None? && rd.next == ImmLayer
    requires
      rd' == if e.imm.Some? && rd.key in e.imm.value.rows then rd.(result := Some(Some(e.imm.value.rows[rd.key])))
             else rd.(next := LevelLayer(0))
    ensures ReaderOk(e, rd')
  {
    if rd'.result.Some? {
      hide LogOk, HistOk, StoredOk, FlushedOk, Committed;
      if rd.key in e.hist[rd.start] {
        ImmTop(e, rd.key, e.hist[rd.start][rd.key].num);
      }
      assert Grows(e.hist) by { HistGrows(e); }
      FoundWasCurrent(e.hist, rd.start, rd.key, e.imm.value.rows[rd.key]);
    }
  }

  lemma HistGrows(e: Engine)
    requires HistOk(e)
    ensures Grows(e.hist)
  {
  }

  lemma ReadLevelOk(e: Engine, rd: Reader, rd': Reader, l: nat)
    requires LevelSafety.TablesOk(e.tree.tables) && HistOk(e) && StoredOk(e)
    requires ReaderOk(e, rd) && rd.result.None? && rd.next == LevelLayer(l) && l < |e.tree.tables|
    requires
      rd' == if SearchLevel(e.tree.tables[l], rd.key).Some? then
               rd.(result := Some(SearchLevel(e.tree.tables[l], rd.key)))
             else rd.(next := LevelLayer(l + 1))
    ensures ReaderOk(e, rd')
  {
    hide LevelSafety.TablesOk, HistOk, Committed, HasFrom, SearchLevel, Stored;
    if rd.key in e.hist[rd.start] {
      SearchLevelNewest(e.tree.tables, l, rd.key, e.hist[rd.start][rd.key].num);
    }
    if rd'.result.Some? {
      SearchLevelStored(e.tree.tables, l, rd.key);
      HistGrows(e);
      FoundWasCurrent(e.hist, rd.start, rd.key, rd'.result.value.value);
    }
  }

  lemma ReadEndOk(e: Engine, rd: Reader, rd': Reader, l: nat)
    requires ReaderOk(e, rd) && rd.result.None? && rd.next == LevelLayer(l) && |e.tree.tables| <= l
    requires rd' == rd.(result := Some(None))
    ensures ReaderOk(e, rd')
  {
    assert rd.key !in e.hist[rd.start];
    assert Get(e.hist[rd.start], rd.key) == None;
  }

  lemma ReadNextOk(e: Engine, r: nat)
    requires Inv(e) && r in e.readers && e.readers[r].result.None?
    ensures ReaderOk(e, DoReadNext(e, r).readers[r])
  {
    var rd := e.readers[r];
    var rd' := DoReadNext(e, r).readers[r];
    assert ReaderOk(e, rd);
    hide ReaderOk, LogOk, HistOk, StoredOk, FlushedOk, FrozenOk, CoverOk, LevelSafety.TablesOk, LevelSafety.JobsOk;
    match rd.next
    case ImmLayer => ReadImmOk(e, rd, rd');
    case LevelLayer(l) =>
      if l < |e.tree.tables| {
        ReadLevelOk(e, rd, rd', l);
      } else {
        ReadEndOk(e, rd, rd', l);
      }
  }

  lemma ReadInv(e: Engine, r: nat, rd: Reader, e': Engine)
    requires Inv(e) && e' == e.(readers := e.readers[r := rd]) && ReaderOk(e, rd)
    ensures Inv(e')
  {
    hide LevelSafety.Safe, Committed, Stored, HasFrom, Segment, Grows, WasCurrent, Replay;
    forall i | i in e'.readers ensures ReaderOk(e', e'.readers[i]) {
      if i != r { assert ReaderOk(e, e.readers[i]); }
    }
  }

  // ---- crashing and recovering ----

  /** Renumbering the same operations moves every number by the same amount. */
  lemma {:induction false} ReplayShift(ops: seq<Op>, next: nat, delta: nat)
    ensures
      var a, b := Replay(map[], ops, next), Replay(map[], ops, next + delta);
      a.Keys == b.Keys && forall k <- a :: b[k] == Version(a[k].num + delta, a[k].value)
  {
    if ops != [] {
      ReplayShift(ops[..|ops| - 1], next, delta);
    }
  }

  /** How far recovery moves the numbers: only when it happens between adding the flushed table and dropping its log */
  function Renumbered(e: Engine): nat {
    if e.flush == Added && e.imm.Some? && e.imm.value.from <= e.imm.value.to then e.imm.value.to - e.imm.value.from
    else 0
  }

  lemma CrashMem(e: Engine)
    requires LogOk(e) && Wf(e)
    ensures
      var mem := DoCrash(e).mem;
      mem.Keys == Unflushed(e).Keys &&
      forall k <- mem :: mem[k] == Version(Unflushed(e)[k].num + Renumbered(e), Unflushed(e)[k].value)
  {
    hide Replay, DoReload;
    assert e.seqOffset == e.logOffset + e.shift + Renumbered(e);
    ReplayShift(e.ops[e.logOffset..], e.logOffset + e.shift, Renumbered(e));
  }

  lemma CrashHist(e: Engine, e': Engine)
    requires Wf(e) && LogOk(e) && HistOk(e) && e' == DoCrash(e)
    ensures HistOk(e')
    ensures Unflushed(e') == e'.mem && Current(e') == Current(e) + e'.mem
  {
    hide Replay, Plain, LevelSafety.Safe, DoReload;
    CrashMem(e);
    GrowsExtends(e.hist, Current(e) + e'.mem);
    assert Values(Current(e')) == Values(Current(e));
    forall k | k in Current(e') ensures Current(e')[k].num < |e.ops| + e'.shift {
      if k in e'.mem { CrashNumber(e, k); }
    }
  }

  lemma CrashNumber(e: Engine, k: Key)
    requires Wf(e) && k in DoCrash(e).mem
    ensures DoCrash(e).mem[k].num < |e.ops| + (e.seqOffset - e.logOffset)
  {
    ReplayNumbers(e.ops[e.logOffset..], e.seqOffset, k);
  }

  lemma CrashInv(e: Engine, e': Engine)
    requires Wf(e) && e' == DoCrash(e) && Inv(e)
    ensures Inv(e')
  {
    hide Replay, Plain, Committed, Stored, HasFrom, Segment, Grows, WasCurrent, Part;
    LevelSteps.StepInv(e.tree, Reload);
    LevelSteps.ReloadHas(e.tree);
    hide LevelSafety.Safe;
    SameTablesSame(e.tree.tables, e'.tree.tables);
    CrashMem(e);
    CrashHist(e, e');
    HistExtends(e.hist, Current(e'));
    hide HistOk;
    assert e'.tree.pending == None;
    hide DoReload;
  }

  lemma SameTablesSame(tables: seq<seq<Table>>, tables': seq<seq<Table>>)
    requires SameTables(tables, tables')
    ensures forall k, v :: Stored(tables', k, v) <==> Stored(tables, k, v)
    ensures forall l, k, num :: HasFrom(tables', l, k, num) <==> HasFrom(tables, l, k, num)
  {
    forall k, v | Stored(tables, k, v) ensures Stored(tables', k, v) {
      var l, t :| Has(tables, l, t) && k in t.rows && t.rows[k] == v;
      assert Has(tables', l, t);
    }
    forall k, v | Stored(tables', k, v) ensures Stored(tables, k, v) {
      var l, t :| Has(tables', l, t) && k in t.rows && t.rows[k] == v;
      assert Has(tables, l, t);
    }
    forall l, k, num: nat | HasFrom(tables, l, k, num) ensures HasFrom(tables', l, k, num) {
      var m, t :| l <= m && Has(tables, m, t) && k in t.rows && num <= t.rows[k].num;
      assert Has(tables', m, t);
    }
    forall l, k, num: nat | HasFrom(tables', l, k, num) ensures HasFrom(tables, l, k, num) {
      var m, t :| l <= m && Has(tables', m, t) && k in t.rows && num <= t.rows[k].num;
      assert Has(tables, m, t);
    }
  }
}
