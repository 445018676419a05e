/** The whole store as a step machine: write batches, memtable rotation and flush, compactions,
    point reads that visit the layers one by one, and crashes followed by recovery. */
module Store {
  import opened Keys
  import opened Versions
  import opened Levels
  import LevelSafety
  import opened LevelMotion
  import Wal = WalRecovery

  /** An immutable memtable: the contents after the operations `from` to `to` of the log */
  datatype Frozen = Frozen(from: nat, to: nat, rows: Rows)

  datatype Flush =
    | Idle
    | Drawn      // a table id was drawn and the table is being built
    | Added      // the table is on level 0, and with it the manifest's sequence offset has moved
    | Truncated  // the log before the immutable memtable's end has been dropped

  /** A point read: which state it started from, which layer is next, and what it returned */
  datatype Reader = Reader(key: Key, start: nat, next: Layer, result: Option<Option<Version>>)

  datatype Layer = ImmLayer | LevelLayer(level: nat)

  datatype Engine = Engine(
    tree: Tree,
    ops: seq<Op>,              // all operations written to the log so far
    shift: nat,                // operation i has sequence number i + shift
    mem: Rows,
    memFrom: nat,              // the memtable starts at this operation
    taken: Option<Frozen>,     // a full memtable whose writer waits, holding the memtable lock
    imm: Option<Frozen>,
    flush: Flush,
    seqOffset: nat,            // in the manifest
    logOffset: nat,            // in the manifest
    hist: seq<Rows>,           // the newest version of every key, after each batch and each recovery
    readers: map<nat, Reader>)

  datatype Step =
    | Write(batch: seq<Op>, full: bool)
    | Push                                     // the waiting writer queues its memtable
    | DrawId
    | AddTable(min: Key, max: Key)
    | Truncate
    | Pop
    | Compact(st: Levels.Step)
    | ReadMem(r: nat, key: Key)
    | ReadNext(r: nat)
    | Crash                                    // stop at any point and reopen, if replaying the log ends

  function Current(e: Engine): Rows
    requires e.hist != []
  {
    e.hist[|e.hist| - 1]
  }

  function Get(rows: Rows, k: Key): Option<Version> {
    if k in rows then Some(rows[k]) else None
  }

  ghost predicate Enabled(e: Engine, st: Step)
    requires Shape(e.tree)
  {
    match st
    case Write(batch, full) =>
      && e.taken.None? && (forall op <- batch :: Wal.Storable(op))
      && (full ==> Replay(e.mem, batch, |e.ops| + e.shift) != map[])
    case Push => e.taken.Some? && e.imm.None?
    case DrawId => e.imm.Some? && e.flush.Idle? && Levels.Enabled(e.tree, Reserve)
    case AddTable(min, max) =>
      && e.imm.Some? && e.flush.Drawn? && e.tree.pending.Some? && Unlocked(e.tree, 0)
      && Table(e.tree.pending.value, min, max, e.imm.value.rows).WellFormed()
    case Truncate => e.flush.Added?
    case Pop => e.flush.Truncated?
    case Compact(s) => !s.Reserve? && !s.AddL0? && !s.Reload? && Levels.Enabled(e.tree, s)
    case ReadMem(r, key) => e.taken.None? && r !in e.readers
    case ReadNext(r) =>
      && r in e.readers && e.readers[r].result.None?
      && (e.readers[r].next.LevelLayer? ==> NoWriter(e.tree, e.readers[r].next.level))
    case Crash => CanReopen(e)
  }

  function DoWrite(e: Engine, batch: seq<Op>, full: bool): Engine
    requires e.hist != []
  {
    var next := |e.ops| + e.shift;
    var mem := Replay(e.mem, batch, next);
    var e' := e.(ops := e.ops + batch, hist := e.hist + [Replay(Current(e), batch, next)]);
    if full then
      e'.(taken := Some(Frozen(e.memFrom, |e'.ops|, mem)), mem := map[], memFrom := |e'.ops|)
    else
      e'.(mem := mem)
  }

  function DoReadMem(e: Engine, r: nat, key: Key): Engine
    requires e.hist != []
  {
    var result := if key in e.mem then Some(Some(e.mem[key])) else None;
    e.(readers := e.readers[r := Reader(key, |e.hist| - 1, ImmLayer, result)])
  }

  /** One layer of a read: the immutable memtable, or a level under its lock */
  function DoReadNext(e: Engine, r: nat): Engine
    requires r in e.readers
  {
    var rd := e.readers[r];
    var rd' := match rd.next
      case ImmLayer =>
        if e.imm.Some? && rd.key in e.imm.value.rows then rd.(result := Some(Some(e.imm.value.rows[rd.key])))
        else rd.(next := LevelLayer(0))
      case LevelLayer(l) =>
        if l >= |e.tree.tables| then rd.(result := Some(None))
        else if SearchLevel(e.tree.tables[l], rd.key).Some? then
          rd.(result := Some(SearchLevel(e.tree.tables[l], rd.key)))
        else rd.(next := LevelLayer(l + 1));
    e.(readers := e.readers[r := rd'])
  }

  ghost predicate Wf(e: Engine) {
    && LevelSafety.Safe(e.tree) && e.hist != []
    && e.logOffset <= |e.ops| && e.logOffset <= e.seqOffset
    && (e.flush != Idle ==> e.imm.Some?)
  }

  /** What the log's reader makes of the log's bytes, from the manifest's offset on */
  function Replayed(e: Engine): Wal.Recovery
    requires e.logOffset <= |e.ops|
  {
    Wal.RecordsPrefix(e.ops, e.logOffset);
    Wal.Recover(Wal.Records(e.ops), |Wal.Records(e.ops[..e.logOffset])|)
  }

  /** Replaying the log comes to an end; otherwise reopening panics or does not return. */
  predicate CanReopen(e: Engine) {
    e.logOffset <= |e.ops| && Replayed(e).ending.Finished?
  }

  /** Reopen: the manifest's tables, and a memtable rebuilt from `ops`, numbered from the sequence offset */
  ghost function ReopenWith(e: Engine, ops: seq<Op>): Engine
    requires Wf(e)
  {
    var mem := Replay(map[], ops, e.seqOffset);
    e.(tree := DoReload(e.tree), shift := e.seqOffset - e.logOffset,
       mem := mem, memFrom := e.logOffset, taken := None, imm := None, flush := Idle,
       hist := e.hist + [Current(e) + mem], readers := map[])
  }

  /** Reopen when the reader finds every operation from the log offset on */
  ghost function DoCrash(e: Engine): Engine
    requires Wf(e)
  {
    ReopenWith(e, e.ops[e.logOffset..])
  }

  /** AddTable's step on the levels is enabled because everything there is older (proved below). */
  ghost predicate AddEnabled(e: Engine, min: Key, max: Key)
    requires Shape(e.tree)
  {
    e.imm.Some? && Levels.Enabled(e.tree, AddL0(min, max, e.imm.value.rows))
  }

  ghost function Apply(e: Engine, st: Step): Engine
    requires Wf(e) && Enabled(e, st) && (st.AddTable? ==> AddEnabled(e, st.min, st.max))
  {
    match st
    case Write(batch, full) => DoWrite(e, batch, full)
    case Push => e.(imm := e.taken, taken := None)
    case DrawId => e.(flush := Drawn, tree := Levels.Apply(e.tree, Reserve))
    case AddTable(min, max) =>
      e.(flush := Added, tree := Levels.Apply(e.tree, AddL0(min, max, e.imm.value.rows)),
         seqOffset := e.imm.value.to + e.shift)
    case Truncate => e.(flush := Truncated, logOffset := e.imm.value.to)
    case Pop => e.(flush := Idle, imm := None)
    case Compact(s) => e.(tree := Levels.Apply(e.tree, s))
    case ReadMem(r, key) => DoReadMem(e, r, key)
    case ReadNext(r) => DoReadNext(e, r)
    case Crash => ReopenWith(e, Replayed(e).ops)
  }

  /** A database with nothing in it: sequence numbers start at 1. */
  function Empty(levels: nat): Engine {
    Engine(Fresh(levels), [], 1, map[], 0, None, None, Idle, 1, 0, [map[]], map[])
  }
}
