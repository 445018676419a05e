/** The levels of sorted tables and the compactions that run on them, as a step machine.

    Each step is one atomic action of the code: a compare-and-swap on a compaction flag, a
    placeholder pushed under its lock, a lock taken, or an install under the write locks of two levels.
    A job in phase Closing holds the read lock of level 0 and a job in phase Scanning the
    read lock of its child level, so no step may change those tables meanwhile. A job that is
    about to install first takes the write lock of its parent level, and then, in a step of its own,
    that of its child level. */
module Levels {
  import opened Keys
  import opened Versions

  type TableId = nat
  type JobId = nat

  /** A sorted table: its id, the key range in its index block, and its contents */
  datatype Table = Table(id: TableId, min: Key, max: Key, rows: Rows)
  {
    predicate Overlaps(lo: Key, hi: Key) {
      Meets(min, max, lo, hi)
    }

    predicate Inside(lo: Key, hi: Key) {
      Leq(lo, min) && Leq(max, hi)
    }

    /** The recorded range is exactly the range of the keys. */
    ghost predicate WellFormed() {
      && min in rows && max in rows
      && forall k <- rows :: Within(k, min, max)
    }
  }

  /** Reserves a key range on a level for a table under construction */
  datatype Holder = Holder(id: TableId, lo: Key, hi: Key)

  datatype Phase =
    | Closing              // level 0: collecting overlapping tables, under the level's read lock
    | Picked               // parent tables are flagged
    | Scanning(pos: nat)   // looking for overlapping child tables, under the child level's read lock
    | Merging(id: TableId, locked: bool)
                           // the placeholder is set, the new table is being built;
                           // once that is done, the job locks its parent level
    | Aborting             // giving back flags after contention

  /** A compaction in progress: flagged tables of the parent and child level, and their key range */
  datatype Job = Job(phase: Phase, parent: nat, sel: set<Table>, kids: set<Table>, lo: Key, hi: Key)
  {
    /** A single parent table and nothing to merge it with: the table is moved, not rewritten. */
    predicate Fast() {
      |sel| == 1 && kids == {}
    }

    /** Does the job hold the write lock of its parent level? */
    predicate Locks() {
      phase.Merging? && phase.locked
    }
  }

  datatype Tree = Tree(
    tables: seq<seq<Table>>,
    holders: seq<seq<Holder>>,
    flags: map<TableId, JobId>,      // the tables whose compaction flag is set, with the job that set it
    jobs: map<JobId, Job>,
    nextId: TableId,
    pending: Option<TableId>,        // the id the memtable flush has drawn for its table
    listed: seq<seq<TableId>>,       // per level, the ids in the manifest
    disk: map<TableId, Table>)       // finished tables

  predicate Has(tables: seq<seq<Table>>, level: int, t: Table) {
    0 <= level < |tables| && t in tables[level]
  }

  predicate HasHolder(holders: seq<seq<Holder>>, level: int, h: Holder) {
    0 <= level < |holders| && h in holders[level]
  }

  predicate Lists(listed: seq<seq<TableId>>, level: int, id: TableId) {
    0 <= level < |listed| && id in listed[level]
  }

  /** Remove the given tables, keeping the order of the rest. */
  function Without(s: seq<Table>, gone: set<Table>): (r: seq<Table>)
    ensures forall t :: t in r <==> t in s && t !in gone
  {
    if s == [] then []
    else if s[0] in gone then Without(s[1..], gone)
    else [s[0]] + Without(s[1..], gone)
  }

  function WithoutHolder(s: seq<Holder>, id: TableId): (r: seq<Holder>)
    ensures forall h :: h in r <==> h in s && h.id != id
  {
    if s == [] then []
    else if s[0].id == id then WithoutHolder(s[1..], id)
    else [s[0]] + WithoutHolder(s[1..], id)
  }

  /** The first position whose table starts above `key`, or else `default` */
  function Place(s: seq<Table>, key: Key, default: nat): (pos: nat)
    requires default <= |s|
    ensures pos <= |s|
    ensures (pos < |s| && Less(key, s[pos].min)) || pos == default
  {
    PlaceFrom(s, key, default, 0)
  }

  function PlaceFrom(s: seq<Table>, key: Key, default: nat, i: nat): (pos: nat)
    requires i <= |s| && default <= |s|
    ensures pos <= |s|
    ensures (i <= pos < |s| && Less(key, s[pos].min)) || pos == default
    decreases |s| - i
  {
    if i == |s| then default
    else if Less(key, s[i].min) then i
    else PlaceFrom(s, key, default, i + 1)
  }

  function InsertTable(s: seq<Table>, pos: nat, t: Table): (r: seq<Table>)
    requires pos <= |s|
    ensures forall u :: u in r <==> u in s || u == t
  {
    s[..pos] + [t] + s[pos..]
  }

  predicate Ascending(ids: seq<TableId>) {
    forall i, j :: 0 <= i < j < |ids| ==> ids[i] < ids[j]
  }

  lemma AscendingFrom(first: TableId, rest: seq<TableId>)
    ensures Ascending([first] + rest) <==> Ascending(rest) && forall x <- rest :: first < x
    ensures forall x :: x in [first] + rest <==> x == first || x in rest
  {
    var all := [first] + rest;
    if Ascending(all) {
      forall i | 0 <= i < |rest| ensures first < rest[i] {
        assert all[0] < all[i + 1];
      }
      forall i, j | 0 <= i < j < |rest| ensures rest[i] < rest[j] {
        assert all[i + 1] < all[j + 1];
      }
    }
    if Ascending(rest) && forall x <- rest :: first < x {
      forall i, j | 0 <= i < j < |all| ensures all[i] < all[j] {
        assert all[j] == rest[j - 1] && all[j] in rest;
      }
    }
  }

  /** The manifest keeps each level's ids sorted. */
  function InsertId(ids: seq<TableId>, id: TableId): (r: seq<TableId>)
    ensures forall x :: x in r <==> x in ids || x == id
    ensures Ascending(ids) && id !in ids ==> Ascending(r)
  {
    if ids == [] then [id]
    else
      hide Ascending;
      assert ids == [ids[0]] + ids[1..];
      AscendingFrom(ids[0], ids[1..]);
      if id < ids[0] then
        AscendingFrom(id, ids);
        [id] + ids
      else
        var rest := InsertId(ids[1..], id);
        AscendingFrom(ids[0], rest);
        [ids[0]] + rest
  }

  function RemoveIds(ids: seq<TableId>, gone: set<TableId>): (r: seq<TableId>)
    ensures forall x :: x in r <==> x in ids && x !in gone
    ensures Ascending(ids) ==> Ascending(r)
  {
    if ids == [] then []
    else
      hide Ascending;
      assert ids == [ids[0]] + ids[1..];
      AscendingFrom(ids[0], ids[1..]);
      if ids[0] in gone then RemoveIds(ids[1..], gone)
      else
        var rest := RemoveIds(ids[1..], gone);
        AscendingFrom(ids[0], rest);
        [ids[0]] + rest
  }

  function Ids(ts: set<Table>): set<TableId> {
    set t | t in ts :: t.id
  }

  /** Every version in `rows` is some table's. */
  ghost predicate DrawnFrom(rows: Rows, ts: set<Table>) {
    forall k <- rows :: exists t :: t in ts && k in t.rows && t.rows[k] == rows[k]
  }

  /** No table has a key missing from `rows`, or a newer version of one. */
  ghost predicate Covers(rows: Rows, ts: set<Table>) {
    forall t, k :: t in ts && k in t.rows ==> k in rows && t.rows[k].num <= rows[k].num
  }

  /** `rows` is what merging `ts` must produce: for every key of some table its newest version. */
  ghost predicate IsMerge(rows: Rows, ts: set<Table>) {
    DrawnFrom(rows, ts) && Covers(rows, ts)
  }

  datatype Step =
    | Reserve                                    // flush draws a table id
    | AddL0(min: Key, max: Key, rows: Rows)      // flush adds its table to level 0 and the manifest
    | Start(j: JobId, level: nat, t: Table)      // set the flag of the first table
    | Grow(j: JobId, t: Table)                   // level 0: flag one more overlapping table, or give up
    | CloseDone(j: JobId)                        // level 0: nothing else overlaps
    | BeginScan(j: JobId)
    | Scan(j: JobId)                             // examine one child table
    | Hold(j: JobId)                             // set the placeholder, or give up
    | Unflag(j: JobId, t: Table)                 // give back one flag
    | Lock(j: JobId)                             // take the write lock of the parent level
    | Install(j: JobId, rows: Rows)              // take that of the child level; swap the old tables for the new one
    | Reload                                     // the process restarts from the manifest

  predicate InPhase(tr: Tree, j: JobId, phase: Phase) {
    j in tr.jobs && tr.jobs[j].phase == phase
  }

  predicate Shape(tr: Tree) {
    && 0 < |tr.tables| == |tr.holders| == |tr.listed|
    && forall j <- tr.jobs :: tr.jobs[j].parent + 1 < |tr.tables|
  }

  /** No job holds the read lock of this level's table list. */
  ghost predicate NoReader(tr: Tree, level: nat) {
    forall j <- tr.jobs ::
      && (tr.jobs[j].phase.Closing? ==> level != 0)
      && (tr.jobs[j].phase.Scanning? ==> level != tr.jobs[j].parent + 1)
  }

  /** No job holds its write lock. */
  ghost predicate NoWriter(tr: Tree, level: nat) {
    forall j <- tr.jobs :: tr.jobs[j].Locks() ==> level != tr.jobs[j].parent
  }

  ghost predicate Unlocked(tr: Tree, level: nat) {
    NoReader(tr, level) && NoWriter(tr, level)
  }

  ghost predicate Enabled(tr: Tree, st: Step)
    requires Shape(tr)
  {
    match st
    case Reserve => tr.pending == None
    case AddL0(min, max, rows) =>
      && tr.pending.Some? && Unlocked(tr, 0)
      && Table(tr.pending.value, min, max, rows).WellFormed()
      && (forall l, t, k :: Has(tr.tables, l, t) && k in t.rows && k in rows ==> t.rows[k].num < rows[k].num)
    case Start(j, level, t) =>
      && level + 1 < |tr.tables| && t in tr.tables[level]
      && j !in tr.jobs && t.id !in tr.flags && NoWriter(tr, level)
    case Grow(j, t) =>
      && InPhase(tr, j, Closing) && t in tr.tables[0] && t !in tr.jobs[j].sel
      && t.Overlaps(tr.jobs[j].lo, tr.jobs[j].hi)
    case CloseDone(j) =>
      && InPhase(tr, j, Closing)
      && forall t <- tr.tables[0] :: t in tr.jobs[j].sel || !t.Overlaps(tr.jobs[j].lo, tr.jobs[j].hi)
    case BeginScan(j) => InPhase(tr, j, Picked) && NoWriter(tr, tr.jobs[j].parent + 1)
    case Scan(j) =>
      && j in tr.jobs && tr.jobs[j].phase.Scanning?
      && tr.jobs[j].phase.pos < |tr.tables[tr.jobs[j].parent + 1]|
    case Hold(j) =>
      && j in tr.jobs && tr.jobs[j].phase.Scanning?
      && tr.jobs[j].phase.pos == |tr.tables[tr.jobs[j].parent + 1]|
    case Unflag(j, t) => InPhase(tr, j, Aborting) && t in tr.jobs[j].sel + tr.jobs[j].kids
    case Lock(j) =>
      j in tr.jobs && tr.jobs[j].phase.Merging? && !tr.jobs[j].phase.locked && Unlocked(tr, tr.jobs[j].parent)
    case Install(j, rows) =>
      && j in tr.jobs && tr.jobs[j].Locks() && Unlocked(tr, tr.jobs[j].parent + 1)
      && IsMerge(rows, tr.jobs[j].sel + tr.jobs[j].kids)
    case Reload => true
  }

  function SetJob(tr: Tree, j: JobId, b: Job): Tree {
    tr.(jobs := tr.jobs[j := b])
  }

  function DoAddL0(tr: Tree, min: Key, max: Key, rows: Rows): Tree
    requires Shape(tr) && tr.pending.Some?
  {
    var t := Table(tr.pending.value, min, max, rows);
    tr.(tables := tr.tables[0 := tr.tables[0] + [t]],
        listed := tr.listed[0 := InsertId(tr.listed[0], t.id)],
        disk := tr.disk[t.id := t],
        pending := None)
  }

  function DoStart(tr: Tree, j: JobId, level: nat, t: Table): Tree {
    var phase := if level == 0 then Closing else Picked;
    tr.(flags := tr.flags[t.id := j],
        jobs := tr.jobs[j := Job(phase, level, {t}, {}, t.min, t.max)])
  }

  function DoGrow(tr: Tree, j: JobId, t: Table): Tree
    requires j in tr.jobs
  {
    var b := tr.jobs[j];
    if t.id in tr.flags then
      SetJob(tr, j, b.(phase := Aborting))
    else
      tr.(flags := tr.flags[t.id := j],
          jobs := tr.jobs[j := b.(sel := b.sel + {t}, lo := Min(b.lo, t.min), hi := Max(b.hi, t.max))])
  }

  function DoScan(tr: Tree, j: JobId): Tree
    requires Shape(tr) && j in tr.jobs && tr.jobs[j].phase.Scanning?
    requires tr.jobs[j].phase.pos < |tr.tables[tr.jobs[j].parent + 1]|
  {
    var b := tr.jobs[j];
    var t := tr.tables[b.parent + 1][b.phase.pos];
    var next := Scanning(b.phase.pos + 1);
    if !t.Overlaps(b.lo, b.hi) then
      SetJob(tr, j, b.(phase := next))
    else if t.id in tr.flags then
      SetJob(tr, j, b.(phase := Aborting))
    else
      tr.(flags := tr.flags[t.id := j],
          jobs := tr.jobs[j := b.(phase := next, kids := b.kids + {t},
                                  lo := Min(t.min, b.lo), hi := Max(t.max, b.hi))])
  }

  /** Some placeholder of the level meets the range. */
  predicate Held(holders: seq<Holder>, lo: Key, hi: Key) {
    exists h <- holders :: Meets(h.lo, h.hi, lo, hi)
  }

  /** The id for the placeholder: a lone parent with no children keeps its own. */
  ghost function HoldId(tr: Tree, b: Job): TableId {
    if b.Fast() then (var t :| t in b.sel; t.id) else tr.nextId
  }

  ghost function DoHold(tr: Tree, j: JobId): Tree
    requires Shape(tr) && j in tr.jobs
  {
    var b := tr.jobs[j];
    var c := b.parent + 1;
    if Held(tr.holders[c], b.lo, b.hi) then
      SetJob(tr, j, b.(phase := Aborting))
    else
      var id := HoldId(tr, b);
      tr.(holders := tr.holders[c := tr.holders[c] + [Holder(id, b.lo, b.hi)]],
          nextId := if b.Fast() then tr.nextId else tr.nextId + 1,
          jobs := tr.jobs[j := b.(phase := Merging(id, false))])
  }

  function DoLock(tr: Tree, j: JobId): Tree
    requires j in tr.jobs && tr.jobs[j].phase.Merging?
  {
    SetJob(tr, j, tr.jobs[j].(phase := Merging(tr.jobs[j].phase.id, true)))
  }

  function DoUnflag(tr: Tree, j: JobId, t: Table): Tree
    requires j in tr.jobs
  {
    var b := tr.jobs[j];
    var b' := b.(sel := b.sel - {t}, kids := b.kids - {t});
    tr.(flags := tr.flags - {t.id},
        jobs := if b'.sel + b'.kids == {} then tr.jobs - {j} else tr.jobs[j := b'])
  }

  /** The table an install adds: the moved table itself on the fast path */
  function NewTable(b: Job, rows: Rows): Table
    requires b.phase.Merging?
  {
    Table(b.phase.id, b.lo, b.hi, rows)
  }

  function DoInstall(tr: Tree, j: JobId, rows: Rows): Tree
    requires Shape(tr) && j in tr.jobs && tr.jobs[j].phase.Merging?
  {
    var b := tr.jobs[j];
    var p, c := b.parent, b.parent + 1;
    var n := NewTable(b, rows);
    var rest := Without(tr.tables[c], b.kids);
    var pos := Place(rest, n.min, if b.Fast() then 0 else |rest|);
    tr.(tables := tr.tables[p := Without(tr.tables[p], b.sel)][c := InsertTable(rest, pos, n)],
        holders := tr.holders[c := WithoutHolder(tr.holders[c], n.id)],
        flags := tr.flags - Ids(b.sel + b.kids),
        jobs := tr.jobs - {j},
        listed := tr.listed[c := RemoveIds(InsertId(tr.listed[c], n.id), Ids(b.kids))]
                           [p := RemoveIds(tr.listed[p], Ids(b.sel))],
        disk := tr.disk[n.id := n])
  }

  /** Load the tables of a level in the order the manifest lists them. */
  function Load(disk: map<TableId, Table>, ids: seq<TableId>): seq<Table>
    requires forall id <- ids :: id in disk
  {
    seq(|ids|, i requires 0 <= i < |ids| => disk[ids[i]])
  }

  ghost predicate Loadable(tr: Tree) {
    forall l, id :: Lists(tr.listed, l, id) ==> id in tr.disk
  }

  ghost function DoReload(tr: Tree): Tree
    requires Shape(tr) && Loadable(tr)
  {
    var n := |tr.tables|;
    tr.(tables := seq(n, l requires 0 <= l < n =>
                      assert forall id <- tr.listed[l] :: Lists(tr.listed, l, id);
                      Load(tr.disk, tr.listed[l])),
        holders := seq(n, l => []),
        flags := map[], jobs := map[], pending := None)
  }

  ghost function Apply(tr: Tree, st: Step): Tree
    requires Shape(tr) && Loadable(tr) && Enabled(tr, st)
  {
    match st
    case Reserve => tr.(pending := Some(tr.nextId), nextId := tr.nextId + 1)
    case AddL0(min, max, rows) => DoAddL0(tr, min, max, rows)
    case Start(j, level, t) => DoStart(tr, j, level, t)
    case Grow(j, t) => DoGrow(tr, j, t)
    case CloseDone(j) => SetJob(tr, j, tr.jobs[j].(phase := Picked))
    case BeginScan(j) => SetJob(tr, j, tr.jobs[j].(phase := Scanning(0)))
    case Scan(j) => DoScan(tr, j)
    case Hold(j) => DoHold(tr, j)
    case Unflag(j, t) => DoUnflag(tr, j, t)
    case Lock(j) => DoLock(tr, j)
    case Install(j, rows) => DoInstall(tr, j, rows)
    case Reload => DoReload(tr)
  }

  function Fresh(levels: nat): Tree {
    Tree(seq(levels, l => []), seq(levels, l => []), map[], map[], 1, None, seq(levels, l => []), map[])
  }
}
