/** What every step of the level machine keeps, however compactions interleave. */
module LevelSafety {
  import opened Keys
  import opened Versions
  import opened Levels

  // ---- the tables ----

  ghost predicate Well(tables: seq<seq<Table>>) {
    forall l, t :: Has(tables, l, t) ==> t.WellFormed()
  }

  ghost predicate Unique(tables: seq<seq<Table>>) {
    forall l, m, t, u :: Has(tables, l, t) && Has(tables, m, u) && t.id == u.id ==> l == m && t == u
  }

  /** Below level 0 the tables of a level have pairwise disjoint key ranges. */
  ghost predicate Disjoint(tables: seq<seq<Table>>) {
    forall l, t, u :: 1 <= l && Has(tables, l, t) && Has(tables, l, u) && t != u ==> !t.Overlaps(u.min, u.max)
  }

  /** Is table `t` of level `l` searched before table `u` of level `m`? */
  predicate Above(l: int, t: Table, m: int, u: Table) {
    l < m || (l == m == 0 && t.id > u.id)
  }

  /** Versions found earlier by a search are newer. */
  ghost predicate Recent(tables: seq<seq<Table>>) {
    forall l, m, t, u, k ::
      Has(tables, l, t) && Has(tables, m, u) && Above(l, t, m, u) && k in t.rows && k in u.rows
      ==> t.rows[k].num > u.rows[k].num
  }

  /** Level 0 is ordered by age and no level lists a table twice. */
  ghost predicate InOrder(tables: seq<seq<Table>>) {
    && (0 < |tables| ==> forall i, j :: 0 <= i < j < |tables[0]| ==> tables[0][i].id < tables[0][j].id)
    && (forall l, i, j :: 0 <= l < |tables| && 0 <= i < j < |tables[l]| ==> tables[l][i] != tables[l][j])
  }

  ghost predicate TablesOk(tables: seq<seq<Table>>) {
    Well(tables) && Unique(tables) && Disjoint(tables) && Recent(tables) && InOrder(tables)
  }

  // ---- the jobs ----

  predicate Owns(flags: map<TableId, JobId>, id: TableId, j: JobId) {
    id in flags && flags[id] == j
  }

  /** A job's tables are where it found them, and their flags are its own. */
  ghost predicate Owned(tr: Tree, j: JobId, b: Job) {
    && (forall t <- b.sel :: Has(tr.tables, b.parent, t) && Owns(tr.flags, t.id, j))
    && (forall t <- b.kids :: Has(tr.tables, b.parent + 1, t) && Owns(tr.flags, t.id, j))
  }

  /** A job's range is the hull of its tables. */
  ghost predicate Hull(b: Job) {
    && b.sel != {}
    && (forall t <- b.sel + b.kids :: t.Inside(b.lo, b.hi))
    && (exists t <- b.sel + b.kids :: t.min == b.lo)
    && (exists t <- b.sel + b.kids :: t.max == b.hi)
    && (1 <= b.parent ==> |b.sel| == 1)
    && (b.phase.Closing? || b.phase.Picked? ==> b.kids == {})
    && (b.phase.Closing? ==> b.parent == 0)
  }

  /** Any other table of the parent level that meets a selected one is newer. */
  ghost predicate Closed(tables: seq<seq<Table>>, b: Job) {
    forall u, p :: Has(tables, b.parent, u) && u !in b.sel && p in b.sel && u.Overlaps(p.min, p.max)
      ==> b.parent == 0 && p.id < u.id
  }

  /** Every one of the first `n` tables that meets the range was taken. */
  ghost predicate Taken(s: seq<Table>, n: nat, b: Job) {
    n <= |s| && forall i :: 0 <= i < n && s[i].Overlaps(b.lo, b.hi) ==> s[i] in b.kids
  }

  /** The range is reserved, and only the job's own tables meet it. */
  ghost predicate Reserved(tr: Tree, b: Job) {
    && b.phase.Merging?
    && HasHolder(tr.holders, b.parent + 1, Holder(b.phase.id, b.lo, b.hi))
    && (forall u :: Has(tr.tables, b.parent + 1, u) && u.Overlaps(b.lo, b.hi) ==> u in b.kids)
    && (b.Fast() ==> forall t <- b.sel :: t.id == b.phase.id)
    && (!b.Fast() ==> forall l, t :: Has(tr.tables, l, t) ==> t.id != b.phase.id)
    && b.phase.id < tr.nextId
    && tr.pending != Some(b.phase.id)
  }

  ghost predicate JobOk(tr: Tree, j: JobId, b: Job) {
    && b.parent + 1 < |tr.tables|
    && Owned(tr, j, b)
    && b.sel + b.kids != {}
    && (!b.phase.Aborting? ==> Hull(b))
    && (!b.phase.Aborting? && !b.phase.Closing? ==> Closed(tr.tables, b))
    && (b.phase.Scanning? ==> Taken(tr.tables[b.parent + 1], b.phase.pos, b))
    && (b.phase.Merging? ==> Reserved(tr, b))
  }

  /** Jobs building tables use different ids, and on one level they own disjoint ranges. */
  ghost predicate JobsApart(jobs: map<JobId, Job>) {
    forall i, j :: i in jobs && j in jobs && i != j && jobs[i].phase.Merging? && jobs[j].phase.Merging? ==>
      && jobs[i].phase.id != jobs[j].phase.id
      && (jobs[i].parent == jobs[j].parent ==> !Meets(jobs[i].lo, jobs[i].hi, jobs[j].lo, jobs[j].hi))
  }

  /** A set flag belongs to a table of a live job. */
  ghost predicate NoStrayFlags(flags: map<TableId, JobId>, jobs: map<JobId, Job>) {
    forall id <- flags :: flags[id] in jobs && id in Ids(jobs[flags[id]].sel + jobs[flags[id]].kids)
  }

  predicate HolderOf(h: Holder, level: int, b: Job) {
    b.phase.Merging? && b.parent + 1 == level && h == Holder(b.phase.id, b.lo, b.hi)
  }

  /** A placeholder belongs to a live job that is building its table. */
  ghost predicate NoStrayHolders(holders: seq<seq<Holder>>, jobs: map<JobId, Job>) {
    forall l, h :: HasHolder(holders, l, h) ==> exists j :: j in jobs && HolderOf(h, l, jobs[j])
  }

  ghost predicate JobsOk(tr: Tree) {
    && (forall j <- tr.jobs :: JobOk(tr, j, tr.jobs[j]))
    && JobsApart(tr.jobs)
    && NoStrayFlags(tr.flags, tr.jobs)
    && NoStrayHolders(tr.holders, tr.jobs)
  }

  // ---- ids and the manifest ----

  ghost predicate IdsOk(tr: Tree) {
    && (forall l, t :: Has(tr.tables, l, t) ==> t.id < tr.nextId)
    && (tr.pending.Some? ==>
          && tr.pending.value < tr.nextId
          && (forall l, t :: Has(tr.tables, l, t) ==> t.id != tr.pending.value)
          && (forall t :: Has(tr.tables, 0, t) ==> t.id < tr.pending.value))
  }

  /** The manifest lists exactly the tables of each level, in ascending order, and they are on disk. */
  ghost predicate ManifestOk(tr: Tree) {
    && |tr.listed| == |tr.tables|
    && (forall l :: 0 <= l < |tr.listed| ==> Ascending(tr.listed[l]))
    && (forall l, t :: Has(tr.tables, l, t) ==> t.id in tr.disk && tr.disk[t.id] == t && Lists(tr.listed, l, t.id))
    && (forall l, id :: Lists(tr.listed, l, id) ==>
          id in tr.disk && tr.disk[id].id == id && Has(tr.tables, l, tr.disk[id]))
  }

  ghost predicate Inv(tr: Tree) {
    Shape(tr) && TablesOk(tr.tables) && JobsOk(tr) && IdsOk(tr) && ManifestOk(tr) && Loadable(tr)
  }

  // ---- locks ----

  /** A level that is locked for writing is locked by one job, and no job reads it. */
  ghost predicate LocksOk(jobs: map<JobId, Job>) {
    forall i, j :: i in jobs && j in jobs && jobs[j].Locks() ==>
      && (jobs[i].phase.Closing? ==> jobs[j].parent != 0)
      && (jobs[i].phase.Scanning? ==> jobs[i].parent + 1 != jobs[j].parent)
      && (i != j && jobs[i].Locks() ==> jobs[i].parent != jobs[j].parent)
  }

  /** None of the tables from position `n` on was taken. */
  ghost predicate Untaken(s: seq<Table>, n: nat, b: Job) {
    forall i :: n <= i < |s| ==> s[i] !in b.kids
  }

  /** A scan has taken none of the child tables that it has yet to look at. */
  ghost predicate KidsPassed(tables: seq<seq<Table>>, b: Job) {
    b.phase.Scanning? && b.parent + 1 < |tables| ==> Untaken(tables[b.parent + 1], b.phase.pos, b)
  }

  ghost predicate ScansOk(tr: Tree) {
    forall j <- tr.jobs :: KidsPassed(tr.tables, tr.jobs[j])
  }

  ghost predicate Safe(tr: Tree) {
    Inv(tr) && LocksOk(tr.jobs) && ScansOk(tr)
  }

  lemma ManifestLoadable(tr: Tree)
    requires ManifestOk(tr)
    ensures Loadable(tr)
  {
  }

  lemma FreshInv(levels: nat)
    requires 0 < levels
    ensures Inv(Fresh(levels))
  {
  }

  // ---- the new table ----

  lemma Singleton<T>(s: set<T>, x: T)
    requires |s| == 1 && x in s
    ensures s == {x}
  {
    assert |s - {x}| == 0;
  }

  lemma MergeOfOne(rows: Rows, p: Table)
    requires IsMerge(rows, {p})
    ensures rows == p.rows
  {
    forall k | k in p.rows ensures k in rows {}
  }

  /** On the fast path the new table is the old one. */
  lemma FastTable(b: Job, rows: Rows, p: Table)
    requires b.phase.Merging? && b.Fast() && p in b.sel
    requires Hull(b) && p.id == b.phase.id && IsMerge(rows, b.sel + b.kids)
    ensures NewTable(b, rows) == p && b.sel == {p}
  {
    Singleton(b.sel, p);
    assert b.sel + b.kids == {p};
    MergeOfOne(rows, p);
  }

  /** The new table's versions all come from the merged tables. */
  lemma NewRow(tr: Tree, j: JobId, b: Job, rows: Rows, k: Key) returns (l: int, t: Table)
    requires DrawnFrom(rows, b.sel + b.kids) && k in rows && Owned(tr, j, b)
    ensures k in t.rows && t.rows[k] == rows[k]
    ensures (l == b.parent && t in b.sel) || (l == b.parent + 1 && t in b.kids)
    ensures Has(tr.tables, l, t)
  {
    t :| t in b.sel + b.kids && k in t.rows && t.rows[k] == rows[k];
    l := if t in b.sel then b.parent else b.parent + 1;
  }

  lemma WithinWider(k: Key, lo: Key, hi: Key, lo': Key, hi': Key)
    requires Within(k, lo, hi) && Leq(lo', lo) && Leq(hi, hi')
    ensures Within(k, lo', hi')
  {
    LeqTransitive(lo', lo, k);
    LeqTransitive(k, hi, hi');
  }

  lemma NewKeyWithin(tr: Tree, j: JobId, b: Job, rows: Rows, k: Key)
    requires Well(tr.tables) && Owned(tr, j, b) && Hull(b)
    requires DrawnFrom(rows, b.sel + b.kids) && k in rows
    ensures Within(k, b.lo, b.hi)
  {
    var l, t := NewRow(tr, j, b, rows, k);
    assert t in b.sel + b.kids && t.WellFormed();
    WithinWider(k, t.min, t.max, b.lo, b.hi);
  }

  lemma NewEndsPresent(tr: Tree, j: JobId, b: Job, rows: Rows)
    requires Well(tr.tables) && Owned(tr, j, b) && Hull(b) && Covers(rows, b.sel + b.kids)
    ensures b.lo in rows && b.hi in rows
  {
    hide Covers;
    var first :| first in b.sel + b.kids && first.min == b.lo;
    assert Has(tr.tables, b.parent, first) || Has(tr.tables, b.parent + 1, first);
    assert first.WellFormed();
    CoversKey(rows, b.sel + b.kids, first, b.lo);
    var last :| last in b.sel + b.kids && last.max == b.hi;
    assert Has(tr.tables, b.parent, last) || Has(tr.tables, b.parent + 1, last);
    assert last.WellFormed();
    CoversKey(rows, b.sel + b.kids, last, b.hi);
  }

  lemma CoversKey(rows: Rows, ts: set<Table>, t: Table, k: Key)
    requires Covers(rows, ts) && t in ts && k in t.rows
    ensures k in rows
  {
  }

  lemma NewTableWell(tr: Tree, j: JobId, b: Job, rows: Rows)
    requires Well(tr.tables) && Owned(tr, j, b) && Hull(b)
    requires b.phase.Merging? && IsMerge(rows, b.sel + b.kids)
    ensures NewTable(b, rows).WellFormed()
  {
    NewEndsPresent(tr, j, b, rows);
    forall k | k in rows ensures Within(k, b.lo, b.hi) {
      NewKeyWithin(tr, j, b, rows, k);
    }
  }

  /** A well-formed table meets the range of any key it holds. */
  lemma SharedKeyOverlaps(t: Table, u: Table, k: Key)
    requires t.WellFormed() && u.WellFormed() && k in t.rows && k in u.rows
    ensures t.Overlaps(u.min, u.max) && u.Overlaps(t.min, t.max)
  {
    SharedKeyMeets(k, t.min, t.max, u.min, u.max);
  }

  // ---- installing a merged table ----

  /** The tables the new table replaces */
  predicate Gone(b: Job, l: int, t: Table) {
    (l == b.parent && t in b.sel) || (l == b.parent + 1 && t in b.kids)
  }

  /** What an install does: `n` replaces the job's tables, which leave every list they were on. */
  ghost predicate Installs(tr: Tree, j: JobId, b: Job, n: Table, tr': Tree) {
    && tr'.nextId == tr.nextId && tr'.pending == tr.pending
    && |tr'.tables| == |tr.tables| && |tr'.holders| == |tr.holders| && |tr'.listed| == |tr.listed|
    && (forall l, t :: Has(tr'.tables, l, t) <==>
          (Has(tr.tables, l, t) && !Gone(b, l, t)) || (l == b.parent + 1 && t == n))
    && (forall l, h :: HasHolder(tr'.holders, l, h) <==>
          HasHolder(tr.holders, l, h) && !(l == b.parent + 1 && h.id == n.id))
    && tr'.flags == tr.flags - Ids(b.sel + b.kids)
    && tr'.jobs == tr.jobs - {j}
  }

  lemma InstallEffect(tr: Tree, j: JobId, rows: Rows)
    requires Shape(tr) && j in tr.jobs && tr.jobs[j].phase.Merging?
    ensures Installs(tr, j, tr.jobs[j], NewTable(tr.jobs[j], rows), DoInstall(tr, j, rows))
    ensures Shape(DoInstall(tr, j, rows)) && DoInstall(tr, j, rows).jobs == tr.jobs - {j}
    ensures |DoInstall(tr, j, rows).tables| == |tr.tables|
    ensures forall l :: 0 <= l < |tr.tables| && l != tr.jobs[j].parent && l != tr.jobs[j].parent + 1 ==>
              DoInstall(tr, j, rows).tables[l] == tr.tables[l]
  {
    hide InsertId, RemoveIds, Place;
  }

  lemma InstallWell(tr: Tree, j: JobId, b: Job, n: Table, tr': Tree)
    requires Installs(tr, j, b, n, tr') && Well(tr.tables) && n.WellFormed()
    ensures Well(tr'.tables)
  {
  }

  /** The new table's id is held by no table that stays. */
  lemma InstallNewId(tr: Tree, j: JobId, b: Job)
    requires Unique(tr.tables) && Owned(tr, j, b) && Reserved(tr, b)
    ensures forall l, t :: Has(tr.tables, l, t) && !Gone(b, l, t) ==> t.id != b.phase.id
  {
    if b.Fast() {
      var p :| p in b.sel;
      assert Has(tr.tables, b.parent, p);
    }
  }

  lemma InstallUnique(tr: Tree, j: JobId, b: Job, n: Table, tr': Tree)
    requires Installs(tr, j, b, n, tr') && Unique(tr.tables) && Owned(tr, j, b) && Reserved(tr, b)
    requires n.id == b.phase.id
    ensures Unique(tr'.tables)
  {
    InstallNewId(tr, j, b);
  }

  lemma InstallDisjoint(tr: Tree, j: JobId, b: Job, n: Table, tr': Tree)
    requires Installs(tr, j, b, n, tr') && Disjoint(tr.tables) && Reserved(tr, b)
    requires n.min == b.lo && n.max == b.hi
    ensures Disjoint(tr'.tables)
  {
  }

  /** A version in the new table is older than any version that stays above it. */
  lemma InstallBelow(tr: Tree, j: JobId, b: Job, rows: Rows, l: int, t: Table, k: Key)
    requires Well(tr.tables) && Recent(tr.tables)
    requires Owned(tr, j, b) && Closed(tr.tables, b) && DrawnFrom(rows, b.sel + b.kids)
    requires Has(tr.tables, l, t) && l <= b.parent && !(l == b.parent && t in b.sel)
    requires k in t.rows && k in rows
    ensures t.rows[k].num > rows[k].num
  {
    var m, u := NewRow(tr, j, b, rows, k);
    if m == l {
      SharedKeyOverlaps(t, u, k);
    }
    assert Above(l, t, m, u);
  }

  /** A version in the new table is newer than any version below it. */
  lemma InstallAbove(tr: Tree, j: JobId, b: Job, rows: Rows, l: int, t: Table, k: Key)
    requires Recent(tr.tables) && Owned(tr, j, b) && DrawnFrom(rows, b.sel + b.kids)
    requires Has(tr.tables, l, t) && b.parent + 1 < l
    requires k in t.rows && k in rows
    ensures rows[k].num > t.rows[k].num
  {
    var m, u := NewRow(tr, j, b, rows, k);
    assert Above(m, u, l, t);
  }

  lemma InstallRecent(tr: Tree, j: JobId, b: Job, n: Table, tr': Tree)
    requires Installs(tr, j, b, n, tr') && Well(tr.tables) && Recent(tr.tables)
    requires Owned(tr, j, b) && Closed(tr.tables, b) && DrawnFrom(n.rows, b.sel + b.kids)
    ensures Recent(tr'.tables)
  {
    forall l, m, t, u, k |
      Has(tr'.tables, l, t) && Has(tr'.tables, m, u) && Above(l, t, m, u) && k in t.rows && k in u.rows
      ensures t.rows[k].num > u.rows[k].num
    {
      if Has(tr.tables, l, t) && !Gone(b, l, t) {
        if !Has(tr.tables, m, u) || Gone(b, m, u) { InstallBelow(tr, j, b, n.rows, l, t, k); }
      } else {
        InstallAbove(tr, j, b, n.rows, m, u, k);
      }
    }
  }

  predicate ByAge(s: seq<Table>) {
    forall i, j :: 0 <= i < j < |s| ==> s[i].id < s[j].id
  }

  predicate NoRepeat(s: seq<Table>) {
    forall i, j :: 0 <= i < j < |s| ==> s[i] != s[j]
  }

  lemma {:induction false} WithoutByAge(s: seq<Table>, gone: set<Table>)
    requires ByAge(s)
    ensures ByAge(Without(s, gone))
  {
    if s != [] {
      WithoutByAge(s[1..], gone);
      var rest := Without(s[1..], gone);
      assert forall i | 0 <= i < |rest| :: rest[i] in rest;
    }
  }

  lemma {:induction false} WithoutNoRepeat(s: seq<Table>, gone: set<Table>)
    requires NoRepeat(s)
    ensures NoRepeat(Without(s, gone))
  {
    if s != [] {
      WithoutNoRepeat(s[1..], gone);
      var rest := Without(s[1..], gone);
      assert forall i | 0 <= i < |rest| :: rest[i] in rest;
    }
  }

  lemma InsertNoRepeat(s: seq<Table>, pos: nat, t: Table)
    requires NoRepeat(s) && pos <= |s| && t !in s
    ensures NoRepeat(InsertTable(s, pos, t))
  {
  }

  lemma ReplaceTwoLevels(tables: seq<seq<Table>>, p: nat, kept: seq<Table>, merged: seq<Table>)
    requires InOrder(tables) && p + 1 < |tables|
    requires NoRepeat(kept) && NoRepeat(merged) && (p == 0 ==> ByAge(kept))
    ensures InOrder(tables[p := kept][p + 1 := merged])
  {
  }

  lemma InstallTablesAre(tr: Tree, j: JobId, rows: Rows)
    requires Shape(tr) && j in tr.jobs && tr.jobs[j].phase.Merging?
    ensures
      var b := tr.jobs[j];
      var rest := Without(tr.tables[b.parent + 1], b.kids);
      var pos := Place(rest, b.lo, if b.Fast() then 0 else |rest|);
      DoInstall(tr, j, rows).tables ==
      tr.tables[b.parent := Without(tr.tables[b.parent], b.sel)]
               [b.parent + 1 := InsertTable(rest, pos, NewTable(b, rows))]
  {
    hide InsertId, RemoveIds, Place, Without, InsertTable, WithoutHolder;
  }

  lemma KeptInOrder(tables: seq<seq<Table>>, p: nat, gone: set<Table>)
    requires InOrder(tables) && p < |tables|
    ensures NoRepeat(Without(tables[p], gone)) && (p == 0 ==> ByAge(Without(tables[p], gone)))
  {
    assert NoRepeat(tables[p]);
    WithoutNoRepeat(tables[p], gone);
    if p == 0 {
      assert ByAge(tables[p]);
      WithoutByAge(tables[p], gone);
    }
  }

  lemma InstallNew(tr: Tree, j: JobId, b: Job, n: Table)
    requires Unique(tr.tables) && Owned(tr, j, b) && Reserved(tr, b) && b.parent + 1 < |tr.tables| && n.id == b.phase.id
    ensures n !in Without(tr.tables[b.parent + 1], b.kids)
  {
    hide Without, Unique, Owned, Reserved;
    InstallNewId(tr, j, b);
    forall t | t in Without(tr.tables[b.parent + 1], b.kids) ensures t.id != n.id {
      assert Has(tr.tables, b.parent + 1, t) && !Gone(b, b.parent + 1, t);
    }
  }

  lemma InstallInOrder(tr: Tree, j: JobId, rows: Rows, tr': Tree)
    requires Shape(tr) && j in tr.jobs && tr.jobs[j].phase.Merging? && tr' == DoInstall(tr, j, rows)
    requires InOrder(tr.tables) && Unique(tr.tables) && Owned(tr, j, tr.jobs[j]) && Reserved(tr, tr.jobs[j])
    ensures InOrder(tr'.tables)
  {
    hide Owned, Reserved, DoInstall, Unique, InOrder, NoRepeat, ByAge, Without, Place, InsertTable, Has;
    var b := tr.jobs[j];
    var n := NewTable(b, rows);
    var rest := Without(tr.tables[b.parent + 1], b.kids);
    var pos := Place(rest, n.min, if b.Fast() then 0 else |rest|);
    InstallNew(tr, j, b, n);
    KeptInOrder(tr.tables, b.parent, b.sel);
    KeptInOrder(tr.tables, b.parent + 1, b.kids);
    InsertNoRepeat(rest, pos, n);
    InstallTablesAre(tr, j, rows);
    ReplaceTwoLevels(tr.tables, b.parent, Without(tr.tables[b.parent], b.sel), InsertTable(rest, pos, n));
  }

  // ---- installing leaves the other jobs alone ----

  lemma InstallOwned(tr: Tree, j: JobId, b: Job, n: Table, tr': Tree, i: JobId, o: Job)
    requires Installs(tr, j, b, n, tr') && i != j && Owned(tr, j, b) && Owned(tr, i, o)
    ensures Owned(tr', i, o)
  {
  }

  lemma InstallClosed(tr: Tree, j: JobId, b: Job, n: Table, tr': Tree, i: JobId, o: Job)
    requires Installs(tr, j, b, n, tr') && i != j && Owned(tr, j, b) && Owned(tr, i, o)
    requires Reserved(tr, b) && n.min == b.lo && n.max == b.hi && Closed(tr.tables, o)
    ensures Closed(tr'.tables, o)
  {
  }

  lemma InstallReserved(tr: Tree, j: JobId, b: Job, n: Table, tr': Tree, o: Job)
    requires Installs(tr, j, b, n, tr') && n.min == b.lo && n.max == b.hi && Reserved(tr, o)
    requires n.id != o.phase.id && (b.parent == o.parent ==> !Meets(b.lo, b.hi, o.lo, o.hi))
    ensures Reserved(tr', o)
  {
  }

  lemma InstallJob(tr: Tree, j: JobId, b: Job, n: Table, tr': Tree, i: JobId, o: Job)
    requires Installs(tr, j, b, n, tr') && i != j && JobOk(tr, j, b) && JobOk(tr, i, o)
    requires b.phase.Merging? && n.min == b.lo && n.max == b.hi
    requires o.phase.Merging? ==>
      n.id != o.phase.id && (b.parent == o.parent ==> !Meets(b.lo, b.hi, o.lo, o.hi))
    requires o.phase.Scanning? ==> tr'.tables[o.parent + 1] == tr.tables[o.parent + 1]
    ensures JobOk(tr', i, o)
  {
    hide Owned, Hull, Closed, Reserved, Taken;
    InstallOwned(tr, j, b, n, tr', i, o);
    if !o.phase.Aborting? && !o.phase.Closing? { InstallClosed(tr, j, b, n, tr', i, o); }
    if o.phase.Merging? { InstallReserved(tr, j, b, n, tr', o); }
  }

  lemma InstallStray(tr: Tree, j: JobId, b: Job, n: Table, tr': Tree)
    requires Installs(tr, j, b, n, tr') && j in tr.jobs && tr.jobs[j] == b && b.phase.Merging? && n.id == b.phase.id
    requires NoStrayFlags(tr.flags, tr.jobs) && NoStrayHolders(tr.holders, tr.jobs)
    ensures NoStrayFlags(tr'.flags, tr'.jobs) && NoStrayHolders(tr'.holders, tr'.jobs)
  {
    forall l, h | HasHolder(tr'.holders, l, h)
      ensures exists i :: i in tr'.jobs && HolderOf(h, l, tr'.jobs[i])
    {
      var i :| i in tr.jobs && HolderOf(h, l, tr.jobs[i]);
      assert i in tr'.jobs;
    }
  }

  lemma InstallJobs(tr: Tree, j: JobId, rows: Rows, tr': Tree)
    requires Shape(tr) && j in tr.jobs && tr.jobs[j].phase.Merging? && tr' == DoInstall(tr, j, rows)
    requires NoReader(tr, tr.jobs[j].parent) && NoReader(tr, tr.jobs[j].parent + 1) && JobsOk(tr)
    ensures JobsOk(tr')
  {
    hide JobOk, NoStrayFlags, NoStrayHolders, Installs, DoInstall;
    var b := tr.jobs[j];
    var n := NewTable(b, rows);
    InstallEffect(tr, j, rows);
    forall i | i in tr.jobs && i != j ensures JobOk(tr', i, tr.jobs[i]) {
      assert JobOk(tr, i, tr.jobs[i]);
      InstallJob(tr, j, b, n, tr', i, tr.jobs[i]);
    }
    InstallStray(tr, j, b, n, tr');
  }

  /** The manifest update adds an id it does not have and removes ids it has, so it never panics. */
  lemma InstallListed(tr: Tree, j: JobId, b: Job)
    requires ManifestOk(tr) && Unique(tr.tables) && Owned(tr, j, b) && Reserved(tr, b)
    requires b.parent + 1 < |tr.tables|
    ensures !Lists(tr.listed, b.parent + 1, b.phase.id)
    ensures forall t <- b.kids :: Lists(tr.listed, b.parent + 1, t.id)
    ensures forall t <- b.sel :: Lists(tr.listed, b.parent, t.id)
  {
    InstallNewId(tr, j, b);
    assert forall t :: Has(tr.tables, b.parent + 1, t) ==> t.id != b.phase.id;
  }

  /** How an install changes the manifest */
  ghost predicate Relists(tr: Tree, b: Job, n: Table, tr': Tree) {
    && |tr'.listed| == |tr.listed| == |tr'.tables|
    && tr'.disk == tr.disk[n.id := n]
    && (forall l :: 0 <= l < |tr.listed| ==> Ascending(tr'.listed[l]))
    && (forall l, id :: Lists(tr'.listed, l, id) <==>
          || (&& Lists(tr.listed, l, id)
              && !(l == b.parent && id in Ids(b.sel)) && !(l == b.parent + 1 && id in Ids(b.kids)))
          || (l == b.parent + 1 && id == n.id))
  }

  lemma InstallRelists(tr: Tree, j: JobId, rows: Rows)
    requires Shape(tr) && j in tr.jobs && tr.jobs[j].phase.Merging?
    requires forall l :: 0 <= l < |tr.listed| ==> Ascending(tr.listed[l])
    requires !Lists(tr.listed, tr.jobs[j].parent + 1, tr.jobs[j].phase.id)
    requires tr.jobs[j].phase.id !in Ids(tr.jobs[j].kids)
    ensures Relists(tr, tr.jobs[j], NewTable(tr.jobs[j], rows), DoInstall(tr, j, rows))
  {
    hide InsertId, RemoveIds, Without, WithoutHolder, Place, InsertTable;
  }

  lemma RelistsOk(tr: Tree, j: JobId, b: Job, n: Table, tr': Tree)
    requires Relists(tr, b, n, tr') && Installs(tr, j, b, n, tr') && ManifestOk(tr)
    requires forall l, t :: Has(tr.tables, l, t) && !Gone(b, l, t) ==> t.id != n.id
    requires Unique(tr.tables) && Owned(tr, j, b)
    ensures ManifestOk(tr')
  {
  }

  lemma InstallManifest(tr: Tree, j: JobId, rows: Rows, tr': Tree)
    requires Shape(tr) && j in tr.jobs && tr.jobs[j].phase.Merging? && tr' == DoInstall(tr, j, rows)
    requires ManifestOk(tr) && Unique(tr.tables) && Owned(tr, j, tr.jobs[j]) && Reserved(tr, tr.jobs[j])
    ensures ManifestOk(tr')
  {
    hide Installs, Relists, DoInstall;
    var b := tr.jobs[j];
    InstallListed(tr, j, b);
    InstallNewId(tr, j, b);
    InstallEffect(tr, j, rows);
    InstallRelists(tr, j, rows);
    hide ManifestOk, Owned, Reserved;
    RelistsOk(tr, j, b, NewTable(b, rows), tr');
  }

  lemma InstallIds(tr: Tree, j: JobId, b: Job, n: Table, tr': Tree)
    requires Installs(tr, j, b, n, tr') && IdsOk(tr) && Reserved(tr, b) && n.id == b.phase.id
    ensures IdsOk(tr')
  {
  }

  lemma InstallInv(tr: Tree, j: JobId, rows: Rows, tr': Tree)
    requires Shape(tr) && j in tr.jobs && tr.jobs[j].phase.Merging? && tr' == DoInstall(tr, j, rows)
    requires Enabled(tr, Install(j, rows)) && Inv(tr) && NoReader(tr, tr.jobs[j].parent)
    ensures Inv(tr')
  {
    hide Owned, Hull, Closed, Reserved, Well, Unique, Disjoint, Recent, InOrder, ManifestOk, IdsOk,
      Installs, DoInstall, NoStrayFlags, NoStrayHolders, JobsApart, DrawnFrom, Covers;
    var b := tr.jobs[j];
    var n := NewTable(b, rows);
    assert JobOk(tr, j, b);
    InstallEffect(tr, j, rows);
    NewTableWell(tr, j, b, rows);
    InstallWell(tr, j, b, n, tr');
    InstallUnique(tr, j, b, n, tr');
    InstallDisjoint(tr, j, b, n, tr');
    InstallRecent(tr, j, b, n, tr');
    InstallInOrder(tr, j, rows, tr');
    InstallJobs(tr, j, rows, tr');
    InstallManifest(tr, j, rows, tr');
    InstallIds(tr, j, b, n, tr');
    ManifestLoadable(tr');
  }

  // ---- steps of one job that leave the tables alone ----

  /** `tr'` differs from `tr` in job `j`, its flags, and possibly one more placeholder. */
  ghost predicate OnlyJob(tr: Tree, j: JobId, tr': Tree) {
    && tr'.tables == tr.tables && tr'.listed == tr.listed && tr'.disk == tr.disk && tr'.pending == tr.pending
    && |tr'.holders| == |tr.holders| && tr.nextId <= tr'.nextId
    && (forall l, h :: HasHolder(tr.holders, l, h) ==> HasHolder(tr'.holders, l, h))
    && tr'.jobs - {j} == tr.jobs - {j}
    && (forall id, i :: i != j ==> (Owns(tr.flags, id, i) <==> Owns(tr'.flags, id, i)))
  }

  lemma OtherJob(tr: Tree, j: JobId, tr': Tree, i: JobId, o: Job)
    requires OnlyJob(tr, j, tr') && i != j && JobOk(tr, i, o)
    ensures JobOk(tr', i, o)
  {
    hide Hull, Closed, Taken;
  }

  lemma OtherJobs(tr: Tree, j: JobId, tr': Tree)
    requires OnlyJob(tr, j, tr') && forall i <- tr.jobs :: JobOk(tr, i, tr.jobs[i])
    ensures forall i :: i in tr'.jobs && i != j ==> JobOk(tr', i, tr'.jobs[i])
  {
    hide JobOk;
    forall i | i in tr'.jobs && i != j ensures JobOk(tr', i, tr'.jobs[i]) {
      assert i in tr'.jobs - {j};
      assert i in tr.jobs && tr.jobs[i] == tr'.jobs[i];
      OtherJob(tr, j, tr', i, tr.jobs[i]);
    }
  }

  lemma JobStepInv(tr: Tree, j: JobId, tr': Tree)
    requires Inv(tr) && OnlyJob(tr, j, tr') && Shape(tr')
    requires j in tr'.jobs ==> JobOk(tr', j, tr'.jobs[j])
    requires JobsApart(tr'.jobs) && NoStrayFlags(tr'.flags, tr'.jobs) && NoStrayHolders(tr'.holders, tr'.jobs)
    ensures Inv(tr')
  {
    hide JobOk, TablesOk, JobsApart, NoStrayFlags, NoStrayHolders;
    OtherJobs(tr, j, tr');
  }

  lemma WiderOverlap(u: Table, lo: Key, hi: Key, lo': Key, hi': Key)
    requires u.Overlaps(lo, hi) && Leq(lo', lo) && Leq(hi, hi')
    ensures u.Overlaps(lo', hi')
  {
    LeqTransitive(lo', lo, u.max);
    LeqTransitive(u.min, hi, hi');
  }

  lemma GrowHull(b: Job, t: Table, b': Job)
    requires Hull(b) && b'.sel + b'.kids == b.sel + b.kids + {t} && b.sel <= b'.sel
    requires b'.lo == Min(b.lo, t.min) || b'.lo == Min(t.min, b.lo)
    requires b'.hi == Max(b.hi, t.max) || b'.hi == Max(t.max, b.hi)
    requires b'.parent == b.parent && (1 <= b.parent ==> b'.sel == b.sel)
    requires b'.phase.Closing? ==> b.phase.Closing? && b'.kids == {}
    requires !b'.phase.Picked?
    ensures Hull(b')
  {
    HullContains(b.lo, b.hi, t.min, t.max);
    HullContains(t.min, t.max, b.lo, b.hi);
    forall u | u in b'.sel + b'.kids ensures u.Inside(b'.lo, b'.hi) {
      if u in b.sel + b.kids {
        LeqTransitive(b'.lo, b.lo, u.min);
        LeqTransitive(u.max, b.hi, b'.hi);
      }
    }
    var first :| first in b.sel + b.kids && first.min == b.lo;
    var last :| last in b.sel + b.kids && last.max == b.hi;
    assert first in b'.sel + b'.kids && last in b'.sel + b'.kids && t in b'.sel + b'.kids;
  }
}
