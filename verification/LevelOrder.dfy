/** The order of the tables on a level: levels are not kept sorted by key. When a step keeps a sorted level sorted,
    and runs in which it does not. */
module LevelOrder {
  import opened Keys
  import opened Versions
  import opened Levels
  import opened LevelSafety
  import LevelSteps

  /** The tables are sorted by their smallest key. */
  ghost predicate ByMin(s: seq<Table>) {
    forall i, j :: 0 <= i < j < |s| ==> Less(s[i].min, s[j].min)
  }

  lemma {:induction false} WithoutByMin(s: seq<Table>, gone: set<Table>)
    requires ByMin(s)
    ensures ByMin(Without(s, gone))
  {
    if s != [] {
      WithoutByMin(s[1..], gone);
      var rest := Without(s[1..], gone);
      forall j | 0 <= j < |rest| ensures Less(s[0].min, rest[j].min) {
        assert rest[j] in s[1..];
        var i :| 0 <= i < |s[1..]| && s[1..][i] == rest[j];
      }
    }
  }

  /** What the search for a place finds: the first table that starts above the key */
  lemma {:induction false} PlaceFinds(s: seq<Table>, key: Key, default: nat, i: nat)
    requires default <= |s| && i <= |s|
    ensures
      var pos := PlaceFrom(s, key, default, i);
      if exists k :: i <= k < |s| && Less(key, s[k].min) then
        i <= pos < |s| && Less(key, s[pos].min) && forall k :: i <= k < pos ==> !Less(key, s[k].min)
      else pos == default
    decreases |s| - i
  {
    if i < |s| && !Less(key, s[i].min) {
      PlaceFinds(s, key, default, i + 1);
    }
  }

  /** Where a table may be inserted */
  lemma InsertByMin(s: seq<Table>, pos: nat, n: Table)
    requires ByMin(s) && pos <= |s|
    ensures ByMin(InsertTable(s, pos, n)) <==>
            && (forall i :: 0 <= i < pos ==> Less(s[i].min, n.min))
            && (forall i :: pos <= i < |s| ==> Less(n.min, s[i].min))
  {
    var r := InsertTable(s, pos, n);
    assert r[pos] == n;
    assert forall i :: 0 <= i < pos ==> r[i] == s[i];
    assert forall i :: pos <= i < |s| ==> r[i + 1] == s[i];
    if ByMin(r) {
      forall i | pos <= i < |s| ensures Less(n.min, s[i].min) {
        assert Less(r[pos].min, r[i + 1].min);
      }
    }
  }

  /** Inserting at the place that was found, when no table starts at the same key */
  lemma PlacedByMin(s: seq<Table>, n: Table, first: bool)
    requires ByMin(s) && forall t <- s :: t.min != n.min
    ensures ByMin(InsertTable(s, Place(s, n.min, if first then 0 else |s|), n)) <==>
            !first || s == [] || exists t <- s :: Less(n.min, t.min)
  {
    hide InsertTable, PlaceFrom;
    var default := if first then 0 else |s|;
    var pos := Place(s, n.min, default);
    PlaceFinds(s, n.min, default, 0);
    InsertByMin(s, pos, n);
    if k :| 0 <= k < |s| && Less(n.min, s[k].min) {
      assert s[k] in s;
      forall i | 0 <= i < pos ensures Less(s[i].min, n.min) {
        assert s[i] in s;
        LessTotal(s[i].min, n.min);
      }
      forall i | pos <= i < |s| ensures Less(n.min, s[i].min) {
        if pos < i { LessTransitive(n.min, s[pos].min, s[i].min); }
      }
    } else {
      forall i | 0 <= i < |s| ensures Less(s[i].min, n.min) {
        assert s[i] in s;
        LessTotal(s[i].min, n.min);
      }
    }
  }

  /** What a compaction leaves of its child level */
  ghost function Rest(tr: Tree, b: Job): seq<Table>
    requires b.parent + 1 < |tr.tables|
  {
    Without(tr.tables[b.parent + 1], b.kids)
  }

  lemma InstallPlaces(tr: Tree, j: JobId, rows: Rows, tr': Tree)
    requires Shape(tr) && j in tr.jobs && tr.jobs[j].phase.Merging? && tr' == DoInstall(tr, j, rows)
    requires ByMin(tr.tables[tr.jobs[j].parent + 1]) && forall t <- Rest(tr, tr.jobs[j]) :: t.min != tr.jobs[j].lo
    ensures |tr'.tables| == |tr.tables|
    ensures
      var b := tr.jobs[j];
      ByMin(tr'.tables[b.parent + 1]) <==>
      !b.Fast() || Rest(tr, b) == [] || exists t <- Rest(tr, b) :: Less(b.lo, t.min)
    ensures ByMin(tr.tables[tr.jobs[j].parent]) ==> ByMin(tr'.tables[tr.jobs[j].parent])
  {
    hide ByMin, Without, Place, InsertTable, DoInstall;
    var b := tr.jobs[j];
    InstallTablesAre(tr, j, rows);
    WithoutByMin(tr.tables[b.parent + 1], b.kids);
    PlacedByMin(Rest(tr, b), NewTable(b, rows), b.Fast());
    if ByMin(tr.tables[b.parent]) { WithoutByMin(tr.tables[b.parent], b.sel); }
  }

  /** Installing a table keeps a sorted child level sorted exactly if it is the result of a merge, there is no other
      table, or some table starts above it; the parent level always stays sorted. */
  lemma InstallSorted(tr: Tree, j: JobId, rows: Rows, tr': Tree)
    requires Shape(tr) && Enabled(tr, Install(j, rows)) && tr' == DoInstall(tr, j, rows)
    requires Safe(tr) && ByMin(tr.tables[tr.jobs[j].parent + 1])
    ensures |tr'.tables| == |tr.tables|
    ensures
      var b := tr.jobs[j];
      ByMin(tr'.tables[b.parent + 1]) <==>
      !b.Fast() || Rest(tr, b) == [] || exists t <- Rest(tr, b) :: Less(b.lo, t.min)
    ensures ByMin(tr.tables[tr.jobs[j].parent]) ==> ByMin(tr'.tables[tr.jobs[j].parent])
  {
    hide ByMin, Without, DoInstall, Safe, IsMerge, Unlocked;
    StartsApart(tr, j, rows, tr');
    InstallPlaces(tr, j, rows, tr');
  }

  lemma StartsApart(tr: Tree, j: JobId, rows: Rows, tr': Tree)
    requires Shape(tr) && Enabled(tr, Install(j, rows)) && tr' == DoInstall(tr, j, rows) && Safe(tr)
    ensures forall t <- Rest(tr, tr.jobs[j]) :: t.min != tr.jobs[j].lo
  {
    hide JobsOk, ManifestOk, IdsOk, IsMerge, DoInstall, Without, Place, InsertTable;
    var b := tr.jobs[j];
    var n := NewTable(b, rows);
    LevelSteps.LockExcludes(tr, j);
    InstallInv(tr, j, rows, tr');
    InstallTablesAre(tr, j, rows);
    NewIsNew(tr, j, n);
    var c := b.parent + 1;
    forall t | t in Without(tr.tables[c], b.kids) ensures t.min != b.lo {
      assert Has(tr'.tables, c, t) && Has(tr'.tables, c, n);
      assert n.WellFormed() && t.WellFormed() && !t.Overlaps(n.min, n.max);
      LessAsymmetric(n.min, n.min);
    }
  }

  lemma NewIsNew(tr: Tree, j: JobId, n: Table)
    requires Safe(tr) && j in tr.jobs && tr.jobs[j].phase.Merging? && n.id == tr.jobs[j].phase.id
    ensures n !in Without(tr.tables[tr.jobs[j].parent + 1], tr.jobs[j].kids)
  {
    hide Without, Unique, Owned, Reserved, ManifestOk, IdsOk, Well, Disjoint, Recent, InOrder;
    assert JobOk(tr, j, tr.jobs[j]);
    InstallNew(tr, j, tr.jobs[j], n);
  }

  /** Reopening gives a sorted level exactly if on that level higher ids have higher keys. */
  lemma ReloadSorted(tr: Tree, tr': Tree, l: nat)
    requires Safe(tr) && tr' == DoReload(tr) && l < |tr.tables|
    ensures ByMin(tr'.tables[l]) <==>
            forall t, u :: t in tr.tables[l] && u in tr.tables[l] && t.id < u.id ==> Less(t.min, u.min)
  {
    LevelSteps.ReloadHas(tr);
    hide TablesOk, JobsOk, IdsOk, LocksOk;
    var s, s' := tr.tables[l], tr'.tables[l];
    forall t ensures t in s <==> t in s' {
      assert Has(tr.tables, l, t) <==> Has(tr'.tables, l, t);
    }
    ReloadById(tr, tr', l);
    hide ManifestOk;
    if ByMin(s') {
      forall t, u | t in s && u in s && t.id < u.id ensures Less(t.min, u.min) {
        var i :| 0 <= i < |s'| && s'[i] == t;
        var k :| 0 <= k < |s'| && s'[k] == u;
      }
    } else {
      var i, k :| 0 <= i < k < |s'| && !Less(s'[i].min, s'[k].min);
      assert s'[i] in s && s'[k] in s && s'[i].id < s'[k].id;
    }
  }

  lemma ReloadById(tr: Tree, tr': Tree, l: nat)
    requires Shape(tr) && Loadable(tr) && ManifestOk(tr) && tr' == DoReload(tr) && l < |tr.tables|
    ensures forall i, k :: 0 <= i < k < |tr'.tables[l]| ==> tr'.tables[l][i].id < tr'.tables[l][k].id
  {
    forall i, k | 0 <= i < k < |tr'.tables[l]| ensures tr'.tables[l][i].id < tr'.tables[l][k].id {
      assert Lists(tr.listed, l, tr.listed[l][i]) && Lists(tr.listed, l, tr.listed[l][k]);
      assert Ascending(tr.listed[l]);
    }
  }

  // ---- runs that leave a level unsorted ----

  /** A run of the levels from an empty database with two levels */
  ghost predicate LevelRun(run: seq<Tree>, steps: seq<Step>) {
    && |run| == |steps| + 1 && run[0] == Fresh(2)
    && forall i :: 0 <= i < |steps| ==> Follows(run[i], steps[i], run[i + 1])
  }

  ghost predicate Follows(tr: Tree, st: Step, tr': Tree) {
    Shape(tr) && Loadable(tr) && Enabled(tr, st) && tr' == Apply(tr, st)
  }

  /** Take one more step; a run only reaches safe states. */
  lemma Extend(run: seq<Tree>, steps: seq<Step>, st: Step) returns (run': seq<Tree>, steps': seq<Step>)
    requires LevelRun(run, steps) && |run| == |steps| + 1 && Safe(run[|steps|]) && Enabled(run[|steps|], st)
    ensures LevelRun(run', steps') && |run'| == |steps'| + 1 && Safe(run'[|steps'|])
    ensures steps' == steps + [st] && run' == run + [Apply(run[|steps|], st)]
  {
    hide Enabled, Apply;
    LevelSteps.StepInv(run[|steps|], st);
    run', steps' := run + [Apply(run[|steps|], st)], steps + [st];
  }

  /** A table with one key */
  function One(id: TableId, key: Key): Table {
    Table(id, key, key, map[key := Version(id, None)])
  }

  /** Nothing is going on: the tables are `above` on level 0 and `below` on level 1. */
  ghost predicate Quiet(tr: Tree, above: seq<Table>, below: seq<Table>) {
    && tr.tables == [above, below] && |tr.holders| == |tr.listed| == 2 && tr.holders[1] == []
    && tr.jobs == map[] && tr.flags == map[] && tr.pending == None
  }

  /** One compaction of the only table on level 0 is going on. */
  ghost predicate Busy(tr: Tree, t: Table, below: seq<Table>, phase: Phase, holders: seq<Holder>) {
    && tr.tables == [[t], below] && |tr.holders| == |tr.listed| == 2 && tr.holders[1] == holders
    && tr.jobs == map[0 := Job(phase, 0, {t}, {}, t.min, t.max)] && tr.pending == None
  }

  lemma AddOne(run: seq<Tree>, steps: seq<Step>, below: seq<Table>, key: Key)
    returns (run': seq<Tree>, steps': seq<Step>, t: Table)
    requires LevelRun(run, steps) && |run| == |steps| + 1 && Safe(run[|steps|]) && Quiet(run[|steps|], [], below)
    requires forall u <- below :: key !in u.rows
    ensures LevelRun(run', steps') && |run'| == |steps'| + 1 && Safe(run'[|steps'|]) &&
        t == One(run[|steps|].nextId, key)
    ensures Quiet(run'[|steps'|], [t], below) && run'[|steps'|].nextId == t.id + 1
  {
    hide LevelRun, Safe, InsertId;
    SafeShape(run[|steps|]);
    t := One(run[|steps|].nextId, key);
    LessAsymmetric(key, key);
    run', steps' := Extend(run, steps, Reserve);
    assert Unlocked(run'[|steps'|], 0) && t.WellFormed();
    run', steps' := Extend(run', steps', AddL0(key, key, t.rows));
    assert [] + [t] == [t];
    assert run'[|steps'|].tables == [[t], below];
  }

  /** Select the only table of level 0. */
  lemma SelectOne(run: seq<Tree>, steps: seq<Step>, t: Table, below: seq<Table>)
    returns (run': seq<Tree>, steps': seq<Step>)
    requires LevelRun(run, steps) && |run| == |steps| + 1 && Safe(run[|steps|]) && Quiet(run[|steps|], [t], below)
    ensures LevelRun(run', steps') && |run'| == |steps'| + 1 && Safe(run'[|steps'|])
    ensures Busy(run'[|steps'|], t, below, Scanning(0), []) && run'[|steps'|].nextId == run[|steps|].nextId
  {
    hide LevelRun, Safe;
    SafeShape(run[|steps|]);
    run', steps' := Extend(run, steps, Start(0, 0, t));
    SafeShape(run'[|steps'|]);
    run', steps' := Extend(run', steps', CloseDone(0));
    SafeShape(run'[|steps'|]);
    run', steps' := Extend(run', steps', BeginScan(0));
  }

  /** Pass over a table of level 1 that does not overlap. */
  lemma PassOne(run: seq<Tree>, steps: seq<Step>, t: Table, u: Table) returns (run': seq<Tree>, steps': seq<Step>)
    requires LevelRun(run, steps) && |run| == |steps| + 1 && Safe(run[|steps|])
    requires Busy(run[|steps|], t, [u], Scanning(0), []) && !u.Overlaps(t.min, t.max)
    ensures LevelRun(run', steps') && |run'| == |steps'| + 1 && Safe(run'[|steps'|])
    ensures Busy(run'[|steps'|], t, [u], Scanning(1), []) && run'[|steps'|].nextId == run[|steps|].nextId
  {
    hide LevelRun, Safe, Meets;
    SafeShape(run[|steps|]);
    run', steps' := Extend(run, steps, Scan(0));
  }

  /** Reserve the range, lock the levels and move the table down. */
  lemma MoveOne(run: seq<Tree>, steps: seq<Step>, t: Table, below: seq<Table>)
    returns (run': seq<Tree>, steps': seq<Step>)
    requires LevelRun(run, steps) && |run| == |steps| + 1 && Safe(run[|steps|])
    requires Busy(run[|steps|], t, below, Scanning(|below|), [])
    ensures LevelRun(run', steps') && |run'| == |steps'| + 1 && Safe(run'[|steps'|])
    ensures Quiet(run'[|steps'|], [], InsertTable(below, Place(below, t.min, 0), t))
    ensures run'[|steps'|].nextId == run[|steps|].nextId
  {
    hide LevelRun, Safe, Place, InsertTable, Enabled, Apply, Busy, Quiet, Shape;
    SafeShape(run[|steps|]);
    HoldOne(run[|steps|], t, below);
    run', steps' := Extend(run, steps, Hold(0));
    SafeShape(run'[|steps'|]);
    LockOne(run'[|steps'|], t, below);
    run', steps' := Extend(run', steps', Lock(0));
    var ready := run'[|steps'|];
    SafeShape(ready);
    InstallReady(ready, t, below);
    run', steps' := Extend(run', steps', Install(0, t.rows));
    InstallOne(ready, run'[|steps'|], t, below);
  }

  lemma HoldOne(tr: Tree, t: Table, below: seq<Table>)
    requires Shape(tr) && Loadable(tr) && Busy(tr, t, below, Scanning(|below|), [])
    ensures Enabled(tr, Hold(0))
    ensures
      var tr' := Apply(tr, Hold(0));
      Busy(tr', t, below, Merging(t.id, false), [Holder(t.id, t.min, t.max)]) && tr'.nextId == tr.nextId
  {
    hide Meets;
    var b := tr.jobs[0];
    assert b.Fast();
    assert HoldId(tr, b) == t.id;
    assert [] + [Holder(t.id, t.min, t.max)] == [Holder(t.id, t.min, t.max)];
  }

  lemma LockOne(tr: Tree, t: Table, below: seq<Table>)
    requires Shape(tr) && Loadable(tr) && Busy(tr, t, below, Merging(t.id, false), [Holder(t.id, t.min, t.max)])
    ensures Enabled(tr, Lock(0))
    ensures
      var tr' := Apply(tr, Lock(0));
      Busy(tr', t, below, Merging(t.id, true), [Holder(t.id, t.min, t.max)]) && tr'.nextId == tr.nextId
  {
  }

  lemma InstallReady(tr: Tree, t: Table, below: seq<Table>)
    requires Shape(tr) && Loadable(tr) && Busy(tr, t, below, Merging(t.id, true), [Holder(t.id, t.min, t.max)])
    ensures Enabled(tr, Install(0, t.rows)) && Apply(tr, Install(0, t.rows)) == DoInstall(tr, 0, t.rows)
  {
    hide IsMerge, DoInstall;
    MergeIsOne(t);
  }

  lemma MergeIsOne(t: Table)
    ensures IsMerge(t.rows, {t} + {})
  {
    assert {t} + {} == {t};
  }

  lemma InstallOne(tr: Tree, tr': Tree, t: Table, below: seq<Table>)
    requires Shape(tr) && Busy(tr, t, below, Merging(t.id, true), [Holder(t.id, t.min, t.max)])
    requires tr' == DoInstall(tr, 0, t.rows) && Safe(tr')
    ensures Quiet(tr', [], InsertTable(below, Place(below, t.min, 0), t)) && tr'.nextId == tr.nextId
  {
    hide Place, InsertTable, InsertId, RemoveIds;
    var b := tr.jobs[0];
    assert b.Fast();
    Nothing(below);
    assert Without([t], {t}) == [];
    assert WithoutHolder([Holder(t.id, t.min, t.max)], t.id) == [];
    NoFlags(tr');
  }

  lemma {:induction false} Nothing(s: seq<Table>)
    ensures Without(s, {}) == s
  {
    if s != [] { Nothing(s[1..]); }
  }

  lemma NoFlags(tr: Tree)
    requires Safe(tr) && tr.jobs == map[]
    ensures tr.flags == map[]
  {
    hide TablesOk, ManifestOk, IdsOk;
  }

  /** Two tables that are moved down one after the other end up in the opposite order, whatever their keys. */
  lemma MoveTwo(a: Key, b: Key) returns (run: seq<Tree>, steps: seq<Step>)
    requires a != b
    ensures LevelRun(run, steps) && |run| == |steps| + 1 && Safe(run[|steps|])
    ensures Quiet(run[|steps|], [], [One(2, b), One(1, a)])
  {
    hide LevelRun, Safe, Place, InsertTable, Quiet, Busy;
    var t, u;
    run, steps := Begin();
    run, steps, t := AddOne(run, steps, [], a);
    run, steps := SelectOne(run, steps, t, []);
    run, steps := MoveOne(run, steps, t, []);
    PlaceOne(t);
    run, steps, u := AddOne(run, steps, [t], b);
    run, steps := SelectOne(run, steps, u, [t]);
    Distinct(t, u, a, b);
    run, steps := PassOne(run, steps, u, t);
    run, steps := MoveOne(run, steps, u, [t]);
    PlaceTwo(t, u);
  }

  lemma Begin() returns (run: seq<Tree>, steps: seq<Step>)
    ensures LevelRun(run, steps) && |run| == |steps| + 1 && Safe(run[|steps|]) && Quiet(run[|steps|], [], [])
    ensures run[|steps|].nextId == 1
  {
    FreshInv(2);
    run, steps := [Fresh(2)], [];
    assert Fresh(2).tables == [[], []];
  }

  lemma PlaceOne(t: Table)
    ensures InsertTable([], Place([], t.min, 0), t) == [t]
  {
  }

  lemma PlaceTwo(t: Table, u: Table)
    ensures InsertTable([t], Place([t], u.min, 0), u) == [u, t]
  {
  }

  lemma Distinct(t: Table, u: Table, a: Key, b: Key)
    requires a != b && t.min == t.max == a && u.min == u.max == b
    ensures !t.Overlaps(u.min, u.max)
  {
    LessTotal(a, b);
  }

  /** A run that leaves level 1 unsorted: the second table moved down starts above the first, and is put before it. */
  lemma FastMoveUnsorts() returns (run: seq<Tree>, steps: seq<Step>)
    ensures LevelRun(run, steps) && |run| == |steps| + 1 && |run[|steps|].tables| == 2 && !ByMin(run[|steps|].tables[1])
  {
    hide LevelRun, Safe;
    run, steps := MoveTwo([1], [2]);
    var s := run[|steps|].tables[1];
    assert s == [One(2, [2]), One(1, [1])];
    assert !Less(s[0].min, s[1].min);
  }

  /** A run in which reopening unsorts level 1: the table with the higher id starts below the other one. */
  lemma ReloadUnsorts() returns (run: seq<Tree>, steps: seq<Step>)
    ensures LevelRun(run, steps) && |run| == |steps| + 1 > 1 && steps[|steps| - 1] == Reload
    ensures |run[|steps| - 1].tables| == |run[|steps|].tables| == 2
    ensures ByMin(run[|steps| - 1].tables[1]) && !ByMin(run[|steps|].tables[1])
  {
    hide LevelRun, Safe;
    run, steps := MoveTwo([2], [1]);
    var tr := run[|steps|];
    SafeShape(tr);
    var t, u := One(2, [1]), One(1, [2]);
    assert tr.tables[1] == [t, u] && Less(t.min, u.min) && !Less(u.min, t.min);
    assert t in tr.tables[1] && u in tr.tables[1] && u.id < t.id;
    ReloadSorted(tr, DoReload(tr), 1);
    run, steps := Extend(run, steps, Reload);
  }

  lemma SafeShape(tr: Tree)
    requires Safe(tr)
    ensures Shape(tr) && Loadable(tr)
  {
  }
}
