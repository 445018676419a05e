/** How versions move through the levels: a step never loses one, never lifts one to a higher
    level and never makes one up. Also what searching a level finds. */
module LevelMotion {
  import opened Keys
  import opened Versions
  import opened Levels
  import opened LevelSafety
  import LevelSteps

  /** Some table at level `from` or below has a version of `k` numbered at least `num`. */
  ghost predicate HasFrom(tables: seq<seq<Table>>, from: int, k: Key, num: nat) {
    exists l, t :: from <= l && Has(tables, l, t) && k in t.rows && num <= t.rows[k].num
  }

  /** Some table has exactly this version. */
  ghost predicate Stored(tables: seq<seq<Table>>, k: Key, v: Version) {
    exists l, t :: Has(tables, l, t) && k in t.rows && t.rows[k] == v
  }

  lemma InstallSinks(tr: Tree, j: JobId, b: Job, n: Table, tr': Tree, from: int, k: Key, num: nat)
    requires Installs(tr, j, b, n, tr') && b.parent + 1 < |tr.tables| && Covers(n.rows, b.sel + b.kids)
    requires HasFrom(tr.tables, from, k, num)
    ensures HasFrom(tr'.tables, from, k, num)
  {
    var l, t :| from <= l && Has(tr.tables, l, t) && k in t.rows && num <= t.rows[k].num;
    if Gone(b, l, t) {
      assert t in b.sel + b.kids;
      assert Has(tr'.tables, b.parent + 1, n);
    } else {
      assert Has(tr'.tables, l, t);
    }
  }

  lemma InstallDraws(tr: Tree, j: JobId, b: Job, n: Table, tr': Tree, k: Key, v: Version)
    requires Installs(tr, j, b, n, tr') && Owned(tr, j, b) && DrawnFrom(n.rows, b.sel + b.kids)
    requires Stored(tr'.tables, k, v)
    ensures Stored(tr.tables, k, v)
  {
    var l, t :| Has(tr'.tables, l, t) && k in t.rows && t.rows[k] == v;
    if !Has(tr.tables, l, t) {
      var m, u := NewRow(tr, j, b, n.rows, k);
    }
  }

  /** The tables are the same on every level, though perhaps in another order. */
  ghost predicate SameTables(tables: seq<seq<Table>>, tables': seq<seq<Table>>) {
    forall l, t :: Has(tables', l, t) <==> Has(tables, l, t)
  }

  /** Does the step keep every table where it is? */
  predicate KeepsTables(st: Step) {
    !st.AddL0? && !st.Install? && !st.Reload?
  }

  lemma KeptTables(tr: Tree, st: Step)
    requires Shape(tr) && Loadable(tr) && Enabled(tr, st) && KeepsTables(st)
    ensures Apply(tr, st).tables == tr.tables
  {
  }

  /** Versions only sink: whatever is found from some level down is still found from there down after any step. */
  lemma StepSinks(tr: Tree, st: Step, from: int, k: Key, num: nat)
    requires Safe(tr) && Enabled(tr, st) && HasFrom(tr.tables, from, k, num)
    ensures HasFrom(Apply(tr, st).tables, from, k, num)
  {
    hide TablesOk, JobsOk, IdsOk, DoInstall, DoReload, DoAddL0, DoHold, DoScan, DoGrow, DoUnflag, DoStart;
    var tr' := Apply(tr, st);
    if st.Install? {
      var b := tr.jobs[st.j];
      InstallEffect(tr, st.j, st.rows);
      InstallSinks(tr, st.j, b, NewTable(b, st.rows), tr', from, k, num);
    } else {
      var l, t :| from <= l && Has(tr.tables, l, t) && k in t.rows && num <= t.rows[k].num;
      if st.AddL0? {
        LevelSteps.AddL0Has(tr, st.min, st.max, st.rows, tr');
      } else if st.Reload? {
        LevelSteps.ReloadHas(tr);
      } else {
        KeptTables(tr, st);
      }
      assert Has(tr'.tables, l, t);
    }
  }

  /** Every version after a step was there before, or was flushed by the step. */
  lemma StepDraws(tr: Tree, st: Step, k: Key, v: Version)
    requires Safe(tr) && Enabled(tr, st) && Stored(Apply(tr, st).tables, k, v)
    ensures Stored(tr.tables, k, v) || (st.AddL0? && k in st.rows && st.rows[k] == v)
  {
    hide TablesOk, IdsOk, DoInstall, DoReload, DoAddL0, DoHold, DoScan, DoGrow, DoUnflag, DoStart;
    var tr' := Apply(tr, st);
    if st.Install? {
      var b := tr.jobs[st.j];
      assert JobOk(tr, st.j, b);
      hide JobsOk, JobOk;
      InstallEffect(tr, st.j, st.rows);
      InstallDraws(tr, st.j, b, NewTable(b, st.rows), tr', k, v);
    } else {
      hide JobsOk;
      var l, t :| Has(tr'.tables, l, t) && k in t.rows && t.rows[k] == v;
      if st.AddL0? {
        LevelSteps.AddL0Has(tr, st.min, st.max, st.rows, tr');
      } else if st.Reload? {
        LevelSteps.ReloadHas(tr);
      } else {
        KeptTables(tr, st);
      }
    }
  }

  // ---- searching ----

  /** Search one level's tables from the last to the first. */
  function SearchLevel(s: seq<Table>, k: Key): Option<Version> {
    if s == [] then None
    else if k in s[|s| - 1].rows then Some(s[|s| - 1].rows[k])
    else SearchLevel(s[..|s| - 1], k)
  }

  lemma {:induction false} SearchLevelFinds(s: seq<Table>, k: Key)
    ensures SearchLevel(s, k) == None ==> forall t <- s :: k !in t.rows
    ensures SearchLevel(s, k).Some? ==>
              exists i :: 0 <= i < |s| && k in s[i].rows && s[i].rows[k] == SearchLevel(s, k).value &&
                          forall j :: i < j < |s| ==> k !in s[j].rows
  {
    if s != [] && k !in s[|s| - 1].rows {
      var init := s[..|s| - 1];
      SearchLevelFinds(init, k);
      assert forall t <- s :: t in init || t == s[|s| - 1];
      if SearchLevel(s, k).Some? {
        var i :| 0 <= i < |init| && k in init[i].rows && init[i].rows[k] == SearchLevel(s, k).value &&
                 forall j :: i < j < |init| ==> k !in init[j].rows;
        assert forall j :: i < j < |s| ==> k !in s[j].rows;
      }
    }
  }

  /** What a level search finds is the newest version on this level and all below. */
  lemma SearchLevelNewest(tables: seq<seq<Table>>, l: int, k: Key, num: nat)
    requires TablesOk(tables) && 0 <= l < |tables| && HasFrom(tables, l, k, num)
    ensures SearchLevel(tables[l], k).Some? ==> num <= SearchLevel(tables[l], k).value.num
    ensures SearchLevel(tables[l], k).None? ==> HasFrom(tables, l + 1, k, num)
  {
    var m, u :| l <= m && Has(tables, m, u) && k in u.rows && num <= u.rows[k].num;
    SearchLevelFinds(tables[l], k);
    if SearchLevel(tables[l], k).Some? {
      var i :| 0 <= i < |tables[l]| && k in tables[l][i].rows &&
          tables[l][i].rows[k] == SearchLevel(tables[l], k).value &&
               forall j :: i < j < |tables[l]| ==> k !in tables[l][j].rows;
      var t := tables[l][i];
      assert Has(tables, l, t);
      if u != t {
        if m == l { SameLevel(tables, l, i, u, k); }
        assert Above(l, t, m, u);
      } else {
        assert m == l;
      }
    }
  }

  /** Within a level only level 0 can hold a key twice, and there the later table is newer. */
  lemma SameLevel(tables: seq<seq<Table>>, l: int, i: nat, u: Table, k: Key)
    requires Well(tables) && Disjoint(tables) && InOrder(tables)
    requires 0 <= l < |tables| && i < |tables[l]| && Has(tables, l, u) && u != tables[l][i]
    requires k in tables[l][i].rows && k in u.rows && forall j :: i < j < |tables[l]| ==> k !in tables[l][j].rows
    ensures l == 0 && u.id < tables[l][i].id
  {
    var j :| 0 <= j < |tables[l]| && tables[l][j] == u;
    assert Has(tables, l, tables[l][i]);
    SharedKeyOverlaps(u, tables[l][i], k);
  }

  lemma SearchLevelStored(tables: seq<seq<Table>>, l: int, k: Key)
    requires 0 <= l < |tables| && SearchLevel(tables[l], k).Some?
    ensures Stored(tables, k, SearchLevel(tables[l], k).value)
  {
    SearchLevelFinds(tables[l], k);
    var i :| 0 <= i < |tables[l]| && k in tables[l][i].rows && tables[l][i].rows[k] == SearchLevel(tables[l], k).value;
    assert Has(tables, l, tables[l][i]);
  }

  /** Search the levels in order, starting at `l`. */
  function SearchFrom(tables: seq<seq<Table>>, l: nat, k: Key): Option<Version>
    decreases |tables| - l
  {
    if l >= |tables| then None
    else if SearchLevel(tables[l], k).Some? then SearchLevel(tables[l], k)
    else SearchFrom(tables, l + 1, k)
  }

  lemma {:induction false} SearchFromNewest(tables: seq<seq<Table>>, l: nat, k: Key, num: nat)
    requires TablesOk(tables) && HasFrom(tables, l, k, num)
    ensures SearchFrom(tables, l, k).Some? && num <= SearchFrom(tables, l, k).value.num
    decreases |tables| - l
  {
    if l < |tables| {
      SearchLevelNewest(tables, l, k, num);
      if SearchLevel(tables[l], k).None? {
        SearchFromNewest(tables, l + 1, k, num);
      }
    }
  }

  lemma {:induction false} SearchFromStored(tables: seq<seq<Table>>, l: nat, k: Key)
    requires SearchFrom(tables, l, k).Some?
    ensures Stored(tables, k, SearchFrom(tables, l, k).value)
    decreases |tables| - l
  {
    if SearchLevel(tables[l], k).Some? {
      SearchLevelStored(tables, l, k);
    } else {
      SearchFromStored(tables, l + 1, k);
    }
  }
}
