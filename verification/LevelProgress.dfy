/** Compactions make progress: none ever waits for another one in a circle, and each ends after finitely many steps. */
module LevelProgress {
  import opened Keys
  import opened Versions
  import opened Levels
  import opened LevelSafety
  import LevelSteps

  /** Any tables can be merged. */
  lemma {:induction false} MergeExists(ts: set<Table>) returns (rows: Rows)
    ensures IsMerge(rows, ts)
    decreases |ts|
  {
    if ts == {} {
      rows := map[];
    } else {
      var t :| t in ts;
      var rest := MergeExists(ts - {t});
      hide IsMerge;
      rows := map k | k in rest.Keys + t.rows.Keys ::
        if k in rest && (k in t.rows ==> t.rows[k].num <= rest[k].num) then rest[k] else t.rows[k];
      MergeOneMore(ts - {t}, t, rest, rows);
      assert ts - {t} + {t} == ts;
    }
  }

  lemma MergeOneMore(ts: set<Table>, t: Table, rest: Rows, rows: Rows)
    requires IsMerge(rest, ts) && rows.Keys == rest.Keys + t.rows.Keys
    requires forall k <- rows ::
               rows[k] == if k in rest && (k in t.rows ==> t.rows[k].num <= rest[k].num) then rest[k] else t.rows[k]
    ensures IsMerge(rows, ts + {t})
  {
    forall k | k in rows ensures exists u :: u in ts + {t} && k in u.rows && u.rows[k] == rows[k] {
      if k in rest && rows[k] == rest[k] {
        var u :| u in ts && k in u.rows && u.rows[k] == rest[k];
        assert u in ts + {t};
      } else {
        assert t in ts + {t} && k in t.rows && t.rows[k] == rows[k];
      }
    }
    assert Covers(rows, ts + {t}) by {
      assert Covers(rest, ts);
    }
  }

  /** The compaction whose own step this is */
  function Mover(st: Step): Option<JobId> {
    match st
    case Start(j, _, _) => Some(j)
    case Grow(j, _) => Some(j)
    case CloseDone(j) => Some(j)
    case BeginScan(j) => Some(j)
    case Scan(j) => Some(j)
    case Hold(j) => Some(j)
    case Unflag(j, _) => Some(j)
    case Lock(j) => Some(j)
    case Install(j, _) => Some(j)
    case _ => None
  }

  /** Compaction `i` holds a lock that compaction `j` needs for its next step. */
  ghost predicate Blocks(tr: Tree, i: JobId, j: JobId)
    requires i in tr.jobs && j in tr.jobs
  {
    var a, b := tr.jobs[i], tr.jobs[j];
    match b.phase
    case Picked => a.Locks() && a.parent == b.parent + 1
    case Merging(_, locked) =>
      if locked then Holds(a, b.parent + 1) else Holds(a, b.parent)
    case _ => false
  }

  /** The compaction holds the read or the write lock of the level. */
  predicate Holds(a: Job, level: nat) {
    (a.phase.Closing? && level == 0) || (a.phase.Scanning? && level == a.parent + 1) || (a.Locks() && level == a.parent)
  }

  /** The level whose lock a compaction needs next */
  function Needs(b: Job): nat {
    if b.phase.Picked? || b.Locks() then b.parent + 1 else b.parent
  }

  /** A compaction that needs no lock has a step to take. */
  lemma FreeStep(tr: Tree, j: JobId) returns (st: Step)
    requires Safe(tr) && j in tr.jobs && !tr.jobs[j].phase.Merging? && !tr.jobs[j].phase.Picked?
    ensures Shape(tr) && Enabled(tr, st) && Mover(st) == Some(j)
  {
    hide TablesOk, IdsOk, ManifestOk, Owned, Hull, Closed, JobsApart, NoStrayFlags, NoStrayHolders;
    var b := tr.jobs[j];
    assert JobOk(tr, j, b);
    match b.phase {
      case Closing =>
        if t :| t in tr.tables[0] && t !in b.sel && t.Overlaps(b.lo, b.hi) {
          st := Grow(j, t);
        } else {
          st := CloseDone(j);
        }
      case Scanning(pos) =>
        st := if pos < |tr.tables[b.parent + 1]| then Scan(j) else Hold(j);
      case Aborting =>
        var t :| t in b.sel + b.kids;
        st := Unflag(j, t);
    }
  }

  lemma ScanLock(tr: Tree, j: JobId) returns (i: JobId)
    requires Shape(tr) && j in tr.jobs && tr.jobs[j].phase.Picked?
    ensures i in tr.jobs && (if i == j then Enabled(tr, BeginScan(j)) else Blocks(tr, i, j))
  {
    i := j;
    if !NoWriter(tr, tr.jobs[j].parent + 1) {
      i :| i in tr.jobs && tr.jobs[i].Locks() && tr.jobs[i].parent == tr.jobs[j].parent + 1;
    }
  }

  lemma ParentLock(tr: Tree, j: JobId) returns (i: JobId)
    requires Shape(tr) && j in tr.jobs && tr.jobs[j].phase.Merging? && !tr.jobs[j].phase.locked
    ensures i in tr.jobs && (if i == j then Enabled(tr, Lock(j)) else Blocks(tr, i, j))
  {
    i := j;
    if !Unlocked(tr, tr.jobs[j].parent) {
      assert !Holds(tr.jobs[j], tr.jobs[j].parent);
      i :| i in tr.jobs && Holds(tr.jobs[i], tr.jobs[j].parent);
    }
  }

  lemma ChildLock(tr: Tree, j: JobId, rows: Rows) returns (i: JobId)
    requires Shape(tr) && j in tr.jobs && tr.jobs[j].Locks() && IsMerge(rows, tr.jobs[j].sel + tr.jobs[j].kids)
    ensures i in tr.jobs && (if i == j then Enabled(tr, Install(j, rows)) else Blocks(tr, i, j))
  {
    hide IsMerge;
    i := j;
    if !Unlocked(tr, tr.jobs[j].parent + 1) {
      assert !Holds(tr.jobs[j], tr.jobs[j].parent + 1);
      i :| i in tr.jobs && Holds(tr.jobs[i], tr.jobs[j].parent + 1);
    }
  }

  /** A compaction that needs a lock gets it, unless another one holds that lock. */
  lemma LockStep(tr: Tree, j: JobId) returns (st: Step, i: JobId)
    requires Shape(tr) && j in tr.jobs && (tr.jobs[j].phase.Merging? || tr.jobs[j].phase.Picked?)
    ensures i in tr.jobs && Mover(st) == Some(j) && (if i == j then Enabled(tr, st) else Blocks(tr, i, j))
  {
    hide IsMerge, Enabled, Blocks;
    var b := tr.jobs[j];
    if b.phase.Picked? {
      st := BeginScan(j);
      i := ScanLock(tr, j);
    } else if b.phase.locked {
      var rows := MergeExists(b.sel + b.kids);
      st := Install(j, rows);
      i := ChildLock(tr, j, rows);
    } else {
      st := Lock(j);
      i := ParentLock(tr, j);
    }
  }

  lemma BlockedWaits(tr: Tree, i: JobId, j: JobId, st: Step)
    requires Shape(tr) && i in tr.jobs && j in tr.jobs && Blocks(tr, i, j) && Mover(st) == Some(j)
    ensures !Enabled(tr, st)
  {
    hide IsMerge, Meets;
  }

  /** A compaction has no step to take exactly while another one holds the lock that it needs. */
  lemma StepUnlessBlocked(tr: Tree, j: JobId)
    requires Safe(tr) && j in tr.jobs
    ensures Shape(tr)
    ensures (exists st :: Mover(st) == Some(j) && Enabled(tr, st)) <==> !exists i :: i in tr.jobs && Blocks(tr, i, j)
  {
    hide Safe, Enabled, Blocks, Mover, Shape;
    SafeShape(tr);
    if i :| i in tr.jobs && Blocks(tr, i, j) {
      forall st | Mover(st) == Some(j) ensures !Enabled(tr, st) {
        BlockedWaits(tr, i, j, st);
      }
    } else if tr.jobs[j].phase.Merging? || tr.jobs[j].phase.Picked? {
      var st, i := LockStep(tr, j);
    } else {
      var st := FreeStep(tr, j);
    }
  }

  /** Each compaction in `chain` waits for a lock that the next one holds. */
  ghost predicate WaitChain(tr: Tree, chain: seq<JobId>) {
    && chain != [] && (forall n :: 0 <= n < |chain| ==> chain[n] in tr.jobs)
    && (forall n :: 0 <= n < |chain| - 1 ==> Blocks(tr, chain[n + 1], chain[n]))
  }

  /** Waiting leads to deeper levels only: whoever holds a lock and waits itself, waits for a deeper level. */
  lemma WaitsGoDown(tr: Tree, i: JobId, j: JobId)
    requires i in tr.jobs && j in tr.jobs && Blocks(tr, i, j)
    ensures tr.jobs[i].phase.Closing? || tr.jobs[i].phase.Scanning? || Needs(tr.jobs[j]) < Needs(tr.jobs[i])
  {
  }

  lemma ChainCons(tr: Tree, j: JobId, rest: seq<JobId>)
    requires WaitChain(tr, rest) && j in tr.jobs && Blocks(tr, rest[0], j)
    ensures WaitChain(tr, [j] + rest)
  {
    hide Blocks;
    var chain := [j] + rest;
    forall n | 0 <= n < |chain| - 1 ensures Blocks(tr, chain[n + 1], chain[n]) {
      if n > 0 { assert Blocks(tr, rest[n - 1 + 1], rest[n - 1]); }
    }
  }

  lemma ChainOne(tr: Tree, j: JobId)
    requires j in tr.jobs
    ensures WaitChain(tr, [j])
  {
  }

  /** No deadlock: from every compaction, following the locks that are waited for leads, over ever deeper levels,
      to a compaction that can take a step. */
  lemma {:induction false} NoDeadlock(tr: Tree, j: JobId) returns (chain: seq<JobId>, st: Step)
    requires Safe(tr) && j in tr.jobs
    ensures WaitChain(tr, chain) && chain != [] && chain[0] == j
    ensures Enabled(tr, st) && Mover(st) == Some(chain[|chain| - 1])
    decreases |tr.tables| - Needs(tr.jobs[j])
  {
    hide Safe, Enabled, Blocks, WaitChain, Needs, Shape, Mover;
    SafeShape(tr);
    NeedsBound(tr, j);
    chain := [j];
    ChainOne(tr, j);
    if !tr.jobs[j].phase.Merging? && !tr.jobs[j].phase.Picked? {
      st := FreeStep(tr, j);
    } else {
      var i;
      st, i := LockStep(tr, j);
      if i != j {
        WaitsGoDown(tr, i, j);
        var rest := [i];
        ChainOne(tr, i);
        if tr.jobs[i].phase.Closing? || tr.jobs[i].phase.Scanning? {
          st := FreeStep(tr, i);
        } else {
          NeedsBound(tr, i);
          rest, st := NoDeadlock(tr, i);
        }
        ChainCons(tr, j, rest);
        chain := [j] + rest;
        assert chain[|chain| - 1] == rest[|rest| - 1];
      }
    }
  }

  lemma SafeShape(tr: Tree)
    requires Safe(tr)
    ensures Shape(tr)
  {
  }

  lemma NeedsBound(tr: Tree, j: JobId)
    requires Safe(tr) && j in tr.jobs
    ensures Needs(tr.jobs[j]) < |tr.tables|
  {
    assert JobOk(tr, j, tr.jobs[j]);
  }

  // ---- every compaction ends ----

  function Stage(p: Phase): nat {
    match p
    case Closing => 5
    case Picked => 4
    case Scanning(_) => 3
    case Merging(_, locked) => if locked then 1 else 2
    case Aborting => 0
  }

  /** How much is left to do at this stage: tables to look at, or flags to give back */
  ghost function Left(tr: Tree, b: Job): int
    requires Shape(tr) && b.parent + 1 < |tr.tables|
  {
    match b.phase
    case Closing => |set t | t in tr.tables[0] && t !in b.sel|
    case Scanning(pos) => |tr.tables[b.parent + 1]| - pos
    case Aborting => |b.sel + b.kids|
    case _ => 0
  }

  /** Closer to the end: a later stage, or the same with less left */
  ghost predicate Closer(tr: Tree, b: Job, tr': Tree, b': Job)
    requires Shape(tr) && Shape(tr') && b.parent + 1 < |tr.tables| && b'.parent + 1 < |tr'.tables|
  {
    || Stage(b'.phase) < Stage(b.phase)
    || (Stage(b'.phase) == Stage(b.phase) && 0 <= Left(tr', b') < Left(tr, b))
  }

  lemma Shrinks<T>(a: set<T>, b: set<T>, x: T)
    requires b < a || (b <= a && x in a && x !in b)
    ensures |b| < |a|
  {
    assert b < a;
    SmallerSet(a, b);
  }

  lemma {:induction false} SmallerSet<T>(a: set<T>, b: set<T>)
    requires b < a
    ensures |b| < |a|
    decreases b
  {
    if b != {} {
      var x :| x in b;
      assert |a - {x}| == |a| - 1 && |b - {x}| == |b| - 1;
      SmallerSet(a - {x}, b - {x});
    }
  }

  lemma GrowCloser(tr: Tree, b: Job, t: Table, tr': Tree, b': Job)
    requires Shape(tr) && Shape(tr') && b.parent + 1 < |tr.tables| && b'.parent + 1 < |tr'.tables|
    requires b.phase.Closing? && t in tr.tables[0] && t !in b.sel
    requires b'.phase.Closing? && b'.sel == b.sel + {t} && tr'.tables == tr.tables
    ensures Closer(tr, b, tr', b')
  {
    var before := set u | u in tr.tables[0] && u !in b.sel;
    var after := set u | u in tr.tables[0] && u !in b'.sel;
    Shrinks(before, after, t);
  }

  lemma UnflagCloser(tr: Tree, b: Job, t: Table, tr': Tree, b': Job)
    requires Shape(tr) && Shape(tr') && b.parent + 1 < |tr.tables| && b'.parent + 1 < |tr'.tables|
    requires b.phase.Aborting? && b'.phase.Aborting? && t in b.sel + b.kids
    requires b'.sel == b.sel - {t} && b'.kids == b.kids - {t}
    ensures Closer(tr, b, tr', b')
  {
    Shrinks(b.sel + b.kids, b'.sel + b'.kids, t);
  }

  /** The compaction is over, or closer to its end. */
  ghost predicate Advances(tr: Tree, j: JobId, tr': Tree)
    requires Shape(tr)
  {
    j in tr.jobs && (j !in tr'.jobs || (Shape(tr') && Closer(tr, tr.jobs[j], tr', tr'.jobs[j])))
  }

  lemma GrowAdvances(tr: Tree, j: JobId, t: Table, tr': Tree)
    requires Shape(tr) && Enabled(tr, Grow(j, t)) && tr' == DoGrow(tr, j, t)
    ensures Advances(tr, j, tr')
  {
    hide Closer, Meets;
    if t.id in tr.flags {
      LaterCloser(tr, tr.jobs[j], tr', tr'.jobs[j]);
    } else {
      GrowCloser(tr, tr.jobs[j], t, tr', tr'.jobs[j]);
    }
  }

  lemma ScanAdvances(tr: Tree, j: JobId, tr': Tree)
    requires Shape(tr) && Enabled(tr, Scan(j)) && tr' == DoScan(tr, j)
    ensures Advances(tr, j, tr')
  {
    hide Closer, Meets;
    if tr'.jobs[j].phase.Scanning? {
      ScanCloser(tr, tr.jobs[j], tr', tr'.jobs[j]);
    } else {
      LaterCloser(tr, tr.jobs[j], tr', tr'.jobs[j]);
    }
  }

  lemma HoldAdvances(tr: Tree, j: JobId, tr': Tree)
    requires Shape(tr) && Enabled(tr, Hold(j)) && tr' == DoHold(tr, j)
    ensures Advances(tr, j, tr')
  {
    hide Closer, Held, HoldId;
    LaterCloser(tr, tr.jobs[j], tr', tr'.jobs[j]);
  }

  lemma UnflagAdvances(tr: Tree, j: JobId, t: Table, tr': Tree)
    requires Shape(tr) && Enabled(tr, Unflag(j, t)) && tr' == DoUnflag(tr, j, t)
    ensures Advances(tr, j, tr')
  {
    hide Closer;
    if j in tr'.jobs {
      UnflagCloser(tr, tr.jobs[j], t, tr', tr'.jobs[j]);
    }
  }

  lemma PhaseAdvances(tr: Tree, j: JobId, phase: Phase, tr': Tree)
    requires Shape(tr) && j in tr.jobs && Stage(phase) < Stage(tr.jobs[j].phase)
    requires tr' == SetJob(tr, j, tr.jobs[j].(phase := phase))
    ensures Advances(tr, j, tr')
  {
    hide Closer;
    LaterCloser(tr, tr.jobs[j], tr', tr'.jobs[j]);
  }

  lemma LockAdvances(tr: Tree, j: JobId, tr': Tree)
    requires Shape(tr) && Enabled(tr, Lock(j)) && tr' == DoLock(tr, j)
    ensures Advances(tr, j, tr')
  {
    hide Closer, Unlocked;
    LaterCloser(tr, tr.jobs[j], tr', tr'.jobs[j]);
  }

  lemma InstallAdvances(tr: Tree, j: JobId, rows: Rows, tr': Tree)
    requires Shape(tr) && Enabled(tr, Install(j, rows)) && tr' == DoInstall(tr, j, rows)
    ensures Advances(tr, j, tr')
  {
    hide Closer, Without, WithoutHolder, Place, InsertTable, InsertId, RemoveIds, IsMerge;
  }

  /** Each of its own steps brings a compaction closer to its end. */
  lemma OwnStepCloser(tr: Tree, st: Step, j: JobId, tr': Tree)
    requires Shape(tr) && Loadable(tr) && Enabled(tr, st) && Mover(st) == Some(j) && !st.Start? && tr' == Apply(tr, st)
    ensures Advances(tr, j, tr')
  {
    hide DoGrow, DoScan, DoHold, DoUnflag, DoLock, DoInstall, DoReload, DoAddL0, IsMerge, Loadable, Meets, Advances,
      Unlocked, NoWriter;
    match st {
      case Grow(_, t) => GrowAdvances(tr, j, t, tr');
      case CloseDone(_) => PhaseAdvances(tr, j, Picked, tr');
      case BeginScan(_) => PhaseAdvances(tr, j, Scanning(0), tr');
      case Scan(_) => ScanAdvances(tr, j, tr');
      case Hold(_) => HoldAdvances(tr, j, tr');
      case Unflag(_, t) => UnflagAdvances(tr, j, t, tr');
      case Lock(_) => LockAdvances(tr, j, tr');
      case Install(_, rows) => InstallAdvances(tr, j, rows, tr');
      case _ =>
    }
  }

  lemma LaterCloser(tr: Tree, b: Job, tr': Tree, b': Job)
    requires Shape(tr) && Shape(tr') && b.parent + 1 < |tr.tables| && b'.parent + 1 < |tr'.tables|
    requires Stage(b'.phase) < Stage(b.phase)
    ensures Closer(tr, b, tr', b')
  {
  }

  lemma ScanCloser(tr: Tree, b: Job, tr': Tree, b': Job)
    requires Shape(tr) && Shape(tr') && b.parent == b'.parent && b.parent + 1 < |tr.tables| && tr'.tables == tr.tables
    requires b.phase.Scanning? && b'.phase == Scanning(b.phase.pos + 1) && b.phase.pos < |tr.tables[b.parent + 1]|
    ensures Closer(tr, b, tr', b')
  {
  }

  lemma InstallLeavesLocked(tr: Tree, i: JobId, rows: Rows, b: Job, tr': Tree)
    requires Shape(tr) && Enabled(tr, Install(i, rows)) && tr' == DoInstall(tr, i, rows)
    requires b.parent + 1 < |tr.tables|
    requires b.phase.Closing? ==> 0 != tr.jobs[i].parent && 0 != tr.jobs[i].parent + 1
    requires b.phase.Scanning? ==> b.parent + 1 != tr.jobs[i].parent && b.parent + 1 != tr.jobs[i].parent + 1
    ensures Shape(tr') && tr'.jobs == tr.jobs - {i} && |tr'.tables| == |tr.tables|
    ensures b.phase.Closing? ==> tr'.tables[0] == tr.tables[0]
    ensures b.phase.Scanning? ==> tr'.tables[b.parent + 1] == tr.tables[b.parent + 1]
  {
    hide Without, WithoutHolder, Place, InsertTable, InsertId, RemoveIds, IsMerge, Unlocked;
  }

  lemma InstallKeeps(tr: Tree, i: JobId, rows: Rows, j: JobId, tr': Tree)
    requires Shape(tr) && Enabled(tr, Install(i, rows)) && i != j && j in tr.jobs && LocksOk(tr.jobs)
    requires tr' == DoInstall(tr, i, rows)
    ensures Shape(tr') && j in tr'.jobs && tr'.jobs[j] == tr.jobs[j]
    ensures Left(tr', tr'.jobs[j]) == Left(tr, tr.jobs[j])
  {
    hide DoInstall, IsMerge, Left;
    InstallLeavesLocked(tr, i, rows, tr.jobs[j], tr');
    SameLeft(tr, tr', tr.jobs[j]);
  }

  /** A step that leaves the tables alone, and changes at most job `i` */
  ghost predicate OnlyMoves(tr: Tree, i: Option<JobId>, tr': Tree) {
    && tr'.tables == tr.tables && |tr'.holders| == |tr.holders| && |tr'.listed| == |tr.listed|
    && (forall j :: j in tr.jobs && i != Some(j) ==> j in tr'.jobs && tr'.jobs[j] == tr.jobs[j])
    && (forall j <- tr'.jobs :: tr'.jobs[j].parent + 1 < |tr.tables|)
  }

  lemma MovesKeep(tr: Tree, i: Option<JobId>, j: JobId, tr': Tree)
    requires Shape(tr) && OnlyMoves(tr, i, tr') && i != Some(j) && j in tr.jobs
    ensures Shape(tr') && j in tr'.jobs && tr'.jobs[j] == tr.jobs[j]
    ensures Left(tr', tr'.jobs[j]) == Left(tr, tr.jobs[j])
  {
    hide Left;
    SameLeft(tr, tr', tr.jobs[j]);
  }

  lemma OneMoves(tr: Tree, j: JobId, b: Job, tr': Tree)
    requires Shape(tr) && tr'.tables == tr.tables && |tr'.holders| == |tr.holders| && |tr'.listed| == |tr.listed|
    requires b.parent + 1 < |tr.tables| && (tr'.jobs == tr.jobs[j := b] || tr'.jobs == tr.jobs - {j})
    ensures OnlyMoves(tr, Some(j), tr')
  {
  }

  lemma StepOnlyMoves(tr: Tree, st: Step, tr': Tree)
    requires Shape(tr) && Loadable(tr) && Enabled(tr, st) && tr' == Apply(tr, st)
    requires !st.Install? && !st.AddL0? && !st.Reload?
    ensures OnlyMoves(tr, Mover(st), tr')
  {
    hide Loadable, HoldId, Held, Meets, Unlocked, NoWriter, OnlyMoves;
    match st {
      case Reserve => NoneMoves(tr, tr');
      case Start(j, _, _) => OneMoves(tr, j, tr'.jobs[j], tr');
      case Grow(j, _) => OneMoves(tr, j, tr'.jobs[j], tr');
      case CloseDone(j) => OneMoves(tr, j, tr'.jobs[j], tr');
      case BeginScan(j) => OneMoves(tr, j, tr'.jobs[j], tr');
      case Scan(j) => OneMoves(tr, j, tr'.jobs[j], tr');
      case Hold(j) => OneMoves(tr, j, tr'.jobs[j], tr');
      case Lock(j) => OneMoves(tr, j, tr'.jobs[j], tr');
      case Unflag(j, _) => OneMoves(tr, j, if j in tr'.jobs then tr'.jobs[j] else tr.jobs[j], tr');
      case _ =>
    }
  }

  lemma NoneMoves(tr: Tree, tr': Tree)
    requires Shape(tr) && tr'.tables == tr.tables && tr'.holders == tr.holders && tr'.listed == tr.listed
    requires tr'.jobs == tr.jobs
    ensures OnlyMoves(tr, None, tr')
  {
  }

  lemma AddL0Keeps(tr: Tree, min: Key, max: Key, rows: Rows, j: JobId, tr': Tree)
    requires Shape(tr) && Enabled(tr, AddL0(min, max, rows)) && j in tr.jobs && tr' == DoAddL0(tr, min, max, rows)
    ensures Shape(tr') && j in tr'.jobs && tr'.jobs[j] == tr.jobs[j]
    ensures Left(tr', tr'.jobs[j]) == Left(tr, tr.jobs[j])
  {
    hide InsertId, Left;
    SameLeft(tr, tr', tr.jobs[j]);
  }

  /** No other step sets a compaction back: while it counts tables of a level, it holds that level's lock. */
  lemma OtherStepKeeps(tr: Tree, st: Step, j: JobId, tr': Tree)
    requires Shape(tr) && Loadable(tr) && LocksOk(tr.jobs)
    requires Enabled(tr, st) && Mover(st) != Some(j) && st != Reload && j in tr.jobs
    requires tr' == Apply(tr, st)
    ensures Shape(tr') && j in tr'.jobs && tr'.jobs[j] == tr.jobs[j]
    ensures Left(tr', tr'.jobs[j]) == Left(tr, tr.jobs[j])
  {
    hide DoInstall, DoAddL0, DoReload, DoGrow, DoScan, DoHold, DoUnflag, DoLock, DoStart, Left, LocksOk, Enabled,
      Loadable, OnlyMoves;
    if st.Install? {
      InstallKeeps(tr, st.j, st.rows, j, tr');
    } else if st.AddL0? {
      AddL0Keeps(tr, st.min, st.max, st.rows, j, tr');
    } else {
      StepOnlyMoves(tr, st, tr');
      MovesKeep(tr, Mover(st), j, tr');
    }
  }

  lemma SameLeft(tr: Tree, tr': Tree, b: Job)
    requires Shape(tr) && Shape(tr') && b.parent + 1 < |tr.tables| == |tr'.tables|
    requires b.phase.Closing? ==> tr'.tables[0] == tr.tables[0]
    requires b.phase.Scanning? ==> tr'.tables[b.parent + 1] == tr.tables[b.parent + 1]
    ensures Left(tr', b) == Left(tr, b)
  {
  }

  // ---- over whole runs ----

  /** Step `n` of an infinite run without a restart */
  ghost predicate StepAt(f: nat -> Tree, g: nat -> Step, n: nat) {
    && Shape(f(n)) && Loadable(f(n)) && Enabled(f(n), g(n)) && g(n) != Reload
    && f(n + 1) == Apply(f(n), g(n))
  }

  ghost predicate Forever(f: nat -> Tree, g: nat -> Step) {
    Safe(f(0)) && forall n: nat :: StepAt(f, g, n)
  }

  /** From state `a` on compaction `j` never ends. */
  ghost predicate Alive(f: nat -> Tree, j: JobId, a: nat) {
    forall n: nat :: a <= n ==> j in f(n).jobs
  }

  lemma {:induction false} ForeverSafe(f: nat -> Tree, g: nat -> Step, n: nat)
    requires Forever(f, g)
    ensures Safe(f(n))
  {
    hide Safe, Apply, Enabled;
    if n > 0 {
      ForeverSafe(f, g, n - 1);
      assert StepAt(f, g, n - 1);
      LevelSteps.StepInv(f(n - 1), g(n - 1));
    }
  }

  /** No further from the end */
  ghost predicate NotFurther(tr: Tree, b: Job, tr': Tree, b': Job)
    requires Shape(tr) && Shape(tr') && b.parent + 1 < |tr.tables| && b'.parent + 1 < |tr'.tables|
  {
    || Stage(b'.phase) < Stage(b.phase)
    || (Stage(b'.phase) == Stage(b.phase) && Left(tr', b') <= Left(tr, b))
  }

  lemma OneStepNotFurther(tr: Tree, st: Step, j: JobId, tr': Tree)
    requires Shape(tr) && Loadable(tr) && LocksOk(tr.jobs) && Enabled(tr, st) && st != Reload && tr' == Apply(tr, st)
    requires j in tr.jobs && j in tr'.jobs
    ensures Shape(tr') && NotFurther(tr, tr.jobs[j], tr', tr'.jobs[j])
  {
    hide Apply, Enabled, Left, LocksOk, Loadable;
    if Mover(st) == Some(j) {
      NotStart(tr, st, j);
      OwnStepCloser(tr, st, j, tr');
    } else {
      OtherStepKeeps(tr, st, j, tr');
    }
  }

  lemma NotStart(tr: Tree, st: Step, j: JobId)
    requires Shape(tr) && Enabled(tr, st) && Mover(st) == Some(j) && j in tr.jobs
    ensures !st.Start?
  {
  }

  lemma {:induction false} RunNotFurther(f: nat -> Tree, g: nat -> Step, j: JobId, a: nat, n: nat)
    requires Forever(f, g) && Alive(f, j, a) && a <= n
    ensures Shape(f(a)) && Shape(f(n)) && NotFurther(f(a), f(a).jobs[j], f(n), f(n).jobs[j])
    decreases n
  {
    hide Apply, Enabled, Left, Inv, LocksOk, Loadable;
    ForeverSafe(f, g, n);
    SafeShape(f(n));
    if n > a {
      RunNotFurther(f, g, j, a, n - 1);
      ForeverSafe(f, g, n - 1);
      assert StepAt(f, g, n - 1);
      OneStepNotFurther(f(n - 1), g(n - 1), j, f(n));
    }
  }

  lemma LeftPositive(tr: Tree, j: JobId)
    requires Safe(tr) && j in tr.jobs
    ensures Shape(tr) && 0 <= Left(tr, tr.jobs[j])
  {
    hide TablesOk, IdsOk, ManifestOk, JobsApart, NoStrayFlags, NoStrayHolders, Owned, Hull, Closed, Reserved;
    assert JobOk(tr, j, tr.jobs[j]);
  }

  /** Every compaction ends: one that would go on forever takes only finitely many steps, whatever else happens. */
  lemma {:induction false} CompactionEnds(f: nat -> Tree, g: nat -> Step, j: JobId, a: nat) returns (m: nat)
    requires Forever(f, g) && Alive(f, j, a) && Shape(f(a))
    ensures a <= m && forall n: nat :: m <= n ==> Mover(g(n)) != Some(j)
    decreases Stage(f(a).jobs[j].phase), Left(f(a), f(a).jobs[j])
  {
    hide Apply, Enabled, Left, Inv, LocksOk, Loadable;
    m := a;
    if n: nat :| a <= n && Mover(g(n)) == Some(j) {
      RunNotFurther(f, g, j, a, n);
      ForeverSafe(f, g, a);
      ForeverSafe(f, g, n);
      ForeverSafe(f, g, n + 1);
      assert StepAt(f, g, n);
      SafeShape(f(n + 1));
      NotStart(f(n), g(n), j);
      OwnStepCloser(f(n), g(n), j, f(n + 1));
      LeftPositive(f(a), j);
      LeftPositive(f(n), j);
      m := CompactionEnds(f, g, j, n + 1);
    }
  }
}
