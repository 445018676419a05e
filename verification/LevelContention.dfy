/** When a compaction gives up: exactly on contention with another one. A step that ends a job in phase Aborting
    does so because another job holds a table that this one needs, or has reserved a range of keys that its new
    table would share. So a compaction that has no rival runs to its install. */
module LevelContention {
  import opened Keys
  import opened Versions
  import opened Levels
  import opened LevelSafety
  import opened LevelProgress

  /** Another job holds table `t`. */
  ghost predicate Rival(jobs: map<JobId, Job>, j: JobId, t: Table) {
    exists i :: i in jobs && i != j && t in jobs[i].sel + jobs[i].kids
  }

  /** What a job holds is flagged as its own. */
  lemma HeldIsFlagged(tr: Tree, i: JobId, t: Table)
    requires i in tr.jobs && Owned(tr, i, tr.jobs[i]) && t in tr.jobs[i].sel + tr.jobs[i].kids
    ensures t.id in tr.flags
  {
  }

  /** A flagged table is held by the job that flagged it. */
  lemma FlaggedIsHeld(tr: Tree, level: nat, t: Table)
    requires Unique(tr.tables) && NoStrayFlags(tr.flags, tr.jobs)
    requires forall i <- tr.jobs :: Owned(tr, i, tr.jobs[i])
    requires Has(tr.tables, level, t) && t.id in tr.flags
    ensures tr.flags[t.id] in tr.jobs && t in tr.jobs[tr.flags[t.id]].sel + tr.jobs[tr.flags[t.id]].kids
  {
    hide Unique, Owned;
    var i := tr.flags[t.id];
    var u :| u in tr.jobs[i].sel + tr.jobs[i].kids && u.id == t.id;
    SameTable(tr, i, u, level, t);
  }

  lemma SameTable(tr: Tree, i: JobId, u: Table, level: nat, t: Table)
    requires Unique(tr.tables) && i in tr.jobs && Owned(tr, i, tr.jobs[i]) && Has(tr.tables, level, t)
    requires u in tr.jobs[i].sel + tr.jobs[i].kids && u.id == t.id
    ensures u == t
  {
  }

  lemma AllOwned(tr: Tree)
    requires Inv(tr)
    ensures Unique(tr.tables) && NoStrayFlags(tr.flags, tr.jobs) && forall i <- tr.jobs :: Owned(tr, i, tr.jobs[i])
  {
    hide IdsOk, ManifestOk, Loadable, Unique, Owned, NoStrayFlags, NoStrayHolders, Hull, Closed, Taken, Reserved;
  }

  /** A flag of a table that the job does not hold is another job's. */
  lemma FlagIsRival(tr: Tree, j: JobId, level: nat, t: Table)
    requires Inv(tr) && j in tr.jobs && Has(tr.tables, level, t) && t !in tr.jobs[j].sel + tr.jobs[j].kids
    ensures t.id in tr.flags <==> Rival(tr.jobs, j, t)
  {
    hide Inv, Unique, Owned, NoStrayFlags;
    AllOwned(tr);
    if t.id in tr.flags {
      FlaggedIsHeld(tr, level, t);
    }
    if Rival(tr.jobs, j, t) {
      var i :| i in tr.jobs && i != j && t in tr.jobs[i].sel + tr.jobs[i].kids;
      HeldIsFlagged(tr, i, t);
    }
  }

  /** A compaction can start at any table of a level that has one below it, whatever other compactions are running,
      as long as none of them holds the table or the write lock of its level. */
  lemma StartCondition(tr: Tree, j: JobId, level: nat, t: Table)
    requires Safe(tr) && j !in tr.jobs && Has(tr.tables, level, t)
    ensures Shape(tr)
    ensures Enabled(tr, Start(j, level, t)) <==>
              && level + 1 < |tr.tables|
              && (forall i <- tr.jobs :: t !in tr.jobs[i].sel + tr.jobs[i].kids)
              && (forall i <- tr.jobs ::
                    tr.jobs[i].phase.Merging? && tr.jobs[i].phase.locked ==> tr.jobs[i].parent != level)
  {
    hide TablesOk, JobsOk, IdsOk, ManifestOk, Loadable, LocksOk, ScansOk, Unique, Owned, NoStrayFlags;
    AllOwned(tr);
    if t.id in tr.flags {
      FlaggedIsHeld(tr, level, t);
    }
    if i :| i in tr.jobs && t in tr.jobs[i].sel + tr.jobs[i].kids {
      HeldIsFlagged(tr, i, t);
    }
  }

  lemma ClosingHasNoKids(tr: Tree, j: JobId)
    requires Inv(tr) && InPhase(tr, j, Closing)
    ensures tr.jobs[j].kids == {}
  {
    hide TablesOk, IdsOk, ManifestOk, Loadable, Owned, Closed, Taken, Reserved, JobsApart, NoStrayFlags, NoStrayHolders;
    assert JobOk(tr, j, tr.jobs[j]);
  }

  /** Job `b` after it has widened its range by table `t` */
  ghost predicate Widened(b: Job, t: Table, b': Job) {
    && b'.lo == (if Less(t.min, b.lo) then t.min else b.lo)
    && b'.hi == (if Less(b.hi, t.max) then t.max else b.hi)
    && b'.parent == b.parent
  }

  lemma WidenedIs(b: Job, t: Table, b': Job)
    requires b'.lo == Min(t.min, b.lo) || b'.lo == Min(b.lo, t.min)
    requires b'.hi == Max(t.max, b.hi) || b'.hi == Max(b.hi, t.max)
    requires b'.parent == b.parent
    ensures Widened(b, t, b')
  {
    LessTotal(t.min, b.lo);
    LessTotal(t.max, b.hi);
    LessAsymmetric(t.min, b.lo);
    LessAsymmetric(t.max, b.hi);
  }

  /** On level 0 a compaction gives up if and only if another one holds the overlapping table, and takes the table
      otherwise. */
  lemma GrowOutcome(tr: Tree, j: JobId, b: Job, t: Table)
    requires Shape(tr) && Enabled(tr, Grow(j, t)) && b == tr.jobs[j]
    requires Safe(tr)
    ensures InPhase(Apply(tr, Grow(j, t)), j, Aborting) <==>
              exists i :: i in tr.jobs && i != j && t in tr.jobs[i].sel + tr.jobs[i].kids
    ensures InPhase(Apply(tr, Grow(j, t)), j, Aborting) || exists b' ::
              && Apply(tr, Grow(j, t)).jobs == tr.jobs[j := b']
              && b'.phase == Closing && b'.sel == b.sel + {t} && b'.kids == b.kids && Widened(b, t, b')
  {
    hide TablesOk, JobsOk, IdsOk, ManifestOk, Loadable, LocksOk, ScansOk, Meets, Min, Max;
    hide Less, Widened;
    ClosingHasNoKids(tr, j);
    FlagIsRival(tr, j, 0, t);
    WidenedIs(b, t, b.(sel := b.sel + {t}, lo := Min(b.lo, t.min), hi := Max(b.hi, t.max)));
  }

  /** Below, it passes over a table that does not meet its range, gives up on one that another compaction holds, and
      takes any other. */
  lemma ScanOutcome(tr: Tree, j: JobId, b: Job, t: Table)
    requires Shape(tr) && Enabled(tr, Scan(j)) && b == tr.jobs[j] && t == tr.tables[b.parent + 1][b.phase.pos]
    requires Safe(tr)
    ensures InPhase(Apply(tr, Scan(j)), j, Aborting) <==>
              && !Less(t.max, b.lo) && !Less(b.hi, t.min)
              && exists i :: i in tr.jobs && i != j && t in tr.jobs[i].sel + tr.jobs[i].kids
    ensures Less(t.max, b.lo) || Less(b.hi, t.min) ==>
              Apply(tr, Scan(j)).jobs == tr.jobs[j := b.(phase := Scanning(b.phase.pos + 1))]
    ensures Less(t.max, b.lo) || Less(b.hi, t.min) || InPhase(Apply(tr, Scan(j)), j, Aborting) || exists b' ::
              && Apply(tr, Scan(j)).jobs == tr.jobs[j := b']
              && b'.phase == Scanning(b.phase.pos + 1)
              && b'.sel == b.sel && b'.kids == b.kids + {t} && Widened(b, t, b')
  {
    hide TablesOk, JobsOk, IdsOk, ManifestOk, Loadable, LocksOk, ScansOk, Less, Min, Max, Widened;
    NotYetHeld(tr, j, t);
    FlagIsRival(tr, j, b.parent + 1, t);
    WidenedIs(b, t, b.(phase := Scanning(b.phase.pos + 1), kids := b.kids + {t},
                       lo := Min(t.min, b.lo), hi := Max(t.max, b.hi)));
  }

  /** The table a scan looks at is not one that the job holds. */
  lemma NotYetHeld(tr: Tree, j: JobId, t: Table)
    requires Shape(tr) && Enabled(tr, Scan(j)) && t == tr.tables[tr.jobs[j].parent + 1][tr.jobs[j].phase.pos]
    requires Safe(tr)
    ensures Has(tr.tables, tr.jobs[j].parent + 1, t) && t !in tr.jobs[j].sel + tr.jobs[j].kids
  {
    hide TablesOk, JobsOk, IdsOk, ManifestOk, Loadable, LocksOk;
    ParentElsewhere(tr, j, t);
    assert KidsPassed(tr.tables, tr.jobs[j]);
  }

  lemma ParentElsewhere(tr: Tree, j: JobId, t: Table)
    requires Inv(tr) && j in tr.jobs && Has(tr.tables, tr.jobs[j].parent + 1, t)
    ensures t !in tr.jobs[j].sel
  {
    hide Inv, NoStrayFlags;
    AllOwned(tr);
  }

  /** The placeholders of a level are those of the jobs that build a table for it. */
  lemma HolderIsJob(tr: Tree, l: nat, h: Holder)
    requires Inv(tr) && l < |tr.holders|
    ensures h in tr.holders[l] <==> exists i :: i in tr.jobs && HolderOf(h, l, tr.jobs[i])
  {
    hide TablesOk, IdsOk, ManifestOk, Loadable, Owned, Hull, Closed, Taken, JobsApart, NoStrayFlags;
    if h in tr.holders[l] {
      assert HasHolder(tr.holders, l, h);
    }
    if i :| i in tr.jobs && HolderOf(h, l, tr.jobs[i]) {
      assert JobOk(tr, i, tr.jobs[i]);
      assert HasHolder(tr.holders, l, h);
    }
  }

  lemma HullInOrder(tr: Tree, j: JobId, b: Job)
    requires Well(tr.tables) && Owned(tr, j, b) && Hull(b)
    ensures !Less(b.hi, b.lo)
  {
    hide Less;
    var t :| t in b.sel;
    assert Has(tr.tables, b.parent, t) && t.Inside(b.lo, b.hi);
    assert Within(t.min, t.min, t.max);
    LeqTransitive(b.lo, t.min, t.max);
    LeqTransitive(b.lo, t.max, b.hi);
  }

  lemma RangeInOrder(tr: Tree, j: JobId)
    requires Inv(tr) && j in tr.jobs && !tr.jobs[j].phase.Aborting?
    ensures !Less(tr.jobs[j].hi, tr.jobs[j].lo)
  {
    hide Well, Unique, Disjoint, Recent, InOrder, IdsOk, ManifestOk, Loadable, Closed, Taken, Reserved, JobsApart,
      NoStrayFlags, NoStrayHolders, Less, Hull, Owned;
    assert JobOk(tr, j, tr.jobs[j]);
    HullInOrder(tr, j, tr.jobs[j]);
  }

  /** Job `a` builds a table for the level that job `b` compacts into, and some key lies in the range of both. */
  ghost predicate Collides(a: Job, b: Job) {
    && a.phase.Merging? && a.parent == b.parent
    && exists k :: !Less(k, a.lo) && !Less(a.hi, k) && !Less(k, b.lo) && !Less(b.hi, k)
  }

  lemma HolderCollides(a: Job, b: Job)
    requires !Less(a.hi, a.lo) && !Less(b.hi, b.lo) && a.phase.Merging? && a.parent == b.parent
    ensures Collides(a, b) <==> Meets(a.lo, a.hi, b.lo, b.hi)
  {
    hide Meets;
    MeetsIfShared(a.lo, a.hi, b.lo, b.hi);
    if k :| !Less(k, a.lo) && !Less(a.hi, k) && !Less(k, b.lo) && !Less(b.hi, k) {
      SharedKeyMeets(k, a.lo, a.hi, b.lo, b.hi);
    }
  }

  lemma HeldIsCollision(tr: Tree, j: JobId)
    requires Inv(tr) && j in tr.jobs && !tr.jobs[j].phase.Aborting?
    ensures Held(tr.holders[tr.jobs[j].parent + 1], tr.jobs[j].lo, tr.jobs[j].hi) <==>
              exists i :: i in tr.jobs && Collides(tr.jobs[i], tr.jobs[j])
  {
    hide TablesOk, JobsOk, IdsOk, ManifestOk, Loadable, Meets, Collides, Less;
    var b := tr.jobs[j];
    var c := b.parent + 1;
    RangeInOrder(tr, j);
    if Held(tr.holders[c], b.lo, b.hi) {
      var h :| h in tr.holders[c] && Meets(h.lo, h.hi, b.lo, b.hi);
      HolderIsJob(tr, c, h);
      var i :| i in tr.jobs && HolderOf(h, c, tr.jobs[i]);
      RangeInOrder(tr, i);
      HolderCollides(tr.jobs[i], b);
    }
    if i :| i in tr.jobs && Collides(tr.jobs[i], b) {
      CollidesMerging(tr.jobs[i], b);
      var h := Holder(tr.jobs[i].phase.id, tr.jobs[i].lo, tr.jobs[i].hi);
      HolderIsJob(tr, c, h);
      RangeInOrder(tr, i);
      HolderCollides(tr.jobs[i], b);
    }
  }

  lemma CollidesMerging(a: Job, b: Job)
    requires Collides(a, b)
    ensures a.phase.Merging? && a.parent == b.parent
  {
  }

  /** Job `j` has put up a placeholder for its range: under the id of its only table if it has but one, and otherwise
      under the next id. */
  ghost predicate Reserves(tr: Tree, j: JobId, b: Job, id: TableId, tr': Tree) {
    && tr'.jobs == tr.jobs[j := b.(phase := Merging(id, false))]
    && HasHolder(tr'.holders, b.parent + 1, Holder(id, b.lo, b.hi))
    && if |b.sel| == 1 && b.kids == {} then (exists t <- b.sel :: t.id == id) && tr'.nextId == tr.nextId
       else id == tr.nextId && tr'.nextId == id + 1
  }

  lemma HoldReserves(tr: Tree, j: JobId, b: Job)
    requires Shape(tr) && j in tr.jobs && b == tr.jobs[j] && !Held(tr.holders[b.parent + 1], b.lo, b.hi)
    ensures Reserves(tr, j, b, HoldId(tr, b), DoHold(tr, j))
  {
    hide Held;
    if b.Fast() {
      var t :| t in b.sel;
    }
  }

  /** A compaction gives up at its placeholder if and only if another one is building a table for the same level,
      and some key lies in the range of both. Otherwise it reserves its range on that level. */
  lemma HoldOutcome(tr: Tree, j: JobId, b: Job)
    requires Shape(tr) && Enabled(tr, Hold(j)) && b == tr.jobs[j]
    requires Safe(tr)
    ensures InPhase(Apply(tr, Hold(j)), j, Aborting) <==>
              exists i :: i in tr.jobs && i != j && Collides(tr.jobs[i], b)
    ensures InPhase(Apply(tr, Hold(j)), j, Aborting) || exists id :: Reserves(tr, j, b, id, Apply(tr, Hold(j)))
  {
    hide TablesOk, JobsOk, IdsOk, ManifestOk, Loadable, LocksOk, ScansOk, Held, HoldId, Collides, Reserves;
    HeldIsCollision(tr, j);
    if !Held(tr.holders[b.parent + 1], b.lo, b.hi) { HoldReserves(tr, j, b); }
    if i :| i in tr.jobs && Collides(tr.jobs[i], tr.jobs[j]) {
      CollidesMerging(tr.jobs[i], tr.jobs[j]);
    }
  }

  /** Giving up goes flag by flag: the job lets go of one table, keeps the others, and ends with the last one. */
  lemma UnflagOutcome(tr: Tree, j: JobId, b: Job, t: Table)
    requires Shape(tr) && Enabled(tr, Unflag(j, t)) && b == tr.jobs[j]
    requires Safe(tr)
    ensures forall id :: id in Apply(tr, Unflag(j, t)).flags <==> id in tr.flags && id != t.id
    ensures j in Apply(tr, Unflag(j, t)).jobs <==> exists u :: u in b.sel + b.kids && u != t
    ensures j in Apply(tr, Unflag(j, t)).jobs ==>
              Apply(tr, Unflag(j, t)).jobs == tr.jobs[j := b.(sel := b.sel - {t}, kids := b.kids - {t})]
  {
    hide TablesOk, JobsOk, IdsOk, ManifestOk, Loadable, LocksOk, ScansOk;
    var b' := b.(sel := b.sel - {t}, kids := b.kids - {t});
    if u :| u in b.sel + b.kids && u != t {
      assert u in b'.sel + b'.kids;
    } else {
      assert b'.sel + b'.kids == {};
    }
  }

  // ---- a compaction without a rival ----

  ghost predicate NoRival(tr: Tree, j: JobId) {
    forall i <- tr.jobs :: i == j
  }

  /** The steps in which a job that has not given up can give up, or leave */
  lemma GivesUpIn(tr: Tree, st: Step, j: JobId, tr': Tree)
    requires Shape(tr) && Loadable(tr) && Enabled(tr, st) && st != Reload && tr' == Apply(tr, st)
    requires j in tr.jobs && !tr.jobs[j].phase.Aborting? && Mover(st) == Some(j)
    ensures InPhase(tr', j, Aborting) ==> st.Grow? || st.Scan? || st.Hold?
    ensures j !in tr'.jobs ==> st.Install?
  {
    hide Loadable, HoldId, Held, Meets, Unlocked, NoWriter, Without, Place, InsertTable, InsertId, RemoveIds;
  }

  /** A job that gives up has a rival. */
  lemma AbortHasRival(tr: Tree, st: Step, j: JobId, tr': Tree)
    requires Shape(tr) && Loadable(tr) && Enabled(tr, st) && st != Reload && tr' == Apply(tr, st)
    requires Safe(tr) && j in tr.jobs && !tr.jobs[j].phase.Aborting? && InPhase(tr', j, Aborting)
    ensures !NoRival(tr, j)
  {
    hide Inv, LocksOk, ScansOk, Loadable, Enabled, Apply, Collides;
    if Mover(st) == Some(j) {
      GivesUpIn(tr, st, j, tr');
      if st.Grow? {
        GrowOutcome(tr, j, tr.jobs[j], st.t);
      } else if st.Hold? {
        HoldOutcome(tr, j, tr.jobs[j]);
      } else {
        var t := Examined(tr, j);
        ScanOutcome(tr, j, tr.jobs[j], t);
      }
    } else {
      OtherStepKeeps(tr, st, j, tr');
    }
  }

  lemma Examined(tr: Tree, j: JobId) returns (t: Table)
    requires Shape(tr) && Enabled(tr, Scan(j))
    ensures t == tr.tables[tr.jobs[j].parent + 1][tr.jobs[j].phase.pos]
  {
    t := tr.tables[tr.jobs[j].parent + 1][tr.jobs[j].phase.pos];
  }

  ghost predicate NoneAborting(tr: Tree) {
    forall j <- tr.jobs :: !tr.jobs[j].phase.Aborting?
  }

  ghost predicate AtMostOne(tr: Tree) {
    forall j <- tr.jobs :: NoRival(tr, j)
  }

  lemma LoneStep(tr: Tree, st: Step, tr': Tree)
    requires Shape(tr) && Loadable(tr) && Enabled(tr, st) && st != Reload && tr' == Apply(tr, st)
    requires Safe(tr) && NoneAborting(tr) && AtMostOne(tr)
    ensures NoneAborting(tr')
    ensures forall j <- tr.jobs :: j !in tr'.jobs ==> st.Install? && st.j == j
  {
    hide Inv, LocksOk, ScansOk, Loadable, Enabled, Apply;
    forall j | j in tr'.jobs ensures !tr'.jobs[j].phase.Aborting? {
      if j in tr.jobs {
        if tr'.jobs[j].phase.Aborting? { AbortHasRival(tr, st, j, tr'); }
      } else {
        Newcomer(tr, st, j, tr');
      }
    }
    forall j | j in tr.jobs && j !in tr'.jobs ensures st.Install? && st.j == j {
      if Mover(st) == Some(j) {
        GivesUpIn(tr, st, j, tr');
      } else {
        OtherStepKeeps(tr, st, j, tr');
      }
    }
  }

  lemma Newcomer(tr: Tree, st: Step, j: JobId, tr': Tree)
    requires Shape(tr) && Loadable(tr) && Enabled(tr, st) && st != Reload && tr' == Apply(tr, st)
    requires j !in tr.jobs && j in tr'.jobs
    ensures !tr'.jobs[j].phase.Aborting?
  {
    hide Loadable, HoldId, Held, Meets, Unlocked, NoWriter, Without, Place, InsertTable, InsertId, RemoveIds;
  }

  /** A job that ends in step `m` has installed its table. */
  ghost predicate EndsByInstall(f: nat -> Tree, g: nat -> Step, m: nat) {
    forall j <- f(m).jobs :: j !in f(m + 1).jobs ==> g(m).Install? && g(m).j == j
  }

  /** While compactions run one at a time, none gives up, and each one that ends has installed its table. */
  lemma {:induction false} LoneCompactionsInstall(f: nat -> Tree, g: nat -> Step, a: nat, n: nat)
    requires Forever(f, g) && a <= n && NoneAborting(f(a))
    requires forall m: nat :: a <= m < n ==> AtMostOne(f(m))
    ensures NoneAborting(f(n))
    ensures forall m: nat :: a <= m < n ==> EndsByInstall(f, g, m)
    decreases n
  {
    hide Safe, Apply, Enabled, NoneAborting, AtMostOne;
    if a < n {
      LoneCompactionsInstall(f, g, a, n - 1);
      ForeverSafe(f, g, n - 1);
      assert StepAt(f, g, n - 1);
      LoneStep(f(n - 1), g(n - 1), f(n));
    }
  }
}
