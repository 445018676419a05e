/** Every step of the level machine keeps its invariant. */
module LevelSteps {
  import opened Keys
  import opened Versions
  import opened Levels
  import opened LevelSafety

  // ---- selecting tables ----

  lemma StartOwn(tr: Tree, j: JobId, level: nat, t: Table, tr': Tree)
    requires tr' == DoStart(tr, j, level, t)
    requires Disjoint(tr.tables) && level + 1 < |tr.tables| && t in tr.tables[level]
    ensures JobOk(tr', j, tr'.jobs[j])
  {
    LessAsymmetric(t.min, t.min);
    LessAsymmetric(t.max, t.max);
    var b := tr'.jobs[j];
    assert Has(tr.tables, level, t);
    assert b.sel + b.kids == {t};
    if level >= 1 {
      assert Closed(tr.tables, b);
    }
  }

  lemma StartInv(tr: Tree, j: JobId, level: nat, t: Table, tr': Tree)
    requires Shape(tr) && Enabled(tr, Start(j, level, t)) && tr' == DoStart(tr, j, level, t)
    requires Inv(tr)
    ensures Inv(tr')
  {
    hide JobOk, Well, Unique, Disjoint, Recent, InOrder, ManifestOk, IdsOk, NoWriter, OnlyJob, DoStart,
      NoStrayFlags, NoStrayHolders, JobsApart;
    StartOwn(tr, j, level, t, tr');
    StartFrame(tr, j, level, t, tr');
    JobStepInv(tr, j, tr');
  }

  lemma StartFrame(tr: Tree, j: JobId, level: nat, t: Table, tr': Tree)
    requires Shape(tr) && level + 1 < |tr.tables| && j !in tr.jobs && t.id !in tr.flags
    requires tr' == DoStart(tr, j, level, t)
    requires JobsApart(tr.jobs) && NoStrayFlags(tr.flags, tr.jobs) && NoStrayHolders(tr.holders, tr.jobs)
    ensures OnlyJob(tr, j, tr') && Shape(tr') && j in tr'.jobs
    ensures JobsApart(tr'.jobs) && NoStrayFlags(tr'.flags, tr'.jobs) && NoStrayHolders(tr'.holders, tr'.jobs)
  {
    StrayHolders(tr.holders, tr.jobs, j, tr'.jobs[j]);
    hide NoStrayHolders;
    assert t in tr'.jobs[j].sel + tr'.jobs[j].kids;
  }

  /** A step that keeps a job's tables, flags and range, and does not start or end Merging */
  lemma RephaseStray(tr: Tree, j: JobId, b': Job)
    requires j in tr.jobs && !tr.jobs[j].phase.Merging? && !b'.phase.Merging?
    requires b'.sel + b'.kids == tr.jobs[j].sel + tr.jobs[j].kids
    requires JobsApart(tr.jobs) && NoStrayFlags(tr.flags, tr.jobs) && NoStrayHolders(tr.holders, tr.jobs)
    ensures
      var tr' := SetJob(tr, j, b');
      JobsApart(tr'.jobs) && NoStrayFlags(tr'.flags, tr'.jobs) && NoStrayHolders(tr'.holders, tr'.jobs)
  {
    StrayHolders(tr.holders, tr.jobs, j, b');
  }

  lemma StrayHolders(holders: seq<seq<Holder>>, jobs: map<JobId, Job>, j: JobId, b': Job)
    requires NoStrayHolders(holders, jobs) && (j in jobs ==> !jobs[j].phase.Merging?)
    ensures NoStrayHolders(holders, jobs[j := b'])
  {
    var jobs' := jobs[j := b'];
    forall l, h | HasHolder(holders, l, h)
      ensures exists i :: i in jobs' && HolderOf(h, l, jobs'[i])
    {
      var i :| i in jobs && HolderOf(h, l, jobs[i]);
      assert i in jobs' && HolderOf(h, l, jobs'[i]);
    }
  }

  lemma RephaseInv(tr: Tree, j: JobId, b': Job, tr': Tree)
    requires Shape(tr) && j in tr.jobs && tr' == SetJob(tr, j, b') && b'.parent == tr.jobs[j].parent
    requires !tr.jobs[j].phase.Merging? && !b'.phase.Merging?
    requires b'.sel + b'.kids == tr.jobs[j].sel + tr.jobs[j].kids
    requires Inv(tr) && JobOk(tr', j, b')
    ensures Inv(tr')
  {
    hide JobOk, TablesOk, ManifestOk, IdsOk, JobsApart, NoStrayFlags, NoStrayHolders;
    RephaseStray(tr, j, b');
    JobStepInv(tr, j, tr');
  }

  /** Giving up keeps every flag until it is given back. */
  lemma AbortInv(tr: Tree, j: JobId, tr': Tree)
    requires Shape(tr) && j in tr.jobs && !tr.jobs[j].phase.Merging?
    requires tr' == SetJob(tr, j, tr.jobs[j].(phase := Aborting)) && Inv(tr)
    ensures Inv(tr')
  {
    hide TablesOk, ManifestOk, IdsOk, JobsApart, NoStrayFlags, NoStrayHolders, Hull, Closed, Taken, Reserved;
    assert JobOk(tr, j, tr.jobs[j]);
    RephaseInv(tr, j, tr.jobs[j].(phase := Aborting), tr');
  }

  /** Flagging one more table keeps flags and placeholders accounted for. */
  lemma FlagStray(tr: Tree, j: JobId, t: Table, b': Job, tr': Tree)
    requires j in tr.jobs && !tr.jobs[j].phase.Merging? && !b'.phase.Merging? && t.id !in tr.flags
    requires b'.sel + b'.kids == tr.jobs[j].sel + tr.jobs[j].kids + {t}
    requires tr' == tr.(flags := tr.flags[t.id := j], jobs := tr.jobs[j := b'])
    requires JobsApart(tr.jobs) && NoStrayFlags(tr.flags, tr.jobs) && NoStrayHolders(tr.holders, tr.jobs)
    ensures JobsApart(tr'.jobs) && NoStrayFlags(tr'.flags, tr'.jobs) && NoStrayHolders(tr'.holders, tr'.jobs)
  {
    StrayHolders(tr.holders, tr.jobs, j, b');
    forall id | id in tr'.flags
      ensures tr'.flags[id] in tr'.jobs && id in Ids(tr'.jobs[tr'.flags[id]].sel + tr'.jobs[tr'.flags[id]].kids)
    {
      if id == t.id {
        assert t in b'.sel + b'.kids;
      } else {
        assert id in tr.flags && id in Ids(tr.jobs[tr.flags[id]].sel + tr.jobs[tr.flags[id]].kids);
        var u :| u in tr.jobs[tr.flags[id]].sel + tr.jobs[tr.flags[id]].kids && u.id == id;
        assert u in tr'.jobs[tr'.flags[id]].sel + tr'.jobs[tr'.flags[id]].kids;
      }
    }
  }

  lemma FlagInv(tr: Tree, j: JobId, t: Table, b': Job, tr': Tree)
    requires Shape(tr) && j in tr.jobs && !tr.jobs[j].phase.Merging? && !b'.phase.Merging? && t.id !in tr.flags
    requires b'.sel + b'.kids == tr.jobs[j].sel + tr.jobs[j].kids + {t} && b'.parent == tr.jobs[j].parent
    requires tr' == tr.(flags := tr.flags[t.id := j], jobs := tr.jobs[j := b'])
    requires Inv(tr) && JobOk(tr', j, b')
    ensures Inv(tr')
  {
    hide JobOk, TablesOk, ManifestOk, IdsOk, JobsApart, NoStrayFlags, NoStrayHolders;
    FlagStray(tr, j, t, b', tr');
    JobStepInv(tr, j, tr');
  }

  lemma GrowOwn(tr: Tree, j: JobId, t: Table, b: Job, b': Job, tr': Tree)
    requires tr' == tr.(flags := tr.flags[t.id := j], jobs := tr.jobs[j := b']) && t.id !in tr.flags
    requires b' == b.(sel := b.sel + {t}, lo := Min(b.lo, t.min), hi := Max(b.hi, t.max))
    requires JobOk(tr, j, b) && b.phase.Closing? && Has(tr.tables, 0, t)
    ensures JobOk(tr', j, b')
  {
    GrowHull(b, t, b');
    hide Hull;
  }

  lemma GrowInv(tr: Tree, j: JobId, t: Table, tr': Tree)
    requires Shape(tr) && Enabled(tr, Grow(j, t)) && tr' == DoGrow(tr, j, t)
    requires Inv(tr)
    ensures Inv(tr')
  {
    hide JobOk, TablesOk, ManifestOk, IdsOk, JobsApart, NoStrayFlags, NoStrayHolders;
    var b := tr.jobs[j];
    if t.id in tr.flags {
      AbortInv(tr, j, tr');
    } else {
      var b' := b.(sel := b.sel + {t}, lo := Min(b.lo, t.min), hi := Max(b.hi, t.max));
      assert JobOk(tr, j, b);
      assert Has(tr.tables, 0, t);
      GrowOwn(tr, j, t, b, b', tr');
      assert b'.sel + b'.kids == b.sel + b.kids + {t};
      FlagInv(tr, j, t, b', tr');
    }
  }

  lemma CloseDoneOwn(tables: seq<seq<Table>>, b: Job)
    requires 0 < |tables| && Hull(b) && b.phase.Closing?
    requires forall t <- tables[0] :: t in b.sel || !t.Overlaps(b.lo, b.hi)
    ensures Closed(tables, b)
  {
    forall u, p | Has(tables, b.parent, u) && u !in b.sel && p in b.sel
      ensures !u.Overlaps(p.min, p.max)
    {
      assert p in b.sel + b.kids;
      if u.Overlaps(p.min, p.max) {
        WiderOverlap(u, p.min, p.max, b.lo, b.hi);
        assert false;
      }
    }
  }

  lemma SameHull(b: Job, phase: Phase)
    requires Hull(b) && !phase.Closing? && (phase.Picked? ==> b.kids == {})
    ensures Hull(b.(phase := phase))
  {
  }

  lemma SameOwned(tr: Tree, j: JobId, b: Job, tr': Tree, b': Job)
    requires Owned(tr, j, b) && tr'.tables == tr.tables && tr'.flags == tr.flags
    requires b'.parent == b.parent && b'.sel == b.sel && b'.kids == b.kids
    ensures Owned(tr', j, b')
  {
  }

  /** Moving on to the next phase keeps a job's own facts, given what the new phase adds. */
  lemma RephaseOwn(tr: Tree, j: JobId, b: Job, phase: Phase, tr': Tree)
    requires tr' == SetJob(tr, j, b.(phase := phase))
    requires JobOk(tr, j, b) && Hull(b) && Closed(tr.tables, b)
    requires phase == Picked || phase == Scanning(0)
    requires phase == Picked ==> b.kids == {}
    ensures JobOk(tr', j, b.(phase := phase))
  {
    hide Closed, Hull;
    SameClosed(tr.tables, b, b.(phase := phase));
    SameHull(b, phase);
  }

  lemma CloseDoneInv(tr: Tree, j: JobId, tr': Tree)
    requires Shape(tr) && Enabled(tr, CloseDone(j)) && tr' == SetJob(tr, j, tr.jobs[j].(phase := Picked))
    requires Inv(tr)
    ensures Inv(tr')
  {
    hide TablesOk, ManifestOk, IdsOk, JobsApart, NoStrayFlags, NoStrayHolders, Closed, Taken, Reserved, Owned;
    var b := tr.jobs[j];
    assert JobOk(tr, j, b);
    CloseDoneOwn(tr.tables, b);
    assert b.kids == {};
    hide Hull;
    RephaseOwn(tr, j, b, Picked, tr');
    RephaseInv(tr, j, b.(phase := Picked), tr');
  }

  lemma BeginScanInv(tr: Tree, j: JobId, tr': Tree)
    requires Shape(tr) && Enabled(tr, BeginScan(j)) && tr' == SetJob(tr, j, tr.jobs[j].(phase := Scanning(0)))
    requires Inv(tr)
    ensures Inv(tr')
  {
    hide TablesOk, ManifestOk, IdsOk, JobsApart, NoStrayFlags, NoStrayHolders, Closed, Taken, Reserved, Owned, Hull;
    var b := tr.jobs[j];
    assert JobOk(tr, j, b);
    RephaseOwn(tr, j, b, Scanning(0), tr');
    RephaseInv(tr, j, b.(phase := Scanning(0)), tr');
  }

  // ---- scanning the child level ----

  /** The single pass suffices: widening the range by a table it meets never reaches a table passed over,
      because the child level's tables are disjoint. */
  lemma ScanWidens(s: seq<Table>, n: nat, b: Job, b': Job)
    requires n < |s| && Taken(s, n, b) && s[n].Overlaps(b.lo, b.hi)
    requires forall i :: 0 <= i < n ==> s[i].WellFormed() && !s[i].Overlaps(s[n].min, s[n].max)
    requires b'.kids == b.kids + {s[n]} && b'.lo == Min(s[n].min, b.lo) && b'.hi == Max(s[n].max, b.hi)
    ensures Taken(s, n + 1, b')
  {
    forall i | 0 <= i < n && s[i].Overlaps(b'.lo, b'.hi) ensures s[i] in b'.kids {
      if !s[i].Overlaps(b.lo, b.hi) {
        assert Leq(s[i].min, s[i].max) by { assert Within(s[i].min, s[i].min, s[i].max); }
        HullIsUnion(s[n].min, s[n].max, b.lo, b.hi, s[i].min, s[i].max);
        assert false;
      }
    }
  }

  lemma ScanApart(tables: seq<seq<Table>>, c: nat, n: nat)
    requires Disjoint(tables) && Well(tables) && InOrder(tables) && 1 <= c < |tables| && n < |tables[c]|
    ensures forall i :: 0 <= i < n ==>
              tables[c][i].WellFormed() && !tables[c][i].Overlaps(tables[c][n].min, tables[c][n].max)
  {
    forall i | 0 <= i < n
      ensures tables[c][i].WellFormed() && !tables[c][i].Overlaps(tables[c][n].min, tables[c][n].max)
    {
      assert Has(tables, c, tables[c][i]) && Has(tables, c, tables[c][n]);
    }
  }

  lemma ScanPassOwn(tr: Tree, j: JobId, b: Job, b': Job, tr': Tree)
    requires tr' == SetJob(tr, j, b') && JobOk(tr, j, b) && b.phase.Scanning?
    requires b.phase.pos < |tr.tables[b.parent + 1]| && b' == b.(phase := Scanning(b.phase.pos + 1))
    requires !tr.tables[b.parent + 1][b.phase.pos].Overlaps(b.lo, b.hi)
    ensures JobOk(tr', j, b')
  {
    hide Closed, Hull, Owned;
    SameClosed(tr.tables, b, b');
    SameHull(b, b'.phase);
    assert Owned(tr', j, b') by { SameOwned(tr, j, b, tr', b'); }
  }

  lemma SameClosed(tables: seq<seq<Table>>, b: Job, b': Job)
    requires Closed(tables, b) && b'.sel == b.sel && b'.parent == b.parent
    ensures Closed(tables, b')
  {
  }

  lemma ScanTakeOwned(tr: Tree, j: JobId, t: Table, b: Job, b': Job, tr': Tree)
    requires Owned(tr, j, b) && t.id !in tr.flags && Has(tr.tables, b.parent + 1, t)
    requires tr'.tables == tr.tables && tr'.flags == tr.flags[t.id := j]
    requires b'.parent == b.parent && b'.sel == b.sel && b'.kids == b.kids + {t}
    ensures Owned(tr', j, b')
  {
  }

  lemma ScanTakeOwn(tr: Tree, j: JobId, t: Table, b: Job, b': Job, tr': Tree)
    requires JobOk(tr, j, b) && b.phase.Scanning? && b.phase.pos < |tr.tables[b.parent + 1]|
    requires t == tr.tables[b.parent + 1][b.phase.pos] && t.id !in tr.flags
    requires tr' == tr.(flags := tr.flags[t.id := j], jobs := tr.jobs[j := b'])
    requires b' == b.(phase := Scanning(b.phase.pos + 1), kids := b.kids + {t},
                      lo := Min(t.min, b.lo), hi := Max(t.max, b.hi))
    requires Taken(tr.tables[b.parent + 1], b.phase.pos + 1, b')
    ensures JobOk(tr', j, b')
  {
    hide Closed, Taken, Hull, Owned, Reserved;
    SameClosed(tr.tables, b, b');
    GrowHull(b, t, b');
    ScanTakeOwned(tr, j, t, b, b', tr');
    assert t in b'.sel + b'.kids;
  }

  lemma ScanInv(tr: Tree, j: JobId, tr': Tree)
    requires Shape(tr) && Enabled(tr, Scan(j)) && tr' == DoScan(tr, j)
    requires Inv(tr)
    ensures Inv(tr')
  {
    hide Well, Unique, Disjoint, Recent, InOrder, ManifestOk, IdsOk, JobsApart, NoStrayFlags, NoStrayHolders,
      Closed, Taken, Reserved, Owned, Hull;
    var b := tr.jobs[j];
    assert JobOk(tr, j, b);
    var c, n := b.parent + 1, b.phase.pos;
    var t := tr.tables[c][n];
    var next := Scanning(n + 1);
    if !t.Overlaps(b.lo, b.hi) {
      ScanPassOwn(tr, j, b, b.(phase := next), tr');
      RephaseInv(tr, j, b.(phase := next), tr');
    } else if t.id in tr.flags {
      AbortInv(tr, j, tr');
    } else {
      var b' := b.(phase := next, kids := b.kids + {t}, lo := Min(t.min, b.lo), hi := Max(t.max, b.hi));
      ScanApart(tr.tables, c, n);
      ScanWidens(tr.tables[c], n, b, b');
      ScanTakeOwn(tr, j, t, b, b', tr');
      assert b'.sel + b'.kids == b.sel + b.kids + {t};
      FlagInv(tr, j, t, b', tr');
    }
  }

  // ---- reserving the range ----

  ghost predicate HoldReady(tr: Tree, j: JobId, b: Job) {
    && j in tr.jobs && tr.jobs[j] == b && b.phase.Scanning? && b.parent + 1 < |tr.tables| == |tr.holders|
    && b.phase.pos == |tr.tables[b.parent + 1]|
    && !Held(tr.holders[b.parent + 1], b.lo, b.hi)
  }

  lemma HoldIdOk(tr: Tree, b: Job)
    requires b.Fast()
    ensures exists t :: b.sel == {t} && HoldId(tr, b) == t.id
  {
    var t :| t in b.sel && t.id == HoldId(tr, b);
    Singleton(b.sel, t);
  }

  lemma HoldReserved(tr: Tree, j: JobId, b: Job, tr': Tree)
    requires HoldReady(tr, j, b) && Shape(tr) && tr' == DoHold(tr, j)
    requires Taken(tr.tables[b.parent + 1], b.phase.pos, b) && IdsOk(tr) && Owned(tr, j, b)
    ensures Reserved(tr', tr'.jobs[j])
  {
    var b' := tr'.jobs[j];
    assert b'.Fast() == b.Fast();
    if b.Fast() {
      HoldIdOk(tr, b);
      var t :| b.sel == {t} && HoldId(tr, b) == t.id;
      assert Has(tr.tables, b.parent, t);
    }
    assert HasHolder(tr'.holders, b.parent + 1, Holder(b'.phase.id, b'.lo, b'.hi));
    forall u | Has(tr.tables, b.parent + 1, u) && u.Overlaps(b.lo, b.hi) ensures u in b.kids {
      var i :| 0 <= i < |tr.tables[b.parent + 1]| && tr.tables[b.parent + 1][i] == u;
    }
  }

  /** The new placeholder meets no other, and its id is nobody else's. */
  lemma HoldApart(tr: Tree, j: JobId, b: Job, i: JobId, o: Job)
    requires HoldReady(tr, j, b) && i != j && o.phase.Merging?
    requires Reserved(tr, o) && Owned(tr, j, b) && Owned(tr, i, o)
    ensures HoldId(tr, b) != o.phase.id
    ensures b.parent == o.parent ==> !Meets(b.lo, b.hi, o.lo, o.hi)
  {
    if b.Fast() {
      HoldIdOk(tr, b);
      var t :| b.sel == {t} && HoldId(tr, b) == t.id;
      assert Has(tr.tables, b.parent, t) && Owns(tr.flags, t.id, j);
      if o.Fast() {
        var u :| u in o.sel;
        assert Owns(tr.flags, u.id, i);
      }
    }
  }

  lemma HoldJobsApart(tr: Tree, j: JobId, b: Job, tr': Tree)
    requires HoldReady(tr, j, b) && Shape(tr) && tr' == DoHold(tr, j)
    requires JobsApart(tr.jobs) && forall i <- tr.jobs :: JobOk(tr, i, tr.jobs[i])
    ensures JobsApart(tr'.jobs)
  {
    hide Hull, Closed, Taken, Reserved, Owned;
    assert JobOk(tr, j, b);
    forall i | i in tr.jobs && i != j && tr.jobs[i].phase.Merging?
      ensures HoldId(tr, b) != tr.jobs[i].phase.id
      ensures b.parent == tr.jobs[i].parent ==> !Meets(b.lo, b.hi, tr.jobs[i].lo, tr.jobs[i].hi)
    {
      assert JobOk(tr, i, tr.jobs[i]);
      HoldApart(tr, j, b, i, tr.jobs[i]);
    }
  }

  lemma HoldStray(tr: Tree, j: JobId, b: Job, tr': Tree)
    requires HoldReady(tr, j, b) && Shape(tr) && tr' == DoHold(tr, j)
    requires NoStrayFlags(tr.flags, tr.jobs) && NoStrayHolders(tr.holders, tr.jobs)
    ensures NoStrayFlags(tr'.flags, tr'.jobs) && NoStrayHolders(tr'.holders, tr'.jobs)
  {
    forall l, h | HasHolder(tr'.holders, l, h)
      ensures exists i :: i in tr'.jobs && HolderOf(h, l, tr'.jobs[i])
    {
      if HasHolder(tr.holders, l, h) {
        var i :| i in tr.jobs && HolderOf(h, l, tr.jobs[i]);
        assert i in tr'.jobs && HolderOf(h, l, tr'.jobs[i]);
      } else {
        assert HolderOf(h, l, tr'.jobs[j]);
      }
    }
  }

  lemma HoldOwn(tr: Tree, j: JobId, b: Job, tr': Tree)
    requires HoldReady(tr, j, b) && Shape(tr) && tr' == DoHold(tr, j)
    requires JobOk(tr, j, b) && Reserved(tr', tr'.jobs[j])
    ensures JobOk(tr', j, tr'.jobs[j])
  {
    hide Hull, Closed, Taken, Reserved, Owned;
    var b' := tr'.jobs[j];
    SameClosed(tr.tables, b, b');
    SameHull(b, b'.phase);
    SameOwned(tr, j, b, tr', b');
  }

  lemma HoldFrame(tr: Tree, j: JobId, tr': Tree)
    requires Shape(tr) && j in tr.jobs && tr' == DoHold(tr, j)
    ensures OnlyJob(tr, j, tr') && Shape(tr') && j in tr'.jobs
  {
    hide HoldId, Held;
  }

  lemma HoldInv(tr: Tree, j: JobId, tr': Tree)
    requires Shape(tr) && Enabled(tr, Hold(j)) && tr' == DoHold(tr, j)
    requires Inv(tr)
    ensures Inv(tr')
  {
    hide TablesOk, ManifestOk, IdsOk, JobsApart, NoStrayFlags, NoStrayHolders,
      Closed, Taken, Reserved, Owned, Hull, HoldId;
    var b := tr.jobs[j];
    assert JobOk(tr, j, b);
    if Held(tr.holders[b.parent + 1], b.lo, b.hi) {
      AbortInv(tr, j, tr');
    } else {
      HoldReserved(tr, j, b, tr');
      HoldJobsApart(tr, j, b, tr');
      HoldStray(tr, j, b, tr');
      HoldOwn(tr, j, b, tr');
      HoldFrame(tr, j, tr');
      hide JobOk, OnlyJob, DoHold;
      JobStepInv(tr, j, tr');
    }
  }

  // ---- locking the parent level ----

  lemma LockReserved(tr: Tree, b: Job, tr': Tree)
    requires Reserved(tr, b) && tr'.tables == tr.tables && tr'.holders == tr.holders && tr'.nextId == tr.nextId
    requires tr'.pending == tr.pending
    ensures Reserved(tr', b.(phase := Merging(b.phase.id, true)))
  {
  }

  lemma LockOwn(tr: Tree, j: JobId, b: Job, tr': Tree)
    requires JobOk(tr, j, b) && j in tr.jobs && tr.jobs[j] == b && b.phase.Merging? && tr' == DoLock(tr, j)
    ensures JobOk(tr', j, tr'.jobs[j])
  {
    hide Closed, Taken, Owned, Hull, Reserved;
    var b' := tr'.jobs[j];
    SameClosed(tr.tables, b, b');
    SameHull(b, b'.phase);
    SameOwned(tr, j, b, tr', b');
    LockReserved(tr, b, tr');
  }

  lemma LockFrame(tr: Tree, j: JobId, tr': Tree)
    requires Shape(tr) && j in tr.jobs && tr.jobs[j].phase.Merging? && tr' == DoLock(tr, j) && JobsApart(tr.jobs)
    ensures OnlyJob(tr, j, tr') && Shape(tr') && JobsApart(tr'.jobs)
  {
  }

  lemma LockInv(tr: Tree, j: JobId, tr': Tree)
    requires Shape(tr) && Enabled(tr, Lock(j)) && tr' == DoLock(tr, j)
    requires Inv(tr)
    ensures Inv(tr')
  {
    hide TablesOk, ManifestOk, IdsOk, JobOk, JobsApart, NoStrayFlags, NoStrayHolders, OnlyJob, DoLock, Unlocked;
    assert JobOk(tr, j, tr.jobs[j]);
    LockOwn(tr, j, tr.jobs[j], tr');
    LockFrame(tr, j, tr');
    LockStray(tr, j, tr');
    JobStepInv(tr, j, tr');
  }

  lemma LockStray(tr: Tree, j: JobId, tr': Tree)
    requires j in tr.jobs && tr.jobs[j].phase.Merging? && tr' == DoLock(tr, j)
    requires NoStrayFlags(tr.flags, tr.jobs) && NoStrayHolders(tr.holders, tr.jobs)
    ensures NoStrayFlags(tr'.flags, tr'.jobs) && NoStrayHolders(tr'.holders, tr'.jobs)
  {
    forall l, h | HasHolder(tr.holders, l, h)
      ensures exists i :: i in tr'.jobs && HolderOf(h, l, tr'.jobs[i])
    {
      var i :| i in tr.jobs && HolderOf(h, l, tr.jobs[i]);
      assert i in tr'.jobs && HolderOf(h, l, tr'.jobs[i]);
    }
  }

  // ---- giving flags back ----

  lemma UnflagStray(tr: Tree, j: JobId, t: Table, tr': Tree)
    requires InPhase(tr, j, Aborting) && t in tr.jobs[j].sel + tr.jobs[j].kids && tr' == DoUnflag(tr, j, t)
    requires NoStrayFlags(tr.flags, tr.jobs) && NoStrayHolders(tr.holders, tr.jobs)
    ensures NoStrayFlags(tr'.flags, tr'.jobs) && NoStrayHolders(tr'.holders, tr'.jobs)
  {
    forall id | id in tr'.flags
      ensures tr'.flags[id] in tr'.jobs && id in Ids(tr'.jobs[tr'.flags[id]].sel + tr'.jobs[tr'.flags[id]].kids)
    {
      var i := tr.flags[id];
      assert id in Ids(tr.jobs[i].sel + tr.jobs[i].kids);
      var u :| u in tr.jobs[i].sel + tr.jobs[i].kids && u.id == id;
      assert u != t && (i == j ==> u in tr.jobs[j].sel - {t} + (tr.jobs[j].kids - {t}));
      assert i in tr'.jobs && u in tr'.jobs[i].sel + tr'.jobs[i].kids;
    }
    forall l, h | HasHolder(tr.holders, l, h)
      ensures exists i :: i in tr'.jobs && HolderOf(h, l, tr'.jobs[i])
    {
      var i :| i in tr.jobs && HolderOf(h, l, tr.jobs[i]);
      assert i in tr'.jobs && HolderOf(h, l, tr'.jobs[i]);
    }
  }

  lemma UnflagOwn(tr: Tree, j: JobId, b: Job, t: Table, tr': Tree)
    requires InPhase(tr, j, Aborting) && tr.jobs[j] == b && t in b.sel + b.kids && tr' == DoUnflag(tr, j, t)
    requires Unique(tr.tables) && Owned(tr, j, b) && b.parent + 1 < |tr.tables|
    ensures j in tr'.jobs ==> JobOk(tr', j, tr'.jobs[j])
  {
    if j in tr'.jobs {
      forall u | u in b.sel + b.kids && u != t ensures u.id != t.id {
        assert Has(tr.tables, b.parent, u) || Has(tr.tables, b.parent + 1, u);
        assert Has(tr.tables, b.parent, t) || Has(tr.tables, b.parent + 1, t);
      }
    }
  }

  lemma UnflagFrame(tr: Tree, j: JobId, t: Table, tr': Tree)
    requires Shape(tr) && InPhase(tr, j, Aborting) && tr' == DoUnflag(tr, j, t)
    requires Owns(tr.flags, t.id, j) && JobsApart(tr.jobs)
    ensures OnlyJob(tr, j, tr') && Shape(tr') && JobsApart(tr'.jobs)
  {
  }

  lemma UnflagInv(tr: Tree, j: JobId, t: Table, tr': Tree)
    requires Shape(tr) && Enabled(tr, Unflag(j, t)) && tr' == DoUnflag(tr, j, t)
    requires Inv(tr)
    ensures Inv(tr')
  {
    hide Well, Unique, Disjoint, Recent, InOrder, ManifestOk, IdsOk, NoStrayFlags, NoStrayHolders,
      JobsApart, Closed, Taken, Reserved, Hull;
    var b := tr.jobs[j];
    assert JobOk(tr, j, b);
    assert Owns(tr.flags, t.id, j);
    hide Owned, OnlyJob, DoUnflag;
    UnflagFrame(tr, j, t, tr');
    UnflagStray(tr, j, t, tr');
    UnflagOwn(tr, j, b, t, tr');
    hide JobOk;
    JobStepInv(tr, j, tr');
  }

  // ---- the memtable flush ----

  lemma ReserveInv(tr: Tree, tr': Tree)
    requires Inv(tr) && tr' == tr.(pending := Some(tr.nextId), nextId := tr.nextId + 1)
    ensures Inv(tr')
  {
    hide TablesOk, ManifestOk, JobsApart, NoStrayFlags, NoStrayHolders, Closed, Taken, Hull;
    forall j | j in tr.jobs ensures JobOk(tr', j, tr.jobs[j]) {
      assert JobOk(tr, j, tr.jobs[j]);
    }
    hide JobOk;
    assert ManifestOk(tr') by { SameManifest(tr, tr'); }
  }

  lemma SameManifest(tr: Tree, tr': Tree)
    requires ManifestOk(tr) && tr'.tables == tr.tables && tr'.listed == tr.listed && tr'.disk == tr.disk
    ensures ManifestOk(tr')
  {
  }

  lemma AddL0Has(tr: Tree, min: Key, max: Key, rows: Rows, tr': Tree)
    requires Shape(tr) && tr.pending.Some? && tr' == DoAddL0(tr, min, max, rows)
    ensures forall l, t :: Has(tr'.tables, l, t) <==>
              Has(tr.tables, l, t) || (l == 0 && t == Table(tr.pending.value, min, max, rows))
    ensures |tr'.tables| == |tr.tables| && forall l :: 0 < l < |tr.tables| ==> tr'.tables[l] == tr.tables[l]
  {
  }

  lemma AddL0Tables(tr: Tree, min: Key, max: Key, rows: Rows, tr': Tree)
    requires Shape(tr) && Enabled(tr, AddL0(min, max, rows)) && tr' == DoAddL0(tr, min, max, rows)
    requires TablesOk(tr.tables) && IdsOk(tr)
    ensures Well(tr'.tables) && Unique(tr'.tables) && Disjoint(tr'.tables) && Recent(tr'.tables)
  {
    hide Unlocked, InOrder, DoAddL0;
    AddL0Has(tr, min, max, rows, tr');
  }

  lemma AddL0InOrder(tr: Tree, min: Key, max: Key, rows: Rows, tr': Tree)
    requires Shape(tr) && tr.pending.Some? && tr' == DoAddL0(tr, min, max, rows)
    requires InOrder(tr.tables) && IdsOk(tr)
    ensures InOrder(tr'.tables)
  {
    assert forall i | 0 <= i < |tr.tables[0]| :: Has(tr.tables, 0, tr.tables[0][i]);
  }

  lemma AddL0Job(tr: Tree, t: Table, tr': Tree, j: JobId, b: Job)
    requires JobOk(tr, j, b)
    requires tr.pending == Some(t.id) && (forall u :: Has(tr.tables, 0, u) ==> u.id < t.id)
    requires tr'.pending == None && tr'.holders == tr.holders && tr'.flags == tr.flags && tr'.nextId == tr.nextId
    requires |tr'.tables| == |tr.tables| && forall l :: 0 < l < |tr.tables| ==> tr'.tables[l] == tr.tables[l]
    requires forall l, u :: Has(tr'.tables, l, u) <==> Has(tr.tables, l, u) || (l == 0 && u == t)
    ensures JobOk(tr', j, b)
  {
    hide Hull, Taken;
  }

  lemma AddL0Inv(tr: Tree, min: Key, max: Key, rows: Rows, tr': Tree)
    requires Shape(tr) && Enabled(tr, AddL0(min, max, rows)) && tr' == DoAddL0(tr, min, max, rows)
    requires Inv(tr)
    ensures Inv(tr')
  {
    hide Well, Unique, Disjoint, Recent, InOrder, JobOk, JobsApart, NoStrayFlags, NoStrayHolders, Unlocked;
    var t := Table(tr.pending.value, min, max, rows);
    AddL0Has(tr, min, max, rows, tr');
    AddL0Tables(tr, min, max, rows, tr');
    AddL0InOrder(tr, min, max, rows, tr');
    forall j | j in tr.jobs ensures JobOk(tr', j, tr.jobs[j]) {
      AddL0Job(tr, t, tr', j, tr.jobs[j]);
    }
    AddL0Manifest(tr, min, max, rows, tr');
    ManifestLoadable(tr');
    hide ManifestOk;
  }

  lemma AddL0Manifest(tr: Tree, min: Key, max: Key, rows: Rows, tr': Tree)
    requires Shape(tr) && tr.pending.Some? && tr' == DoAddL0(tr, min, max, rows)
    requires ManifestOk(tr) && IdsOk(tr)
    ensures ManifestOk(tr')
    ensures !Lists(tr.listed, 0, tr.pending.value)
  {
    AddL0Has(tr, min, max, rows, tr');
    assert forall l :: !Lists(tr.listed, l, tr.pending.value);
    assert forall l, id :: Lists(tr'.listed, l, id) <==>
                             Lists(tr.listed, l, id) || (l == 0 && id == tr.pending.value);
    forall l | 0 <= l < |tr'.listed| ensures Ascending(tr'.listed[l]) {
      assert Ascending(tr.listed[l]);
      assert !Lists(tr.listed, l, tr.pending.value);
    }
  }

  // ---- restarting ----

  /** Loading what the manifest lists finds the same tables on the same levels. */
  lemma ReloadHas(tr: Tree)
    requires Shape(tr) && Loadable(tr) && ManifestOk(tr)
    ensures forall l, t :: Has(DoReload(tr).tables, l, t) <==> Has(tr.tables, l, t)
  {
    var tr' := DoReload(tr);
    forall l, t | Has(tr.tables, l, t) ensures Has(tr'.tables, l, t) {
      assert Lists(tr.listed, l, t.id);
      var i :| 0 <= i < |tr.listed[l]| && tr.listed[l][i] == t.id;
      assert tr'.tables[l][i] == t;
    }
    forall l, t | Has(tr'.tables, l, t) ensures Has(tr.tables, l, t) {
      var i :| 0 <= i < |tr'.tables[l]| && tr'.tables[l][i] == t;
      assert Lists(tr.listed, l, tr.listed[l][i]);
    }
  }

  lemma ReloadInOrder(tr: Tree)
    requires Shape(tr) && Loadable(tr) && ManifestOk(tr)
    ensures InOrder(DoReload(tr).tables)
  {
    var tr' := DoReload(tr);
    forall l, i, j | 0 <= l < |tr'.tables| && 0 <= i < j < |tr'.tables[l]|
      ensures tr'.tables[l][i].id < tr'.tables[l][j].id
    {
      assert Lists(tr.listed, l, tr.listed[l][i]) && Lists(tr.listed, l, tr.listed[l][j]);
      assert Ascending(tr.listed[l]);
    }
  }

  lemma ReloadInv(tr: Tree, tr': Tree)
    requires Shape(tr) && Loadable(tr) && tr' == DoReload(tr)
    requires Inv(tr)
    ensures Inv(tr')
  {
    hide JobsOk;
    ReloadHas(tr);
    ReloadInOrder(tr);
    ReloadTables(tr.tables, tr'.tables);
    hide TablesOk;
    assert forall l :: 0 <= l < |tr'.holders| ==> tr'.holders[l] == [];
    assert JobsOk(tr') by { NoJobs(tr'); }
  }

  lemma NoJobs(tr: Tree)
    requires tr.jobs == map[] && tr.flags == map[] && forall l :: 0 <= l < |tr.holders| ==> tr.holders[l] == []
    ensures JobsOk(tr)
  {
  }

  lemma ReloadTables(tables: seq<seq<Table>>, tables': seq<seq<Table>>)
    requires TablesOk(tables) && InOrder(tables')
    requires forall l, t :: Has(tables', l, t) <==> Has(tables, l, t)
    ensures TablesOk(tables')
  {
  }

  // ---- all steps ----

  /** The level a job reads is not locked for writing. */
  ghost predicate MayRead(jobs: map<JobId, Job>, b: Job) {
    forall i <- jobs :: jobs[i].Locks() ==>
      (b.phase.Closing? ==> jobs[i].parent != 0) && (b.phase.Scanning? ==> b.parent + 1 != jobs[i].parent)
  }

  lemma Reads(jobs: map<JobId, Job>, j: JobId)
    requires LocksOk(jobs) && j in jobs
    ensures MayRead(jobs, jobs[j])
  {
  }

  lemma LocksWith(jobs: map<JobId, Job>, j: JobId, b: Job)
    requires LocksOk(jobs) && !b.Locks() && MayRead(jobs, b)
    ensures LocksOk(jobs[j := b])
  {
  }

  lemma LocksWithout(jobs: map<JobId, Job>, j: JobId)
    requires LocksOk(jobs)
    ensures LocksOk(jobs - {j})
  {
  }

  lemma LocksTaken(tr: Tree, j: JobId)
    requires Shape(tr) && LocksOk(tr.jobs) && Enabled(tr, Lock(j))
    ensures LocksOk(DoLock(tr, j).jobs)
  {
  }

  lemma SelectLocks(tr: Tree, st: Step, tr': Tree)
    requires Shape(tr) && Loadable(tr) && Enabled(tr, st) && tr' == Apply(tr, st)
    requires LocksOk(tr.jobs) && (st.Start? || st.Grow? || st.CloseDone? || st.BeginScan? || st.Scan?)
    ensures LocksOk(tr'.jobs)
  {
    hide Loadable, Meets, LocksOk;
    match st {
      case Start(j, level, t) => LocksWith(tr.jobs, j, tr'.jobs[j]);
      case Grow(j, t) => Moves(tr.jobs, j, tr'.jobs[j]);
      case CloseDone(j) => Moves(tr.jobs, j, tr'.jobs[j]);
      case BeginScan(j) => LocksWith(tr.jobs, j, tr'.jobs[j]);
      case Scan(j) => Moves(tr.jobs, j, tr'.jobs[j]);
      case _ =>
    }
  }

  /** Every step keeps the locks exclusive. */
  lemma StepLocks(tr: Tree, st: Step, tr': Tree)
    requires Shape(tr) && Loadable(tr) && Enabled(tr, st) && tr' == Apply(tr, st)
    requires LocksOk(tr.jobs)
    ensures LocksOk(tr'.jobs)
  {
    hide Loadable, IsMerge, Without, WithoutHolder, Place, InsertTable, InsertId, RemoveIds, HoldId, Held, Meets,
      LocksOk, DoLock, DoStart, DoGrow, DoScan, Unlocked, NoWriter;
    match st {
      case Hold(j) => Moves(tr.jobs, j, tr'.jobs[j]);
      case Unflag(j, t) =>
        if j in tr'.jobs { Moves(tr.jobs, j, tr'.jobs[j]); }
        else { LocksWithout(tr.jobs, j); }
      case Lock(j) => LocksTaken(tr, j);
      case Install(j, rows) => LocksWithout(tr.jobs, j);
      case Reload => NoLocks();
      case Reserve =>
      case AddL0(_, _, _) =>
      case _ => SelectLocks(tr, st, tr');
    }
  }

  lemma NoLocks()
    ensures LocksOk(map[])
  {
  }

  /** A job that keeps reading what it reads, or stops, keeps the locks exclusive. */
  lemma Moves(jobs: map<JobId, Job>, j: JobId, b: Job)
    requires LocksOk(jobs) && j in jobs && !b.Locks() && b.parent == jobs[j].parent
    requires (b.phase.Closing? ==> jobs[j].phase.Closing?) && (b.phase.Scanning? ==> jobs[j].phase.Scanning?)
    ensures LocksOk(jobs[j := b])
  {
    hide LocksOk;
    Reads(jobs, j);
    LocksWith(jobs, j, b);
  }

  lemma SamePassed(tables: seq<seq<Table>>, tables': seq<seq<Table>>, b: Job)
    requires KidsPassed(tables, b) && |tables'| == |tables|
    requires b.phase.Scanning? && b.parent + 1 < |tables| ==> tables'[b.parent + 1] == tables[b.parent + 1]
    ensures KidsPassed(tables', b)
  {
  }

  /** Only job `j` moved, and no table below level 0 did. */
  lemma OthersPassed(tr: Tree, j: JobId, tr': Tree)
    requires ScansOk(tr)
    requires |tr'.tables| == |tr.tables| && (forall l :: 0 < l < |tr.tables| ==> tr'.tables[l] == tr.tables[l])
    requires forall i :: i in tr'.jobs && i != j ==> i in tr.jobs && tr'.jobs[i] == tr.jobs[i]
    requires j in tr'.jobs ==> KidsPassed(tr'.tables, tr'.jobs[j])
    ensures ScansOk(tr')
  {
    hide KidsPassed;
    forall i | i in tr'.jobs ensures KidsPassed(tr'.tables, tr'.jobs[i]) {
      if i != j {
        assert KidsPassed(tr.tables, tr.jobs[i]);
        SamePassed(tr.tables, tr'.tables, tr.jobs[i]);
      }
    }
  }

  /** A job that does not scan afterwards */
  lemma LeavesPassed(tr: Tree, j: JobId, tr': Tree)
    requires ScansOk(tr) && tr'.tables == tr.tables
    requires forall i :: i in tr'.jobs && i != j ==> i in tr.jobs && tr'.jobs[i] == tr.jobs[i]
    requires j in tr'.jobs ==> !tr'.jobs[j].phase.Scanning?
    ensures ScansOk(tr')
  {
    hide ScansOk;
    OthersPassed(tr, j, tr');
  }

  lemma ScanPasses(tr: Tree, j: JobId, tr': Tree)
    requires Shape(tr) && Enabled(tr, Scan(j)) && tr' == DoScan(tr, j) && ScansOk(tr) && InOrder(tr.tables)
    ensures ScansOk(tr')
  {
    hide Meets, Min, Max;
    assert KidsPassed(tr.tables, tr.jobs[j]);
    hide ScansOk;
    OthersPassed(tr, j, tr');
  }

  lemma NothingPassed(tr: Tree, j: JobId, tr': Tree)
    requires Shape(tr) && InPhase(tr, j, Picked) && JobOk(tr, j, tr.jobs[j]) && ScansOk(tr)
    requires tr' == SetJob(tr, j, tr.jobs[j].(phase := Scanning(0)))
    ensures ScansOk(tr')
  {
    hide ScansOk, Owned, Closed;
    OthersPassed(tr, j, tr');
  }

  lemma InstallKeepsScans(tr: Tree, j: JobId, rows: Rows, tr': Tree)
    requires Shape(tr) && j in tr.jobs && tr.jobs[j].phase.Merging? && tr' == DoInstall(tr, j, rows) && ScansOk(tr)
    requires NoReader(tr, tr.jobs[j].parent) && NoReader(tr, tr.jobs[j].parent + 1)
    ensures ScansOk(tr')
  {
    hide DoInstall, KidsPassed, Installs;
    InstallEffect(tr, j, rows);
    forall i | i in tr'.jobs ensures KidsPassed(tr'.tables, tr'.jobs[i]) {
      assert KidsPassed(tr.tables, tr.jobs[i]);
      SamePassed(tr.tables, tr'.tables, tr.jobs[i]);
    }
  }

  lemma ChildUnread(tr: Tree, j: JobId)
    requires j in tr.jobs && Unlocked(tr, tr.jobs[j].parent + 1)
    ensures NoReader(tr, tr.jobs[j].parent + 1)
  {
  }

  lemma SelectScans(tr: Tree, st: Step, tr': Tree)
    requires Inv(tr) && Enabled(tr, st) && tr' == Apply(tr, st)
    requires ScansOk(tr) && (st.Start? || st.Grow? || st.CloseDone? || st.BeginScan? || st.Scan?)
    ensures ScansOk(tr')
  {
    hide IdsOk, ManifestOk, Loadable, JobOk, JobsApart, NoStrayFlags, NoStrayHolders, ScansOk, Unlocked, NoWriter,
      Meets, DoScan, Well, Unique, Disjoint, Recent, InOrder, Min, Max;
    match st {
      case BeginScan(j) => NothingPassed(tr, j, tr');
      case Scan(j) => ScanPasses(tr, j, tr');
      case Start(j, _, _) => LeavesPassed(tr, j, tr');
      case Grow(j, _) => LeavesPassed(tr, j, tr');
      case CloseDone(j) => LeavesPassed(tr, j, tr');
      case _ =>
    }
  }

  /** No step makes a scan come across a table that it has taken. */
  lemma StepScans(tr: Tree, st: Step, tr': Tree)
    requires Inv(tr) && Enabled(tr, st) && tr' == Apply(tr, st)
    requires LocksOk(tr.jobs) && ScansOk(tr)
    ensures ScansOk(tr')
  {
    hide TablesOk, IdsOk, ManifestOk, Loadable, JobsOk, LocksOk, ScansOk, Unlocked, NoWriter, Held, HoldId, DoInstall,
      DoStart, DoGrow, DoScan, InsertId, IsMerge, WithoutHolder, Meets;
    match st {
      case Reserve => SameScans(tr, tr');
      case AddL0(_, _, _) => SameScans(tr, tr');
      case Hold(j) => LeavesPassed(tr, j, tr');
      case Unflag(j, _) => LeavesPassed(tr, j, tr');
      case Lock(j) => LeavesPassed(tr, j, tr');
      case Install(j, rows) =>
        LockExcludes(tr, j);
        ChildUnread(tr, j);
        InstallKeepsScans(tr, j, rows, tr');
      case Reload => NoScans(tr');
      case _ => SelectScans(tr, st, tr');
    }
  }

  lemma NoScans(tr: Tree)
    requires tr.jobs == map[]
    ensures ScansOk(tr)
  {
  }

  lemma SameScans(tr: Tree, tr': Tree)
    requires |tr'.tables| == |tr.tables| && (forall l :: 0 < l < |tr.tables| ==> tr'.tables[l] == tr.tables[l])
    requires tr'.jobs == tr.jobs && ScansOk(tr)
    ensures ScansOk(tr')
  {
    hide KidsPassed;
    forall i | i in tr'.jobs ensures KidsPassed(tr'.tables, tr'.jobs[i]) {
      assert KidsPassed(tr.tables, tr.jobs[i]);
      SamePassed(tr.tables, tr'.tables, tr.jobs[i]);
    }
  }

  lemma LockExcludes(tr: Tree, j: JobId)
    requires LocksOk(tr.jobs) && j in tr.jobs && tr.jobs[j].Locks()
    ensures NoReader(tr, tr.jobs[j].parent)
  {
  }

  /** Every step keeps the level invariant and the locks exclusive. */
  lemma StepInv(tr: Tree, st: Step)
    requires Safe(tr) && Enabled(tr, st)
    ensures Safe(Apply(tr, st))
  {
    hide TablesOk, JobsOk, IdsOk, ManifestOk, Loadable, DoInstall, DoReload, DoHold, DoScan, DoGrow, DoUnflag, DoStart,
      DoAddL0, DoLock, LocksOk, ScansOk, Unlocked, NoReader, NoWriter;
    var tr' := Apply(tr, st);
    StepLocks(tr, st, tr');
    StepScans(tr, st, tr');
    match st
    case Reserve => ReserveInv(tr, tr');
    case AddL0(min, max, rows) => AddL0Inv(tr, min, max, rows, tr');
    case Start(j, level, t) => StartInv(tr, j, level, t, tr');
    case Grow(j, t) => GrowInv(tr, j, t, tr');
    case CloseDone(j) => CloseDoneInv(tr, j, tr');
    case BeginScan(j) => BeginScanInv(tr, j, tr');
    case Scan(j) => ScanInv(tr, j, tr');
    case Hold(j) => HoldInv(tr, j, tr');
    case Unflag(j, t) => UnflagInv(tr, j, t, tr');
    case Lock(j) => LockInv(tr, j, tr');
    case Install(j, rows) =>
      LockExcludes(tr, j);
      InstallInv(tr, j, rows, tr');
    case Reload => ReloadInv(tr, tr');
  }
}
