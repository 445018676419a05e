/** The protocol between callers of the write-ahead log and its one background writer.
    Every critical section of the code is one step; callers and the writer interleave freely. */
module WalProtocol {
  import opened Keys
  import opened Versions
  import opened WalPages

  /** Where the writer is in its loop, with what it took from the shared state: buffers still to write, whether to sync,
      the sync position it saw, and the offset to truncate to */
  datatype Writer =
    | Idle
    | Writing(todo: seq<seq<Byte>>, sync: bool, seen: nat, target: Option<nat>)
    | Synced(did: bool, target: Option<nat>)
    | Truncated(did: bool, target: Option<nat>)
  {
    function Todo(): seq<seq<Byte>> {
      if Writing? then todo else []
    }

    /** The writer has synced, but not yet told callers what it wrote. */
    predicate HasSynced() {
      (Synced? || Truncated?) && did
    }
  }

  /** A call of `store`: where its bytes begin in the stream of all bytes, and the bytes */
  datatype StoreCall = StoreCall(start: nat, data: seq<Byte>, returned: bool) {
    function End(): nat {
      start + |data|
    }
  }

  /** A call of `sync`: the sync and write positions it saw */
  datatype SyncCall = SyncCall(last: nat, seen: nat, returned: bool)

  datatype OffsetCall = OffsetCall(target: nat, returned: bool)

  /** The shared status, the writer, the calls so far, and what is on disk:
      all bytes written, the first page file that is still there, and the removed ones in order.
      `sent` is everything ever queued. */
  datatype Wal = Wal(queuePos: nat, writePos: nat, syncPos: nat, queue: seq<seq<Byte>>, syncFlag: bool,
                     offsetPos: nat, flushPos: nat, writer: Writer, position: nat,
                     log: seq<Byte>, first: nat, removed: seq<nat>, sent: seq<Byte>,
                     stores: seq<StoreCall>, syncs: seq<SyncCall>, offsets: seq<OffsetCall>)

  function Concat(bufs: seq<seq<Byte>>): seq<Byte> {
    if bufs == [] then [] else bufs[0] + Concat(bufs[1..])
  }

  /** A log that was opened with `log` on disk and offset `start` */
  function Opened(log: seq<Byte>, start: nat): Wal {
    Wal(|log|, |log|, |log|, [], false, start, start, Idle, |log|, log, start / PAGE_SIZE, [], log, [], [], [])
  }

  datatype Step =
    | Store(records: seq<seq<Byte>>) | StoreReturn(i: nat)
    | Sync | SyncReturn(i: nat)
    | SetOffset(target: nat) | SetOffsetReturn(i: nat)
    | Grab | WriteNext | SyncLog | Truncate | Publish

  /** There is something for the writer to do. */
  predicate Work(s: Wal) {
    s.queue != [] || s.offsetPos > s.flushPos || s.syncFlag
  }

  predicate Enabled(s: Wal, step: Step) {
    match step
    case Store(records) => forall r <- records :: r != []
    case StoreReturn(i) => i < |s.stores| && !s.stores[i].returned && s.writePos >= s.stores[i].End()
    case Sync => s.syncPos <= s.writePos
    case SyncReturn(i) => i < |s.syncs| && !s.syncs[i].returned && s.syncPos > s.syncs[i].last
    case SetOffset(target) => s.offsetPos < target <= s.writePos
    case SetOffsetReturn(i) => i < |s.offsets| && !s.offsets[i].returned && s.flushPos >= s.offsets[i].target
    case Grab => s.writer.Idle? && Work(s)
    case WriteNext => s.writer.Writing? && s.writer.todo != []
    case SyncLog => s.writer.Writing? && s.writer.todo == []
    case Truncate => s.writer.Synced?
    case Publish => s.writer.Truncated?
  }

  /** Queue the records of a batch. */
  function DoStore(s: Wal, records: seq<seq<Byte>>): Wal {
    var data := Concat(records);
    s.(queue := s.queue + records, queuePos := s.queuePos + |data|, sent := s.sent + data,
       stores := s.stores + [StoreCall(s.queuePos, data, false)])
  }

  /** Ask for a sync, unless everything written is synced already. */
  function DoSync(s: Wal): Wal {
    if s.syncPos == s.writePos then s.(syncs := s.syncs + [SyncCall(s.syncPos, s.writePos, true)])
    else s.(syncFlag := true, syncs := s.syncs + [SyncCall(s.syncPos, s.writePos, false)])
  }

  function DoGrab(s: Wal): Wal {
    var target := if s.offsetPos > s.flushPos then Some(s.offsetPos) else None;
    s.(queue := [], syncFlag := false, writer := Writing(s.queue, s.syncFlag, s.syncPos, target))
  }

  function DoWriteNext(s: Wal): Wal
    requires Enabled(s, WriteNext)
  {
    var buf := s.writer.todo[0];
    s.(log := s.log + buf, position := s.position + |buf|, writer := s.writer.(todo := s.writer.todo[1..]))
  }

  function DoSyncLog(s: Wal): Wal
    requires Enabled(s, SyncLog)
  {
    var did := s.writer.sync && s.writer.seen < s.position;
    s.(syncPos := if did then s.position else s.syncPos, writer := Synced(did, s.writer.target))
  }

  /** The page files a truncation removes */
  function Pages(from: nat, to: nat): (ps: seq<nat>)
    ensures |ps| == (if from <= to then to - from else 0) && forall i :: 0 <= i < |ps| ==> ps[i] == from + i
  {
    seq(if from <= to then to - from else 0, i requires 0 <= i => from + i)
  }

  function DoTruncate(s: Wal): Wal
    requires Enabled(s, Truncate)
  {
    var w := s.writer;
    if w.target.None? then s.(writer := Truncated(w.did, w.target))
    else
      s.(removed := s.removed + Pages(s.flushPos / PAGE_SIZE, w.target.value / PAGE_SIZE),
         first := w.target.value / PAGE_SIZE, writer := Truncated(w.did, w.target))
  }

  function DoPublish(s: Wal): Wal
    requires Enabled(s, Publish)
  {
    var target := s.writer.target;
    s.(writePos := s.position, flushPos := if target.Some? then target.value else s.flushPos, writer := Idle)
  }

  function Apply(s: Wal, step: Step): Wal
    requires Enabled(s, step)
  {
    match step
    case Store(records) => DoStore(s, records)
    case StoreReturn(i) => s.(stores := s.stores[i := s.stores[i].(returned := true)])
    case Sync => DoSync(s)
    case SyncReturn(i) => s.(syncs := s.syncs[i := s.syncs[i].(returned := true)])
    case SetOffset(target) => s.(offsetPos := target, offsets := s.offsets + [OffsetCall(target, false)])
    case SetOffsetReturn(i) => s.(offsets := s.offsets[i := s.offsets[i].(returned := true)])
    case Grab => DoGrab(s)
    case WriteNext => DoWriteNext(s)
    case SyncLog => DoSyncLog(s)
    case Truncate => DoTruncate(s)
    case Publish => DoPublish(s)
  }

  // ---- invariants ----

  /** What was queued is what is on disk, then what the writer has in hand, then the queue. */
  ghost predicate StreamOk(s: Wal) {
    && s.position == |s.log| && s.queuePos == |s.sent|
    && s.sent == s.log + Concat(s.writer.Todo()) + Concat(s.queue)
    && (forall b <- s.queue :: b != []) && (forall b <- s.writer.Todo() :: b != [])
  }

  ghost predicate CountersOk(s: Wal) {
    && s.flushPos <= s.offsetPos <= s.writePos <= s.position
    && (s.writer.Idle? ==> s.writePos == s.position)
    && (!s.writer.Idle? && s.writer.target.Some? ==> s.flushPos < s.writer.target.value <= s.offsetPos)
  }

  ghost predicate SyncOk(s: Wal) {
    && (s.writer.HasSynced() ==> s.syncPos == s.position)
    && (!s.writer.HasSynced() ==> s.syncPos <= s.writePos)
    && (s.writer.Writing? ==> s.writer.seen == s.syncPos)
  }

  /** The writer has been asked to sync. */
  predicate SyncPending(s: Wal) {
    s.syncFlag || (s.writer.Writing? && s.writer.sync)
  }

  ghost predicate PagesOk(s: Wal, base: nat) {
    && var cut := if s.writer.Truncated? && s.writer.target.Some? then s.writer.target.value else s.flushPos;
    && s.first == cut / PAGE_SIZE
    && base <= s.first && s.removed == Pages(base, s.first)
  }

  ghost predicate StoreOk(s: Wal, c: StoreCall) {
    && c.End() <= |s.sent| && s.sent[c.start..c.End()] == c.data
    && (c.returned ==> c.End() <= s.writePos)
  }

  ghost predicate SyncCallOk(s: Wal, c: SyncCall) {
    && c.seen <= s.position && c.last <= s.syncPos
    && (c.returned ==> c.seen <= s.syncPos)
    && (!c.returned ==>
          && c.last < c.seen
          && (s.syncPos == c.last || c.seen <= s.syncPos)
          && (s.syncPos == c.last ==> SyncPending(s)))
  }

  ghost predicate OffsetCallOk(s: Wal, c: OffsetCall) {
    c.target <= s.offsetPos && (c.returned ==> c.target <= s.flushPos)
  }

  ghost predicate CallsOk(s: Wal) {
    && (forall i :: 0 <= i < |s.stores| ==> StoreOk(s, s.stores[i]))
    && (forall i :: 0 <= i < |s.syncs| ==> SyncCallOk(s, s.syncs[i]))
    && (forall i :: 0 <= i < |s.offsets| ==> OffsetCallOk(s, s.offsets[i]))
  }

  ghost predicate Inv(s: Wal, base: nat) {
    StreamOk(s) && CountersOk(s) && SyncOk(s) && PagesOk(s, base) && CallsOk(s)
  }

  lemma {:induction false} ConcatConcat(a: seq<seq<Byte>>, b: seq<seq<Byte>>)
    ensures Concat(a + b) == Concat(a) + Concat(b)
  {
    if a == [] {
      assert a + b == b;
    } else {
      assert (a + b)[1..] == a[1..] + b;
      ConcatConcat(a[1..], b);
    }
  }

  lemma ConcatNothing()
    ensures Concat([]) == []
  {
  }

  lemma ConcatFirst(bufs: seq<seq<Byte>>)
    requires bufs != []
    ensures Concat(bufs) == bufs[0] + Concat(bufs[1..])
    ensures bufs[0] != [] ==> Concat(bufs) != []
  {
  }

  lemma StepStream(s: Wal, step: Step)
    requires Enabled(s, step) && StreamOk(s)
    ensures StreamOk(Apply(s, step))
  {
    hide Concat;
    ConcatNothing();
    match step {
      case Store(records) =>
        ConcatConcat(s.queue, records);
        assert s.log + Concat(s.writer.Todo()) + (Concat(s.queue) + Concat(records)) == s.sent + Concat(records);
      case Grab =>
        assert s.log + [] + Concat(s.queue) == s.log + Concat(s.queue) + [];
      case WriteNext =>
        ConcatFirst(s.writer.todo);
        var buf, rest := s.writer.todo[0], s.writer.todo[1..];
        assert forall b <- rest :: b in s.writer.Todo();
        assert s.log + (buf + Concat(rest)) + Concat(s.queue) == s.log + buf + Concat(rest) + Concat(s.queue);
      case SyncLog =>
      case _ =>
    }
  }

  lemma StepCounters(s: Wal, step: Step)
    requires Enabled(s, step) && CountersOk(s)
    ensures CountersOk(Apply(s, step))
  {
    hide Concat;
  }

  lemma StepSync(s: Wal, step: Step)
    requires Enabled(s, step) && CountersOk(s) && SyncOk(s)
    ensures SyncOk(Apply(s, step))
  {
    hide Concat;
  }

  lemma StepPages(s: Wal, step: Step, base: nat)
    requires Enabled(s, step) && CountersOk(s) && PagesOk(s, base)
    ensures PagesOk(Apply(s, step), base)
  {
    hide Concat;
    if step.Truncate? && s.writer.target.Some? {
      assert s.flushPos / PAGE_SIZE <= s.writer.target.value / PAGE_SIZE;
    }
  }

  lemma StepStores(s: Wal, step: Step)
    requires Enabled(s, step) && StreamOk(s) && CountersOk(s)
    requires forall i :: 0 <= i < |s.stores| ==> StoreOk(s, s.stores[i])
    ensures forall i :: 0 <= i < |Apply(s, step).stores| ==> StoreOk(Apply(s, step), Apply(s, step).stores[i])
  {
    hide Concat;
    var s' := Apply(s, step);
    forall i | 0 <= i < |s.stores| ensures s'.sent[s.stores[i].start..s.stores[i].End()] == s.stores[i].data {
      assert StoreOk(s, s.stores[i]);
    }
  }

  lemma StepSyncs(s: Wal, step: Step)
    requires Enabled(s, step) && StreamOk(s) && CountersOk(s) && SyncOk(s)
    requires forall i :: 0 <= i < |s.syncs| ==> SyncCallOk(s, s.syncs[i])
    ensures forall i :: 0 <= i < |Apply(s, step).syncs| ==> SyncCallOk(Apply(s, step), Apply(s, step).syncs[i])
  {
    hide Concat;
  }

  lemma StepOffsets(s: Wal, step: Step)
    requires Enabled(s, step) && CountersOk(s) && forall i :: 0 <= i < |s.offsets| ==> OffsetCallOk(s, s.offsets[i])
    ensures forall i :: 0 <= i < |Apply(s, step).offsets| ==> OffsetCallOk(Apply(s, step), Apply(s, step).offsets[i])
  {
    hide Concat;
  }

  /** Every step keeps the invariant. */
  lemma StepInv(s: Wal, step: Step, base: nat)
    requires Enabled(s, step) && Inv(s, base)
    ensures Inv(Apply(s, step), base)
  {
    hide StreamOk, CountersOk, SyncOk, PagesOk, StoreOk, SyncCallOk, OffsetCallOk, Apply, Enabled;
    StepStream(s, step);
    StepCounters(s, step);
    StepSync(s, step);
    StepPages(s, step, base);
    StepStores(s, step);
    StepSyncs(s, step);
    StepOffsets(s, step);
  }

  // ---- all runs ----

  /** `states` is a run that starts with opening a log. */
  ghost predicate Run(states: seq<Wal>, steps: seq<Step>, log: seq<Byte>, start: nat) {
    && start <= |log| && |states| == |steps| + 1 && states[0] == Opened(log, start)
    && forall i :: 0 <= i < |steps| ==> Enabled(states[i], steps[i]) && states[i + 1] == Apply(states[i], steps[i])
  }

  lemma {:induction false} RunInv(states: seq<Wal>, steps: seq<Step>, log: seq<Byte>, start: nat, i: nat)
    requires Run(states, steps, log, start) && i < |states|
    ensures Inv(states[i], start / PAGE_SIZE)
  {
    hide Apply, Enabled;
    if i == 0 {
      OpenedInv(log, start);
    } else {
      RunInv(states, steps, log, start, i - 1);
      StepInv(states[i - 1], steps[i - 1], start / PAGE_SIZE);
    }
  }

  lemma OpenedInv(log: seq<Byte>, start: nat)
    requires start <= |log|
    ensures Inv(Opened(log, start), start / PAGE_SIZE)
  {
    assert log + [] + [] == log;
  }

  /** The positions stay in order and account for every byte that is queued or in the writer's hands. */
  lemma PositionsInOrder(s: Wal, base: nat)
    requires Inv(s, base)
    ensures s.writePos <= s.position <= s.queuePos && s.flushPos <= s.offsetPos <= s.writePos
    ensures s.queuePos == s.position + |Concat(s.writer.Todo())| + |Concat(s.queue)|
  {
    hide Concat;
  }

  /** The assertions in the writer's loop */
  lemma WriterAssertionsHold(s: Wal, base: nat)
    requires Inv(s, base)
    ensures s.offsetPos <= s.flushPos ==> s.offsetPos == s.flushPos
    ensures s.writer.Idle? && Work(s) ==> s.position == s.writePos
    ensures s.writer.Idle? && !Work(s) ==> s.writePos == s.queuePos
    ensures s.writer.Truncated? ==> s.writePos <= s.position
  {
    if s.writer.Idle? && !Work(s) {
      ConcatNothing();
      assert s.sent == s.log + [] + [];
    }
  }

  /** The assertion in `sync` fails exactly while the writer has synced bytes that it has not yet published. */
  lemma SyncAssertion(s: Wal, base: nat)
    requires Inv(s, base)
    ensures Enabled(s, Sync) <==> !(s.writer.HasSynced() && s.writePos < s.position)
  {
    hide StreamOk, PagesOk, CallsOk;
  }

  /** A `store` that returned has its bytes on disk, at the place its result names. */
  lemma StoredBytes(s: Wal, base: nat, i: nat)
    requires Inv(s, base) && i < |s.stores| && s.stores[i].returned
    ensures
      var c := s.stores[i];
      c.End() <= |s.log| && s.log[c.start..c.End()] == c.data
  {
    hide Concat;
    var c := s.stores[i];
    assert StoreOk(s, c);
    assert s.sent[c.start..c.End()] == s.log[c.start..c.End()];
  }

  /** A `sync` that returned covers everything that was written when it was called. */
  lemma SyncCovers(s: Wal, base: nat, i: nat)
    requires Inv(s, base) && i < |s.syncs| && s.syncs[i].returned
    ensures s.syncs[i].seen <= s.syncPos <= s.position
  {
    hide StreamOk, PagesOk;
    assert SyncCallOk(s, s.syncs[i]);
  }

  /** Truncation: page files are removed one after the other, none of them holds a byte at or after the offset,
      and the page being written is still there. */
  lemma TruncationSafe(s: Wal, base: nat)
    requires Inv(s, base)
    ensures |s.removed| == s.first - base && forall i :: 0 <= i < |s.removed| ==> s.removed[i] == base + i
    ensures forall p <- s.removed :: p < s.first && (p + 1) * PAGE_SIZE <= s.offsetPos
    ensures s.first <= s.position / PAGE_SIZE
  {
    hide StreamOk, CallsOk, SyncOk;
    assert s.first * PAGE_SIZE <= s.offsetPos;
  }

  /** Some caller is waiting and its condition does not hold yet. */
  ghost predicate Waits(s: Wal) {
    || (exists i :: 0 <= i < |s.stores| && !s.stores[i].returned && s.writePos < s.stores[i].End())
    || (exists i :: 0 <= i < |s.syncs| && !s.syncs[i].returned && s.syncPos <= s.syncs[i].last)
    || (exists i :: 0 <= i < |s.offsets| && !s.offsets[i].returned && s.flushPos < s.offsets[i].target)
  }

  /** No request is lost: while a caller waits, the writer has a step to take. */
  lemma WriterCanStep(s: Wal, base: nat)
    requires Inv(s, base) && (Waits(s) || !s.writer.Idle?)
    ensures Enabled(s, Grab) || Enabled(s, WriteNext) || Enabled(s, SyncLog) || Enabled(s, Truncate) ||
        Enabled(s, Publish)
  {
    hide PagesOk;
    if s.writer.Idle? {
      if i :| 0 <= i < |s.stores| && !s.stores[i].returned && s.writePos < s.stores[i].End() {
        assert StoreOk(s, s.stores[i]);
        WriterAssertionsHold(s, base);
      } else if i :| 0 <= i < |s.syncs| && !s.syncs[i].returned && s.syncPos <= s.syncs[i].last {
        assert SyncCallOk(s, s.syncs[i]);
      } else {
        var i :| 0 <= i < |s.offsets| && !s.offsets[i].returned && s.flushPos < s.offsets[i].target;
        assert OffsetCallOk(s, s.offsets[i]);
      }
    }
  }

  /** How far the writer is from being idle */
  function Remaining(w: Writer): nat {
    match w
    case Idle => 0
    case Truncated(_, _) => 1
    case Synced(_, _) => 2
    case Writing(todo, _, _, _) => 3 + |todo|
  }

  /** Nothing sends a busy writer back: its steps bring it closer to idle, and other steps leave it alone. */
  lemma WriterFinishes(s: Wal, step: Step)
    requires Enabled(s, step) && !s.writer.Idle?
    ensures
      var w := Apply(s, step).writer;
      if step.WriteNext? || step.SyncLog? || step.Truncate? || step.Publish? then Remaining(w) < Remaining(s.writer)
      else w == s.writer
  {
    hide Concat;
  }

  /** Nothing that was queued or written is lost or reordered, and no position goes back. */
  ghost predicate Grown(s: Wal, t: Wal) {
    && s.log <= t.log && s.sent <= t.sent
    && s.syncPos <= t.syncPos && s.writePos <= t.writePos && s.queuePos <= t.queuePos && s.position <= t.position
    && s.offsetPos <= t.offsetPos && s.flushPos <= t.flushPos
  }

  lemma GrownTrans(s: Wal, t: Wal, u: Wal)
    requires Grown(s, t) && Grown(t, u)
    ensures Grown(s, u)
  {
  }

  lemma GrownSame(s: Wal)
    ensures Grown(s, s)
  {
  }

  /** Along a run the log only grows, in the order of the queue, and no position goes back. */
  lemma {:induction false} LogGrows(states: seq<Wal>, steps: seq<Step>, log: seq<Byte>, start: nat, i: nat, j: nat)
    requires Run(states, steps, log, start) && i <= j < |states|
    ensures Grown(states[i], states[j]) && states[j].log <= states[j].sent
    decreases j
  {
    hide Inv, Grown, Apply, Enabled;
    RunInv(states, steps, log, start, j);
    LogIsPrefix(states[j], start / PAGE_SIZE);
    if i < j {
      LogGrows(states, steps, log, start, i, j - 1);
      RunInv(states, steps, log, start, j - 1);
      StepGrows(states[j - 1], steps[j - 1], start / PAGE_SIZE);
      GrownTrans(states[i], states[j - 1], states[j]);
    } else {
      GrownSame(states[i]);
    }
  }

  lemma LogIsPrefix(s: Wal, base: nat)
    requires Inv(s, base)
    ensures s.log <= s.sent
  {
    hide Concat;
  }

  lemma StepGrows(s: Wal, step: Step, base: nat)
    requires Inv(s, base) && Enabled(s, step)
    ensures Grown(s, Apply(s, step))
  {
    hide Concat, PagesOk, CallsOk;
  }

  // ---- what a call that returned has achieved ----

  /** Calls are kept in order, and nothing but their return changes about them. */
  ghost predicate CallsKept(s: Wal, t: Wal) {
    && |s.stores| <= |t.stores| && |s.syncs| <= |t.syncs| && |s.offsets| <= |t.offsets|
    && (forall n :: 0 <= n < |s.stores| ==>
          t.stores[n].start == s.stores[n].start && t.stores[n].data == s.stores[n].data)
    && (forall n :: 0 <= n < |s.syncs| ==> t.syncs[n].last == s.syncs[n].last && t.syncs[n].seen == s.syncs[n].seen)
    && (forall n :: 0 <= n < |s.offsets| ==> t.offsets[n].target == s.offsets[n].target)
  }

  lemma StepCalls(s: Wal, step: Step)
    requires Enabled(s, step)
    ensures CallsKept(s, Apply(s, step))
  {
    hide Concat;
  }

  lemma {:induction false} RunCalls(states: seq<Wal>, steps: seq<Step>, log: seq<Byte>, start: nat, i: nat, j: nat)
    requires Run(states, steps, log, start) && i <= j < |states|
    ensures CallsKept(states[i], states[j])
    decreases j
  {
    hide Apply, Enabled;
    if i < j {
      RunCalls(states, steps, log, start, i, j - 1);
      StepCalls(states[j - 1], steps[j - 1]);
    }
  }

  /** A `store` that returned: its records are in the log, at the end of what was queued before, and have been
      published. The position it hands back is where they end. */
  lemma StoreReturned(states: seq<Wal>, steps: seq<Step>, log: seq<Byte>, start: nat, i: nat, j: nat,
                      records: seq<seq<Byte>>)
    requires Run(states, steps, log, start) && i < j < |states| && steps[i] == Store(records)
    ensures |states[i].stores| < |states[j].stores|
    ensures
      var c, q := states[j].stores[|states[i].stores|], states[i].queuePos;
      && c.End() == q + |Concat(records)|
      && (c.returned ==>
            && q + |Concat(records)| <= states[j].writePos <= |states[j].log|
            && states[j].log[q..q + |Concat(records)|] == Concat(records))
  {
    hide Concat, Inv, CallsKept;
    StoreCalled(states[i], records, states[i + 1]);
    RunCalls(states, steps, log, start, i + 1, j);
    var n := |states[i].stores|;
    KeptStore(states[i + 1], states[j], n);
    RunInv(states, steps, log, start, j);
    if states[j].stores[n].returned {
      StoredBytes(states[j], start / PAGE_SIZE, n);
      StorePublished(states[j], start / PAGE_SIZE, n);
    }
  }

  lemma StoreCalled(s: Wal, records: seq<seq<Byte>>, t: Wal)
    requires Enabled(s, Store(records)) && t == Apply(s, Store(records))
    ensures |t.stores| == |s.stores| + 1
    ensures t.stores[|s.stores|].start == s.queuePos && t.stores[|s.stores|].data == Concat(records)
  {
  }

  lemma KeptStore(s: Wal, t: Wal, n: nat)
    requires CallsKept(s, t) && n < |s.stores|
    ensures n < |t.stores| && t.stores[n].start == s.stores[n].start && t.stores[n].data == s.stores[n].data
  {
  }

  lemma StorePublished(s: Wal, base: nat, n: nat)
    requires Inv(s, base) && n < |s.stores| && s.stores[n].returned
    ensures s.stores[n].End() <= s.writePos <= |s.log|
  {
    hide Concat;
    assert StoreOk(s, s.stores[n]);
  }

  /** A `sync` that returned: everything that was published when it was called has been synced. */
  lemma SyncReturned(states: seq<Wal>, steps: seq<Step>, log: seq<Byte>, start: nat, i: nat, j: nat)
    requires Run(states, steps, log, start) && i < j < |states| && steps[i] == Sync
    ensures |states[i].syncs| < |states[j].syncs|
    ensures states[j].syncs[|states[i].syncs|].returned ==> states[i].writePos <= states[j].syncPos
  {
    hide Concat, Inv, CallsKept;
    SyncCalled(states[i], states[i + 1]);
    RunCalls(states, steps, log, start, i + 1, j);
    var n := |states[i].syncs|;
    KeptSync(states[i + 1], states[j], n);
    RunInv(states, steps, log, start, j);
    if states[j].syncs[n].returned {
      SyncCovers(states[j], start / PAGE_SIZE, n);
    }
  }

  lemma SyncCalled(s: Wal, t: Wal)
    requires Enabled(s, Sync) && t == Apply(s, Sync)
    ensures |t.syncs| == |s.syncs| + 1 && t.syncs[|s.syncs|].seen == s.writePos
  {
  }

  lemma KeptSync(s: Wal, t: Wal, n: nat)
    requires CallsKept(s, t) && n < |s.syncs|
    ensures n < |t.syncs| && t.syncs[n].seen == s.syncs[n].seen
  {
  }

  /** A `set_offset` that returned: the log has been cut to its offset, and no page file before it is left. */
  lemma SetOffsetReturned(states: seq<Wal>, steps: seq<Step>, log: seq<Byte>, start: nat, i: nat, j: nat, target: nat)
    requires Run(states, steps, log, start) && i < j < |states| && steps[i] == SetOffset(target)
    ensures |states[i].offsets| < |states[j].offsets|
    ensures states[j].offsets[|states[i].offsets|].returned ==>
              target <= states[j].flushPos && target / 4096 <= states[j].first
  {
    hide Concat, Inv, CallsKept;
    OffsetCalled(states[i], target, states[i + 1]);
    RunCalls(states, steps, log, start, i + 1, j);
    var n := |states[i].offsets|;
    KeptOffset(states[i + 1], states[j], n);
    RunInv(states, steps, log, start, j);
    if states[j].offsets[n].returned {
      OffsetCut(states[j], start / PAGE_SIZE, n);
    }
  }

  lemma OffsetCalled(s: Wal, target: nat, t: Wal)
    requires Enabled(s, SetOffset(target)) && t == Apply(s, SetOffset(target))
    ensures |t.offsets| == |s.offsets| + 1 && t.offsets[|s.offsets|].target == target
  {
  }

  lemma KeptOffset(s: Wal, t: Wal, n: nat)
    requires CallsKept(s, t) && n < |s.offsets|
    ensures n < |t.offsets| && t.offsets[n].target == s.offsets[n].target
  {
  }

  lemma OffsetCut(s: Wal, base: nat, n: nat)
    requires Inv(s, base) && n < |s.offsets| && s.offsets[n].returned
    ensures s.offsets[n].target <= s.flushPos && s.offsets[n].target / PAGE_SIZE <= s.first
  {
    hide Concat, StreamOk, SyncOk;
    assert OffsetCallOk(s, s.offsets[n]);
  }

  // ---- every call is served ----

  /** Bytes up to `end` are in the log, or the writer is about to write them. */
  ghost predicate InHand(s: Wal, end: nat) {
    end <= |s.log| || (s.writer.Writing? && end <= |s.log| + |Concat(s.writer.todo)|)
  }

  /** The sync position has moved past `last`, or the writer is about to sync. */
  ghost predicate SyncInHand(s: Wal, last: nat) {
    s.syncPos > last || (s.writer.Writing? && s.writer.sync)
  }

  /** The log has been cut to `target`, or the writer is about to do so. */
  ghost predicate CutInHand(s: Wal, target: nat) {
    s.flushPos >= target || (!s.writer.Idle? && s.writer.target.Some? && s.writer.target.value >= target)
  }

  /** Once the writer has grabbed its work, whatever was asked for before is in its hands. */
  lemma GrabTakesAll(s: Wal, base: nat, i: nat)
    requires Inv(s, base) && Enabled(s, Grab)
    ensures i < |s.stores| ==> InHand(DoGrab(s), s.stores[i].End())
    ensures i < |s.syncs| && !s.syncs[i].returned ==> SyncInHand(DoGrab(s), s.syncs[i].last)
    ensures i < |s.offsets| ==> CutInHand(DoGrab(s), s.offsets[i].target)
  {
    hide Concat, PagesOk;
    ConcatNothing();
    if i < |s.stores| { assert StoreOk(s, s.stores[i]); }
    if i < |s.syncs| { assert SyncCallOk(s, s.syncs[i]); }
    if i < |s.offsets| { assert OffsetCallOk(s, s.offsets[i]); }
  }

  lemma StepInHand(s: Wal, step: Step, base: nat, end: nat)
    requires Inv(s, base) && Enabled(s, step) && InHand(s, end)
    ensures InHand(Apply(s, step), end)
  {
    hide Concat, PagesOk, CallsOk;
    ConcatNothing();
    if step.WriteNext? { ConcatFirst(s.writer.todo); }
  }

  lemma StepSyncInHand(s: Wal, step: Step, base: nat, n: nat)
    requires Inv(s, base) && Enabled(s, step) && n < |s.syncs|
    requires !s.syncs[n].returned ==> SyncInHand(s, s.syncs[n].last)
    ensures !Apply(s, step).syncs[n].returned ==> SyncInHand(Apply(s, step), s.syncs[n].last)
  {
    hide Concat, StreamOk, PagesOk;
    assert SyncCallOk(s, s.syncs[n]);
  }

  lemma StepCutInHand(s: Wal, step: Step, base: nat, target: nat)
    requires Inv(s, base) && Enabled(s, step) && CutInHand(s, target)
    ensures CutInHand(Apply(s, step), target)
  {
    hide Concat, StreamOk, PagesOk, CallsOk;
  }

  /** The calls numbered `n` that had been made in state `s` are in the writer's hands in state `t`, or done. */
  ghost predicate TakenUp(s: Wal, t: Wal, n: nat) {
    && (n < |s.stores| ==> InHand(t, s.stores[n].End()))
    && (n < |s.syncs| ==>
          && n < |t.syncs| && t.syncs[n].last == s.syncs[n].last
          && (t.syncs[n].returned || SyncInHand(t, s.syncs[n].last)))
    && (n < |s.offsets| ==> CutInHand(t, s.offsets[n].target))
  }

  lemma StepTakenUp(s: Wal, t: Wal, step: Step, base: nat, n: nat)
    requires Inv(t, base) && Enabled(t, step) && TakenUp(s, t, n)
    ensures TakenUp(s, Apply(t, step), n)
  {
    hide Inv, Apply, Enabled, InHand, SyncInHand, CutInHand;
    StepCalls(t, step);
    if n < |s.stores| { StepInHand(t, step, base, s.stores[n].End()); }
    if n < |s.syncs| { StepSyncInHand(t, step, base, n); }
    if n < |s.offsets| { StepCutInHand(t, step, base, s.offsets[n].target); }
  }

  lemma GrabTakesUp(s: Wal, base: nat, n: nat)
    requires Inv(s, base) && Enabled(s, Grab)
    ensures TakenUp(s, Apply(s, Grab), n)
  {
    hide Inv, InHand, SyncInHand, CutInHand;
    GrabTakesAll(s, base, n);
  }

  lemma {:induction false} RunTakesUp(states: seq<Wal>, steps: seq<Step>, log: seq<Byte>, start: nat,
                                      a: nat, m: nat, n: nat)
    requires Run(states, steps, log, start) && a < m < |states| && steps[a] == Grab
    ensures TakenUp(states[a], states[m], n)
    decreases m
  {
    hide Inv, Apply, Enabled, TakenUp;
    RunInv(states, steps, log, start, m - 1);
    if m == a + 1 {
      GrabTakesUp(states[a], start / PAGE_SIZE, n);
    } else {
      RunTakesUp(states, steps, log, start, a, m - 1, n);
      StepTakenUp(states[a], states[m - 1], steps[m - 1], start / PAGE_SIZE, n);
    }
  }

  /** When the writer publishes, what it had taken up is done. */
  lemma PublishServes(s: Wal, t: Wal, base: nat, n: nat)
    requires Inv(t, base) && Enabled(t, Publish) && TakenUp(s, t, n) && CallsKept(s, t)
    ensures
      var u := Apply(t, Publish);
      && (n < |s.stores| ==> u.stores[n].returned || Enabled(u, StoreReturn(n)))
      && (n < |s.syncs| ==> u.syncs[n].returned || Enabled(u, SyncReturn(n)))
      && (n < |s.offsets| ==> u.offsets[n].returned || Enabled(u, SetOffsetReturn(n)))
  {
    hide Concat, PagesOk, CallsOk;
  }

  /** Every call is served in one round: whatever was asked for before the writer grabs its work can return when the
      writer has published next. */
  lemma CallsServed(states: seq<Wal>, steps: seq<Step>, log: seq<Byte>, start: nat, a: nat, b: nat, n: nat)
    requires Run(states, steps, log, start) && a < b < |steps| && steps[a] == Grab && steps[b] == Publish
    ensures
      var s, t := states[a], states[b + 1];
      && (n < |s.stores| ==> n < |t.stores| && (t.stores[n].returned || Enabled(t, StoreReturn(n))))
      && (n < |s.syncs| ==> n < |t.syncs| && (t.syncs[n].returned || Enabled(t, SyncReturn(n))))
      && (n < |s.offsets| ==> n < |t.offsets| && (t.offsets[n].returned || Enabled(t, SetOffsetReturn(n))))
  {
    hide Inv, TakenUp, Apply, Enabled;
    RunCalls(states, steps, log, start, a, b);
    RunCalls(states, steps, log, start, a, b + 1);
    RunInv(states, steps, log, start, b);
    RunTakesUp(states, steps, log, start, a, b, n);
    PublishServes(states[a], states[b], start / PAGE_SIZE, n);
  }

  // ---- what is in the log ----

  /** The bytes of all stores among the steps, in order */
  function Stored(steps: seq<Step>): seq<Byte> {
    if steps == [] then []
    else
      var last := steps[|steps| - 1];
      Stored(steps[..|steps| - 1]) + if last.Store? then Concat(last.records) else []
  }

  /** In every run the log is what it was when opened, followed by the records of all stores in the order of the calls,
      up to some point; once the writer is idle and has nothing to do, all of them. */
  lemma {:induction false} LogIsStored(states: seq<Wal>, steps: seq<Step>, log: seq<Byte>, start: nat, i: nat)
    requires Run(states, steps, log, start) && i < |states|
    ensures states[i].log <= log + Stored(steps[..i])
    ensures states[i].queuePos == |log| + |Stored(steps[..i])|
    ensures states[i].writer.Idle? && !Work(states[i]) ==> states[i].log == log + Stored(steps[..i])
  {
    hide Inv, Apply, Enabled, Concat, Stored, Work;
    SentIsStored(states, steps, log, start, i);
    RunInv(states, steps, log, start, i);
    LogIsPrefix(states[i], start / PAGE_SIZE);
    AllWritten(states[i], start / PAGE_SIZE);
  }

  lemma AllWritten(s: Wal, base: nat)
    requires Inv(s, base)
    ensures s.queuePos == |s.sent| && (s.writer.Idle? && !Work(s) ==> s.log == s.sent)
  {
    hide CountersOk, SyncOk, PagesOk, CallsOk;
    ConcatNothing();
    assert s.log + [] + [] == s.log;
  }

  lemma {:induction false} SentIsStored(states: seq<Wal>, steps: seq<Step>, log: seq<Byte>, start: nat, i: nat)
    requires Run(states, steps, log, start) && i < |states|
    ensures states[i].sent == log + Stored(steps[..i])
  {
    hide Concat;
    if i > 0 {
      SentIsStored(states, steps, log, start, i - 1);
      assert steps[..i][..i - 1] == steps[..i - 1];
      assert Enabled(states[i - 1], steps[i - 1]) && states[i] == Apply(states[i - 1], steps[i - 1]);
    }
  }

  /** A request to sync is taken up once: after the writer has grabbed it, the flag is down until the next `sync`. */
  lemma {:induction false} FlagTakenDown(states: seq<Wal>, steps: seq<Step>, log: seq<Byte>, start: nat, a: nat, m: nat)
    requires Run(states, steps, log, start) && a < m < |states| && steps[a] == Grab
    requires forall i :: a < i < m ==> steps[i] != Sync
    ensures !states[m].syncFlag
    decreases m
  {
    hide Concat;
    if a + 1 < m { FlagTakenDown(states, steps, log, start, a, m - 1); }
    assert Enabled(states[m - 1], steps[m - 1]) && states[m] == Apply(states[m - 1], steps[m - 1]);
  }

  /** The log is synced only on request: without a `sync` the sync position stays where it was. */
  lemma {:induction false} NoSyncUnasked(states: seq<Wal>, steps: seq<Step>, log: seq<Byte>, start: nat, i: nat)
    requires Run(states, steps, log, start) && i < |states| && forall m :: 0 <= m < i ==> steps[m] != Sync
    ensures states[i].syncPos == |log| && !SyncPending(states[i])
  {
    hide Concat;
    if i > 0 {
      NoSyncUnasked(states, steps, log, start, i - 1);
      assert Enabled(states[i - 1], steps[i - 1]) && states[i] == Apply(states[i - 1], steps[i - 1]);
    }
  }

  /** In every state of every run: the positions are in order and account for all bytes, a returned `store` has its
      bytes on disk, a returned `sync` covers what was written when it was called, truncation is safe, the writer's
      assertions hold, and the one in `sync` holds except between syncing and publishing. */
  lemma RunSafe(states: seq<Wal>, steps: seq<Step>, log: seq<Byte>, start: nat, i: nat)
    requires Run(states, steps, log, start) && i < |states|
    ensures
      var s := states[i];
      && s.flushPos <= s.offsetPos <= s.writePos <= s.position <= s.queuePos
      && s.queuePos == s.position + |Concat(s.writer.Todo())| + |Concat(s.queue)|
      && (forall c <- s.stores :: c.returned ==> c.End() <= |s.log| && s.log[c.start..c.End()] == c.data)
      && (forall c <- s.syncs :: c.returned ==> c.seen <= s.syncPos)
      && |s.removed| == s.first - start / 4096
      && (forall m :: 0 <= m < |s.removed| ==> s.removed[m] == start / 4096 + m)
      && (forall p <- s.removed :: (p + 1) * 4096 <= s.offsetPos) && s.first <= s.position / 4096
      && (s.writer.Idle? && Work(s) ==> s.position == s.writePos)
      && (s.writer.Idle? && !Work(s) ==> s.writePos == s.queuePos && s.offsetPos == s.flushPos)
      && (Enabled(s, Sync) <==> !(s.writer.HasSynced() && s.writePos < s.position))
      && (forall records :: Enabled(s, Store(records)) <==> forall r <- records :: r != [])
  {
    hide Run, Inv, Concat;
    var s, base := states[i], start / PAGE_SIZE;
    RunInv(states, steps, log, start, i);
    PositionsInOrder(s, base);
    WriterAssertionsHold(s, base);
    SyncAssertion(s, base);
    TruncationSafe(s, base);
    forall c | c in s.stores && c.returned ensures c.End() <= |s.log| && s.log[c.start..c.End()] == c.data {
      var n :| 0 <= n < |s.stores| && s.stores[n] == c;
      StoredBytes(s, base, n);
    }
    forall c | c in s.syncs && c.returned ensures c.seen <= s.syncPos {
      var n :| 0 <= n < |s.syncs| && s.syncs[n] == c;
      SyncCovers(s, base, n);
    }
  }

  lemma RunNext(states: seq<Wal>, steps: seq<Step>, log: seq<Byte>, start: nat, step: Step) returns (states': seq<Wal>)
    requires Run(states, steps, log, start) && Enabled(states[|steps|], step)
    ensures Run(states', steps + [step], log, start) && states'[|steps| + 1] == Apply(states[|steps|], step)
  {
    hide Apply, Enabled;
    states' := states + [Apply(states[|steps|], step)];
  }

  /** Store one byte and let the writer go as far as syncing. */
  lemma StoreOne(states: seq<Wal>, steps: seq<Step>) returns (states': seq<Wal>, steps': seq<Step>)
    requires Run(states, steps, [], 0)
    requires var s := states[|steps|]; s.writer.Idle? && s.queue == [] && s.offsetPos == s.flushPos
    ensures Run(states', steps', [], 0)
    ensures
      var s, s' := states[|steps|], states'[|steps'|];
      && s'.position == s.position + 1 && s'.writePos == s.writePos && s'.queue == [] && s'.offsetPos == s'.flushPos
      && !s'.syncFlag && s'.writer == Synced(s.syncFlag && s.syncPos < s.position + 1, None)
      && s'.syncPos == if s'.writer.did then s'.position else s.syncPos
  {
    hide Run;
    assert Concat([[0]]) == [0] by { assert [[0 as Byte]][1..] == []; }
    hide Concat;
    states', steps' := states, steps;
    states' := RunNext(states', steps', [], 0, Store([[0]]));
    steps' := steps' + [Store([[0]])];
    states' := RunNext(states', steps', [], 0, Grab);
    steps' := steps' + [Grab];
    states' := RunNext(states', steps', [], 0, WriteNext);
    steps' := steps' + [WriteNext];
    states' := RunNext(states', steps', [], 0, SyncLog);
    steps' := steps' + [SyncLog];
  }

  /** A run in which a caller would hit the assertion in `sync`: it calls while the writer is between syncing and
      publishing. */
  lemma SyncAssertionCanFail() returns (states: seq<Wal>, steps: seq<Step>)
    ensures Run(states, steps, [], 0) && !Enabled(states[|steps|], Sync)
  {
    states, steps := [Opened([], 0)], [];
    states, steps := StoreOne(states, steps);
    hide Run;
    states := RunNext(states, steps, [], 0, Truncate);
    steps := steps + [Truncate];
    states := RunNext(states, steps, [], 0, Publish);
    steps := steps + [Publish];
    states := RunNext(states, steps, [], 0, Sync);
    steps := steps + [Sync];
    states, steps := StoreOne(states, steps);
  }
}
