/** Reopening the store from the bytes of its log: when it works, what it gives, and where it fails. */
module StoreRecovery {
  import opened Keys
  import opened Versions
  import opened Levels
  import LevelSafety
  import opened Store
  import opened StoreSafety
  import opened StoreTheorems
  import opened Merge
  import Wal = WalRecovery
  import WalPages
  import Mem = Memtable

  /** In every reachable state, reopening comes to an end if and only if no operation to be replayed has an empty
      key or value and the log does not end on a page boundary. It then finds exactly the operations after the log
      offset. */
  lemma RecoveryCondition(levels: nat, run: seq<Engine>, steps: seq<Store.Step>, i: nat)
    requires Run(levels, run, steps) && i < |run|
    ensures Wf(run[i]) && (Store.Enabled(run[i], Crash) <==> Replayable(run[i]))
    ensures Replayable(run[i]) ==>
              && Replayed(run[i]) ==
                 Wal.Recovery(run[i].ops[run[i].logOffset..], Wal.Finished(|Wal.Records(run[i].ops)|))
              && Next(run[i], Crash, DoCrash(run[i]))
  {
    hide Run, Inv, Replayable, Replayed, LevelSafety.Safe, DoReload, Replay, SizesOk;
    RunInv(levels, run, steps, i);
    InvWf(run[i]);
    ReopenExact(run[i]);
  }

  lemma InvWf(e: Engine)
    requires Inv(e)
    ensures Wf(e)
  {
    hide LevelSafety.Safe, StoredOk, FlushedOk, CoverOk, FrozenOk, Grows, Part, Replay;
  }

  /** Where the bytes to be replayed begin */
  function Offset(e: Engine): nat
    requires e.logOffset <= |e.ops|
  {
    |Wal.Records(e.ops[..e.logOffset])|
  }

  /** Reopen the log: read the page files from the manifest's log offset on into a memtable that numbers from the
      sequence offset. It ends exactly when the log is replayable, and then leaves the memtable of the reopened store.
      */
  method ReopenLog(files: map<nat, seq<Byte>>, start: nat, seqOffset: nat, ghost e: Engine, ghost first: nat)
    returns (mem: Mem.Memtable, ending: Wal.Ending)
    requires Wf(e) && SizesOk(e) && start == Offset(e) && seqOffset == e.seqOffset
    requires WalPages.Paged(files, Wal.Records(e.ops), first) && first <= start / WalPages.PAGE_SIZE
    ensures ending.Finished? <==> Replayable(e)
    ensures ending.Finished? ==>
              && ending.position == |Wal.Records(e.ops)|
              && mem.Valid() && ToRows(mem.entries) == DoCrash(e).mem
  {
    hide Wal.Recover, Wal.Records, Replay, LevelSafety.Safe, DoReload, WalPages.Paged, Replayable, SizesOk, ToRows;
    Wal.RecordsPrefix(e.ops, e.logOffset);
    var reader := new WalPages.WalReader(files, start, Wal.Records(e.ops), first);
    mem := new Mem.Memtable(seqOffset);
    NoRows();
    var r := Wal.Run(reader, mem);
    ReopenExact(e);
    ending := r.ending;
  }

  /** Truncating the log asks for an offset that is in the log and after the one before, as `set_offset` demands. */
  lemma TruncateWithinLog(levels: nat, run: seq<Engine>, steps: seq<Store.Step>, i: nat)
    requires Run(levels, run, steps) && i < |steps| && steps[i] == Truncate
    ensures run[i].logOffset <= |run[i].ops| && run[i + 1].logOffset <= |run[i].ops|
    ensures Offset(run[i]) < |Wal.Records(run[i].ops[..run[i + 1].logOffset])| <= |Wal.Records(run[i].ops)|
  {
    hide Run, Inv, Next, Wal.Records;
    RunStep(levels, run, steps, i);
    RunInv(levels, run, steps, i);
    var e, e' := run[i], run[i + 1];
    OffsetsIncrease(e, Truncate, e');
    TruncateTo(e, e');
    var a, b := e.logOffset, e'.logOffset;
    Wal.RecordsPrefix(e.ops, b);
    Wal.RecordsPrefix(e.ops[..b], a);
    assert e.ops[..b][..a] == e.ops[..a];
    Wal.SomeRecords(e.ops[..b][a..]);
  }

  lemma TruncateTo(e: Engine, e': Engine)
    requires Inv(e) && Next(e, Truncate, e')
    ensures e.logOffset <= |e.ops| && e'.logOffset <= |e.ops|
  {
    hide LevelSafety.Safe, StoredOk, FlushedOk, CoverOk, FrozenOk, Grows, Part, Replay, ReaderOk;
  }

  // ---- where it fails ----

  /** Replaying a log that ends on a page boundary, such as the empty one, does not return. */
  lemma EmptyLogLoops()
    ensures Wal.Recover([], 0) == Wal.Recovery([], Wal.Looping)
  {
  }

  /** Replaying a deletion of the empty key panics. */
  lemma EmptyKeyPanics()
    ensures Wal.Recover(Wal.Records([Delete([])]), 0) == Wal.Recovery([], Wal.Panicked)
  {
    hide Wal.Recover, Wal.Records;
    Wal.RecoverLog([], [Delete([])]);
    assert [] + Wal.Records([Delete([])]) == Wal.Records([Delete([])]);
    assert !Wal.Whole(Delete([]));
    assert Wal.FirstBad([Delete([])]) == 0;
    assert [Delete([])][..0] == [];
  }

  /** A store that was created and not written to cannot be reopened. */
  lemma EmptyStoreLoops(levels: nat)
    requires 0 < levels
    ensures Run(levels, [Empty(levels)], []) && !Store.Enabled(Empty(levels), Crash)
  {
    EmptyLogLoops();
    assert Empty(levels).ops[..0] == [];
  }

  lemma ExtendRun(levels: nat, run: seq<Engine>, steps: seq<Store.Step>, st: Store.Step)
    returns (run': seq<Engine>, steps': seq<Store.Step>)
    requires Run(levels, run, steps) && Shape(run[|steps|].tree) && Store.Enabled(run[|steps|], st)
    requires st.AddTable? ==> AddEnabled(run[|steps|], st.min, st.max)
    ensures Run(levels, run', steps') && Wf(run[|steps|])
    ensures |run| == |steps| + 1 && steps' == steps + [st] && run' == run + [Store.Apply(run[|steps|], st)]
  {
    hide Inv, Store.Enabled, AddEnabled, Store.Apply;
    RunInv(levels, run, steps, |steps|);
    InvWf(run[|steps|]);
    run', steps' := run + [Store.Apply(run[|steps|], st)], steps + [st];
  }

  /** One key with one value, as written first */
  function OneRow(): Rows {
    map[[1] := Version(1, Some([1]))]
  }

  lemma OneRowReplay()
    ensures Replay(map[], [Put([1], [1])], 1) == OneRow() != map[]
  {
    assert [Put([1], [1])][..0] == [];
    assert [1] in OneRow();
  }

  /** The store after one write that fills the memtable, while it is being flushed */
  lemma FlushStarted() returns (run: seq<Engine>, steps: seq<Store.Step>)
    ensures Run(2, run, steps) && |run| == |steps| + 1
    ensures
      var e := run[|steps|];
      && e.flush == Drawn && e.imm == Some(Frozen(0, 1, OneRow())) && e.ops == [Put([1], [1])] && e.logOffset == 0
      && Shape(e.tree) && e.tree.pending.Some? && e.tree.jobs == map[]
  {
    hide Replay, Replayed, OneRow, Wf;
    OneRowReplay();
    var batch := [Put([1], [1])];
    assert [] + batch == batch;
    run, steps := [Empty(2)], [];
    run, steps := ExtendRun(2, run, steps, Write(batch, true));
    run, steps := ExtendRun(2, run, steps, Push);
    run, steps := ExtendRun(2, run, steps, DrawId);
  }

  lemma OneRowTable(id: TableId)
    ensures Table(id, [1], [1], OneRow()).WellFormed()
  {
    LessAsymmetric([1], [1]);
  }

  lemma AddIsEnabled(e: Engine, min: Key, max: Key)
    requires Inv(e) && Shape(e.tree) && Store.Enabled(e, AddTable(min, max))
    ensures AddEnabled(e, min, max)
  {
    hide LevelSafety.Safe, HistOk, FlushedOk, CoverOk, FrozenOk, ReaderOk, Store.Enabled, AddEnabled, Replay;
    AddTableEnabled(e, min, max);
  }

  /** A run in which a crash renumbers an operation: it falls between adding the flushed table and dropping its log. */
  lemma RenumberingRun() returns (run: seq<Engine>, steps: seq<Store.Step>)
    ensures Run(2, run, steps) && |run| == |steps| + 1 > 1 && steps[|steps| - 1] == Crash
    ensures run[|steps|].hist != [] && run[|steps| - 1].hist != []
    ensures Current(run[|steps|]) != Current(run[|steps| - 1])
  {
    hide Replay, Replayed, OneRow, Wf, Inv, Run, AddEnabled;
    run, steps := FlushStarted();
    var e := run[|steps|];
    OneRowTable(e.tree.pending.value);
    RunInv(2, run, steps, |steps|);
    AddIsEnabled(e, [1], [1]);
    run, steps := ExtendRun(2, run, steps, AddTable([1], [1]));
    RecoveryCondition(2, run, steps, |steps|);
    ShortLog();
    var e' := DoCrash(run[|steps|]);
    RecoveryKeepsMap(2, run, steps, |steps|, e');
    run, steps := ExtendRun(2, run, steps, Crash);
  }

  lemma ShortLog()
    ensures |Wal.Records([Put([1], [1])])| == 20
  {
  }
}
