/** The log's round trip through its page files: what the writer wrote is what recovery replays. */
module WalRoundTrip {
  import opened Keys
  import opened Versions
  import opened Merge
  import opened WalPages
  import opened WalRecovery
  import Mem = Memtable

  lemma RecordsNext(ops: seq<Op>, i: nat)
    requires i < |ops|
    ensures Records(ops[..i + 1]) == Records(ops[..i]) + Record(ops[i])
  {
    hide Record;
    assert ops[..i + 1] == ops[..i] + [ops[i]];
    RecordsConcat(ops[..i], [ops[i]]);
    assert [ops[i]][1..] == [];
  }

  /** Write the records of a batch one after the other, as the writer does with its queue. */
  method WriteRecords(writer: WalWriter, ops: seq<Op>)
    requires writer.Valid()
    modifies writer
    ensures writer.Valid() && writer.log == old(writer.log) + Records(ops) && writer.first == old(writer.first)
  {
    hide Records, Record, Paged;
    NoRecords();
    assert ops[..0] == [];
    assert writer.log + [] == writer.log;
    for i := 0 to |ops|
      invariant writer.Valid() && writer.log == old(writer.log) + Records(ops[..i]) && writer.first == old(writer.first)
    {
      RecordsNext(ops, i);
      writer.WriteAll(Record(ops[i]));
    }
    assert ops[..|ops|] == ops;
  }

  lemma NoRecords()
    ensures Records([]) == []
  {
  }

  /** Write two lists of operations, drop the page files before the second one if `truncate` is set, and recover
      from where the second one begins. Its operations are replayed up to the first with an empty key or value. All of
      them are, and recovery ends at the end of the log, exactly if there is none and the log does not end on a page
      boundary. */
  method RoundTrip(before: seq<Op>, ops: seq<Op>, truncate: bool, nextSeq: nat)
    returns (mem: Mem.Memtable, ending: Ending)
    requires (forall op <- before + ops :: Storable(op))
    ensures mem.Valid() && ToRows(mem.entries) == Replay(map[], ops[..FirstBad(ops)], nextSeq)
    ensures ending.Finished? <==> (forall op <- ops :: Whole(op)) && |Records(before + ops)| % PAGE_SIZE != 0
    ensures ending.Finished? ==>
              && ending.position == |Records(before + ops)|
              && ToRows(mem.entries) == Replay(map[], ops, nextSeq)
  {
    hide Records, Recover, FirstBad, Replay, ToRows, Paged;
    var writer := new WalWriter();
    WriteRecords(writer, before);
    var start := writer.position;
    WriteRecords(writer, ops);
    assert [] + Records(before) == Records(before);
    RecordsConcat(before, ops);
    if truncate {
      var ok := writer.SetOffset(start, 0);
    }
    var reader := new WalReader(writer.files, start, writer.log, writer.first);
    mem := new Mem.Memtable(nextSeq);
    NoRows();
    var r := Run(reader, mem);
    assert forall op <- ops :: op in before + ops;
    RecoverLog(Records(before), ops);
    RecoveryIsExact(Records(before), ops);
    ending := r.ending;
    if ending.Finished? { AllGood(ops); }
  }

  lemma AllGood(ops: seq<Op>)
    ensures FirstBad(ops) == |ops| ==> ops[..FirstBad(ops)] == ops
  {
  }
}
