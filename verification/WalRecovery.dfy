/** Log records, and what recovery makes of a log: of a whole one, and of one that was cut off. */
module WalRecovery {
  import opened Keys
  import opened Versions
  import opened Codec
  import opened Merge
  import opened WalPages
  import Blocks
  import Mem = Memtable

  const WRITE_ENTRY: Byte := 0

  /** Length fields are 64 bits wide. */
  predicate Storable(op: Op) {
    |op.key| < U64 && (op.Put? ==> |op.value| < U64)
  }

  /** A log record: entry type, operation type, key and, for a put, the value */
  function Record(op: Op): (b: seq<Byte>)
    ensures |b| >= 10
  {
    match op
    case Put(key, value) => [WRITE_ENTRY, Blocks.PUT_OP] + Le64(|key|) + key + Le64(|value|) + value
    case Delete(key) => [WRITE_ENTRY, Blocks.DELETE_OP] + Le64(|key|) + key
  }

  function Records(ops: seq<Op>): seq<Byte> {
    if ops == [] then [] else Record(ops[0]) + Records(ops[1..])
  }

  /** The bytes of a record: entry type 0, operation type (1 for a put, 2 for a deletion), and key and value, each after
      its length */
  lemma RecordLayout(op: Op)
    ensures Record(op) ==
            [0, if op.Put? then 1 else 2] + Le(|op.key|, 8) + op.key +
            if op.Put? then Le(|op.value|, 8) + op.value else []
  {
    hide Le;
  }

  /** A put of one byte under a key of one byte */
  lemma RecordExample()
    ensures Record(Put([7], [9])) == [0, 1, 1, 0, 0, 0, 0, 0, 0, 0, 7, 1, 0, 0, 0, 0, 0, 0, 0, 9]
  {
    RecordLayout(Put([7], [9]));
    SmallLe(1, 7);
  }

  // ---- parsing, in terms of the log ----

  /** What one turn of the recovery loop does */
  datatype Turn = Ended | Parsed(op: Op, position: nat) | Crashed | Hung

  predicate Got(r: ReadResult) {
    r.Full? || r.Short?
  }

  /** A read that gave no bytes */
  function Lost(r: ReadResult): Turn {
    if r.Endless? then Hung else Crashed
  }

  /** The rest of a write entry; reads that come up short are not noticed */
  function ParseWrite(log: seq<Byte>, pos: nat): Turn
    requires pos <= |log|
  {
    var kind := ReadOf(log, pos, 1);
    if !Got(kind) then Lost(kind) else
    var at := After(log, pos, 1);
    var len := ReadOf(log, at, 8);
    if !Got(len) then Lost(len) else
    ParseKey(log, After(log, at, 8), kind.bytes[0], FromLe(len.bytes))
  }

  function ParseKey(log: seq<Byte>, pos: nat, kind: Byte, len: nat): Turn
    requires pos <= |log|
  {
    var key := ReadOf(log, pos, len);
    if !Got(key) then Lost(key) else
    var at := After(log, pos, len);
    if kind == Blocks.PUT_OP then ParseValue(log, at, key.bytes)
    else if kind == Blocks.DELETE_OP then Parsed(Delete(key.bytes), at)
    else Crashed
  }

  function ParseValue(log: seq<Byte>, pos: nat, key: Key): Turn
    requires pos <= |log|
  {
    var len := ReadOf(log, pos, 8);
    if !Got(len) then Lost(len) else
    var at := After(log, pos, 8);
    var value := ReadOf(log, at, FromLe(len.bytes));
    if !Got(value) then Lost(value) else
    Parsed(Put(key, value.bytes), After(log, at, FromLe(len.bytes)))
  }

  function TurnOf(log: seq<Byte>, pos: nat): (t: Turn)
    requires pos <= |log|
    ensures t.Parsed? ==> pos < t.position <= |log|
  {
    var kind := ReadOf(log, pos, 1);
    if kind.Short? then Ended
    else if !Got(kind) then Lost(kind)
    else if kind.bytes[0] != WRITE_ENTRY then Crashed
    else ParseWrite(log, pos + 1)
  }

  datatype Ending = Finished(position: nat) | Panicked | Looping

  /** All of recovery: the operations that reach the memtable, and how it ends */
  datatype Recovery = Recovery(ops: seq<Op>, ending: Ending)

  function Recover(log: seq<Byte>, pos: nat): Recovery
    requires pos <= |log|
    decreases |log| - pos
  {
    match TurnOf(log, pos)
    case Ended => Recovery([], Finished(pos))
    case Crashed => Recovery([], Panicked)
    case Hung => Recovery([], Looping)
    case Parsed(op, next) =>
      var rest := Recover(log, next);
      Recovery([op] + rest.ops, rest.ending)
  }

  // ---- the reader's code ----

  /** Parse a write entry into the memtable. */
  method ParseWriteEntry(reader: WalReader, mem: Mem.Memtable) returns (t: Turn)
    requires reader.Valid() && mem.Valid()
    modifies reader, mem
    ensures reader.Valid() && mem.Valid() && t == ParseWrite(reader.log, old(reader.position))
    ensures t.Parsed? ==>
              && reader.position == t.position && mem.nextSeq == old(mem.nextSeq) + 1
              && ToRows(mem.entries) == old(ToRows(mem.entries))[t.op.key := Version(old(mem.nextSeq), t.op.Effect())]
    ensures !t.Parsed? ==> unchanged(mem)
  {
    hide ReadOf, ToRows;
    var kind := reader.ReadFromLog(1, false);
    if !Got(kind) { return Lost(kind); }
    var len := reader.ReadFromLog(8, false);
    if !Got(len) { return Lost(len); }
    var key := reader.ReadFromLog(FromLe(len.bytes), false);
    if !Got(key) { return Lost(key); }
    ReadLength(reader.log, old(reader.position), 1);
    if kind.bytes[0] == Blocks.PUT_OP {
      var valueLen := reader.ReadFromLog(8, false);
      if !Got(valueLen) { return Lost(valueLen); }
      var value := reader.ReadFromLog(FromLe(valueLen.bytes), false);
      if !Got(value) { return Lost(value); }
      mem.Put(key.bytes, value.bytes);
      return Parsed(Put(key.bytes, value.bytes), reader.position);
    } else if kind.bytes[0] == Blocks.DELETE_OP {
      mem.Delete(key.bytes);
      return Parsed(Delete(key.bytes), reader.position);
    } else {
      return Crashed;
    }
  }

  lemma ReadLength(log: seq<Byte>, pos: nat, n: nat)
    requires pos <= |log|
    ensures Got(ReadOf(log, pos, n)) ==> |ReadOf(log, pos, n).bytes| == n
    ensures ReadOf(log, pos, n).Short? ==> |log| < pos + n
  {
  }

  /** Replay the log into the memtable. */
  method Run(reader: WalReader, mem: Mem.Memtable) returns (r: Recovery)
    requires reader.Valid() && mem.Valid()
    modifies reader, mem
    ensures reader.Valid() && mem.Valid() && r == Recover(reader.log, old(reader.position))
    ensures mem.nextSeq == old(mem.nextSeq) + |r.ops|
    ensures ToRows(mem.entries) == Replay(old(ToRows(mem.entries)), r.ops, old(mem.nextSeq))
  {
    hide ReadOf, ToRows, ParseWrite, Recover, Replay;
    ghost var start := reader.position;
    ghost var rows, next := ToRows(mem.entries), mem.nextSeq;
    var ops: seq<Op> := [];
    Nothing(rows, next, reader.log, start);
    while true
      invariant reader.Valid() && mem.Valid()
      invariant mem.nextSeq == next + |ops| && ToRows(mem.entries) == Replay(rows, ops, next)
      invariant Recover(reader.log, start) ==
                Recovery(ops + Recover(reader.log, reader.position).ops, Recover(reader.log, reader.position).ending)
      decreases |reader.log| - reader.position
    {
      ghost var pos := reader.position;
      ReadLength(reader.log, pos, 1);
      OneTurn(reader.log, pos);
      var kind := reader.ReadFromLog(1, true);
      assert ops + [] == ops;
      if kind.Short? {
        return Recovery(ops, Finished(reader.position));
      }
      if !Got(kind) {
        return Recovery(ops, if kind.Endless? then Looping else Panicked);
      }
      if kind.bytes[0] != WRITE_ENTRY {
        return Recovery(ops, Panicked);
      }
      var t := ParseWriteEntry(reader, mem);
      if !t.Parsed? {
        return Recovery(ops, if t.Hung? then Looping else Panicked);
      }
      NextRow(rows, ops, t.op, next);
      ghost var rest := Recover(reader.log, reader.position).ops;
      assert ops + ([t.op] + rest) == ops + [t.op] + rest;
      ops := ops + [t.op];
    }
  }

  lemma Nothing(rows: Rows, next: nat, log: seq<Byte>, pos: nat)
    requires pos <= |log|
    ensures Replay(rows, [], next) == rows
    ensures Recover(log, pos) == Recovery([] + Recover(log, pos).ops, Recover(log, pos).ending)
  {
    assert [] + Recover(log, pos).ops == Recover(log, pos).ops;
  }

  lemma NextRow(rows: Rows, ops: seq<Op>, op: Op, next: nat)
    ensures Replay(rows, ops + [op], next) == Replay(rows, ops, next)[op.key := Version(next + |ops|, op.Effect())]
  {
    assert (ops + [op])[..|ops|] == ops;
  }

  /** Recovery unfolds by one turn of its loop. */
  lemma OneTurn(log: seq<Byte>, pos: nat)
    requires pos <= |log|
    ensures
      var kind := ReadOf(log, pos, 1);
      var r := Recover(log, pos);
      if kind.Short? then r == Recovery([], Finished(|log|))
      else if !Got(kind) then r == Recovery([], if kind.Endless? then Looping else Panicked)
      else
        && |kind.bytes| == 1 && pos + 1 <= |log|
        && if kind.bytes[0] != WRITE_ENTRY then r == Recovery([], Panicked)
           else
             var t := ParseWrite(log, pos + 1);
             if !t.Parsed? then !t.Ended? && r == Recovery([], if t.Hung? then Looping else Panicked)
             else
               && pos < t.position <= |log|
               && r == Recovery([t.op] + Recover(log, t.position).ops, Recover(log, t.position).ending)
  {
    hide ParseWrite;
    assert TurnOf(log, pos).Parsed? ==> TurnOf(log, pos).position <= |log|;
    NeverEnds(log, pos);
  }

  lemma NeverEnds(log: seq<Byte>, pos: nat)
    requires pos <= |log|
    ensures pos < |log| ==> !ParseWrite(log, pos + 1).Ended?
  {
    hide ReadOf;
  }

  // ---- whole logs ----

  /** What the reader can read back: it asserts that no read is empty. */
  predicate Whole(op: Op) {
    op.key != [] && (op.Put? ==> op.value != [])
  }

  /** How many operations come before the first that cannot be read back */
  function FirstBad(ops: seq<Op>): (n: nat)
    ensures n <= |ops| && (forall i :: 0 <= i < n ==> Whole(ops[i])) && (n < |ops| ==> !Whole(ops[n]))
  {
    if ops == [] || !Whole(ops[0]) then 0 else 1 + FirstBad(ops[1..])
  }

  lemma ReadHeld(log: seq<Byte>, pos: nat, piece: seq<Byte>)
    requires Holds(log, pos, piece) && piece != []
    ensures pos <= |log| && ReadOf(log, pos, |piece|) == Full(piece) && After(log, pos, |piece|) == pos + |piece|
  {
  }

  lemma ReadNothing(log: seq<Byte>, pos: nat)
    requires pos <= |log|
    ensures ReadOf(log, pos, 0) == Panic
  {
  }

  /** Where the parts of a record lie in the log */
  lemma RecordHeld(log: seq<Byte>, pos: nat, op: Op)
    requires Holds(log, pos, Record(op))
    ensures Holds(log, pos, [WRITE_ENTRY])
    ensures Holds(log, pos + 1, [if op.Put? then Blocks.PUT_OP else Blocks.DELETE_OP])
    ensures Holds(log, pos + 2, Le64(|op.key|)) && Holds(log, pos + 10, op.key)
    ensures op.Put? ==> Holds(log, pos + 10 + |op.key|, Le64(|op.value|)) && Holds(log, pos + 18 + |op.key|, op.value)
    ensures |Record(op)| == 10 + |op.key| + if op.Put? then 8 + |op.value| else 0
  {
    hide Holds, Le64;
    var kind := if op.Put? then Blocks.PUT_OP else Blocks.DELETE_OP;
    var head := [WRITE_ENTRY, kind] + Le64(|op.key|) + op.key;
    if op.Put? {
      HoldsConcat(log, pos, head + Le64(|op.value|), op.value);
      HoldsConcat(log, pos, head, Le64(|op.value|));
    }
    HoldsConcat(log, pos, [WRITE_ENTRY, kind] + Le64(|op.key|), op.key);
    HoldsConcat(log, pos, [WRITE_ENTRY, kind], Le64(|op.key|));
    assert [WRITE_ENTRY, kind] == [WRITE_ENTRY] + [kind];
    HoldsConcat(log, pos, [WRITE_ENTRY], [kind]);
  }

  /** A record is parsed into the operation it was made from, or is one the reader cannot read. */
  lemma ParseRecord(log: seq<Byte>, pos: nat, op: Op)
    requires Holds(log, pos, Record(op)) && Storable(op)
    ensures pos <= |log| && TurnOf(log, pos) == if Whole(op) then Parsed(op, pos + |Record(op)|) else Crashed
  {
    hide Holds, ReadOf, After, Le64, FromLe, Record;
    RecordHeld(log, pos, op);
    ReadHeld(log, pos, [WRITE_ENTRY]);
    ReadHeld(log, pos + 1, [if op.Put? then Blocks.PUT_OP else Blocks.DELETE_OP]);
    ReadHeld(log, pos + 2, Le64(|op.key|));
    Le64RoundTrip(|op.key|);
    if op.key == [] {
      HoldsInside(log, pos + 10, op.key);
      ReadNothing(log, pos + 10);
    } else {
      ReadHeld(log, pos + 10, op.key);
      if op.Put? {
        ReadHeld(log, pos + 10 + |op.key|, Le64(|op.value|));
        Le64RoundTrip(|op.value|);
        if op.value == [] {
          HoldsInside(log, pos + 18 + |op.key|, op.value);
          ReadNothing(log, pos + 18 + |op.key|);
        } else {
          ReadHeld(log, pos + 18 + |op.key|, op.value);
        }
      }
    }
  }

  /** Reading at the end of the log */
  lemma TurnAtEnd(log: seq<Byte>)
    ensures TurnOf(log, |log|) == if |log| % PAGE_SIZE == 0 then Hung else Ended
  {
  }

  /** Recovery passes over whole records one by one. */
  lemma {:induction false} RecoverPasses(log: seq<Byte>, pos: nat, ops: seq<Op>)
    requires Holds(log, pos, Records(ops)) && (forall op <- ops :: Storable(op) && Whole(op))
    ensures pos + |Records(ops)| <= |log|
    ensures
      var rest := Recover(log, pos + |Records(ops)|);
      Recover(log, pos) == Recovery(ops + rest.ops, rest.ending)
    decreases |ops|
  {
    hide TurnOf, Record, Holds;
    if ops == [] {
      HoldsInside(log, pos, []);
      Nothing(map[], 0, log, pos);
    } else {
      HoldsConcat(log, pos, Record(ops[0]), Records(ops[1..]));
      ParseRecord(log, pos, ops[0]);
      var next := pos + |Record(ops[0])|;
      RecoverPasses(log, next, ops[1..]);
      var rest := Recover(log, pos + |Records(ops)|);
      assert [ops[0]] + (ops[1..] + rest.ops) == ops + rest.ops;
    }
  }

  lemma HoldsInside(log: seq<Byte>, pos: nat, piece: seq<Byte>)
    requires Holds(log, pos, piece)
    ensures pos + |piece| <= |log|
  {
  }

  lemma {:induction false} RecordsConcat(a: seq<Op>, b: seq<Op>)
    ensures Records(a + b) == Records(a) + Records(b)
  {
    if a == [] {
      assert a + b == b;
    } else {
      assert (a + b)[1..] == a[1..] + b;
      RecordsConcat(a[1..], b);
    }
  }

  lemma SomeRecords(ops: seq<Op>)
    requires ops != []
    ensures Records(ops) != []
  {
  }

  /** A prefix of the operations is a prefix of the log. */
  lemma RecordsPrefix(ops: seq<Op>, n: nat)
    requires n <= |ops|
    ensures Records(ops) == Records(ops[..n]) + Records(ops[n..])
    ensures |Records(ops[..n])| <= |Records(ops)|
  {
    assert ops == ops[..n] + ops[n..];
    RecordsConcat(ops[..n], ops[n..]);
  }

  /** Recovery of a log that holds whole records from `|before|` on: exactly the operations up to the first one
      with an empty key or value, where it panics; if there is none, it ends at the end of the log,
      or never if that is a page boundary. */
  lemma RecoverLog(before: seq<Byte>, ops: seq<Op>)
    requires forall op <- ops :: Storable(op)
    ensures
      var log := before + Records(ops);
      Recover(log, |before|) ==
      Recovery(ops[..FirstBad(ops)],
               if FirstBad(ops) < |ops| then Panicked
               else if |log| % PAGE_SIZE == 0 then Looping
               else Finished(|log|))
  {
    hide TurnOf, Record, Holds, FirstBad, Records;
    var log := before + Records(ops);
    var n := FirstBad(ops);
    var good, bad := ops[..n], ops[n..];
    assert ops == good + bad;
    RecordsConcat(good, bad);
    HoldsMiddle(before, Records(ops), []);
    assert before + Records(ops) + [] == log;
    HoldsConcat(log, |before|, Records(good), Records(bad));
    RecoverPasses(log, |before|, good);
    var pos := |before| + |Records(good)|;
    if n < |ops| {
      FirstRecord(log, pos, bad);
      ParseRecord(log, pos, bad[0]);
      assert Recover(log, pos) == Recovery([], Panicked);
    } else {
      assert good == ops;
      TurnAtEnd(log);
    }
    assert good + [] == good;
  }

  lemma FirstRecord(log: seq<Byte>, pos: nat, ops: seq<Op>)
    requires Holds(log, pos, Records(ops)) && ops != []
    ensures Holds(log, pos, Record(ops[0]))
  {
    hide Record;
    HoldsConcat(log, pos, Record(ops[0]), Records(ops[1..]));
  }

  /** Recovery is exact if and only if every operation can be read back and the log does not end on a page boundary. */
  lemma RecoveryIsExact(before: seq<Byte>, ops: seq<Op>)
    requires forall op <- ops :: Storable(op)
    ensures
      var log := before + Records(ops);
      Recover(log, |before|) == Recovery(ops, Finished(|log|)) <==>
      (forall op <- ops :: Whole(op)) && |log| % PAGE_SIZE != 0
  {
    hide Recover;
    RecoverLog(before, ops);
    var n := FirstBad(ops);
    if n < |ops| {
      assert !Whole(ops[n]);
    } else {
      assert ops[..n] == ops;
    }
  }

  // ---- logs that were cut off ----

  /** A read within the log does not depend on what comes after; any other read ends at the end of the log. */
  lemma ReadPrefix(log: seq<Byte>, whole: seq<Byte>, pos: nat, n: nat)
    requires log <= whole && pos <= |log|
    ensures After(log, pos, n) <= |log|
    ensures Got(ReadOf(log, pos, n)) && After(log, pos, n) < |log| ==>
              ReadOf(whole, pos, n) == ReadOf(log, pos, n) && After(whole, pos, n) == After(log, pos, n)
    ensures pos == |log| ==> After(log, pos, n) == |log|
  {
    if pos + n <= |log| { assert whole[pos..pos + n] == log[pos..pos + n]; }
  }

  lemma ValuePrefix(log: seq<Byte>, whole: seq<Byte>, pos: nat, key: Key)
    requires log <= whole && pos <= |log|
    ensures
      var t := ParseValue(log, pos, key);
      t.Parsed? && t.position < |log| ==> pos < |log| && ParseValue(whole, pos, key) == t
  {
    hide ReadOf, After, FromLe;
    var at := After(log, pos, 8);
    var len := ReadOf(log, pos, 8);
    ReadPrefix(log, whole, pos, 8);
    if Got(len) { ReadPrefix(log, whole, at, FromLe(len.bytes)); }
  }

  lemma KeyPrefix(log: seq<Byte>, whole: seq<Byte>, pos: nat, kind: Byte, len: nat)
    requires log <= whole && pos <= |log|
    ensures
      var t := ParseKey(log, pos, kind, len);
      t.Parsed? && t.position < |log| ==> pos < |log| && ParseKey(whole, pos, kind, len) == t
  {
    hide ReadOf, After, FromLe, ParseValue;
    ReadPrefix(log, whole, pos, len);
    var key := ReadOf(log, pos, len);
    if Got(key) { ValuePrefix(log, whole, After(log, pos, len), key.bytes); }
  }

  /** An operation parsed before the end of the log is parsed the same way from any longer log. */
  lemma TurnPrefix(log: seq<Byte>, whole: seq<Byte>, pos: nat)
    requires log <= whole && pos < |log|
    ensures
      var t := TurnOf(log, pos);
      t.Parsed? && t.position < |log| ==> TurnOf(whole, pos) == t
  {
    ReadPrefix(log, whole, pos, 1);
    ReadPrefix(log, whole, pos + 1, 1);
    var first := ReadOf(log, pos, 1);
    assert first == Full(log[pos..pos + 1]) && ReadOf(whole, pos, 1) == first;
    var kind := ReadOf(log, pos + 1, 1);
    ReadLength(log, pos + 1, 1);
    var at := After(log, pos + 1, 1);
    hide ReadOf, After, FromLe, ParseKey;
    ReadPrefix(log, whole, at, 8);
    var len := ReadOf(log, at, 8);
    if Got(kind) && Got(len) {
      KeyPrefix(log, whole, After(log, at, 8), kind.bytes[0], FromLe(len.bytes));
    }
  }

  /** Parsing part of a record uses up the whole log, unless it fails. */
  lemma TornTurn(log: seq<Byte>, pos: nat, op: Op, cut: nat)
    requires Storable(op) && 0 < cut < |Record(op)| && pos + cut == |log| && log[pos..] == Record(op)[..cut]
    ensures !TurnOf(log, pos).Ended?
    ensures TurnOf(log, pos).Parsed? ==> TurnOf(log, pos).position == |log|
  {
    hide Record, ParseWrite;
    var whole := log[..pos] + Record(op);
    assert whole == log + Record(op)[cut..];
    TurnPrefix(log, whole, pos);
    HoldsMiddle(log[..pos], Record(op), []);
    assert log[..pos] + Record(op) + [] == whole;
    ParseRecord(whole, pos, op);
    NeverEnds(log, pos);
  }

  /** A record that was only partly written is not skipped: recovery fails on it, or applies it. */
  lemma TornTail(before: seq<Byte>, ops: seq<Op>, op: Op, cut: nat)
    requires (forall o <- ops :: Storable(o) && Whole(o)) && Storable(op) && 0 < cut < |Record(op)|
    ensures
      var log := before + Records(ops) + Record(op)[..cut];
      var r := Recover(log, |before|);
      && |r.ops| <= |ops| + 1 && ops <= r.ops
      && (r.ending.Finished? ==> |r.ops| == |ops| + 1)
      && (|log| % PAGE_SIZE == 0 ==> !r.ending.Finished?)
  {
    hide TurnOf, Record, Holds, Records;
    var part := Record(op)[..cut];
    var log := before + Records(ops) + part;
    HoldsMiddle(before, Records(ops), part);
    RecoverPasses(log, |before|, ops);
    var pos := |before| + |Records(ops)|;
    TornTurn(log, pos, op, cut);
    TurnAtEnd(log);
  }

  /** A put whose value was cut off is applied with zeros in place of the missing bytes. */
  lemma TornValue(before: seq<Byte>, key: Key, value: Value, kept: nat)
    requires Storable(Put(key, value)) && Whole(Put(key, value)) && kept < |value|
    ensures
      var log := before + Record(Put(key, value))[..18 + |key| + kept];
      && |Record(Put(key, value))| == 18 + |key| + |value|
      && (|log| % PAGE_SIZE != 0 ==>
            Recover(log, |before|) == Recovery([Put(key, value[..kept] + Zeros(|value| - kept))], Finished(|log|)))
  {
    hide Record, Holds, ReadOf, After, Le64, FromLe;
    var op := Put(key, value);
    var pos := |before|;
    RecordLength(op);
    var part := Record(op)[..18 + |key| + kept];
    var log := before + part;
    if |log| % PAGE_SIZE != 0 {
      TornParts(log, pos, op, kept);
      ReadHeld(log, pos, [WRITE_ENTRY]);
      ReadHeld(log, pos + 1, [Blocks.PUT_OP]);
      ReadHeld(log, pos + 2, Le64(|key|));
      Le64RoundTrip(|key|);
      ReadHeld(log, pos + 10, key);
      ReadHeld(log, pos + 10 + |key|, Le64(|value|));
      Le64RoundTrip(|value|);
      ReadShort(log, pos + 18 + |key|, |value|);
      TurnAtEnd(log);
      var padded := value[..kept] + Zeros(|value| - kept);
      assert [Put(key, padded)] + [] == [Put(key, padded)];
    }
  }

  lemma RecordLength(op: Op)
    ensures |Record(op)| == 10 + |op.key| + if op.Put? then 8 + |op.value| else 0
  {
  }

  lemma ReadShort(log: seq<Byte>, pos: nat, n: nat)
    requires pos <= |log| < pos + n && |log| % PAGE_SIZE != 0
    ensures ReadOf(log, pos, n) == Short(log[pos..] + Zeros(n - (|log| - pos))) && After(log, pos, n) == |log|
  {
  }

  /** The complete parts of a record that was cut off in its value */
  lemma TornParts(log: seq<Byte>, pos: nat, op: Op, kept: nat)
    requires op.Put? && kept < |op.value| && |Record(op)| == 18 + |op.key| + |op.value|
    requires |log| == pos + 18 + |op.key| + kept && log[pos..] == Record(op)[..18 + |op.key| + kept]
    ensures Holds(log, pos, [WRITE_ENTRY]) && Holds(log, pos + 1, [Blocks.PUT_OP])
    ensures Holds(log, pos + 2, Le64(|op.key|)) && Holds(log, pos + 10, op.key)
    ensures Holds(log, pos + 10 + |op.key|, Le64(|op.value|)) && log[pos + 18 + |op.key|..] == op.value[..kept]
  {
    hide Le64;
    var head := [WRITE_ENTRY, Blocks.PUT_OP] + Le64(|op.key|) + op.key + Le64(|op.value|);
    assert Record(op)[..18 + |op.key| + kept] == head + op.value[..kept];
    assert log[pos..] == head + op.value[..kept];
    hide Record;
    assert log[pos + 18 + |op.key|..] == log[pos..][18 + |op.key|..];
    assert log[pos..pos + |head|] == head;
    hide Holds;
    assert Holds(log, pos, head) by { HoldsIs(log, pos, head); }
    HoldsConcat(log, pos, [WRITE_ENTRY, Blocks.PUT_OP] + Le64(|op.key|) + op.key, Le64(|op.value|));
    HoldsConcat(log, pos, [WRITE_ENTRY, Blocks.PUT_OP] + Le64(|op.key|), op.key);
    HoldsConcat(log, pos, [WRITE_ENTRY, Blocks.PUT_OP], Le64(|op.key|));
    assert [WRITE_ENTRY, Blocks.PUT_OP] == [WRITE_ENTRY] + [Blocks.PUT_OP];
    HoldsConcat(log, pos, [WRITE_ENTRY], [Blocks.PUT_OP]);
  }

  lemma HoldsIs(log: seq<Byte>, pos: nat, piece: seq<Byte>)
    requires pos + |piece| <= |log| && log[pos..pos + |piece|] == piece
    ensures Holds(log, pos, piece)
  {
  }
}
