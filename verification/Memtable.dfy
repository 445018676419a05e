/** The memtable: a sorted vector of the newest version of each key, and iterators over it. */
module Memtable {
  import opened Keys
  import opened Versions
  import opened Merge

  /** How many leading entries have a smaller key: where a binary search ends */
  function Rank(entries: seq<Row>, key: Key): (pos: nat)
    ensures pos <= |entries|
    ensures forall i :: 0 <= i < pos ==> Less(entries[i].key, key)
    ensures pos < |entries| ==> !Less(entries[pos].key, key)
  {
    if entries == [] || !Less(entries[0].key, key) then 0 else 1 + Rank(entries[1..], key)
  }

  predicate Found(entries: seq<Row>, key: Key) {
    Rank(entries, key) < |entries| && entries[Rank(entries, key)].key == key
  }

  function RowSize(r: Row): nat {
    |r.key| + if r.version.value.Some? then |r.version.value.value| else 0
  }

  function TotalSize(entries: seq<Row>): nat {
    if entries == [] then 0 else RowSize(entries[0]) + TotalSize(entries[1..])
  }

  lemma {:induction false} TotalSizeConcat(a: seq<Row>, b: seq<Row>)
    ensures TotalSize(a + b) == TotalSize(a) + TotalSize(b)
  {
    if a == [] {
      assert a + b == b;
    } else {
      assert (a + b)[1..] == a[1..] + b;
      TotalSizeConcat(a[1..], b);
    }
  }

  lemma SplitSize(entries: seq<Row>, pos: nat)
    requires pos < |entries|
    ensures TotalSize(entries) == TotalSize(entries[..pos] + entries[pos + 1..]) + RowSize(entries[pos])
  {
    hide TotalSize;
    var before, after := entries[..pos], entries[pos + 1..];
    assert entries == before + ([entries[pos]] + after);
    TotalSizeConcat(before, [entries[pos]] + after);
    TotalSizeConcat([entries[pos]], after);
    TotalSizeConcat(before, after);
    OneSize(entries[pos]);
  }

  lemma OneSize(r: Row)
    ensures TotalSize([r]) == RowSize(r)
  {
    assert [r][1..] == [];
  }

  lemma InsertSize(entries: seq<Row>, pos: nat, r: Row)
    requires pos <= |entries|
    ensures TotalSize(entries[..pos] + [r] + entries[pos..]) == TotalSize(entries) + RowSize(r)
  {
    hide TotalSize;
    var all := entries[..pos] + [r] + entries[pos..];
    assert all[..pos] + all[pos + 1..] == entries;
    SplitSize(all, pos);
  }

  /** After the rank of a key that is absent, all keys are greater. */
  lemma RankAbove(entries: seq<Row>, key: Key, i: nat)
    requires Sorted(entries) && !Found(entries, key) && Rank(entries, key) <= i < |entries|
    ensures Less(key, entries[i].key)
  {
    var pos := Rank(entries, key);
    LessTotal(key, entries[pos].key);
    if pos < i { LessTransitive(key, entries[pos].key, entries[i].key); }
  }

  lemma InsertSorted(entries: seq<Row>, r: Row)
    requires Sorted(entries) && !Found(entries, r.key)
    ensures
      var pos := Rank(entries, r.key);
      Sorted(entries[..pos] + [r] + entries[pos..])
  {
    var pos := Rank(entries, r.key);
    forall i | pos <= i < |entries| ensures Less(r.key, entries[i].key) {
      RankAbove(entries, r.key, i);
    }
  }

  lemma RemoveSorted(entries: seq<Row>, key: Key)
    requires Sorted(entries) && Found(entries, key)
    ensures
      var pos := Rank(entries, key);
      var rest := entries[..pos] + entries[pos + 1..];
      Sorted(rest) && Rank(rest, key) == pos && !Found(rest, key)
  {
    var pos := Rank(entries, key);
    var rest := entries[..pos] + entries[pos + 1..];
    if pos < |rest| {
      assert rest[pos] == entries[pos + 1];
      LessAsymmetric(key, entries[pos + 1].key);
    }
    RankIs(rest, key, pos);
  }

  lemma {:induction false} RankIs(entries: seq<Row>, key: Key, pos: nat)
    requires pos <= |entries| && (forall i :: 0 <= i < pos ==> Less(entries[i].key, key))
    requires pos < |entries| ==> !Less(entries[pos].key, key)
    ensures Rank(entries, key) == pos
  {
    if pos > 0 {
      RankIs(entries[1..], key, pos - 1);
    }
  }

  /** The map of a sorted vector holds exactly its entries. */
  lemma RowsAre(entries: seq<Row>)
    requires Sorted(entries)
    ensures forall r <- entries :: r.key in ToRows(entries) && ToRows(entries)[r.key] == r.version
    ensures forall k <- ToRows(entries) :: Row(k, ToRows(entries)[k]) in entries
  {
    hide ToRows;
    ToRowsHolds(entries);
  }

  /** Replacing or inserting an entry updates the map the vector stands for. */
  lemma UpsertRows(entries: seq<Row>, all: seq<Row>, r: Row)
    requires Sorted(entries) && Sorted(all)
    requires forall x :: x in all <==> x == r || (x in entries && x.key != r.key)
    ensures ToRows(all) == ToRows(entries)[r.key := r.version]
  {
    hide ToRows, Sorted;
    RowsAre(all);
    RowsAre(entries);
    var a, b := ToRows(all), ToRows(entries)[r.key := r.version];
    forall k | k in a ensures k in b && a[k] == b[k] {
      assert Row(k, a[k]) in all;
    }
    forall k | k in b ensures k in a {
      assert Row(k, b[k]) in all;
    }
  }

  lemma InsertMembers(rest: seq<Row>, pos: nat, r: Row)
    requires pos <= |rest|
    ensures forall x :: x in rest[..pos] + [r] + rest[pos..] <==> x == r || x in rest
  {
    assert rest == rest[..pos] + rest[pos..];
  }

  lemma RemoveMembers(entries: seq<Row>, key: Key)
    requires Sorted(entries) && Found(entries, key)
    ensures
      var pos := Rank(entries, key);
      forall x :: x in entries[..pos] + entries[pos + 1..] <==> x in entries && x.key != key
  {
    var pos := Rank(entries, key);
    var rest := entries[..pos] + entries[pos + 1..];
    assert entries == entries[..pos] + [entries[pos]] + entries[pos + 1..];
    RemoveSorted(entries, key);
    AbsentKey(rest, key);
  }

  lemma AbsentKey(entries: seq<Row>, key: Key)
    requires Sorted(entries) && !Found(entries, key)
    ensures forall r <- entries :: r.key != key
  {
    var pos := Rank(entries, key);
    forall i | 0 <= i < |entries| ensures entries[i].key != key {
      if i < pos {
        LessAsymmetric(entries[i].key, key);
      } else {
        RankAbove(entries, key, i);
        LessAsymmetric(entries[i].key, key);
      }
    }
  }

  /** What a key and its value take up, of the bytes that are counted */
  function Occupied(rows: Rows, key: Key): nat {
    if key !in rows then 0
    else if rows[key].value == None then |key|
    else |key| + |rows[key].value.value|
  }

  lemma OccupiedIs(entries: seq<Row>, key: Key)
    requires Sorted(entries)
    ensures Occupied(ToRows(entries), key) == if Found(entries, key) then RowSize(entries[Rank(entries, key)]) else 0
  {
    hide Sorted;
    RowsAre(entries);
    if Found(entries, key) {
      assert entries[Rank(entries, key)] in entries;
    } else {
      AbsentKey(entries, key);
    }
  }

  class Memtable {
    var entries: seq<Row>
    var size: nat
    var nextSeq: nat

    /** Sorted, with the right size, and numbered apart and below the next number */
    ghost predicate Valid()
      reads this
    {
      && Sorted(entries) && size == TotalSize(entries)
      && (forall r <- entries :: r.version.num < nextSeq)
      && (forall r, s :: r in entries && s in entries && r.version.num == s.version.num ==> r == s)
    }

    constructor (nextSeq: nat)
      ensures Valid() && entries == [] && size == 0 && this.nextSeq == nextSeq
    {
      entries := [];
      size := 0;
      this.nextSeq := nextSeq;
    }

    method Get(key: Key) returns (r: Option<Version>)
      requires Valid()
      ensures r == if key in ToRows(entries) then Some(ToRows(entries)[key]) else None
    {
      hide Sorted;
      RowsAre(entries);
      var pos := Rank(entries, key);
      if pos < |entries| && entries[pos].key == key {
        assert entries[pos] in entries;
        return Some(entries[pos].version);
      }
      AbsentKey(entries, key);
      return None;
    }

    /** The smallest and greatest key */
    method GetMinMaxKey() returns (min: Key, max: Key)
      requires Valid() && entries != []
      ensures min in ToRows(entries) && max in ToRows(entries)
      ensures forall k <- ToRows(entries) :: Within(k, min, max)
    {
      ToRowsHolds(entries);
      min, max := entries[0].key, entries[|entries| - 1].key;
      forall k | k in ToRows(entries) ensures Within(k, min, max) {
        var i :| 0 <= i < |entries| && entries[i].key == k;
        LessAsymmetric(entries[0].key, k);
        LessAsymmetric(k, entries[|entries| - 1].key);
      }
    }

    /** Where to insert the key, after removing its old entry */
    method GetKeyPos(key: Key) returns (pos: nat)
      requires Valid()
      modifies this
      ensures Valid() && !Found(entries, key) && pos == Rank(entries, key) && nextSeq == old(nextSeq)
      ensures forall x :: x in entries <==> x in old(entries) && x.key != key
      ensures size == old(size) - Occupied(old(ToRows(entries)), key)
    {
      hide Sorted, TotalSize, Rank, ToRows, Occupied;
      pos := Rank(entries, key);
      OccupiedIs(entries, key);
      if pos < |entries| && entries[pos].key == key {
        RemoveSorted(entries, key);
        RemoveMembers(entries, key);
        SplitSize(entries, pos);
        size := size - RowSize(entries[pos]);
        entries := entries[..pos] + entries[pos + 1..];
      } else {
        AbsentKey(entries, key);
      }
    }

    /** Insert the operation's entry at its place and use up a sequence number. */
    method Insert(op: Op)
      requires Valid()
      modifies this
      ensures Valid() && nextSeq == old(nextSeq) + 1
      ensures ToRows(entries) == old(ToRows(entries))[op.key := Version(old(nextSeq), op.Effect())]
      ensures size == old(size) - Occupied(old(ToRows(entries)), op.key)
                      + |op.key| + (if op.Put? then |op.value| else 0)
    {
      hide Sorted, TotalSize, ToRows, Rank, Found, Occupied;
      var pos := GetKeyPos(op.key);
      var r := Row(op.key, Version(nextSeq, op.Effect()));
      InsertSorted(entries, r);
      InsertSize(entries, pos, r);
      InsertMembers(entries, pos, r);
      entries := entries[..pos] + [r] + entries[pos..];
      UpsertRows(old(entries), entries, r);
      size := size + RowSize(r);
      nextSeq := nextSeq + 1;
    }

    method Put(key: Key, value: Value)
      requires Valid()
      modifies this
      ensures Valid() && nextSeq == old(nextSeq) + 1
      ensures ToRows(entries) == old(ToRows(entries))[key := Version(old(nextSeq), Some(value))]
      ensures size == old(size) - Occupied(old(ToRows(entries)), key) + |key| + |value|
    {
      Insert(Op.Put(key, value));
    }

    method Delete(key: Key)
      requires Valid()
      modifies this
      ensures Valid() && nextSeq == old(nextSeq) + 1
      ensures ToRows(entries) == old(ToRows(entries))[key := Version(old(nextSeq), None)]
      ensures size == old(size) - Occupied(old(ToRows(entries)), key) + |key|
    {
      Insert(Op.Delete(key));
    }

    method IsFull(maxSize: nat) returns (full: bool)
      requires Valid()
      ensures (full <==> size >= maxSize) && size == TotalSize(entries)
    {
      full := size >= maxSize;
    }

    /** Record a batch: the memtable then holds what replaying the operations gives. */
    method ApplyBatch(batch: seq<Op>)
      requires Valid()
      modifies this
      ensures Valid() && nextSeq == old(nextSeq) + |batch|
      ensures ToRows(entries) == Replay(old(ToRows(entries)), batch, old(nextSeq))
    {
      for i := 0 to |batch|
        invariant Valid() && nextSeq == old(nextSeq) + i
        invariant ToRows(entries) == Replay(old(ToRows(entries)), batch[..i], old(nextSeq))
      {
        assert batch[..i + 1][..i] == batch[..i];
        match batch[i] {
          case Put(key, value) => Put(key, value);
          case Delete(key) => Delete(key);
        }
      }
      assert batch[..|batch|] == batch;
    }
  }

  // ---- iterating ----

  function Reversed(entries: seq<Row>): (r: seq<Row>)
    ensures |r| == |entries| && forall i :: 0 <= i < |r| ==> r[i] == entries[|entries| - 1 - i]
  {
    seq(|entries|, i requires 0 <= i < |entries| => entries[|entries| - 1 - i])
  }

  /** Iterates over a frozen memtable in either direction. */
  class MemtableIterator {
    const entries: seq<Row>
    const reverse: bool
    var nextIndex: int
    var current: Option<Row>

    /** The entries in the order of iteration */
    ghost function Order(): seq<Row> {
      if reverse then Reversed(entries) else entries
    }

    /** How many entries have been left behind */
    ghost function Index(): int
      reads this
    {
      if reverse then |entries| - 2 - nextIndex else nextIndex - 1
    }

    ghost predicate Valid()
      reads this
    {
      0 <= Index() <= |entries| && (Index() < |entries| ==> current == Some(Order()[Index()]))
    }

    constructor (entries: seq<Row>, reverse: bool)
      ensures Valid() && Index() == 0 && this.entries == entries && this.reverse == reverse
    {
      this.entries := entries;
      this.reverse := reverse;
      nextIndex := if reverse then |entries| - 1 else 0;
      current := None;
      new;
      Advance();
    }

    predicate AtEnd()
      reads this
    {
      if reverse then nextIndex < -1 else nextIndex > |entries|
    }

    /** Move to the entry at `nextIndex`, or past the end. */
    method Advance()
      requires -1 <= Index() < |entries|
      modifies this
      ensures Valid() && Index() == old(Index()) + 1
    {
      if reverse {
        if nextIndex != -1 {
          current := Some(entries[nextIndex]);
        }
        nextIndex := nextIndex - 1;
      } else {
        if nextIndex != |entries| {
          current := Some(entries[nextIndex]);
        }
        nextIndex := nextIndex + 1;
      }
    }

    method Step()
      requires Valid() && !AtEnd()
      modifies this
      ensures Valid() && Index() == old(Index()) + 1
    {
      Advance();
    }
  }

  /** Running an iterator to its end enumerates the memtable, forwards or backwards. */
  method Enumerate(entries: seq<Row>, reverse: bool) returns (out: seq<Row>)
    ensures out == if reverse then Reversed(entries) else entries
  {
    var it := new MemtableIterator(entries, reverse);
    out := [];
    while !it.AtEnd()
      invariant it.Valid() && it.entries == entries && it.reverse == reverse && fresh(it)
      invariant out == it.Order()[..it.Index()]
      decreases |entries| - it.Index()
    {
      out := out + [it.current.value];
      it.Step();
    }
  }
}
