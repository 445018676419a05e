/** Reading a whole sorted table: point lookups and iteration in both directions. */
module Tables {
  import opened Keys
  import opened Versions
  import opened Merge
  import opened Codec
  import opened Blocks
  import opened BlockReads
  import opened TableBuilders
  import Index = IndexBlocks

  /** A table: its index block and its data blocks */
  datatype TableFile = TableFile(index: seq<Byte>, blocks: map<Index.BlockId, DataBlock>)

  /** What the bytes of a table stand for */
  datatype Shape = Shape(size: nat, min: Key, max: Key, entries: seq<Index.IndexEntry>, chunks: seq<seq<Row>>)

  ghost predicate TableHolds(t: TableFile, sh: Shape) {
    && Index.Represents(t.index, sh.size, sh.min, sh.max, sh.entries)
    && ChunksHeld(t.blocks, sh.entries, sh.chunks) && sh.chunks != []
  }

  /** Position of the first row of block `c` */
  ghost function Start(chunks: seq<seq<Row>>, c: nat): nat
    requires c <= |chunks|
  {
    if c == 0 then 0 else Start(chunks, c - 1) + |chunks[c - 1]|
  }

  /** Row `i` of block `c` is row `n` of the table; past the last block is past the last row. */
  ghost predicate Locates(chunks: seq<seq<Row>>, c: nat, i: nat, n: nat) {
    && c <= |chunks| && n == Start(chunks, c) + i
    && (if c < |chunks| then i < |chunks[c]| else i == 0)
  }

  lemma {:induction false} StartPrefix(chunks: seq<seq<Row>>, c: nat, k: nat)
    requires c <= k <= |chunks|
    ensures Start(chunks[..k], c) == Start(chunks, c)
  {
    if c > 0 {
      StartPrefix(chunks, c - 1, k);
    }
  }

  lemma {:induction false} FlattenAt(chunks: seq<seq<Row>>, c: nat, i: nat)
    requires c < |chunks| && i < |chunks[c]|
    ensures Start(chunks, c) + i < |Flatten(chunks)| && Flatten(chunks)[Start(chunks, c) + i] == chunks[c][i]
  {
    var k := |chunks| - 1;
    FlattenLength(chunks[..k]);
    StartPrefix(chunks, c, k);
    StartPrefix(chunks, k, k);
    if c < k {
      FlattenAt(chunks[..k], c, i);
    }
  }

  lemma {:induction false} FlattenLength(chunks: seq<seq<Row>>)
    ensures |Flatten(chunks)| == Start(chunks, |chunks|)
  {
    if chunks != [] {
      var k := |chunks| - 1;
      FlattenLength(chunks[..k]);
      StartPrefix(chunks, k, k);
    }
  }

  lemma {:induction false} StartGrows(chunks: seq<seq<Row>>, c: nat, d: nat)
    requires c < d <= |chunks|
    ensures Start(chunks, c) + |chunks[c]| <= Start(chunks, d)
  {
    if c + 1 < d {
      StartGrows(chunks, c, d - 1);
    }
  }

  /** Every row of the table is in some block. */
  lemma {:induction false} FindBlock(chunks: seq<seq<Row>>, n: nat) returns (c: nat, i: nat)
    requires n < |Flatten(chunks)|
    ensures c < |chunks| && i < |chunks[c]| && n == Start(chunks, c) + i && chunks[c][i] == Flatten(chunks)[n]
  {
    var k := |chunks| - 1;
    FlattenLength(chunks[..k]);
    StartPrefix(chunks, k, k);
    if n < |Flatten(chunks[..k])| {
      c, i := FindBlock(chunks[..k], n);
      StartPrefix(chunks, c, k);
    } else {
      c, i := k, n - Start(chunks, k);
    }
  }

  /** The blocks of a sorted table are sorted and in order. */
  lemma ChunksSorted(chunks: seq<seq<Row>>, c: nat, i: nat, d: nat, j: nat)
    requires Sorted(Flatten(chunks)) && c < |chunks| && i < |chunks[c]| && d < |chunks| && j < |chunks[d]|
    requires c < d || (c == d && i < j)
    ensures Less(chunks[c][i].key, chunks[d][j].key)
  {
    FlattenAt(chunks, c, i);
    FlattenAt(chunks, d, j);
    if c < d {
      StartGrows(chunks, c, d);
    }
  }

  lemma ChunkSorted(chunks: seq<seq<Row>>, c: nat)
    requires Sorted(Flatten(chunks)) && c < |chunks|
    ensures Sorted(chunks[c])
  {
    hide Flatten;
    forall i, j | 0 <= i < j < |chunks[c]| ensures Less(chunks[c][i].key, chunks[c][j].key) {
      ChunksSorted(chunks, c, i, c, j);
    }
  }

  lemma IndexAscending(t: TableFile, sh: Shape)
    requires TableHolds(t, sh) && Sorted(Flatten(sh.chunks))
    ensures Index.Ascending(sh.entries)
  {
    hide Flatten, Index.Represents, Represents, Sorted;
    forall c, d | 0 <= c < d < |sh.entries| ensures Less(sh.entries[c].key, sh.entries[d].key) {
      ChunksSorted(sh.chunks, c, 0, d, 0);
    }
  }

  // ---- lookup ----

  /** The key occurs in block `c`. */
  ghost predicate InChunk(chunks: seq<seq<Row>>, c: nat, key: Key) {
    c < |chunks| && exists i :: 0 <= i < |chunks[c]| && chunks[c][i].key == key
  }

  /** Only one block can have the key. */
  lemma OneBlock(t: TableFile, sh: Shape, key: Key, at: nat, c: nat)
    requires TableHolds(t, sh) && Sorted(Flatten(sh.chunks)) && at < |sh.chunks|
    requires Leq(sh.entries[at].key, key) && (at + 1 < |sh.entries| ==> Less(key, sh.entries[at + 1].key))
    requires InChunk(sh.chunks, c, key)
    ensures c == at
  {
    hide Flatten, Index.Represents, Represents, Sorted;
    var i :| 0 <= i < |sh.chunks[c]| && sh.chunks[c][i].key == key;
    if c < at {
      ChunksSorted(sh.chunks, c, i, at, 0);
    }
    if at < c {
      if at + 1 < c || i > 0 {
        ChunksSorted(sh.chunks, at + 1, 0, c, i);
      }
      LessAsymmetric(key, sh.entries[at + 1].key);
    }
  }

  lemma RowsInChunks(chunks: seq<seq<Row>>, key: Key)
    requires Sorted(Flatten(chunks))
    ensures key in ToRows(Flatten(chunks)) ==> exists c: nat :: InChunk(chunks, c, key)
  {
    hide ToRows, Flatten;
    ToRowsHolds(Flatten(chunks));
    if key in ToRows(Flatten(chunks)) {
      var n :| 0 <= n < |Flatten(chunks)| && Flatten(chunks)[n].key == key;
      var c, i := FindBlock(chunks, n);
      assert InChunk(chunks, c, key);
    }
  }

  lemma ChunkRow(chunks: seq<seq<Row>>, c: nat, i: nat)
    requires Sorted(Flatten(chunks)) && c < |chunks| && i < |chunks[c]|
    ensures chunks[c][i].key in ToRows(Flatten(chunks))
    ensures ToRows(Flatten(chunks))[chunks[c][i].key] == chunks[c][i].version
  {
    hide ToRows, Flatten;
    ToRowsHolds(Flatten(chunks));
    FlattenAt(chunks, c, i);
  }

  /** All keys lie in the range the index states, and the first one is its lower end. */
  ghost predicate RangeOk(sh: Shape) {
    && sh.chunks != [] && |sh.entries| == |sh.chunks| && sh.entries[0].key == sh.min
    && forall c, i :: 0 <= c < |sh.chunks| && 0 <= i < |sh.chunks[c]| ==> Within(sh.chunks[c][i].key, sh.min, sh.max)
  }

  lemma OutOfRange(sh: Shape, c: nat, key: Key)
    requires RangeOk(sh) && InChunk(sh.chunks, c, key)
    ensures !Less(key, sh.min) && !Less(sh.max, key)
  {
    LessAsymmetric(key, sh.min);
    LessAsymmetric(sh.max, key);
  }

  /** Look up a key: a table behaves as the map of its rows.
      `maybe` gives the answers of the blocks' filters, which have no false negatives. */
  method Get(t: TableFile, key: Key, maybe: map<Index.BlockId, bool>, ghost sh: Shape)
    returns (res: Option<(DataBlock, DataEntry)>)
    requires TableHolds(t, sh) && RangeOk(sh) && Sorted(Flatten(sh.chunks))
    requires forall c :: 0 <= c < |sh.chunks| ==>
               sh.entries[c].id in maybe && (InChunk(sh.chunks, c, key) ==> maybe[sh.entries[c].id])
    ensures res.Some? <==> key in ToRows(Flatten(sh.chunks))
    ensures res.Some? ==> HasVersion(res.value.0, res.value.1)
    ensures res.Some? ==> VersionOf(res.value.0, res.value.1) == ToRows(Flatten(sh.chunks))[key]
  {
    hide Flatten, ToRows, Sorted, Index.Represents, Represents, HasVersion, VersionOf, InChunk, RangeOk;
    IndexAscending(t, sh);
    RowsInChunks(sh.chunks, key);
    FirstKey(t, sh);
    var id, at := Index.BinarySearch(t.index, key, sh.size, sh.min, sh.max, sh.entries);
    if id.None? {
      if c: nat :| InChunk(sh.chunks, c, key) {
        OutOfRange(sh, c, key);
      }
      return None;
    }
    var block := t.blocks[id.value];
    ghost var rows := sh.chunks[at];
    HasInterval(block, rows);
    ChunkSorted(sh.chunks, at);
    KeyInChunk(sh.chunks, at, key);
    var entry := GetByKey(block, key, maybe[id.value], rows);
    if entry.None? {
      if c: nat :| InChunk(sh.chunks, c, key) {
        OneBlock(t, sh, key, at, c);
      }
      return None;
    }
    ghost var i :| 0 <= i < |rows| && rows[i].key == key && entry.value == EntryRef(block, rows, i);
    EntryReads(block, rows, i);
    ChunkRow(sh.chunks, at, i);
    return Some((block, entry.value));
  }

  lemma FirstKey(t: TableFile, sh: Shape)
    requires TableHolds(t, sh) && RangeOk(sh)
    ensures sh.entries != [] && Leq(sh.entries[0].key, sh.min)
  {
    LessAsymmetric(sh.min, sh.min);
  }

  lemma KeyInChunk(chunks: seq<seq<Row>>, c: nat, key: Key)
    requires c < |chunks|
    ensures InChunk(chunks, c, key) <==> exists i :: 0 <= i < |chunks[c]| && chunks[c][i].key == key
  {
  }

  lemma HasInterval(b: DataBlock, rows: seq<Row>)
    requires Represents(b, rows)
    ensures 0 < b.interval && b.numEntries == |rows|
  {
  }

  lemma EntryReads(b: DataBlock, rows: seq<Row>, i: nat)
    requires Represents(b, rows) && i < |rows|
    ensures 0 < b.interval
    ensures HasVersion(b, EntryRef(b, rows, i)) && VersionOf(b, EntryRef(b, rows, i)) == rows[i].version
  {
    hide HasVersion, VersionOf, EntryAt, RestartHeld, Body;
    ReadEntry(b, rows, i, if i > 0 then rows[i - 1].key else []);
    if i == 0 { DivIs(0, b.interval, 0, 0); }
  }

  // ---- iteration ----

  /** Block `c` is found through the index. */
  lemma BlockFound(t: TableFile, sh: Shape, c: nat)
    requires TableHolds(t, sh) && c < |sh.chunks|
    ensures Index.INDEX_HEADER <= |t.index| && Index.NumDataBlocks(t.index) == |sh.chunks|
    ensures Index.Accessible(t.index, c) && Index.GetBlockId(t.index, c) in t.blocks
    ensures Represents(t.blocks[Index.GetBlockId(t.index, c)], sh.chunks[c])
  {
    hide Index.Represents, Index.Accessible, Index.GetBlockId, Index.GetBlockKey, Represents, Index.NumDataBlocks;
    Index.ReadIndexEntry(t.index, sh.size, sh.min, sh.max, sh.entries, c);
    Index.ReadHead(t.index, sh.size, sh.min, sh.max, sh.entries);
  }

  /** The entry stands for row `r`. */
  ghost predicate Shows(key: Key, block: DataBlock, entry: DataEntry, r: Row) {
    key == r.key && HasVersion(block, entry) && VersionOf(block, entry) == r.version
  }

  /** Where the entry after row `i` of block `c` begins */
  ghost predicate NextPlace(t: TableFile, sh: Shape, c: nat, i: nat, offset: nat)
    requires TableHolds(t, sh)
  {
    && c <= |sh.chunks|
    && (c < |sh.chunks| ==>
          && i < |sh.chunks[c]| && 0 < t.blocks[sh.entries[c].id].interval
          && offset == Off(sh.chunks[c], t.blocks[sh.entries[c].id].interval, i))
  }

  /** Decode row `i` of block `c`, found at `offset`, and find the place of the row after it. */
  method ReadForward(t: TableFile, blockPos: nat, offset: nat, previous: Key, ghost sh: Shape, ghost i: nat)
    returns (key: Key, block: DataBlock, entry: DataEntry, nextPos: nat, nextOffset: nat, ghost j: nat)
    requires TableHolds(t, sh) && blockPos < |sh.chunks| && NextPlace(t, sh, blockPos, i, offset)
    requires i == 0 || previous == sh.chunks[blockPos][i - 1].key
    ensures Shows(key, block, entry, sh.chunks[blockPos][i])
    ensures NextPlace(t, sh, nextPos, j, nextOffset)
    ensures
      || (nextPos == blockPos && j == i + 1 < |sh.chunks[blockPos]|)
      || (nextPos == blockPos + 1 && j == 0 && i + 1 == |sh.chunks[blockPos]|)
  {
    hide Index.Represents, Index.Accessible, Index.NumDataBlocks, Represents, GetEntryAtOffset,
         Readable, HasVersion, VersionOf, Body, ByteLen, RestartListLen;
    BlockFound(t, sh, blockPos);
    Index.ReadIndexEntry(t.index, sh.size, sh.min, sh.max, sh.entries, blockPos);
    block := t.blocks[Index.GetBlockId(t.index, blockPos)];
    hide Index.GetBlockId;
    ghost var rows := sh.chunks[blockPos];
    DivIs(0, block.interval, 0, 0);
    ReadEntry(block, rows, i, previous);
    RestartFacts(block, rows);
    OffOrder(rows, block.interval, i + 1, |rows|);
    var byteLen := ByteLen(block);
    var read := GetEntryAtOffset(block, offset, previous);
    key, entry := read.0, read.1;
    if entry.next >= byteLen {
      nextPos, nextOffset, j := blockPos + 1, 0, 0;
      if nextPos < |sh.chunks| { FirstPlace(t, sh, nextPos); }
    } else {
      nextPos, nextOffset, j := blockPos, entry.next, i + 1;
    }
  }

  lemma FirstPlace(t: TableFile, sh: Shape, c: nat)
    requires TableHolds(t, sh) && c < |sh.chunks|
    ensures NextPlace(t, sh, c, 0, 0)
  {
    hide Index.Represents;
    assert Represents(t.blocks[sh.entries[c].id], sh.chunks[c]);
  }

  /** Decode row `index` of block `blockPos` and find the place of the row before it. */
  method ReadBackward(t: TableFile, blockPos: nat, index: nat, ghost sh: Shape)
    returns (key: Key, block: DataBlock, entry: DataEntry, nextPos: int, nextIndex: nat)
    requires TableHolds(t, sh) && blockPos < |sh.chunks| && index < |sh.chunks[blockPos]|
    ensures Shows(key, block, entry, sh.chunks[blockPos][index])
    ensures if index > 0 then nextPos == blockPos && nextIndex == index - 1
            else nextPos == blockPos - 1 && nextIndex == if nextPos >= 0 then |sh.chunks[nextPos]| - 1 else 0
  {
    hide Index.Represents, Index.Accessible, Index.NumDataBlocks, Represents, HasVersion, VersionOf, Body,
      Index.GetBlockId;
    BlockFound(t, sh, blockPos);
    block := t.blocks[Index.GetBlockId(t.index, blockPos)];
    EntryReads(block, sh.chunks[blockPos], index);
    key, entry := GetEntryAtIndex(block, index, sh.chunks[blockPos]);
    if index == 0 {
      nextPos := blockPos - 1;
      if nextPos >= 0 {
        BlockFound(t, sh, nextPos);
        var next := t.blocks[Index.GetBlockId(t.index, nextPos)];
        HasInterval(next, sh.chunks[nextPos]);
        nextIndex := next.numEntries - 1;
      } else {
        nextIndex := 0;
      }
    } else {
      nextPos, nextIndex := blockPos, index - 1;
    }
  }

  ghost predicate NoneEmpty(chunks: seq<seq<Row>>) {
    forall c :: 0 <= c < |chunks| ==> chunks[c] != []
  }

  lemma LocatedRow(chunks: seq<seq<Row>>, c: nat, i: nat, n: nat)
    requires Locates(chunks, c, i, n)
    ensures c < |chunks| <==> n < |Flatten(chunks)|
    ensures c < |chunks| ==> Flatten(chunks)[n] == chunks[c][i]
    ensures c == |chunks| ==> n == |Flatten(chunks)|
  {
    hide Flatten, Start;
    FlattenLength(chunks);
    if c < |chunks| { FlattenAt(chunks, c, i); }
  }

  lemma NextLocated(chunks: seq<seq<Row>>, c: nat, i: nat, n: nat, c': nat, i': nat)
    requires Locates(chunks, c, i, n) && c < |chunks| && NoneEmpty(chunks)
    requires (c' == c && i' == i + 1 < |chunks[c]|) || (c' == c + 1 && i' == 0 && i + 1 == |chunks[c]|)
    ensures Locates(chunks, c', i', n + 1)
  {
  }

  /** The row before row `n` */
  lemma PreviousLocated(chunks: seq<seq<Row>>, c: nat, i: nat, n: nat)
    requires Locates(chunks, c, i, n) && c < |chunks| && NoneEmpty(chunks)
    ensures i > 0 ==> n > 0 && Locates(chunks, c, i - 1, n - 1)
    ensures i == 0 && c > 0 ==> n > 0 && Locates(chunks, c - 1, |chunks[c - 1]| - 1, n - 1)
    ensures i == 0 && c == 0 ==> n == 0
  {
  }

  lemma FirstLocated(chunks: seq<seq<Row>>)
    requires NoneEmpty(chunks) && chunks != []
    ensures Locates(chunks, 0, 0, 0)
  {
  }

  lemma LastLocated(chunks: seq<seq<Row>>)
    requires NoneEmpty(chunks) && chunks != []
    ensures |Flatten(chunks)| > 0
    ensures Locates(chunks, |chunks| - 1, |chunks[|chunks| - 1]| - 1, |Flatten(chunks)| - 1)
  {
    FlattenLength(chunks);
  }

  lemma HeldNoneEmpty(t: TableFile, sh: Shape)
    requires TableHolds(t, sh)
    ensures NoneEmpty(sh.chunks) && sh.chunks != []
  {
  }

  class TableIterator {
    const table: TableFile
    const reverse: bool
    var blockPos: int
    var blockOffset: nat
    var key: Key
    var block: DataBlock
    var entry: DataEntry
    ghost const sh: Shape
    /** the row the iterator is at, and the place in its block of the row that follows */
    ghost var at: int
    ghost var next: nat

    ghost predicate Valid()
      reads this
    {
      var rows := Flatten(sh.chunks);
      && TableHolds(table, sh)
      && -1 <= at <= |rows|
      && (0 <= at < |rows| ==> Shows(key, block, entry, rows[at]))
      && (if reverse then ValidReverse(|rows|) else ValidForward(|rows|))
    }

    ghost predicate ValidReverse(n: nat)
      reads this
    {
      && at < n
      && (at <= 0 ==> blockPos == at - 1)
      && (at > 0 ==> 0 <= blockPos < |sh.chunks| && Locates(sh.chunks, blockPos, blockOffset, at - 1))
    }

    ghost predicate ValidForward(n: nat)
      requires TableHolds(table, sh)
      reads this
    {
      && 0 <= at && 0 <= blockPos
      && (at == n ==> blockPos == |sh.chunks| + 1)
      && (at < n ==> Locates(sh.chunks, blockPos, next, at + 1) && NextPlace(table, sh, blockPos, next, blockOffset))
    }

    constructor (table: TableFile, reverse: bool, ghost sh: Shape)
      requires TableHolds(table, sh)
      ensures Valid() && this.table == table && this.reverse == reverse && this.sh == sh
      ensures at == if reverse then |Flatten(sh.chunks)| - 1 else 0
    {
      hide TableHolds, Flatten, Locates, NextPlace, Shows, NoneEmpty,
           Index.NumDataBlocks, Index.Accessible, Index.GetBlockId, Represents;
      this.table, this.reverse, this.sh := table, reverse, sh;
      HeldNoneEmpty(table, sh);
      LastLocated(sh.chunks);
      BlockFound(table, sh, |sh.chunks| - 1);
      if reverse {
        var last := Index.NumDataBlocks(table.index) - 1;
        var lastBlock := table.blocks[Index.GetBlockId(table.index, last)];
        HasInterval(lastBlock, sh.chunks[last]);
        var k, b, e, p, o := ReadBackward(table, last, lastBlock.numEntries - 1, sh);
        key, block, entry, blockPos, blockOffset := k, b, e, p, o;
        at, next := |Flatten(sh.chunks)| - 1, 0;
        LocatedRow(sh.chunks, last, |sh.chunks[last]| - 1, |Flatten(sh.chunks)| - 1);
        PreviousLocated(sh.chunks, last, |sh.chunks[last]| - 1, |Flatten(sh.chunks)| - 1);
      } else {
        FirstPlace(table, sh, 0);
        var k, b, e, p, o, j := ReadForward(table, 0, 0, [], sh, 0);
        key, block, entry, blockPos, blockOffset := k, b, e, p, o;
        at, next := 0, j;
        FirstLocated(sh.chunks);
        LocatedRow(sh.chunks, 0, 0, 0);
        NextLocated(sh.chunks, 0, 0, 0, p, j);
      }
    }

    /** The iterator has passed the last row in its direction. */
    method AtEnd() returns (end: bool)
      requires Valid()
      ensures end <==> if reverse then at == -1 else at == |Flatten(sh.chunks)|
    {
      hide TableHolds, Flatten, Locates, NextPlace, Shows, Index.NumDataBlocks, Index.Accessible, Index.GetBlockId,
        Represents;
      HasFirst(table, sh);
      if reverse {
        end := blockPos < -1;
      } else {
        if at < |Flatten(sh.chunks)| { LocatedInside(sh.chunks, blockPos, next, at + 1); }
        end := blockPos > Index.NumDataBlocks(table.index);
      }
    }

    /** Move to the next row in the iterator's direction; stepping past the end would be a panic. */
    method Step()
      requires Valid() && (if reverse then at > -1 else at < |Flatten(sh.chunks)|)
      modifies this
      ensures Valid() && at == if reverse then old(at) - 1 else old(at) + 1
    {
      if reverse {
        StepReverse();
      } else {
        StepForward();
      }
    }

    method StepReverse()
      requires Valid() && reverse && at > -1
      modifies this
      ensures Valid() && at == old(at) - 1
    {
      hide TableHolds, Flatten, Locates, NextPlace, Shows, NoneEmpty;
      if blockPos == -1 {
        blockPos := blockPos - 1;
      } else {
        HeldNoneEmpty(table, sh);
        LocatedInside(sh.chunks, blockPos, blockOffset, at - 1);
        LocatedRow(sh.chunks, blockPos, blockOffset, at - 1);
        PreviousLocated(sh.chunks, blockPos, blockOffset, at - 1);
        var k, b, e, p, o := ReadBackward(table, blockPos, blockOffset, sh);
        key, block, entry, blockPos, blockOffset := k, b, e, p, o;
      }
      at := at - 1;
    }

    method StepForward()
      requires Valid() && !reverse && at < |Flatten(sh.chunks)|
      modifies this
      ensures Valid() && at == old(at) + 1
    {
      hide TableHolds, Flatten, Locates, NextPlace, Shows, NoneEmpty, Index.NumDataBlocks, Index.Accessible,
        Index.GetBlockId, Represents;
      HasFirst(table, sh);
      LocatedInside(sh.chunks, blockPos, next, at + 1);
      LocatedRow(sh.chunks, blockPos, next, at + 1);
      if blockPos == Index.NumDataBlocks(table.index) {
        blockPos := blockPos + 1;
      } else {
        HeldNoneEmpty(table, sh);
        if next > 0 { PreviousKey(sh.chunks, blockPos, next, at + 1); }
        assert key == Flatten(sh.chunks)[at].key by { ShownKey(key, block, entry, Flatten(sh.chunks)[at]); }
        var k, b, e, p, o, j := ReadForward(table, blockPos, blockOffset, key, sh, next);
        NextLocated(sh.chunks, blockPos, next, at + 1, p, j);
        LocatedRow(sh.chunks, p, j, at + 2);
        key, block, entry, blockPos, blockOffset, next := k, b, e, p, o, j;
      }
      at := at + 1;
    }
  }

  lemma HasFirst(t: TableFile, sh: Shape)
    requires TableHolds(t, sh)
    ensures Index.INDEX_HEADER <= |t.index| && Index.NumDataBlocks(t.index) == |sh.chunks|
  {
    BlockFound(t, sh, 0);
  }

  lemma LocatedInside(chunks: seq<seq<Row>>, c: nat, i: nat, n: nat)
    requires Locates(chunks, c, i, n)
    ensures c <= |chunks| && (c < |chunks| ==> i < |chunks[c]|)
  {
  }

  lemma PreviousKey(chunks: seq<seq<Row>>, c: nat, i: nat, n: nat)
    requires Locates(chunks, c, i, n) && c < |chunks| && NoneEmpty(chunks) && i > 0
    ensures 0 < n <= |Flatten(chunks)| && Flatten(chunks)[n - 1] == chunks[c][i - 1]
  {
    hide Flatten, Start;
    FlattenAt(chunks, c, i - 1);
  }

  lemma ShownKey(key: Key, block: DataBlock, entry: DataEntry, r: Row)
    requires Shows(key, block, entry, r)
    ensures key == r.key
  {
  }

  /** Iterating visits exactly the rows of the table, in order or in reverse order. */
  method Enumerate(t: TableFile, reverse: bool, ghost sh: Shape) returns (rows: seq<Row>)
    requires TableHolds(t, sh)
    ensures !reverse ==> rows == Flatten(sh.chunks)
    ensures reverse ==> |rows| == |Flatten(sh.chunks)|
    ensures reverse ==> forall n :: 0 <= n < |rows| ==> rows[n] == Flatten(sh.chunks)[|rows| - 1 - n]
  {
    hide TableHolds, Flatten, Locates, NextPlace, HasVersion, VersionOf;
    ghost var all := Flatten(sh.chunks);
    var it := new TableIterator(t, reverse, sh);
    rows := [];
    var end := it.AtEnd();
    while !end
      invariant it.Valid() && it.table == t && it.sh == sh && it.reverse == reverse
      invariant end <==> if reverse then it.at == -1 else it.at == |all|
      invariant |rows| == if reverse then |all| - 1 - it.at else it.at
      invariant forall n :: 0 <= n < |rows| ==> rows[n] == all[if reverse then |all| - 1 - n else n]
      decreases |all| - |rows|
    {
      rows := rows + [Row(it.key, VersionOf(it.block, it.entry))];
      it.Step();
      end := it.AtEnd();
    }
  }
}
