/** Building a sorted table: entries go into data blocks, and an index block lists the blocks. */
module TableBuilders {
  import opened Keys
  import opened Versions
  import opened Merge
  import opened Codec
  import opened Blocks
  import Index = IndexBlocks

  // ---- building a data block ----

  lemma {:induction false} BodyPrefix(rows: seq<Row>, r: Row, interval: nat, n: nat)
    requires 0 < interval && n <= |rows|
    ensures Body(rows + [r], interval, n) == Body(rows, interval, n)
    ensures Restarts(rows + [r], interval, n) == Restarts(rows, interval, n)
  {
    if n > 0 {
      BodyPrefix(rows, r, interval, n - 1);
      assert PrefixLen(rows + [r], interval, n - 1) == PrefixLen(rows, interval, n - 1);
      hide PrefixLen, EntryBytes;
    }
  }

  /** Adding a row appends its bytes, and its offset if it is at a restart point. */
  lemma BodyNext(rows: seq<Row>, r: Row, interval: nat)
    requires 0 < interval
    ensures
      var n, rows' := |rows|, rows + [r];
      var p := PrefixLen(rows', interval, n);
      && p <= |r.key| && Body(rows', interval, n + 1) == Body(rows, interval, n) + EntryBytes(p, r)
      && Restarts(rows', interval, n + 1) ==
         Restarts(rows, interval, n) + if n % interval == 0 then [HEADER + |Body(rows, interval, n)|] else []
  {
    hide PrefixLen, EntryBytes;
    BodyPrefix(rows, r, interval, |rows|);
  }

  class DataBlockBuilder {
    const interval: nat
    var data: seq<Byte>
    var position: nat
    var restartList: seq<nat>
    var bloom: seq<Byte>
    ghost var rows: seq<Row>

    ghost predicate Valid()
      reads this
    {
      && 0 < interval && |bloom| == BLOOM && position == |rows|
      && HEADER <= |data| && data[HEADER..] == Body(rows, interval, |rows|)
      && restartList == Restarts(rows, interval, |rows|)
    }

    constructor (interval: nat, bloom: seq<Byte>)
      requires 0 < interval && |bloom| == BLOOM
      ensures Valid() && rows == [] && this.interval == interval
    {
      this.interval := interval;
      this.bloom := bloom;
      data := Zeros(HEADER);
      position := 0;
      restartList := [];
      rows := [];
    }

    /** Append an entry whose key shares `prefixLen` bytes with the one before.
        `newBloom` is what the filter becomes once the key is added. */
    method AddEntry(prefixLen: nat, suffix: seq<Byte>, version: Version, newBloom: seq<Byte>, ghost r: Row)
      requires Valid() && |newBloom| == BLOOM
      requires prefixLen == PrefixLen(rows + [r], interval, |rows|)
      requires suffix == r.key[prefixLen..] && version == r.version
      modifies this
      ensures Valid() && rows == old(rows) + [r]
    {
      hide Body, Restarts, PrefixLen;
      BodyNext(rows, r, interval);
      if position % interval == 0 {
        assert prefixLen == 0;
        restartList := restartList + [|data|];
      } else {
        assert restartList + [] == restartList;
      }
      bloom := newBloom;
      var head := Le32(prefixLen) + Le32(|suffix|) + [Kind(version)] + Le64(version.num) + Le64(|Payload(version)|);
      assert head + suffix + Payload(version) == EntryBytes(prefixLen, r);
      data := data + head + suffix + Payload(version);
      assert data[HEADER..] == old(data)[HEADER..] + (head + suffix + Payload(version));
      position := position + 1;
      rows := rows + [r];
    }

    /** Write the header and the restart list; None if there are no entries. */
    method Finish() returns (block: Option<DataBlock>)
      requires Valid() && Fits(rows, interval)
      modifies this
      ensures block.None? <==> old(rows) == []
      ensures block.Some? ==> Represents(block.value, old(rows)) && block.value.interval == interval
    {
      hide Body, Restarts, Le32, Fits, RestartBytes, Represents;
      if position == 0 {
        return None;
      }
      var start := |data|;
      ghost var body := data[HEADER..];
      data := Le32(start) + Le32(position) + bloom + data[HEADER..];
      ghost var whole := data;
      NoRestarts(restartList);
      assert whole + [] == whole;
      for i := 0 to |restartList|
        invariant restartList == old(restartList) && position == old(position)
        invariant rows == old(rows) && bloom == old(bloom)
        invariant data == whole + RestartBytes(restartList[..i])
      {
        NextRestart(restartList, i);
        data := data + Le32(restartList[i]);
      }
      assert restartList[..|restartList|] == restartList;
      EncodeRepresents(rows, interval, bloom);
      block := Some(DataBlock(data, start, position, interval));
    }
  }

  lemma NoRestarts(restarts: seq<nat>)
    ensures RestartBytes(restarts[..0]) == []
  {
  }

  lemma NextRestart(restarts: seq<nat>, i: nat)
    requires i < |restarts|
    ensures RestartBytes(restarts[..i + 1]) == RestartBytes(restarts[..i]) + Le32(restarts[i])
  {
    assert restarts[..i + 1][..i] == restarts[..i];
  }

  // ---- building a table ----

  /** All rows of a list of blocks, in order */
  ghost function Flatten(chunks: seq<seq<Row>>): seq<Row> {
    if chunks == [] then [] else Flatten(chunks[..|chunks| - 1]) + chunks[|chunks| - 1]
  }

  lemma FlattenNext(chunks: seq<seq<Row>>, chunk: seq<Row>)
    ensures Flatten(chunks + [chunk]) == Flatten(chunks) + chunk
  {
    assert (chunks + [chunk])[..|chunks|] == chunks;
  }

  /** Block `c` holds the rows `chunks[c]`, and the index names its first key and its id. */
  ghost predicate ChunksHeld(blocks: map<Index.BlockId, DataBlock>, index: seq<Index.IndexEntry>,
                             chunks: seq<seq<Row>>)
  {
    && |index| == |chunks|
    && forall c :: 0 <= c < |chunks| ==>
         && chunks[c] != [] && index[c].key == chunks[c][0].key
         && index[c].id in blocks && Represents(blocks[index[c].id], chunks[c])
  }

  /** As above, and ids from `nextId` on are not in use. */
  ghost predicate ChunksStored(blocks: map<Index.BlockId, DataBlock>, index: seq<Index.IndexEntry>,
                               chunks: seq<seq<Row>>, nextId: Index.BlockId)
  {
    ChunksHeld(blocks, index, chunks) && forall c :: 0 <= c < |index| ==> index[c].id < nextId
  }

  lemma ChunksNext(blocks: map<Index.BlockId, DataBlock>, index: seq<Index.IndexEntry>, chunks: seq<seq<Row>>,
                   id: Index.BlockId, block: DataBlock, chunk: seq<Row>)
    requires ChunksStored(blocks, index, chunks, id)
    requires chunk != [] && Represents(block, chunk)
    ensures ChunksStored(blocks[id := block], index + [Index.IndexEntry(chunk[0].key, id)], chunks + [chunk], id + 1)
  {
    hide Represents;
  }

  /** How far the shared prefix reaches */
  method SharedPrefix(key: Key, last: Key) returns (n: nat)
    ensures n == CommonPrefix(key, last)
  {
    n := 0;
    assert key[0..] == key && last[0..] == last;
    while n < |key| && n < |last| && key[n] == last[n]
      invariant n <= |key| && n <= |last|
      invariant CommonPrefix(key, last) == n + CommonPrefix(key[n..], last[n..])
    {
      assert key[n..][1..] == key[n + 1..] && last[n..][1..] == last[n + 1..];
      n := n + 1;
    }
  }

  /** The table builder's count since the last restart, as a function of the entries in the block */
  function CountSinceRestart(interval: nat, n: nat): nat
    requires 0 < interval
  {
    if n == 0 then 0 else (n - 1) % interval + 1
  }

  lemma NoneCounted(interval: nat)
    requires 0 < interval
    ensures CountSinceRestart(interval, 0) == 0
  {
  }

  /** The two builders agree on restart points although they count separately. */
  lemma RestartsAgree(interval: nat, n: nat)
    requires 0 < interval
    ensures CountSinceRestart(interval, n) == interval <==> n > 0 && n % interval == 0
    ensures CountSinceRestart(interval, n + 1) ==
            (if CountSinceRestart(interval, n) == interval then 0 else CountSinceRestart(interval, n)) + 1
  {
    if n > 0 {
      var q, m := (n - 1) / interval, (n - 1) % interval;
      assert n - 1 == q * interval + m;
      if m + 1 == interval {
        DivIs(n, interval, q + 1, 0);
      } else {
        DivIs(n, interval, q, m + 1);
      }
    } else {
      DivIs(0, interval, 0, 0);
    }
  }

  /** Where finishing a table puts its last block */
  ghost function FinalIndex(index: seq<Index.IndexEntry>, rows: seq<Row>, id: Index.BlockId): seq<Index.IndexEntry> {
    if rows == [] then index else index + [Index.IndexEntry(rows[0].key, id)]
  }

  class TableBuilder {
    const interval: nat
    const maxEntries: nat
    const minKey: Key
    const maxKey: Key
    const emptyBloom: seq<Byte>
    var dataBlock: DataBlockBuilder
    var blockIndex: seq<Index.IndexEntry>
    var lastKey: Key
    var blockEntryCount: nat
    var size: nat
    var restartCount: nat
    var indexKey: Option<Key>
    /** the stored data blocks and the next id the manifest gives out */
    var blocks: map<Index.BlockId, DataBlock>
    var nextId: Index.BlockId
    ghost var chunks: seq<seq<Row>>

    /** The counters and the index match the rows added so far; the current block has room. */
    ghost predicate Valid()
      reads this, dataBlock
    {
      Consistent() && (dataBlock.rows == [] || |dataBlock.rows| < maxEntries)
    }

    ghost predicate Consistent()
      reads this, dataBlock
    {
      && 0 < interval && |emptyBloom| == BLOOM
      && dataBlock.Valid() && dataBlock.interval == interval
      && blockEntryCount == |dataBlock.rows|
      && restartCount == CountSinceRestart(interval, |dataBlock.rows|)
      && lastKey == (if dataBlock.rows == [] then [] else dataBlock.rows[|dataBlock.rows| - 1].key)
      && indexKey == (if dataBlock.rows == [] then None else Some(dataBlock.rows[0].key))
      && ChunksStored(blocks, blockIndex, chunks, nextId)
    }

    /** Everything added so far */
    ghost function AllRows(): seq<Row>
      reads this, dataBlock
    {
      Flatten(chunks) + dataBlock.rows
    }

    constructor (interval: nat, maxEntries: nat, minKey: Key, maxKey: Key, emptyBloom: seq<Byte>, nextId: Index.BlockId)
      requires 0 < interval && |emptyBloom| == BLOOM
      ensures Valid() && AllRows() == [] && fresh(dataBlock)
      ensures this.interval == interval && this.maxEntries == maxEntries
      ensures this.minKey == minKey && this.maxKey == maxKey
      ensures this.nextId == nextId && size == 0 && chunks == [] && blockIndex == [] && dataBlock.rows == []
    {
      this.interval := interval;
      this.maxEntries := maxEntries;
      this.minKey := minKey;
      this.maxKey := maxKey;
      this.emptyBloom := emptyBloom;
      this.nextId := nextId;
      dataBlock := new DataBlockBuilder(interval, emptyBloom);
      blockIndex, lastKey, blockEntryCount, size, restartCount, indexKey := [], [], 0, 0, 0, None;
      blocks, chunks := map[], [];
    }

    /** Add an entry; the block is finished once it has its maximum number of entries. */
    method AddEntry(r: Row, newBloom: seq<Byte>)
      requires Valid() && |newBloom| == BLOOM && Fits(dataBlock.rows + [r], interval)
      modifies this, dataBlock
      ensures Valid() && AllRows() == old(AllRows()) + [r]
      ensures dataBlock == old(dataBlock) || fresh(dataBlock)
      ensures
        var rows := old(dataBlock.rows) + [r];
        if |rows| < maxEntries then
          && dataBlock.rows == rows && chunks == old(chunks) && blockIndex == old(blockIndex)
          && nextId == old(nextId) && size == old(size)
        else
          && dataBlock.rows == [] && chunks == old(chunks) + [rows]
          && blockIndex == old(blockIndex) + [Index.IndexEntry(rows[0].key, old(nextId))]
          && nextId == old(nextId) + 1 && size < old(size) + U32
    {
      hide Fits, Flatten, ChunksStored, DataBlockBuilder.Valid, CountSinceRestart;
      AppendEntry(r, newBloom);
      assert Flatten(chunks) + dataBlock.rows == old(AllRows()) + [r];
      if blockEntryCount >= maxEntries {
        BlockSize(dataBlock);
        EndBlock();
      }
    }

    /** Put an entry into the current block. */
    method AppendEntry(r: Row, newBloom: seq<Byte>)
      requires Consistent() && |newBloom| == BLOOM
      modifies this`indexKey, this`restartCount, this`blockEntryCount, this`lastKey, dataBlock
      ensures Consistent() && dataBlock.rows == old(dataBlock.rows) + [r]
    {
      hide Body, Restarts, PrefixLen, ChunksStored, CommonPrefix;
      if indexKey.None? {
        indexKey := Some(r.key);
      }
      ghost var n := |dataBlock.rows|;
      RestartsAgree(interval, n);
      NextPrefix(dataBlock.rows, r, interval);
      var prefixLen := 0;
      if restartCount == interval {
        restartCount := 0;
      } else {
        prefixLen := SharedPrefix(r.key, lastKey);
      }
      blockEntryCount := blockEntryCount + 1;
      restartCount := restartCount + 1;
      lastKey := r.key;
      assert prefixLen == PrefixLen(dataBlock.rows + [r], interval, n);
      dataBlock.AddEntry(prefixLen, r.key[prefixLen..], r.version, newBloom, r);
    }

    /** Finish the current block, store it and enter it in the index. */
    method EndBlock()
      requires 0 < interval && |emptyBloom| == BLOOM && dataBlock.Valid() && dataBlock.interval == interval
      requires dataBlock.rows != [] && Fits(dataBlock.rows, interval) && indexKey == Some(dataBlock.rows[0].key)
      requires ChunksStored(blocks, blockIndex, chunks, nextId)
      modifies this, dataBlock
      ensures Valid() && fresh(dataBlock) && dataBlock.rows == []
      ensures chunks == old(chunks + [dataBlock.rows])
      ensures blockIndex == old(blockIndex + [Index.IndexEntry(dataBlock.rows[0].key, nextId)])
      ensures size == old(size + |dataBlock.data|) && nextId == old(nextId) + 1
      ensures AllRows() == old(AllRows())
    {
      hide Body, Restarts, Fits, ChunksStored, Represents, Flatten, DataBlockBuilder.Valid, CountSinceRestart;
      ghost var chunk := dataBlock.rows;
      var current, currentSize := dataBlock, |dataBlock.data|;
      dataBlock := new DataBlockBuilder(interval, emptyBloom);
      var block := current.Finish();
      EnterBlock(block.value, currentSize, chunk);
      FlattenNext(old(chunks), chunk);
      assert Flatten(chunks) + [] == Flatten(chunks);
    }

    /** Enter a finished block in the index and begin counting anew. */
    method EnterBlock(block: DataBlock, blockSize: nat, ghost chunk: seq<Row>)
      requires 0 < interval && |emptyBloom| == BLOOM && dataBlock.Valid() && dataBlock.interval == interval
      requires dataBlock.rows == [] && chunk != [] && Represents(block, chunk) && indexKey == Some(chunk[0].key)
      requires ChunksStored(blocks, blockIndex, chunks, nextId)
      modifies this
      ensures Valid() && dataBlock == old(dataBlock)
      ensures chunks == old(chunks) + [chunk] && size == old(size) + blockSize && nextId == old(nextId) + 1
      ensures blockIndex == old(blockIndex) + [Index.IndexEntry(chunk[0].key, old(nextId))]
    {
      hide Body, Restarts, Fits, ChunksStored, Represents, Flatten, DataBlockBuilder.Valid, CountSinceRestart;
      NoneCounted(interval);
      ChunksNext(blocks, blockIndex, chunks, nextId, block, chunk);
      blocks, blockIndex, nextId, chunks :=
        blocks[nextId := block], blockIndex + [Index.IndexEntry(indexKey.value, nextId)], nextId + 1, chunks + [chunk];
      size, indexKey, blockEntryCount, restartCount, lastKey := size + blockSize, None, 0, 0, [];
    }

    /** Finish the last block, if it has entries, and write the index. */
    method Finish() returns (index: seq<Byte>)
      requires Valid() && Fits(dataBlock.rows, interval)
      requires Index.Fits(size + (if dataBlock.rows == [] then 0 else |dataBlock.data|), minKey, maxKey,
                          FinalIndex(blockIndex, dataBlock.rows, nextId))
      modifies this, dataBlock
      ensures Index.Represents(index, size, minKey, maxKey, blockIndex) && ChunksHeld(blocks, blockIndex, chunks)
      ensures Flatten(chunks) == old(AllRows())
      ensures blockIndex == old(FinalIndex(blockIndex, dataBlock.rows, nextId))
    {
      hide Body, Restarts, Fits, ChunksHeld, Represents, Index.Represents, Index.Fits, Flatten;
      if dataBlock.position != 0 {
        EndBlock();
      }
      assert Flatten(chunks) + [] == Flatten(chunks);
      index := Index.New(size, minKey, maxKey, blockIndex);
    }
  }

  lemma BlockSize(b: DataBlockBuilder)
    requires b.Valid() && Fits(b.rows, b.interval)
    ensures |b.data| < U32
  {
    assert |b.data| == HEADER + |b.data[HEADER..]|;
  }

  /** The prefix to store: none at a restart point, otherwise what is shared with the last key */
  lemma NextPrefix(rows: seq<Row>, r: Row, interval: nat)
    requires 0 < interval
    ensures
      PrefixLen(rows + [r], interval, |rows|) ==
      if |rows| % interval == 0 then 0 else CommonPrefix(r.key, rows[|rows| - 1].key)
    ensures CommonPrefix(r.key, []) == 0
  {
  }
}
