/** A table built from rows holds exactly these rows: the builder and the readers are inverses. */
module TableRoundTrip {
  import opened Keys
  import opened Versions
  import opened Merge
  import opened Codec
  import opened Blocks
  import opened TableBuilders
  import opened Tables
  import Index = IndexBlocks

  /** How many entries a full block has: at least one, whatever the limit */
  function BlockRows(maxEntries: nat): (m: nat)
    ensures 0 < m
  {
    if maxEntries == 0 then 1 else maxEntries
  }

  /** The index of a table: the first key of each run of `m` rows, and consecutive block ids */
  function BlockIndex(rows: seq<Row>, m: nat, id: Index.BlockId): seq<Index.IndexEntry>
    requires 0 < m
    decreases |rows|
  {
    if rows == [] then []
    else [Index.IndexEntry(rows[0].key, id)] + BlockIndex(if |rows| <= m then [] else rows[m..], m, id + 1)
  }

  /** Any block the builder may be asked to make fits its fields. */
  ghost predicate BlocksFit(rows: seq<Row>, interval: nat, m: nat) {
    forall i, j :: 0 <= i <= j <= |rows| && j - i <= m ==> Fits(rows[i..j], interval)
  }

  /** The index of the table, with one key per block, fits its fields. */
  ghost predicate IndexRoom(rows: seq<Row>, m: nat, id: Index.BlockId)
    requires rows != [] && 0 < m
  {
    var index := BlockIndex(rows, m, id);
    && Index.EntryStart(rows[0].key, rows[|rows| - 1].key, index, |index|) < U32
    && id + |index| <= U64
  }

  // ---- how the builder lays out its blocks ----

  /** Full blocks, entered in the index one after the other, and a current block that has room */
  ghost predicate Laid(chunks: seq<seq<Row>>, last: seq<Row>, index: seq<Index.IndexEntry>, id: Index.BlockId, m: nat) {
    && |index| == |chunks| && (last == [] || |last| < m)
    && forall c :: 0 <= c < |chunks| ==>
         |chunks[c]| == m > 0 && index[c] == Index.IndexEntry(chunks[c][0].key, id + c)
  }

  lemma {:induction false} FlattenFirst(chunks: seq<seq<Row>>)
    requires chunks != []
    ensures Flatten(chunks) == chunks[0] + Flatten(chunks[1..])
  {
    var n := |chunks| - 1;
    if n == 0 {
      assert chunks[..0] == [] && chunks[1..] == [];
      assert [] + chunks[0] == chunks[0] && chunks[0] + [] == chunks[0];
    } else {
      FlattenFirst(chunks[..n]);
      assert chunks[..n][1..] == chunks[1..][..n - 1];
      assert chunks[1..][n - 1] == chunks[n];
    }
  }

  lemma LaidRest(chunks: seq<seq<Row>>, last: seq<Row>, index: seq<Index.IndexEntry>, id: Index.BlockId, m: nat)
    requires Laid(chunks, last, index, id, m) && chunks != []
    ensures Laid(chunks[1..], last, index[1..], id + 1, m)
    ensures |index| == |chunks| && |chunks[0]| == m > 0 && index[0] == Index.IndexEntry(chunks[0][0].key, id)
  {
  }

  lemma LaidLast(last: seq<Row>, index: seq<Index.IndexEntry>, id: Index.BlockId, m: nat)
    requires Laid([], last, index, id, m) && 0 < m
    ensures FinalIndex(index, last, id) == BlockIndex(last, m, id)
    ensures Flatten([]) + last == last
  {
  }

  /** The index the builder has made is the index of its rows. */
  lemma {:induction false} LaidIndex(chunks: seq<seq<Row>>, last: seq<Row>, index: seq<Index.IndexEntry>,
                                     id: Index.BlockId, m: nat)
    requires Laid(chunks, last, index, id, m) && 0 < m
    ensures FinalIndex(index, last, id + |chunks|) == BlockIndex(Flatten(chunks) + last, m, id)
    decreases |chunks|
  {
    hide Flatten, Laid, BlockIndex;
    if chunks == [] {
      LaidLast(last, index, id, m);
    } else {
      var rest := Flatten(chunks[1..]) + last;
      FlattenFirst(chunks);
      LaidRest(chunks, last, index, id, m);
      LaidIndex(chunks[1..], last, index[1..], id + 1, m);
      assert Flatten(chunks) + last == chunks[0] + rest;
      FirstBlock(chunks[0], rest, m, id);
      assert index == [index[0]] + index[1..];
    }
  }

  lemma FirstBlock(chunk: seq<Row>, rest: seq<Row>, m: nat, id: Index.BlockId)
    requires |chunk| == m > 0
    ensures BlockIndex(chunk + rest, m, id) == [Index.IndexEntry(chunk[0].key, id)] + BlockIndex(rest, m, id + 1)
  {
    var rows := chunk + rest;
    assert rows[0] == chunk[0];
    if |rows| <= m { assert rest == []; } else { assert rows[m..] == rest; }
  }

  lemma {:induction false} BlockIds(rows: seq<Row>, m: nat, id: Index.BlockId)
    requires 0 < m
    ensures forall c :: 0 <= c < |BlockIndex(rows, m, id)| ==> BlockIndex(rows, m, id)[c].id == id + c
    decreases |rows|
  {
    if rows != [] {
      BlockIds(if |rows| <= m then [] else rows[m..], m, id + 1);
    }
  }

  lemma IndexFits(rows: seq<Row>, m: nat, id: Index.BlockId, size: nat, blocks: nat, more: nat)
    requires rows != [] && 0 < m && IndexRoom(rows, m, id)
    requires blocks <= |BlockIndex(rows, m, id)| && size <= blocks * U32 && more < U32
    ensures Index.Fits(size + more, rows[0].key, rows[|rows| - 1].key, BlockIndex(rows, m, id))
  {
    hide BlockIndex, Index.EntryStart;
    var index := BlockIndex(rows, m, id);
    BlockIds(rows, m, id);
    Index.EntryStartGrows(rows[0].key, rows[|rows| - 1].key, index, |index|, |index|);
  }

  lemma SliceFits(rows: seq<Row>, interval: nat, m: nat, before: seq<Row>, part: seq<Row>, n: nat)
    requires BlocksFit(rows, interval, m) && n <= |rows| && before + part == rows[..n]
    ensures |part| <= m ==> Fits(part, interval)
    ensures |part| < m && n < |rows| ==> Fits(part + [rows[n]], interval)
  {
    hide Fits;
    assert part == rows[..n][|before|..] == rows[|before|..n];
    if n < |rows| { assert part + [rows[n]] == rows[|before|..n + 1]; }
  }

  // ---- building ----

  /** Add one more row. */
  method AddRow(b: TableBuilder, rows: seq<Row>, i: nat, bloom: seq<Byte>, ghost id: Index.BlockId)
    requires b.Valid() && i < |rows| && b.AllRows() == rows[..i] && |bloom| == BLOOM
    requires BlocksFit(rows, b.interval, BlockRows(b.maxEntries))
    requires Laid(b.chunks, b.dataBlock.rows, b.blockIndex, id, BlockRows(b.maxEntries))
    requires b.nextId == id + |b.chunks| && b.size <= |b.chunks| * U32
    modifies b, b.dataBlock
    ensures b.Valid() && b.AllRows() == rows[..i + 1] && (b.dataBlock == old(b.dataBlock) || fresh(b.dataBlock))
    ensures Laid(b.chunks, b.dataBlock.rows, b.blockIndex, id, BlockRows(b.maxEntries))
    ensures b.nextId == id + |b.chunks| && b.size <= |b.chunks| * U32
  {
    hide Fits, Flatten, BlocksFit, TableBuilder.Consistent;
    SliceFits(rows, b.interval, BlockRows(b.maxEntries), Flatten(b.chunks), b.dataBlock.rows, i);
    b.AddEntry(rows[i], bloom);
    assert rows[..i] + [rows[i]] == rows[..i + 1];
  }

  /** Add all rows to an empty builder. */
  method AddRows(b: TableBuilder, rows: seq<Row>, bloom: seq<Byte>)
    requires b.Valid() && b.chunks == [] && b.blockIndex == [] && b.dataBlock.rows == [] && b.size == 0
    requires |bloom| == BLOOM && BlocksFit(rows, b.interval, BlockRows(b.maxEntries))
    modifies b, b.dataBlock
    ensures b.Valid() && b.AllRows() == rows && (b.dataBlock == old(b.dataBlock) || fresh(b.dataBlock))
    ensures Laid(b.chunks, b.dataBlock.rows, b.blockIndex, old(b.nextId), BlockRows(b.maxEntries))
    ensures b.nextId == old(b.nextId) + |b.chunks| && b.size <= |b.chunks| * U32
  {
    hide BlocksFit, TableBuilder.Valid, BlockRows;
    ghost var id := b.nextId;
    for i := 0 to |rows|
      invariant b.Valid() && b.AllRows() == rows[..i]
      invariant Laid(b.chunks, b.dataBlock.rows, b.blockIndex, id, BlockRows(b.maxEntries))
      invariant b.nextId == id + |b.chunks| && b.size <= |b.chunks| * U32
      invariant b.dataBlock == old(b.dataBlock) || fresh(b.dataBlock)
    {
      hide Laid, Flatten, TableBuilder.AllRows;
      AddRow(b, rows, i, bloom, id);
    }
    assert rows[..|rows|] == rows;
  }

  method FinishTable(b: TableBuilder, rows: seq<Row>, ghost id: Index.BlockId) returns (t: TableFile, ghost sh: Shape)
    requires b.Valid() && b.AllRows() == rows != [] && BlocksFit(rows, b.interval, BlockRows(b.maxEntries))
    requires b.minKey == rows[0].key && b.maxKey == rows[|rows| - 1].key
    requires IndexRoom(rows, BlockRows(b.maxEntries), id)
    requires Laid(b.chunks, b.dataBlock.rows, b.blockIndex, id, BlockRows(b.maxEntries))
    requires b.nextId == id + |b.chunks| && b.size <= |b.chunks| * U32
    modifies b, b.dataBlock
    ensures TableHolds(t, sh) && Flatten(sh.chunks) == rows && sh.min == b.minKey && sh.max == b.maxKey
    ensures sh.entries == BlockIndex(rows, BlockRows(b.maxEntries), id)
  {
    hide Fits, Flatten, IndexRoom, ChunksHeld, ChunksStored, Index.Represents, Index.Fits, BlocksFit,
      DataBlockBuilder.Valid, CountSinceRestart, BlockIndex;
    var m := BlockRows(b.maxEntries);
    assert rows[..|rows|] == rows;
    SliceFits(rows, b.interval, m, Flatten(b.chunks), b.dataBlock.rows, |rows|);
    BlockSize(b.dataBlock);
    LaidIndex(b.chunks, b.dataBlock.rows, b.blockIndex, id, m);
    IndexFits(rows, m, id, b.size, |b.chunks|, if b.dataBlock.rows == [] then 0 else |b.dataBlock.data|);
    hide Laid, FinalIndex;
    var index := b.Finish();
    FlattenSome(b.chunks);
    t, sh := TableFile(index, b.blocks), Shape(b.size, b.minKey, b.maxKey, b.blockIndex, b.chunks);
  }

  lemma FlattenSome(chunks: seq<seq<Row>>)
    ensures Flatten(chunks) != [] ==> chunks != []
  {
  }

  /** Write rows into a table. All that is needed is that each block, and the index with one key per block, fit
      their fields. */
  method BuildTable(rows: seq<Row>, interval: nat, maxEntries: nat, bloom: seq<Byte>, firstId: Index.BlockId)
    returns (t: TableFile, ghost sh: Shape)
    requires rows != [] && 0 < interval && |bloom| == BLOOM
    requires BlocksFit(rows, interval, BlockRows(maxEntries)) && IndexRoom(rows, BlockRows(maxEntries), firstId)
    ensures TableHolds(t, sh) && Flatten(sh.chunks) == rows
    ensures sh.min == rows[0].key && sh.max == rows[|rows| - 1].key
    ensures sh.entries == BlockIndex(rows, BlockRows(maxEntries), firstId)
  {
    hide Flatten, IndexRoom, TableHolds, BlocksFit, TableBuilder.Valid, TableBuilder.AllRows, BlockIndex, Laid;
    var b := new TableBuilder(interval, maxEntries, rows[0].key, rows[|rows| - 1].key, bloom, firstId);
    AddRows(b, rows, bloom);
    t, sh := FinishTable(b, rows, firstId);
  }

  /** What is written is what iterating yields, in either direction. */
  method RoundTrip(rows: seq<Row>, interval: nat, maxEntries: nat, bloom: seq<Byte>, firstId: Index.BlockId,
                   reverse: bool)
    returns (out: seq<Row>)
    requires rows != [] && 0 < interval && |bloom| == BLOOM
    requires BlocksFit(rows, interval, BlockRows(maxEntries)) && IndexRoom(rows, BlockRows(maxEntries), firstId)
    ensures |out| == |rows| && forall n :: 0 <= n < |rows| ==> out[n] == rows[if reverse then |rows| - 1 - n else n]
  {
    hide TableHolds, BlocksFit, IndexRoom, BlockIndex, Flatten;
    var t, sh := BuildTable(rows, interval, maxEntries, bloom, firstId);
    out := Enumerate(t, reverse, sh);
  }

  /** A table built from sorted rows has the range its lookups rely on. */
  lemma BuiltRange(t: TableFile, sh: Shape, rows: seq<Row>)
    requires TableHolds(t, sh) && Flatten(sh.chunks) == rows != [] && Sorted(rows)
    requires sh.min == rows[0].key && sh.max == rows[|rows| - 1].key
    ensures RangeOk(sh)
  {
    hide Flatten, Index.Represents, Represents;
    HeldNoneEmpty(t, sh);
    FirstLocated(sh.chunks);
    LocatedRow(sh.chunks, 0, 0, 0);
    forall c, i | 0 <= c < |sh.chunks| && 0 <= i < |sh.chunks[c]| ensures Within(sh.chunks[c][i].key, sh.min, sh.max) {
      FlattenAt(sh.chunks, c, i);
      var n := Start(sh.chunks, c) + i;
      LessAsymmetric(rows[0].key, rows[n].key);
      LessAsymmetric(rows[n].key, rows[|rows| - 1].key);
      LessAsymmetric(rows[n].key, rows[n].key);
    }
  }

  /** Looking up a key in a table built from sorted rows finds what the rows say about it. */
  method LookupBuilt(rows: seq<Row>, interval: nat, maxEntries: nat, bloom: seq<Byte>, firstId: Index.BlockId, key: Key)
    returns (res: Option<Version>)
    requires rows != [] && 0 < interval && |bloom| == BLOOM && Sorted(rows)
    requires BlocksFit(rows, interval, BlockRows(maxEntries)) && IndexRoom(rows, BlockRows(maxEntries), firstId)
    ensures res == if key in ToRows(rows) then Some(ToRows(rows)[key]) else None
  {
    hide TableHolds, BlocksFit, IndexRoom, BlockIndex, Flatten, RangeOk, ToRows, Sorted, HasVersion, VersionOf, InChunk;
    var t, sh := BuildTable(rows, interval, maxEntries, bloom, firstId);
    BuiltRange(t, sh, rows);
    HeldIds(t, sh);
    var maybe := map id | id in t.blocks :: true;
    var found := Get(t, key, maybe, sh);
    if found.None? {
      return None;
    }
    return Some(VersionOf(found.value.0, found.value.1));
  }

  lemma HeldIds(t: TableFile, sh: Shape)
    requires TableHolds(t, sh)
    ensures |sh.entries| == |sh.chunks| && forall c :: 0 <= c < |sh.chunks| ==> sh.entries[c].id in t.blocks
  {
  }
}
