/** Index blocks: for every data block of a table its first key and its id. */
module IndexBlocks {
  import opened Keys
  import opened Versions
  import opened Codec

  type BlockId = nat

  const INDEX_HEADER: nat := 24
  const INDEX_ENTRY_HEADER: nat := 16
  const WORD_SIZE: nat := 8

  /** A data block: its first key and its id */
  datatype IndexEntry = IndexEntry(key: Key, id: BlockId)

  function PadOffset(offset: nat): (r: nat)
    ensures offset <= r < offset + WORD_SIZE && r % WORD_SIZE == 0
  {
    if offset % WORD_SIZE == 0 then offset else offset + WORD_SIZE - offset % WORD_SIZE
  }

  function Head(size: nat, min: Key, max: Key, n: nat): (b: seq<Byte>)
    ensures |b| == INDEX_HEADER
  {
    Le64(size) + Le32(|min|) + Le32(|max|) + Le32(n) + Le32(0)
  }

  function EntryBytes(e: IndexEntry): (b: seq<Byte>)
    ensures |b| == INDEX_ENTRY_HEADER + |e.key|
  {
    Le64(e.id) + Le32(|e.key|) + Le32(0) + e.key
  }

  function OffsetStart(min: Key, max: Key): nat {
    PadOffset(INDEX_HEADER + |min| + |max|)
  }

  /** Where entry `pos` starts */
  function EntryStart(min: Key, max: Key, index: seq<IndexEntry>, pos: nat): nat
    requires pos <= |index|
  {
    if pos == 0 then OffsetStart(min, max) + 4 * PadOffset(|index|)
    else EntryStart(min, max, index, pos - 1) + INDEX_ENTRY_HEADER + |index[pos - 1].key|
  }

  /** The offset list begins at a multiple of 8 and has room for the number of entries, rounded up to one too. */
  lemma OffsetListPlace(min: Key, max: Key, index: seq<IndexEntry>)
    ensures
      var start, end := OffsetStart(min, max), EntryStart(min, max, index, 0);
      && start % 8 == 0 && 24 + |min| + |max| <= start < 32 + |min| + |max|
      && (end - start) % 32 == 0 && 4 * |index| <= end - start < 4 * |index| + 32
  {
  }

  lemma {:induction false} EntryStartGrows(min: Key, max: Key, index: seq<IndexEntry>, i: nat, j: nat)
    requires i <= j <= |index|
    ensures OffsetStart(min, max) + 4 * |index| <= EntryStart(min, max, index, i) <= EntryStart(min, max, index, j)
    decreases j
  {
    if j > 0 {
      if i < j {
        EntryStartGrows(min, max, index, i, j - 1);
      } else {
        EntryStartGrows(min, max, index, i - 1, j - 1);
      }
    }
  }

  /** Sizes that fit the fields of an index block */
  predicate Fits(size: nat, min: Key, max: Key, index: seq<IndexEntry>) {
    && size < U64 && EntryStart(min, max, index, |index|) < U32
    && forall j :: 0 <= j < |index| ==> index[j].id < U64
  }

  /** Entry `j` and its place in the offset list */
  ghost predicate EntryHeld(data: seq<Byte>, min: Key, max: Key, index: seq<IndexEntry>, j: nat)
    requires j < |index|
  {
    && Holds(data, OffsetStart(min, max) + 4 * j, Le32(EntryStart(min, max, index, j)))
    && Holds(data, EntryStart(min, max, index, j), EntryBytes(index[j]))
  }

  ghost predicate HeadHeld(data: seq<Byte>, size: nat, min: Key, max: Key, n: nat) {
    && Holds(data, 0, Head(size, min, max, n))
    && Holds(data, INDEX_HEADER, min) && Holds(data, INDEX_HEADER + |min|, max)
  }

  ghost predicate Represents(data: seq<Byte>, size: nat, min: Key, max: Key, index: seq<IndexEntry>) {
    && Fits(size, min, max, index)
    && HeadHeld(data, size, min, max, |index|)
    && forall j :: 0 <= j < |index| ==> EntryHeld(data, min, max, index, j)
  }

  lemma HeadKept(data: seq<Byte>, size: nat, min: Key, max: Key, n: nat, at: nat, piece: seq<Byte>, more: seq<Byte>)
    requires HeadHeld(data, size, min, max, n)
    requires INDEX_HEADER + |min| + |max| <= at && at + |piece| <= |data|
    ensures HeadHeld(Overwrite(data, at, piece) + more, size, min, max, n)
  {
    hide Holds, Overwrite, Head;
    var data' := Overwrite(data, at, piece);
    HoldsOverwrite(data, at, piece, 0, Head(size, min, max, n));
    HoldsOverwrite(data, at, piece, INDEX_HEADER, min);
    HoldsOverwrite(data, at, piece, INDEX_HEADER + |min|, max);
    HoldsAppend(data', more, 0, Head(size, min, max, n));
    HoldsAppend(data', more, INDEX_HEADER, min);
    HoldsAppend(data', more, INDEX_HEADER + |min|, max);
  }

  lemma EntryKept(data: seq<Byte>, min: Key, max: Key, index: seq<IndexEntry>, j: nat, pos: nat, more: seq<Byte>)
    requires j < pos < |index| && EntryHeld(data, min, max, index, j)
    requires OffsetStart(min, max) + 4 * pos + 4 <= |data|
    ensures EntryHeld(Overwrite(data, OffsetStart(min, max) + 4 * pos, Le32(EntryStart(min, max, index, pos))) + more,
                      min, max, index, j)
  {
    hide Holds, Overwrite, EntryBytes, Le32, EntryStart, OffsetStart;
    var at, piece := OffsetStart(min, max) + 4 * pos, Le32(EntryStart(min, max, index, pos));
    var data' := Overwrite(data, at, piece);
    EntryStartGrows(min, max, index, j, j);
    HoldsOverwrite(data, at, piece, OffsetStart(min, max) + 4 * j, Le32(EntryStart(min, max, index, j)));
    HoldsOverwrite(data, at, piece, EntryStart(min, max, index, j), EntryBytes(index[j]));
    HoldsAppend(data', more, OffsetStart(min, max) + 4 * j, Le32(EntryStart(min, max, index, j)));
    HoldsAppend(data', more, EntryStart(min, max, index, j), EntryBytes(index[j]));
  }

  lemma EntryNew(data: seq<Byte>, min: Key, max: Key, index: seq<IndexEntry>, pos: nat)
    requires pos < |index| && |data| == EntryStart(min, max, index, pos)
    ensures OffsetStart(min, max) + 4 * pos + 4 <= |data|
    ensures EntryHeld(Overwrite(data, OffsetStart(min, max) + 4 * pos, Le32(|data|)) + EntryBytes(index[pos]),
                      min, max, index, pos)
  {
    hide Overwrite, EntryBytes, Le32, EntryStart, OffsetStart;
    EntryStartGrows(min, max, index, pos, pos);
    var at := OffsetStart(min, max) + 4 * pos;
    var data' := Overwrite(data, at, Le32(|data|));
    HoldsOverwrite(data, at, Le32(|data|), 0, []);
    HoldsAppend(data', EntryBytes(index[pos]), at, Le32(|data|));
    HoldsMiddle(data', EntryBytes(index[pos]), []);
    assert data' + EntryBytes(index[pos]) + [] == data' + EntryBytes(index[pos]);
  }

  /** Lay out an index block: header, key range, padding, then the offset list, which is filled in as entries are
      added. */
  method New(size: nat, min: Key, max: Key, index: seq<IndexEntry>) returns (data: seq<Byte>)
    requires Fits(size, min, max, index)
    ensures Represents(data, size, min, max, index) && |data| == EntryStart(min, max, index, |index|)
  {
    hide Holds, EntryBytes, Le32, Head, EntryHeld, HeadHeld;
    data := Head(size, min, max, |index|) + min + max;
    data := data + Zeros(PadOffset(|data|) - |data|);
    var start := |data|;
    data := data + Zeros(PadOffset(|index|) * 4);
    HeadNew(size, min, max, |index|, data);
    for pos := 0 to |index|
      invariant start == OffsetStart(min, max) && |data| == EntryStart(min, max, index, pos)
      invariant HeadHeld(data, size, min, max, |index|)
      invariant forall j :: 0 <= j < pos ==> EntryHeld(data, min, max, index, j)
    {
      EntryNew(data, min, max, index, pos);
      HeadKept(data, size, min, max, |index|, start + 4 * pos, Le32(|data|), EntryBytes(index[pos]));
      var data' := Overwrite(data, start + 4 * pos, Le32(|data|)) + EntryBytes(index[pos]);
      forall j | 0 <= j < pos ensures EntryHeld(data', min, max, index, j) {
        EntryKept(data, min, max, index, j, pos, EntryBytes(index[pos]));
      }
      data := data';
    }
  }

  lemma HeadNew(size: nat, min: Key, max: Key, n: nat, data: seq<Byte>)
    requires Head(size, min, max, n) + min + max <= data
    ensures HeadHeld(data, size, min, max, n)
  {
    hide Head;
    var h := Head(size, min, max, n);
    assert data[..|h| + |min| + |max|] == h + min + max;
    assert data[0..|h|] == h && data[|h|..|h| + |min|] == min && data[|h| + |min|..|h| + |min| + |max|] == max;
  }

  // ---- reading ----

  /** Everything an access to entry `pos` reads is there; otherwise the code panics. */
  predicate Accessible(data: seq<Byte>, pos: nat) {
    && INDEX_HEADER <= |data| && pos < NumDataBlocks(data)
    && OffsetSlot(data, pos) + 4 <= |data|
    && GetEntryOffset(data, pos) + INDEX_ENTRY_HEADER <= |data|
    && GetEntryOffset(data, pos) + INDEX_ENTRY_HEADER +
       FromLe(data[GetEntryOffset(data, pos) + 8..GetEntryOffset(data, pos) + 12]) <= |data|
  }

  function NumDataBlocks(data: seq<Byte>): nat
    requires INDEX_HEADER <= |data|
  {
    FromLe(data[16..20])
  }

  function GetSize(data: seq<Byte>): nat
    requires INDEX_HEADER <= |data|
  {
    FromLe(data[0..8])
  }

  function OffsetSlot(data: seq<Byte>, pos: nat): nat
    requires INDEX_HEADER <= |data|
  {
    PadOffset(INDEX_HEADER + FromLe(data[8..12]) + FromLe(data[12..16])) + 4 * pos
  }

  function GetEntryOffset(data: seq<Byte>, pos: nat): nat
    requires INDEX_HEADER <= |data| && OffsetSlot(data, pos) + 4 <= |data|
  {
    FromLe(data[OffsetSlot(data, pos)..OffsetSlot(data, pos) + 4])
  }

  function GetBlockId(data: seq<Byte>, pos: nat): BlockId
    requires Accessible(data, pos)
  {
    var o := GetEntryOffset(data, pos);
    FromLe(data[o..o + 8])
  }

  function GetBlockKey(data: seq<Byte>, pos: nat): Key
    requires Accessible(data, pos)
  {
    var o := GetEntryOffset(data, pos);
    data[o + INDEX_ENTRY_HEADER..o + INDEX_ENTRY_HEADER + FromLe(data[o + 8..o + 12])]
  }

  predicate RangeReadable(data: seq<Byte>) {
    && INDEX_HEADER <= |data|
    && INDEX_HEADER + FromLe(data[8..12]) + FromLe(data[12..16]) <= |data|
  }

  function GetMin(data: seq<Byte>): Key
    requires RangeReadable(data)
  {
    data[INDEX_HEADER..INDEX_HEADER + FromLe(data[8..12])]
  }

  function GetMax(data: seq<Byte>): Key
    requires RangeReadable(data)
  {
    var o := INDEX_HEADER + FromLe(data[8..12]);
    data[o..o + FromLe(data[12..16])]
  }

  /** The header of an index block: 24 bytes, the last four of them zero */
  lemma HeadFields(size: nat, min: Key, max: Key, n: nat)
    ensures
      var h := Head(size, min, max, n);
      && |h| == 24 && h[0..8] == Le(size, 8) && h[8..12] == Le(|min|, 4) && h[12..16] == Le(|max|, 4)
      && h[16..20] == Le(n, 4) && h[20..24] == Le(0, 4)
  {
  }

  lemma RangeFits(size: nat, min: Key, max: Key, index: seq<IndexEntry>)
    requires Fits(size, min, max, index)
    ensures |min| < U32 && |max| < U32 && |index| < U32
  {
    EntryStartGrows(min, max, index, |index|, |index|);
  }

  /** The header reads back: size, key range and number of blocks. */
  lemma ReadHead(data: seq<Byte>, size: nat, min: Key, max: Key, index: seq<IndexEntry>)
    requires Represents(data, size, min, max, index)
    ensures RangeReadable(data) && GetMin(data) == min && GetMax(data) == max
    ensures GetSize(data) == size && NumDataBlocks(data) == |index|
    ensures FromLe(data[8..12]) == |min| && FromLe(data[12..16]) == |max|
  {
    hide Head, FromLe, EntryHeld;
    var h := Head(size, min, max, |index|);
    assert data[0..24] == h;
    HeadFields(size, min, max, |index|);
    assert data[0..8] == h[0..8] && data[8..12] == h[8..12] && data[12..16] == h[12..16] && data[16..20] == h[16..20];
    RangeFits(size, min, max, index);
    Le64RoundTrip(size);
    Le32RoundTrip(|min|);
    Le32RoundTrip(|max|);
    Le32RoundTrip(|index|);
  }

  /** An entry of an index block: block id, length of the key, four bytes of zero, and the key */
  lemma EntryFields(e: IndexEntry)
    ensures
      var b := EntryBytes(e);
      b[0..8] == Le(e.id, 8) && b[8..12] == Le(|e.key|, 4) && b[12..16] == Le(0, 4) && b[16..] == e.key
  {
    hide Le;
  }

  /** Every entry reads back: the key and the id stored at that position. */
  lemma ReadIndexEntry(data: seq<Byte>, size: nat, min: Key, max: Key, index: seq<IndexEntry>, pos: nat)
    requires Represents(data, size, min, max, index) && pos < |index|
    ensures Accessible(data, pos) && GetBlockKey(data, pos) == index[pos].key && GetBlockId(data, pos) == index[pos].id
  {
    hide Head, FromLe, EntryStart, EntryBytes, Le;
    ReadHead(data, size, min, max, index);
    assert EntryHeld(data, min, max, index, pos);
    var o := EntryStart(min, max, index, pos);
    EntryStartGrows(min, max, index, pos, |index|);
    Le32RoundTrip(o);
    var e := index[pos];
    EntryFields(e);
    var b := data[o..o + 16 + |e.key|];
    SliceOfSlice(data, o, 16 + |e.key|, 0, 8);
    SliceOfSlice(data, o, 16 + |e.key|, 8, 12);
    SliceOfSlice(data, o, 16 + |e.key|, 16, 16 + |e.key|);
    Le64RoundTrip(e.id);
    assert |e.key| < U32 by { KeyFits(size, min, max, index, pos); }
    Le32RoundTrip(|e.key|);
  }

  lemma KeyFits(size: nat, min: Key, max: Key, index: seq<IndexEntry>, pos: nat)
    requires Fits(size, min, max, index) && pos < |index|
    ensures |index[pos].key| < U32
  {
    EntryStartGrows(min, max, index, pos + 1, |index|);
  }

  ghost predicate Ascending(index: seq<IndexEntry>) {
    forall i, j :: 0 <= i < j < |index| ==> Less(index[i].key, index[j].key)
  }

  /** Find the one block that can hold the key, if the key is in the table's range. */
  method BinarySearch(data: seq<Byte>, key: Key, ghost size: nat, ghost min: Key, ghost max: Key,
                      ghost index: seq<IndexEntry>)
    returns (res: Option<BlockId>, ghost at: nat)
    requires Represents(data, size, min, max, index) && index != [] && Ascending(index) && Leq(index[0].key, min)
    ensures res.None? <==> Less(key, min) || Less(max, key)
    ensures res.Some? ==>
              && at < |index| && res.value == index[at].id && Leq(index[at].key, key)
              && (at + 1 < |index| ==> Less(key, index[at + 1].key))
  {
    hide GetMin, GetMax, NumDataBlocks, RangeReadable, Accessible, GetBlockKey, GetBlockId, Represents;
    at := 0;
    ReadHead(data, size, min, max, index);
    assert INDEX_HEADER <= |data| by { HasHeader(data); }
    if Less(key, GetMin(data)) || Less(GetMax(data), key) {
      return None, 0;
    }
    var start, end := 0, NumDataBlocks(data) - 1;
    LeqTransitive(index[0].key, min, key);
    while end - start > 1
      invariant 0 <= start <= end < |index|
      invariant Leq(index[start].key, key)
      invariant end + 1 < |index| ==> Less(key, index[end].key)
    {
      var mid := (end - start) / 2 + start;
      ReadIndexEntry(data, size, min, max, index, mid);
      var midKey := GetBlockKey(data, mid);
      if midKey == key {
        if mid + 1 < |index| { assert Less(index[mid].key, index[mid + 1].key); }
        LessAsymmetric(key, key);
        return Some(GetBlockId(data, mid)), mid;
      }
      LessTotal(midKey, key);
      if Less(key, midKey) {
        end := mid;
      } else {
        start := mid;
      }
    }
    ReadIndexEntry(data, size, min, max, index, start);
    ReadIndexEntry(data, size, min, max, index, end);
    assert Leq(GetBlockKey(data, start), key);
    if Leq(GetBlockKey(data, end), key) {
      return Some(GetBlockId(data, end)), end;
    }
    return Some(GetBlockId(data, start)), start;
  }

  lemma HasHeader(data: seq<Byte>)
    requires RangeReadable(data)
    ensures INDEX_HEADER <= |data|
  {
  }
}
