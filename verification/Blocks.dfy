/** Data blocks: prefix-compressed entries with restart points. */
module Blocks {
  import opened Keys
  import opened Versions
  import opened Merge
  import opened Codec

  const ENTRY_HEADER: nat := 25
  const BLOOM: nat := 1024 + 1 + 8 + 4 + 32
  const HEADER: nat := 8 + BLOOM

  const PUT_OP: Byte := 1
  const DELETE_OP: Byte := 2

  /** Sizes that fit the fields of an entry header */
  predicate Storable(r: Row) {
    |r.key| < U32 && r.version.num < U64 && |Payload(r.version)| < U64
  }

  function Kind(v: Version): Byte {
    if v.value.Some? then PUT_OP else DELETE_OP
  }

  function Payload(v: Version): seq<Byte> {
    if v.value.Some? then v.value.value else []
  }

  /** How many leading bytes two keys share */
  function CommonPrefix(a: Key, b: Key): (n: nat)
    ensures n <= |a| && n <= |b| && a[..n] == b[..n]
    ensures n < |a| && n < |b| ==> a[n] != b[n]
  {
    if a == [] || b == [] || a[0] != b[0] then 0
    else
      var n := CommonPrefix(a[1..], b[1..]);
      assert a[..n + 1] == [a[0]] + a[1..][..n] && b[..n + 1] == [b[0]] + b[1..][..n];
      n + 1
  }

  /** The prefix an entry shares with the one before; none at a restart point */
  function PrefixLen(rows: seq<Row>, interval: nat, i: nat): (n: nat)
    requires 0 < interval && i < |rows|
    ensures n <= |rows[i].key| && (i % interval == 0 ==> n == 0)
    ensures n > 0 ==> i > 0 && n <= |rows[i - 1].key| && rows[i - 1].key[..n] == rows[i].key[..n]
    ensures i % interval != 0 && n < |rows[i].key| && n < |rows[i - 1].key| ==> rows[i - 1].key[n] != rows[i].key[n]
  {
    if i % interval == 0 then 0 else CommonPrefix(rows[i].key, rows[i - 1].key)
  }

  function EntryHead(p: nat, r: Row): (b: seq<Byte>)
    requires p <= |r.key|
    ensures |b| == ENTRY_HEADER
  {
    Le32(p) + Le32(|r.key| - p) + [Kind(r.version)] + Le64(r.version.num) + Le64(|Payload(r.version)|)
  }

  function EntryBytes(p: nat, r: Row): (b: seq<Byte>)
    requires p <= |r.key|
    ensures |b| == ENTRY_HEADER + (|r.key| - p) + |Payload(r.version)|
  {
    EntryHead(p, r) + r.key[p..] + Payload(r.version)
  }

  /** The bytes of an entry: its header with the type (1 for a value, 2 for a deletion), then what the key does not
      share with the one before, and the value */
  lemma EntryLayout(p: nat, r: Row)
    requires p <= |r.key|
    ensures
      var b := EntryBytes(p, r);
      && b[0..4] == Le(p, 4) && b[4..8] == Le(|r.key| - p, 4) && b[8] == (if r.version.value.Some? then 1 else 2)
      && b[9..17] == Le(r.version.num, 8)
      && b[17..25] == Le(if r.version.value.Some? then |r.version.value.value| else 0, 8)
      && b[25..] == r.key[p..] + if r.version.value.Some? then r.version.value.value else []
  {
    hide Le;
  }

  function Body(rows: seq<Row>, interval: nat, n: nat): seq<Byte>
    requires 0 < interval && n <= |rows|
  {
    if n == 0 then []
    else Body(rows, interval, n - 1) + EntryBytes(PrefixLen(rows, interval, n - 1), rows[n - 1])
  }

  /** Where entry `i` starts, counted from the end of the block header */
  function Off(rows: seq<Row>, interval: nat, i: nat): nat
    requires 0 < interval && i <= |rows|
  {
    |Body(rows, interval, i)|
  }

  lemma {:induction false} OffGrows(rows: seq<Row>, interval: nat, i: nat, j: nat)
    requires 0 < interval && i < j <= |rows|
    ensures Off(rows, interval, i) + ENTRY_HEADER <= Off(rows, interval, j)
    ensures Off(rows, interval, i) + |EntryBytes(PrefixLen(rows, interval, i), rows[i])| <= Off(rows, interval, j)
    decreases j - i
  {
    if i + 1 < j {
      OffGrows(rows, interval, i, j - 1);
    }
  }

  // ---- a block in memory ----

  datatype DataBlock = DataBlock(data: seq<Byte>, restartListStart: nat, numEntries: nat, interval: nat)

  /** A reference to an entry: where it starts in the data, and where the next one starts after the header */
  datatype DataEntry = DataEntry(offset: nat, next: nat)

  /** The entry header, the prefix it refers to and the suffix it announces are all there; otherwise the code panics. */
  predicate Readable(b: DataBlock, offset: nat, previous: Key) {
    var o := HEADER + offset;
    && o + ENTRY_HEADER <= b.restartListStart <= |b.data|
    && FromLe(b.data[o..o + 4]) <= |previous|
    && o + ENTRY_HEADER + FromLe(b.data[o + 4..o + 8]) <= |b.data|
  }

  /** Decode the entry at `offset`; the previous key supplies the shared prefix. */
  function GetEntryAtOffset(b: DataBlock, offset: nat, previous: Key): (Key, DataEntry)
    requires Readable(b, offset, previous)
  {
    var o := HEADER + offset;
    var prefix := FromLe(b.data[o..o + 4]);
    var suffix := FromLe(b.data[o + 4..o + 8]);
    var value := FromLe(b.data[o + 17..o + 25]);
    var start := o + ENTRY_HEADER;
    (previous[..prefix] + b.data[start..start + suffix], DataEntry(o, offset + ENTRY_HEADER + suffix + value))
  }

  predicate HasVersion(b: DataBlock, e: DataEntry) {
    && e.offset + ENTRY_HEADER <= |b.data|
    && e.offset + ENTRY_HEADER + FromLe(b.data[e.offset + 4..e.offset + 8]) +
       FromLe(b.data[e.offset + 17..e.offset + 25]) <= |b.data|
  }

  /** The version an entry reference stands for, read from the block; the code panics on another type byte */
  function VersionOf(b: DataBlock, e: DataEntry): Version
    requires HasVersion(b, e)
  {
    var suffix := FromLe(b.data[e.offset + 4..e.offset + 8]);
    var value := FromLe(b.data[e.offset + 17..e.offset + 25]);
    var start := e.offset + ENTRY_HEADER + suffix;
    Version(FromLe(b.data[e.offset + 9..e.offset + 17]),
            if b.data[e.offset + 8] == PUT_OP then Some(b.data[start..start + value]) else None)
  }

  ghost predicate EntryAt(b: DataBlock, off: nat, p: nat, r: Row) {
    && p <= |r.key| && Storable(r)
    && HEADER + off + |EntryBytes(p, r)| <= b.restartListStart <= |b.data|
    && Holds(b.data, HEADER + off, EntryBytes(p, r))
  }

  /** Where the fields of an entry header lie */
  lemma HeadFields(p: nat, r: Row)
    requires p <= |r.key|
    ensures
      var h := EntryHead(p, r);
      && h[0..4] == Le32(p) && h[4..8] == Le32(|r.key| - p) && h[8] == Kind(r.version)
      && h[9..17] == Le64(r.version.num) && h[17..25] == Le64(|Payload(r.version)|)
  {
  }

  lemma EntryParts(b: DataBlock, off: nat, p: nat, r: Row)
    requires EntryAt(b, off, p, r)
    ensures
      var o := HEADER + off;
      && b.data[o..o + 25] == EntryHead(p, r)
      && b.data[o + 25..o + 25 + |r.key| - p] == r.key[p..]
      && b.data[o + 25 + |r.key| - p..o + 25 + |r.key| - p + |Payload(r.version)|] == Payload(r.version)
  {
    hide EntryHead;
    var o := HEADER + off;
    HoldsConcat(b.data, o, EntryHead(p, r) + r.key[p..], Payload(r.version));
    HoldsConcat(b.data, o, EntryHead(p, r), r.key[p..]);
  }

  lemma EntryFields(b: DataBlock, off: nat, p: nat, r: Row)
    requires EntryAt(b, off, p, r)
    ensures
      var o := HEADER + off;
      && FromLe(b.data[o..o + 4]) == p && FromLe(b.data[o + 4..o + 8]) == |r.key| - p
      && b.data[o + 8] == Kind(r.version) && FromLe(b.data[o + 9..o + 17]) == r.version.num
      && FromLe(b.data[o + 17..o + 25]) == |Payload(r.version)|
  {
    hide EntryHead, EntryBytes, FromLe, Le32, Le64;
    var o := HEADER + off;
    EntryParts(b, off, p, r);
    HeadFields(p, r);
    var h := b.data[o..o + 25];
    SliceOfSlice(b.data, o, 25, 0, 4);
    SliceOfSlice(b.data, o, 25, 4, 8);
    SliceOfSlice(b.data, o, 25, 9, 17);
    SliceOfSlice(b.data, o, 25, 17, 25);
    assert b.data[o + 8] == h[8];
    Le32RoundTrip(p);
    Le32RoundTrip(|r.key| - p);
    Le64RoundTrip(r.version.num);
    Le64RoundTrip(|Payload(r.version)|);
  }

  /** Decoding gives back the key and the version that were encoded. */
  lemma DecodeEntry(b: DataBlock, off: nat, p: nat, r: Row, previous: Key)
    requires EntryAt(b, off, p, r) && p <= |previous| && previous[..p] == r.key[..p]
    ensures
      var e := DataEntry(HEADER + off, off + |EntryBytes(p, r)|);
      && Readable(b, off, previous) && GetEntryAtOffset(b, off, previous) == (r.key, e)
      && HasVersion(b, e) && VersionOf(b, e) == r.version
  {
    hide FromLe, EntryHead, EntryBytes;
    EntryParts(b, off, p, r);
    EntryFields(b, off, p, r);
    assert r.key == r.key[..p] + r.key[p..];
  }

  // ---- the restart list ----

  /** The absolute offsets of the entries at restart points */
  function Restarts(rows: seq<Row>, interval: nat, n: nat): seq<nat>
    requires 0 < interval && n <= |rows|
  {
    if n == 0 then []
    else Restarts(rows, interval, n - 1) +
         if (n - 1) % interval == 0 then [HEADER + Off(rows, interval, n - 1)] else []
  }

  /** How many restart points `n` entries have */
  function RestartCount(interval: nat, n: nat): nat
    requires 0 < interval
  {
    (n + interval - 1) / interval
  }

  lemma CountStep(interval: nat, n: nat)
    requires 0 < interval
    ensures RestartCount(interval, n + 1) == RestartCount(interval, n) + if n % interval == 0 then 1 else 0
    ensures n % interval == 0 ==> RestartCount(interval, n) * interval == n
  {
    var q, m := n / interval, n % interval;
    assert n == q * interval + m;
    if m == 0 {
      DivIs(n + interval - 1, interval, q, interval - 1);
      DivIs(n + interval, interval, q + 1, 0);
    } else {
      DivIs(n + interval - 1, interval, q + 1, m - 1);
      DivIs(n + interval, interval, q + 1, m);
    }
  }

  lemma {:induction false} RestartsAre(rows: seq<Row>, interval: nat, n: nat)
    requires 0 < interval && n <= |rows|
    ensures |Restarts(rows, interval, n)| == RestartCount(interval, n)
    ensures forall m :: 0 <= m < RestartCount(interval, n) ==>
              0 <= m * interval < n && Restarts(rows, interval, n)[m] == HEADER + Off(rows, interval, m * interval)
  {
    hide Body;
    if n == 0 {
      DivIs(interval - 1, interval, 0, interval - 1);
    } else {
      RestartsAre(rows, interval, n - 1);
      CountStep(interval, n - 1);
    }
  }

  function RestartBytes(restarts: seq<nat>): (b: seq<Byte>)
    ensures |b| == 4 * |restarts|
  {
    if restarts == [] then []
    else RestartBytes(restarts[..|restarts| - 1]) + Le32(restarts[|restarts| - 1])
  }

  lemma {:induction false} RestartAt(restarts: seq<nat>, m: nat)
    requires m < |restarts|
    ensures Holds(RestartBytes(restarts), 4 * m, Le32(restarts[m]))
  {
    hide Le32;
    var n := |restarts| - 1;
    var init := RestartBytes(restarts[..n]);
    if m == n {
      HoldsMiddle(init, Le32(restarts[n]), []);
      assert init + Le32(restarts[n]) + [] == RestartBytes(restarts);
    } else {
      RestartAt(restarts[..n], m);
      HoldsMiddle([], init, Le32(restarts[n]));
      assert [] + init + Le32(restarts[n]) == RestartBytes(restarts);
      HoldsThrough(RestartBytes(restarts), 0, init, 4 * m, Le32(restarts[m]));
    }
  }

  // ---- a finished block ----

  /** The block the builder produces for `rows`; the bytes of the bloom filter are opaque */
  function Encode(rows: seq<Row>, interval: nat, bloom: seq<Byte>): DataBlock
    requires 0 < interval && |bloom| == BLOOM
  {
    var n := |rows|;
    var start := HEADER + Off(rows, interval, n);
    DataBlock(Le32(start) + Le32(n) + bloom + Body(rows, interval, n) + RestartBytes(Restarts(rows, interval, n)),
              start, n, interval)
  }

  /** Sizes that fit the fields of a block */
  predicate Fits(rows: seq<Row>, interval: nat) {
    && 0 < interval && |rows| < U32 && HEADER + Off(rows, interval, |rows|) < U32
    && forall i :: 0 <= i < |rows| ==> Storable(rows[i])
  }

  /** Read a block's header back from its bytes, as when it is loaded from disk. */
  function NewFromData(data: seq<Byte>, interval: nat): DataBlock
    requires HEADER <= |data|
  {
    DataBlock(data, FromLe(data[0..4]), FromLe(data[4..8]), interval)
  }

  lemma LoadedBlock(rows: seq<Row>, interval: nat, bloom: seq<Byte>)
    requires Fits(rows, interval) && |bloom| == BLOOM
    ensures HEADER <= |Encode(rows, interval, bloom).data|
    ensures NewFromData(Encode(rows, interval, bloom).data, interval) == Encode(rows, interval, bloom)
  {
    hide Le32, Body, Restarts, RestartBytes, FromLe;
    var b := Encode(rows, interval, bloom);
    var rest := bloom + Body(rows, interval, |rows|) + RestartBytes(Restarts(rows, interval, |rows|));
    assert b.data == Le32(b.restartListStart) + Le32(b.numEntries) + rest;
    assert b.data[0..4] == Le32(b.restartListStart) && b.data[4..8] == Le32(b.numEntries);
    Le32RoundTrip(b.restartListStart);
    Le32RoundTrip(b.numEntries);
  }

  /** The bytes of a block: where the restart list begins and how many entries there are, the bloom filter, which makes
      the header 1077 bytes long, the entries, and the restart list */
  lemma BlockLayout(rows: seq<Row>, interval: nat, bloom: seq<Byte>)
    requires 0 < interval && |bloom| == 1069
    ensures
      var b, body := Encode(rows, interval, bloom), Body(rows, interval, |rows|);
      && b.data[0..4] == Le(1077 + |body|, 4) && b.data[4..8] == Le(|rows|, 4) && b.data[8..1077] == bloom
      && b.data[1077..1077 + |body|] == body
      && b.data[1077 + |body|..] == RestartBytes(Restarts(rows, interval, |rows|))
      && b.restartListStart == 1077 + |body| && b.numEntries == |rows| && b.interval == interval
  {
    hide Le, Body, Restarts, RestartBytes;
  }

  /** What the read operations rely on: entries and restart offsets are where they should be. */
  ghost predicate Represents(b: DataBlock, rows: seq<Row>) {
    && Fits(rows, b.interval) && b.numEntries == |rows| > 0
    && b.restartListStart == HEADER + Off(rows, b.interval, |rows|)
    && |b.data| == b.restartListStart + 4 * RestartCount(b.interval, |rows|)
    && (forall i :: 0 <= i < |rows| ==> EntryAt(b, Off(rows, b.interval, i), PrefixLen(rows, b.interval, i), rows[i]))
    && (forall m :: 0 <= m < RestartCount(b.interval, |rows|) ==> RestartHeld(b, rows, m))
  }

  /** The restart list has the offset of entry `m * interval` at place `m`. */
  ghost predicate RestartHeld(b: DataBlock, rows: seq<Row>, m: nat) {
    && 0 < b.interval && 0 <= m * b.interval < |rows|
    && b.restartListStart + 4 * m + 4 <= |b.data|
    && FromLe(b.data[b.restartListStart + 4 * m..b.restartListStart + 4 * m + 4]) ==
       HEADER + Off(rows, b.interval, m * b.interval)
  }

  lemma {:induction false} BodyHolds(rows: seq<Row>, interval: nat, i: nat, n: nat)
    requires 0 < interval && i < n <= |rows|
    ensures Holds(Body(rows, interval, n), Off(rows, interval, i), EntryBytes(PrefixLen(rows, interval, i), rows[i]))
    decreases n
  {
    hide EntryBytes, PrefixLen;
    var e := EntryBytes(PrefixLen(rows, interval, i), rows[i]);
    var init := Body(rows, interval, n - 1);
    var last := EntryBytes(PrefixLen(rows, interval, n - 1), rows[n - 1]);
    assert Body(rows, interval, n) == init + last;
    hide Body;
    if i == n - 1 {
      HoldsMiddle(init, last, []);
      assert init + last + [] == init + last;
    } else {
      BodyHolds(rows, interval, i, n - 1);
      HoldsMiddle([], init, last);
      assert [] + init + last == init + last;
      HoldsThrough(init + last, 0, init, Off(rows, interval, i), e);
    }
  }

  lemma EncodeHolds(rows: seq<Row>, interval: nat, bloom: seq<Byte>)
    requires 0 < interval && |bloom| == BLOOM
    ensures
      var b := Encode(rows, interval, bloom);
      && Holds(b.data, HEADER, Body(rows, interval, |rows|))
      && Holds(b.data, b.restartListStart, RestartBytes(Restarts(rows, interval, |rows|)))
      && |b.data| == b.restartListStart + |RestartBytes(Restarts(rows, interval, |rows|))|
  {
    hide Body, Restarts, RestartBytes, Le32;
    var b := Encode(rows, interval, bloom);
    var head := Le32(b.restartListStart) + Le32(b.numEntries) + bloom;
    var body, list := Body(rows, interval, |rows|), RestartBytes(Restarts(rows, interval, |rows|));
    assert b.data == head + body + list;
    HoldsMiddle(head, body, list);
    assert b.data == (head + body) + list + [];
    HoldsMiddle(head + body, list, []);
  }

  lemma EncodeRestart(rows: seq<Row>, interval: nat, bloom: seq<Byte>, m: nat)
    requires Fits(rows, interval) && |bloom| == BLOOM && m < RestartCount(interval, |rows|)
    ensures RestartHeld(Encode(rows, interval, bloom), rows, m)
  {
    hide Body, Restarts, RestartBytes, Le32, FromLe;
    var b := Encode(rows, interval, bloom);
    var restarts := Restarts(rows, interval, |rows|);
    RestartsAre(rows, interval, |rows|);
    EncodeHolds(rows, interval, bloom);
    RestartAt(restarts, m);
    HoldsThrough(b.data, b.restartListStart, RestartBytes(restarts), 4 * m, Le32(restarts[m]));
    OffGrows(rows, interval, m * interval, |rows|);
    Le32RoundTrip(restarts[m]);
  }

  /** A finished block represents its rows. */
  lemma EncodeRepresents(rows: seq<Row>, interval: nat, bloom: seq<Byte>)
    requires Fits(rows, interval) && |bloom| == BLOOM && rows != []
    ensures Represents(Encode(rows, interval, bloom), rows)
  {
    hide Body, Restarts, RestartBytes, Le32, FromLe, EntryBytes, PrefixLen;
    var b := Encode(rows, interval, bloom);
    RestartsAre(rows, interval, |rows|);
    EncodeHolds(rows, interval, bloom);
    forall i | 0 <= i < |rows| ensures EntryAt(b, Off(rows, interval, i), PrefixLen(rows, interval, i), rows[i]) {
      BodyHolds(rows, interval, i, |rows|);
      OffGrows(rows, interval, i, |rows|);
      HoldsThrough(b.data, HEADER, Body(rows, interval, |rows|), Off(rows, interval, i),
                   EntryBytes(PrefixLen(rows, interval, i), rows[i]));
    }
    forall m | 0 <= m < RestartCount(interval, |rows|) ensures RestartHeld(b, rows, m) {
      EncodeRestart(rows, interval, bloom, m);
    }
  }
}
