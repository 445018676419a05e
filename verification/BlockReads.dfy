/** Reading data blocks: by index, and by key with a binary search over the restart points. */
module BlockReads {
  import opened Keys
  import opened Versions
  import opened Merge
  import opened Codec
  import opened Blocks

  /** The reference to entry `i` */
  ghost function EntryRef(b: DataBlock, rows: seq<Row>, i: nat): DataEntry
    requires 0 < b.interval && i < |rows|
  {
    DataEntry(HEADER + Off(rows, b.interval, i), Off(rows, b.interval, i + 1))
  }

  /** An entry decodes from the key before it, and at a restart point from nothing. */
  lemma ReadEntry(b: DataBlock, rows: seq<Row>, i: nat, previous: Key)
    requires Represents(b, rows) && i < |rows|
    requires i % b.interval == 0 || (i > 0 && previous == rows[i - 1].key)
    ensures Readable(b, Off(rows, b.interval, i), previous)
    ensures GetEntryAtOffset(b, Off(rows, b.interval, i), previous) == (rows[i].key, EntryRef(b, rows, i))
    ensures HasVersion(b, EntryRef(b, rows, i)) && VersionOf(b, EntryRef(b, rows, i)) == rows[i].version
  {
    hide EntryBytes, GetEntryAtOffset, VersionOf, Readable, HasVersion, Storable, PrefixLen, EntryAt, RestartHeld,
      Fits, Body;
    assert 0 < b.interval by { FitsInterval(rows, b.interval); }
    var p := PrefixLen(rows, b.interval, i);
    DecodeEntry(b, Off(rows, b.interval, i), p, rows[i], previous);
    NextOff(rows, b.interval, i);
  }

  lemma FitsInterval(rows: seq<Row>, interval: nat)
    requires Fits(rows, interval)
    ensures 0 < interval
  {
  }

  lemma NextOff(rows: seq<Row>, interval: nat, i: nat)
    requires 0 < interval && i < |rows|
    ensures Off(rows, interval, i + 1) == Off(rows, interval, i) + |EntryBytes(PrefixLen(rows, interval, i), rows[i])|
  {
  }

  /** Length of the entries in bytes */
  function ByteLen(b: DataBlock): int {
    |b.data| - HEADER - (|b.data| - b.restartListStart)
  }

  function RestartListLen(b: DataBlock): int {
    (|b.data| - b.restartListStart) / 4
  }

  function GetRestartOffset(b: DataBlock, pos: nat): int
    requires b.restartListStart + 4 * pos + 4 <= |b.data|
  {
    FromLe(b.data[b.restartListStart + 4 * pos..b.restartListStart + 4 * pos + 4]) - HEADER
  }

  /** A restart offset leads to its entry. */
  lemma RestartOffset(b: DataBlock, rows: seq<Row>, m: nat)
    requires Represents(b, rows) && m < RestartCount(b.interval, |rows|)
    ensures 0 <= m * b.interval < |rows| && b.restartListStart + 4 * m + 4 <= |b.data|
    ensures GetRestartOffset(b, m) == Off(rows, b.interval, m * b.interval)
    ensures (m * b.interval) % b.interval == 0
  {
    hide FromLe, Body;
    assert RestartHeld(b, rows, m);
    DivIs(m * b.interval, b.interval, m, 0);
  }

  lemma RestartFacts(b: DataBlock, rows: seq<Row>)
    requires Represents(b, rows)
    ensures ByteLen(b) == Off(rows, b.interval, |rows|)
    ensures RestartListLen(b) == RestartCount(b.interval, |rows|) > 0
  {
    hide Body, EntryAt, RestartHeld;
    CountPositive(b.interval, |rows|);
  }

  lemma CountPositive(interval: nat, n: nat)
    requires 0 < interval && 0 < n
    ensures 0 < RestartCount(interval, n)
  {
    var x := n + interval - 1;
    assert x == (x / interval) * interval + x % interval;
  }

  /** Decode the entry with the given index, from the nearest restart point on. */
  method GetEntryAtIndex(b: DataBlock, index: nat, ghost rows: seq<Row>) returns (key: Key, entry: DataEntry)
    requires Represents(b, rows) && index < |rows|
    ensures key == rows[index].key && entry == EntryRef(b, rows, index)
  {
    hide GetEntryAtOffset, Readable, HasVersion, VersionOf, Body, EntryAt, Storable;
    var restart := index / b.interval;
    RestartOf(b.interval, |rows|, index);
    assert RestartHeld(b, rows, restart);
    var current := restart * b.interval;
    var offset := GetRestartOffset(b, restart);
    hide Represents, RestartHeld;
    ReadEntry(b, rows, current, []);
    var first := GetEntryAtOffset(b, offset, []);
    key, entry := first.0, first.1;
    while current < index
      invariant current <= index && key == rows[current].key && entry == EntryRef(b, rows, current)
    {
      current := current + 1;
      ReadEntry(b, rows, current, key);
      var next := GetEntryAtOffset(b, entry.next, key);
      key, entry := next.0, next.1;
    }
  }

  /** Every index has a restart point at or before it. */
  lemma RestartOf(interval: nat, n: nat, index: nat)
    requires 0 < interval && index < n
    ensures 0 <= index / interval < RestartCount(interval, n)
    ensures (index / interval) * interval <= index < (index / interval) * interval + interval
    ensures ((index / interval) * interval) % interval == 0
  {
    var q := index / interval;
    assert index == q * interval + index % interval;
    DivIs(q * interval, interval, q, 0);
    var x := n + interval - 1;
    var d := x / interval;
    assert x == d * interval + x % interval;
    if d <= q {
      MulMono(d, q, interval);
    }
  }

  lemma MulMono(a: int, b: int, d: int)
    requires a <= b && 0 <= d
    ensures a * d <= b * d
  {
    assert b * d == a * d + (b - a) * d;
  }

  datatype SearchResult = ExactMatch(entry: DataEntry) | Range(start: nat, end: nat)

  /** The entries a search range leaves: from restart point `start` up to the entry that begins at offset `end` */
  ghost predicate Covers(b: DataBlock, rows: seq<Row>, key: Key, start: nat, end: nat, last: nat) {
    && 0 < b.interval && last <= |rows| && end == Off(rows, b.interval, last)
    && 0 <= start * b.interval < |rows| && start < RestartCount(b.interval, |rows|)
    && (forall i :: 0 <= i < |rows| && rows[i].key == key ==> start * b.interval <= i < last)
  }

  /** From restart point `start` to entry `last` there are at most two intervals. */
  ghost predicate Narrow(interval: nat, start: nat, last: nat) {
    last <= (start + 2) * interval
  }

  /** Binary search over the restart points, down to at most two intervals between them */
  method BinarySearch(b: DataBlock, key: Key, ghost rows: seq<Row>) returns (res: SearchResult, ghost last: nat)
    requires Represents(b, rows) && Sorted(rows)
    ensures res.ExactMatch? ==> exists i :: 0 <= i < |rows| && rows[i].key == key && res.entry == EntryRef(b, rows, i)
    ensures res.Range? ==> Covers(b, rows, key, res.start, res.end, last) && Narrow(b.interval, res.start, last)
  {
    RestartFacts(b, rows);
    FitsInterval(rows, b.interval);
    hide GetEntryAtOffset, Readable, HasVersion, VersionOf, Body, Sorted, Represents, GetRestartOffset, ByteLen,
         RestartListLen, RestartCount, Covers, Narrow;
    last := 0;
    var len := RestartListLen(b);
    var start, end := 0, len - 1;
    while end - start > 1
      invariant 0 <= start <= end < len
      invariant start > 0 ==> 0 <= start * b.interval < |rows| && Less(rows[start * b.interval].key, key)
      invariant end < len - 1 ==> 0 <= end * b.interval < |rows| && Less(key, rows[end * b.interval].key)
    {
      var mid := start + (end - start) / 2;
      RestartOffset(b, rows, mid);
      ReadEntry(b, rows, mid * b.interval, []);
      var (thisKey, entry) := GetEntryAtOffset(b, GetRestartOffset(b, mid), []);
      if thisKey == key {
        return ExactMatch(entry), 0;
      }
      LessTotal(thisKey, key);
      if Less(thisKey, key) {
        start := mid;
      } else {
        end := mid;
      }
    }
    RestartOffset(b, rows, start);
    RestartOffset(b, rows, end);
    last := if end + 1 == len then |rows| else end * b.interval;
    var endOffset := if end + 1 == len then ByteLen(b) else GetRestartOffset(b, end);
    RangeCovers(b, rows, key, start, last);
    RangeNarrow(b.interval, |rows|, start, end, last);
    return Range(start, endOffset), last;
  }

  lemma RangeNarrow(interval: nat, n: nat, start: nat, end: nat, last: nat)
    requires 0 < interval && start <= end <= start + 1 && end < RestartCount(interval, n)
    requires last == if end + 1 == RestartCount(interval, n) then n else end * interval
    ensures Narrow(interval, start, last)
  {
    var x := n + interval - 1;
    assert x == (x / interval) * interval + x % interval;
    MulMono(end, end + 1, interval);
    MulMono(end + 1, start + 2, interval);
  }

  lemma RangeCovers(b: DataBlock, rows: seq<Row>, key: Key, start: nat, last: nat)
    requires Sorted(rows) && 0 < b.interval && 0 <= start * b.interval < |rows|
    requires start < RestartCount(b.interval, |rows|) && last <= |rows|
    requires start > 0 ==> Less(rows[start * b.interval].key, key)
    requires last < |rows| ==> Less(key, rows[last].key)
    ensures Covers(b, rows, key, start, Off(rows, b.interval, last), last)
  {
    hide Body, FromLe;
    KeyBetween(rows, key, start * b.interval, last);
  }

  lemma KeyBetween(rows: seq<Row>, key: Key, first: nat, last: nat)
    requires Sorted(rows) && first < |rows| && last <= |rows|
    requires first > 0 ==> Less(rows[first].key, key)
    requires last < |rows| ==> Less(key, rows[last].key)
    ensures forall i :: 0 <= i < |rows| && rows[i].key == key ==> first <= i < last
  {
    forall i | 0 <= i < |rows| && rows[i].key == key ensures first <= i < last {
      if i < first { LessAsymmetric(rows[i].key, rows[first].key); }
      if last < i { LessAsymmetric(rows[last].key, rows[i].key); }
      LessAsymmetric(key, key);
    }
  }

  /** Find a key: the filter may rule it out, otherwise binary search and then scan.
      `maybe` is the filter's answer; it has no false negatives. */
  method GetByKey(b: DataBlock, key: Key, maybe: bool, ghost rows: seq<Row>) returns (res: Option<DataEntry>)
    requires Represents(b, rows) && Sorted(rows)
    requires (exists i :: 0 <= i < |rows| && rows[i].key == key) ==> maybe
    ensures res.None? ==> forall i :: 0 <= i < |rows| ==> rows[i].key != key
    ensures res.Some? ==> exists i :: 0 <= i < |rows| && rows[i].key == key && res.value == EntryRef(b, rows, i)
  {
    hide GetEntryAtOffset, Readable, HasVersion, VersionOf, Body, Sorted, Represents, GetRestartOffset;
    if !maybe {
      return None;
    }
    var search, last := BinarySearch(b, key, rows);
    if search.ExactMatch? {
      return Some(search.entry);
    }
    var start, end := search.start, search.end;
    RestartOffset(b, rows, start);
    var pos := GetRestartOffset(b, start);
    ghost var i := start * b.interval;
    var lastKey: Key := [];
    while pos < end
      invariant 0 <= i <= |rows| && pos == Off(rows, b.interval, i)
      invariant i == start * b.interval || (i > 0 && lastKey == rows[i - 1].key)
      invariant forall j :: start * b.interval <= j < i ==> rows[j].key != key
      decreases |rows| - i
    {
      OffOrder(rows, b.interval, i, last);
      ReadEntry(b, rows, i, lastKey);
      var (thisKey, entry) := GetEntryAtOffset(b, pos, lastKey);
      if key == thisKey {
        return Some(entry);
      }
      pos := entry.next;
      lastKey := thisKey;
      i := i + 1;
    }
    OffOrder(rows, b.interval, i, last);
    return None;
  }

  /** Offsets order entries as indices do. */
  lemma OffOrder(rows: seq<Row>, interval: nat, i: nat, j: nat)
    requires 0 < interval && i <= |rows| && j <= |rows|
    ensures Off(rows, interval, i) < Off(rows, interval, j) <==> i < j
  {
    if i < j { OffGrows(rows, interval, i, j); }
    if j < i { OffGrows(rows, interval, j, i); }
  }
}
