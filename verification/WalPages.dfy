/** The write-ahead log on disk: a byte stream cut into page files, its writer and its reader. */
module WalPages {
  import opened Keys
  import opened Codec

  const PAGE_SIZE: nat := 4096

  /** The part of the log that page file `p` holds */
  function PageBytes(log: seq<Byte>, p: nat): seq<Byte>
    requires p * PAGE_SIZE <= |log|
  {
    log[p * PAGE_SIZE..if (p + 1) * PAGE_SIZE <= |log| then (p + 1) * PAGE_SIZE else |log|]
  }

  /** The page files are exactly those from `first` to the one being written, and together they hold the log. */
  ghost predicate Paged(files: map<nat, seq<Byte>>, log: seq<Byte>, first: nat) {
    && first <= |log| / PAGE_SIZE
    && (forall p: nat :: p in files <==> first <= p <= |log| / PAGE_SIZE)
    && (forall p: nat :: first <= p <= |log| / PAGE_SIZE ==> files[p] == PageBytes(log, p))
  }

  /** A page file holds 4096 bytes of the log: every byte from the first page file on is where its position says. */
  lemma ByteInPage(files: map<nat, seq<Byte>>, log: seq<Byte>, first: nat, x: nat)
    requires Paged(files, log, first) && 4096 * first <= x < |log|
    ensures x / 4096 in files && x % 4096 < |files[x / 4096]| <= 4096 && files[x / 4096][x % 4096] == log[x]
  {
    var p: nat := x / PAGE_SIZE;
    assert files[p] == PageBytes(log, p);
  }

  /** Write at an offset of a file. */
  function WriteAt(page: seq<Byte>, offset: nat, chunk: seq<Byte>): seq<Byte>
    requires offset <= |page|
  {
    page[..offset] + chunk + if offset + |chunk| <= |page| then page[offset + |chunk|..] else []
  }

  /** The file being written ends where the log ends. */
  lemma LastPage(log: seq<Byte>)
    ensures |PageBytes(log, |log| / PAGE_SIZE)| == |log| % PAGE_SIZE
  {
  }

  /** A chunk that fits the current page extends it, and filling the page starts the next one. */
  lemma AppendChunk(files: map<nat, seq<Byte>>, log: seq<Byte>, first: nat, chunk: seq<Byte>)
    requires Paged(files, log, first) && 0 < |chunk| <= PAGE_SIZE - |log| % PAGE_SIZE
    ensures
      var p: nat := |log| / PAGE_SIZE;
      var files' := files[p := WriteAt(files[p], |log| % PAGE_SIZE, chunk)];
      Paged(if |log| % PAGE_SIZE + |chunk| == PAGE_SIZE then files'[p + 1 := []] else files', log + chunk, first)
  {
    var p: nat := |log| / PAGE_SIZE;
    var log' := log + chunk;
    LastPage(log);
    assert files[p] == log[p * PAGE_SIZE..];
    assert PageBytes(log', p) == log[p * PAGE_SIZE..] + chunk;
    forall q: nat | first <= q < p ensures PageBytes(log', q) == PageBytes(log, q) {
      assert (q + 1) * PAGE_SIZE <= p * PAGE_SIZE;
    }
  }

  /** Removing the first page files drops a prefix of the log from disk. */
  lemma DropFirst(files: map<nat, seq<Byte>>, log: seq<Byte>, first: nat)
    requires Paged(files, log, first) && first < |log| / PAGE_SIZE
    ensures first in files && Paged(files - {first}, log, first + 1)
  {
  }

  /** A reopened file that is not positioned at its end: writing to it appends exactly if the log ends on a page
      boundary, where a new file is begun. */
  lemma UnseekedWrite(log: seq<Byte>, chunk: seq<Byte>)
    requires 0 < |chunk|
    ensures
      var page := PageBytes(log, |log| / PAGE_SIZE);
      && |page| == |log| % PAGE_SIZE
      && (WriteAt(page, 0, chunk) == WriteAt(page, |page|, chunk) <==> |log| % PAGE_SIZE == 0)
  {
    LastPage(log);
    var page := PageBytes(log, |log| / PAGE_SIZE);
    if page != [] {
      assert |WriteAt(page, 0, chunk)| < |page| + |chunk| == |WriteAt(page, |page|, chunk)|;
    }
  }

  class WalWriter {
    var files: map<nat, seq<Byte>>
    var position: nat
    ghost var log: seq<Byte>
    ghost var first: nat

    ghost predicate Valid()
      reads this
    {
      position == |log| && Paged(files, log, first)
    }

    /** A new and empty log */
    constructor ()
      ensures Valid() && log == [] && first == 0
    {
      files, position, log, first := map[0 := []], 0, [], 0;
    }

    /** Continue a log that ends at `position`. */
    constructor ContinueFrom(files: map<nat, seq<Byte>>, position: nat, ghost log: seq<Byte>, ghost first: nat)
      requires Paged(files, log, first) && position == |log|
      ensures Valid() && this.log == log && this.first == first
    {
      LastPage(log);
      this.files := if position % PAGE_SIZE == 0 then files[position / PAGE_SIZE := []] else files;
      this.position, this.log, this.first := position, log, first;
    }

    /** Append to the log, continuing in a new file whenever a page is full. */
    method WriteAll(data: seq<Byte>)
      requires Valid()
      modifies this
      ensures Valid() && log == old(log) + data && first == old(first)
    {
      hide Paged, WriteAt;
      var bufPos := 0;
      assert data[..0] == [] && log == log + [];
      while bufPos < |data|
        invariant bufPos <= |data| && first == old(first)
        invariant Valid() && log == old(log) + data[..bufPos]
      {
        var fileOffset := position % PAGE_SIZE;
        var writeLen := if |data| - bufPos <= PAGE_SIZE - fileOffset then |data| - bufPos else PAGE_SIZE - fileOffset;
        var chunk := data[bufPos..bufPos + writeLen];
        PageThere(files, log, first);
        AppendChunk(files, log, first, chunk);
        var page := position / PAGE_SIZE;
        var files' := files[page := WriteAt(files[page], fileOffset, chunk)];
        assert data[..bufPos] + chunk == data[..bufPos + writeLen];
        bufPos := bufPos + writeLen;
        position := position + writeLen;
        if fileOffset + writeLen == PAGE_SIZE {
          files' := files'[position / PAGE_SIZE := []];
        }
        files, log := files', log + chunk;
      }
      assert data[..bufPos] == data;
    }

    /** Remove the page files that lie wholly before `newOffset`; false if one of them is missing. */
    method SetOffset(newOffset: nat, oldOffset: nat) returns (ok: bool)
      requires Valid() && first == oldOffset / PAGE_SIZE && oldOffset <= newOffset <= position
      modifies this
      ensures ok && Valid() && log == old(log) && first == newOffset / PAGE_SIZE
    {
      hide Paged;
      var fpos := oldOffset / PAGE_SIZE;
      while fpos < newOffset / PAGE_SIZE
        invariant fpos == first <= newOffset / PAGE_SIZE && Valid() && log == old(log) && position == old(position)
      {
        DropFirst(files, log, first);
        if fpos !in files {
          return false;
        }
        files, first := files - {fpos}, first + 1;
        fpos := fpos + 1;
      }
      return true;
    }
  }

  lemma PageThere(files: map<nat, seq<Byte>>, log: seq<Byte>, first: nat)
    requires Paged(files, log, first)
    ensures |log| / PAGE_SIZE in files && files[|log| / PAGE_SIZE] == PageBytes(log, |log| / PAGE_SIZE)
    ensures |files[|log| / PAGE_SIZE]| == |log| % PAGE_SIZE
  {
    LastPage(log);
  }

  // ---- reading ----

  function PageOf(pos: nat): nat {
    pos / PAGE_SIZE
  }

  function PageOffset(pos: nat): (r: nat)
    ensures r < PAGE_SIZE
  {
    pos % PAGE_SIZE
  }

  /** How a read ends: with all bytes, at the end of the log with the rest of the buffer still zero,
      with a failed assertion, in a loop that never ends, or with an I/O error */
  datatype ReadResult = Full(bytes: seq<Byte>) | Short(bytes: seq<Byte>) | Panic | Endless | Failed

  /** What reading `n` bytes at `pos` gives, in terms of the log */
  function ReadOf(log: seq<Byte>, pos: nat, n: nat): ReadResult
    requires pos <= |log|
  {
    if n == 0 then Panic
    else if pos + n <= |log| then Full(log[pos..pos + n])
    else if PageOffset(|log|) == 0 then Endless
    else Short(log[pos..] + Zeros(pos + n - |log|))
  }

  function After(log: seq<Byte>, pos: nat, n: nat): nat {
    if pos + n <= |log| then pos + n else |log|
  }

  class WalReader {
    const files: map<nat, seq<Byte>>
    var position: nat
    var currentPage: seq<Byte>
    ghost const log: seq<Byte>
    ghost const first: nat

    ghost predicate Valid()
      reads this
    {
      && Paged(files, log, first) && first <= PageOf(position) && position <= |log|
      && currentPage == files[PageOf(position)]
    }

    constructor (files: map<nat, seq<Byte>>, start: nat, ghost log: seq<Byte>, ghost first: nat)
      requires Paged(files, log, first) && first <= PageOf(start) && start <= |log|
      ensures Valid() && position == start && this.log == log && this.files == files
    {
      this.files, this.log, this.first := files, log, first;
      position := start;
      currentPage := files[PageOf(start)];
    }

    /** Copy the next `len` bytes of the current page into the buffer. */
    method CopyPart(out: seq<Byte>, bufferPos: nat, len: nat, ghost start: nat, ghost n: nat) returns (out': seq<Byte>)
      requires Valid() && Filled(log, start, position, out, n) && position == start + bufferPos
      requires bufferPos + len <= n && PageOffset(position) + len <= |currentPage| <= PAGE_SIZE
      modifies this`position
      ensures position == old(position) + len <= |log| && Filled(log, start, position, out', n)
      ensures PageOf(position) >= first && (PageOffset(position) == 0 || PageOf(position) == PageOf(old(position)))
    {
      hide Paged, Filled, PageOf, PageOffset;
      var offset := PageOffset(position);
      SamePage(position, len);
      PageIsThere(files, log, first, position);
      PagePart(files, log, first, position, len);
      CopyIn(log, start, position, currentPage[offset..offset + len], out, n);
      out' := out[..bufferPos] + currentPage[offset..offset + len] + out[bufferPos + len..];
      position := position + len;
    }

    /** Read the next `n` bytes. A missing page file is the end of the log if `maybe`, otherwise an error. */
    method ReadFromLog(n: nat, maybe: bool) returns (r: ReadResult)
      requires Valid()
      modifies this
      ensures Valid() && r == ReadOf(log, old(position), n)
      ensures r.Full? || r.Short? ==> position == After(log, old(position), n)
    {
      if n == 0 {
        return Panic;
      }
      hide Paged, Filled, PageOf, PageOffset, ReadOf;
      var out := Zeros(n);
      var bufferPos := 0;
      ghost var start := position;
      FilledFirst(log, start, n);
      while bufferPos < n
        invariant bufferPos <= n && Valid() && position == start + bufferPos
        invariant Filled(log, start, position, out, n)
        decreases n - bufferPos
      {
        PageLeft(files, log, first, position);
        var offset := PageOffset(position);
        if |currentPage| < offset {
          return Panic;
        }
        var fileRemaining := |currentPage| - offset;
        var len := if n - bufferPos <= fileRemaining then n - bufferPos else fileRemaining;
        if len > 0 {
          out := CopyPart(out, bufferPos, len, start, n);
          bufferPos := bufferPos + len;
        } else if PageOffset(position) != 0 {
          if |currentPage| >= PAGE_SIZE {
            return Panic;
          }
          FilledLast(log, start, position, out, n);
          return Short(out);
        } else {
          FilledLast(log, start, position, out, n);
        }
        if PageOffset(position) == 0 {
          var fpos := PageOf(position);
          PageIsThere(files, log, first, position);
          if fpos !in files {
            if maybe {
              return Short(out);
            }
            return Failed;
          }
          // An empty page read again leaves everything as it was: the loop cannot end.
          if len == 0 && files[fpos] == currentPage {
            return Endless;
          }
          currentPage := files[fpos];
        }
      }
      FilledLast(log, start, position, out, n);
      return Full(out);
    }
  }

  lemma PageIsThere(files: map<nat, seq<Byte>>, log: seq<Byte>, first: nat, pos: nat)
    requires Paged(files, log, first) && first <= PageOf(pos) && pos <= |log|
    ensures PageOf(pos) in files
  {
  }

  /** The buffer has the bytes of the log from `start` to `pos`, and is zero after that. */
  ghost predicate Filled(log: seq<Byte>, start: nat, pos: nat, out: seq<Byte>, n: nat) {
    && start <= pos <= |log| && pos - start <= n
    && out == log[start..pos] + Zeros(n - (pos - start))
  }

  lemma FilledFirst(log: seq<Byte>, start: nat, n: nat)
    requires start <= |log|
    ensures Filled(log, start, start, Zeros(n), n)
  {
  }

  /** What the buffer holds when reading stops is what the read should give. */
  lemma FilledLast(log: seq<Byte>, start: nat, pos: nat, out: seq<Byte>, n: nat)
    requires Filled(log, start, pos, out, n) && n > 0
    ensures pos == start + n ==> ReadOf(log, start, n) == Full(out)
    ensures pos == |log| < start + n ==> ReadOf(log, start, n) == if PageOffset(|log|) == 0 then Endless else Short(out)
  {
    if pos == start + n {
      assert Zeros(0) == [];
      assert out == log[start..start + n];
    } else if pos == |log| {
      assert log[start..pos] == log[start..];
    }
  }

  lemma PageLeft(files: map<nat, seq<Byte>>, log: seq<Byte>, first: nat, pos: nat)
    requires Paged(files, log, first) && first <= PageOf(pos) && pos <= |log|
    ensures PageOf(pos) in files && PageOffset(pos) <= |files[PageOf(pos)]| <= PAGE_SIZE
    ensures |files[PageOf(pos)]| == PageOffset(pos) ==> pos == |log|
  {
    hide Paged, PageOf, PageOffset;
    PageRest(files, log, first, pos);
  }

  /** Reading to the end of a page or less stays on it, or reaches the next one. */
  lemma SamePage(pos: nat, len: nat)
    requires PageOffset(pos) + len <= PAGE_SIZE
    ensures PageOf(pos) <= PageOf(pos + len)
    ensures PageOffset(pos + len) == 0 || PageOf(pos + len) == PageOf(pos)
  {
  }

  /** Copying the next bytes into the buffer moves the border between log and zeros. */
  lemma CopyIn(log: seq<Byte>, start: nat, pos: nat, piece: seq<Byte>, out: seq<Byte>, n: nat)
    requires Filled(log, start, pos, out, n) && pos - start + |piece| <= n
    requires pos + |piece| <= |log| && piece == log[pos..pos + |piece|]
    ensures |out| == n
    ensures Filled(log, start, pos + |piece|, out[..pos - start] + piece + out[pos - start + |piece|..], n)
  {
  }

  lemma PagePart(files: map<nat, seq<Byte>>, log: seq<Byte>, first: nat, pos: nat, len: nat)
    requires Paged(files, log, first) && first <= PageOf(pos) && pos <= |log| && PageOf(pos) in files
    requires PageOffset(pos) + len <= |files[PageOf(pos)]|
    ensures pos + len <= |log|
    ensures files[PageOf(pos)][PageOffset(pos)..PageOffset(pos) + len] == log[pos..pos + len]
  {
    hide Paged, PageOf, PageOffset;
    PageRest(files, log, first, pos);
    var page, off := files[PageOf(pos)], PageOffset(pos);
    assert page[off..] == page[off..off + (|page| - off)];
    SliceOfSlice(page, off, |page| - off, 0, len);
    SliceOfSlice(log, pos, |page| - off, 0, len);
  }

  /** What is left of the current page is the log's next bytes; nothing is left only at the end of the log. */
  lemma PageRest(files: map<nat, seq<Byte>>, log: seq<Byte>, first: nat, pos: nat)
    requires Paged(files, log, first) && first <= PageOf(pos) && pos <= |log|
    ensures
      var p: nat, off: nat := PageOf(pos), PageOffset(pos);
      && p in files && off <= |files[p]| <= PAGE_SIZE
      && pos + |files[p]| - off <= |log| && files[p][off..] == log[pos..pos + |files[p]| - off]
      && (|files[p]| == off ==> pos == |log|)
      && (pos + |files[p]| - off == |log| || PageOffset(pos + |files[p]| - off) == 0)
  {
    var p: nat, off: nat := PageOf(pos), PageOffset(pos);
    assert files[p] == PageBytes(log, p);
  }
}
