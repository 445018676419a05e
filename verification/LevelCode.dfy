/** A level's own operations: searching it, choosing tables to compact, reserving a range,
    and swapping tables when a compaction finishes. */
module LevelCode {
  import opened Keys
  import opened Versions
  import opened Levels
  import LevelSafety
  import LevelMotion

  /** A sorted table with its compaction flag */
  class SortedTable {
    const table: Table
    var flag: bool

    constructor (table: Table)
      ensures this.table == table && !flag
    {
      this.table := table;
      flag := false;
    }

    /** Set the flag; false if another task has set it already. */
    method MaybeStartCompaction() returns (ok: bool)
      modifies this
      ensures flag && ok == !old(flag)
    {
      ok := !flag;
      flag := true;
    }

    method AbortCompaction()
      requires flag
      modifies this
      ensures !flag
    {
      flag := false;
    }
  }

  function Contents(ts: seq<SortedTable>): (r: seq<Table>)
    ensures |r| == |ts|
    ensures forall i :: 0 <= i < |ts| ==> r[i] == ts[i].table
  {
    seq(|ts|, i requires 0 <= i < |ts| => ts[i].table)
  }

  function Objects(ts: seq<SortedTable>): set<SortedTable> {
    set t | t in ts
  }

  ghost predicate Distinct(ts: seq<SortedTable>) {
    && (forall i, j :: 0 <= i < j < |ts| ==> ts[i] != ts[j])
    && (forall i, j :: 0 <= i < j < |ts| ==> ts[i].table.id != ts[j].table.id)
  }

  ghost predicate Valid(ts: seq<SortedTable>) {
    Distinct(ts) && forall i :: 0 <= i < |ts| ==> Leq(ts[i].table.min, ts[i].table.max)
  }

  /** Every table that meets the range lies in it. */
  ghost predicate ClosedRange(ts: seq<SortedTable>, lo: Key, hi: Key) {
    forall t <- ts :: t.table.Overlaps(lo, hi) ==> t.table.Inside(lo, hi)
  }

  /** Does `t` belong to the smallest set that contains `first` and every table overlapping the set's range? */
  ghost predicate InClosure(ts: seq<SortedTable>, first: Table, t: Table) {
    forall lo, hi :: ClosedRange(ts, lo, hi) && first.Inside(lo, hi) ==> t.Inside(lo, hi)
  }

  /** The tables selected so far: `first` among them, their range `min` to `max`, nothing beyond the closure. */
  ghost predicate Selected(ts: seq<SortedTable>, sel: seq<SortedTable>, first: SortedTable, min: Key, max: Key) {
    && Distinct(sel) && first in sel && Leq(min, max)
    && (forall t <- sel :: t in ts && t.table.Inside(min, max))
    && (forall lo, hi :: ClosedRange(ts, lo, hi) && first.table.Inside(lo, hi) ==> Leq(lo, min) && Leq(max, hi))
  }

  lemma SelectFirst(ts: seq<SortedTable>, first: SortedTable)
    requires first in ts && Leq(first.table.min, first.table.max)
    ensures Selected(ts, [first], first, first.table.min, first.table.max)
  {
    LessAsymmetric(first.table.min, first.table.min);
    LessAsymmetric(first.table.max, first.table.max);
  }

  lemma WiderInside(t: Table, lo: Key, hi: Key, lo': Key, hi': Key)
    requires t.Inside(lo, hi) && Leq(lo', lo) && Leq(hi, hi')
    ensures t.Inside(lo', hi')
  {
    LeqTransitive(lo', lo, t.min);
    LeqTransitive(t.max, hi, hi');
  }

  lemma SelectMore(ts: seq<SortedTable>, sel: seq<SortedTable>, first: SortedTable, min: Key, max: Key, t: SortedTable)
    requires Selected(ts, sel, first, min, max) && t in ts && t !in sel && t.table.Overlaps(min, max)
    requires forall u <- sel :: u.table.id != t.table.id
    ensures Selected(ts, sel + [t], first, Min(min, t.table.min), Max(max, t.table.max))
  {
    var min', max' := Min(min, t.table.min), Max(max, t.table.max);
    HullContains(min, max, t.table.min, t.table.max);
    LeqTransitive(min', min, max);
    LeqTransitive(min', max, max');
    forall u | u in sel + [t] ensures u.table.Inside(min', max') {
      if u in sel { WiderInside(u.table, min, max, min', max'); }
    }
    forall lo, hi | ClosedRange(ts, lo, hi) && first.table.Inside(lo, hi)
      ensures Leq(lo, min') && Leq(max', hi)
    {
      LevelSafety.WiderOverlap(t.table, min, max, lo, hi);
    }
  }

  /** When nothing else overlaps, the selection is the closure. */
  lemma SelectDone(ts: seq<SortedTable>, sel: seq<SortedTable>, first: SortedTable, min: Key, max: Key, t: SortedTable)
    requires Selected(ts, sel, first, min, max) && t in ts && Leq(t.table.min, t.table.max)
    requires forall u <- ts :: u in sel || !u.table.Overlaps(min, max)
    ensures t in sel <==> InClosure(ts, first.table, t.table)
  {
    SelectInClosure(ts, sel, first, min, max);
    assert ClosedRange(ts, min, max) && first.table.Inside(min, max);
    if t.table.Inside(min, max) {
      LeqTransitive(min, t.table.min, t.table.max);
      LeqTransitive(t.table.min, t.table.max, max);
      assert t.table.Overlaps(min, max);
    }
  }

  lemma SelectInClosure(ts: seq<SortedTable>, sel: seq<SortedTable>, first: SortedTable, min: Key, max: Key)
    requires Selected(ts, sel, first, min, max)
    ensures forall t <- sel :: InClosure(ts, first.table, t.table)
  {
    forall t, lo, hi | t in sel && ClosedRange(ts, lo, hi) && first.table.Inside(lo, hi)
      ensures t.table.Inside(lo, hi)
    {
      WiderInside(t.table, min, max, lo, hi);
    }
  }

  /** A table that meets the selection's range is in the closure. */
  lemma MeetsInClosure(ts: seq<SortedTable>, sel: seq<SortedTable>, first: SortedTable, min: Key, max: Key,
                       t: SortedTable)
    requires Selected(ts, sel, first, min, max) && t in ts && t.table.Overlaps(min, max)
    ensures InClosure(ts, first.table, t.table)
  {
    forall lo, hi | ClosedRange(ts, lo, hi) && first.table.Inside(lo, hi) ensures t.table.Inside(lo, hi) {
      LevelSafety.WiderOverlap(t.table, min, max, lo, hi);
    }
  }

  /** The tables that meet the range, in order */
  function Overlapping(ts: seq<SortedTable>, lo: Key, hi: Key): (r: seq<SortedTable>)
    ensures forall t <- r :: t in ts && t.table.Overlaps(lo, hi)
    ensures forall t <- ts :: t.table.Overlaps(lo, hi) ==> t in r
  {
    if ts == [] then []
    else
      var n := |ts| - 1;
      if ts[n].table.Overlaps(lo, hi) then Overlapping(ts[..n], lo, hi) + [ts[n]] else Overlapping(ts[..n], lo, hi)
  }

  function HullLo(ts: seq<SortedTable>, lo: Key): Key {
    if ts == [] then lo else Min(ts[|ts| - 1].table.min, HullLo(ts[..|ts| - 1], lo))
  }

  function HullHi(ts: seq<SortedTable>, hi: Key): Key {
    if ts == [] then hi else Max(ts[|ts| - 1].table.max, HullHi(ts[..|ts| - 1], hi))
  }

  lemma HullAppend(ts: seq<SortedTable>, t: SortedTable, lo: Key, hi: Key)
    ensures HullLo(ts + [t], lo) == Min(t.table.min, HullLo(ts, lo))
    ensures HullHi(ts + [t], hi) == Max(t.table.max, HullHi(ts, hi))
  {
    assert (ts + [t])[..|ts|] == ts;
  }

  lemma ScanStart(ts: seq<SortedTable>, lo: Key, hi: Key)
    ensures Overlapping(ts[..0], lo, hi) == [] && HullLo([], lo) == lo && HullHi([], hi) == hi
  {
  }

  lemma OverlappingNext(ts: seq<SortedTable>, i: nat, lo: Key, hi: Key)
    requires i < |ts|
    ensures Overlapping(ts[..i + 1], lo, hi) ==
            Overlapping(ts[..i], lo, hi) + if ts[i].table.Overlaps(lo, hi) then [ts[i]] else []
  {
    assert ts[..i + 1][..i] == ts[..i];
  }

  ghost predicate Apart(ts: seq<SortedTable>) {
    forall i, j :: 0 <= i < |ts| && 0 <= j < |ts| && i != j ==> !ts[i].table.Overlaps(ts[j].table.min, ts[j].table.max)
  }

  /** Widening a range by a table that meets it changes nothing for tables apart from that table. */
  lemma WidenSame(u: Table, t: Table, lo: Key, hi: Key)
    requires Leq(u.min, u.max) && !u.Overlaps(t.min, t.max) && t.Overlaps(lo, hi)
    ensures u.Overlaps(Min(t.min, lo), Max(t.max, hi)) <==> u.Overlaps(lo, hi)
  {
    HullContains(t.min, t.max, lo, hi);
    if u.Overlaps(lo, hi) {
      LevelSafety.WiderOverlap(u, lo, hi, Min(t.min, lo), Max(t.max, hi));
    } else {
      HullIsUnion(t.min, t.max, lo, hi, u.min, u.max);
    }
  }

  lemma {:induction false} OverlappingDistinct(ts: seq<SortedTable>, lo: Key, hi: Key)
    requires Distinct(ts)
    ensures Distinct(Overlapping(ts, lo, hi))
  {
    if ts != [] {
      OverlappingDistinct(ts[..|ts| - 1], lo, hi);
    }
  }

  lemma KidsDistinct(ts: seq<SortedTable>, i: nat, lo: Key, hi: Key)
    requires Valid(ts) && i <= |ts|
    ensures Distinct(Overlapping(ts[..i], lo, hi))
    ensures i < |ts| ==> ts[i] !in Overlapping(ts[..i], lo, hi)
  {
    OverlappingDistinct(ts[..i], lo, hi);
  }

  /** One pass suffices: the widened range meets no table that the original range did not meet. */
  lemma {:induction false} OnePass(ts: seq<SortedTable>, i: nat, lo: Key, hi: Key, j: nat)
    requires Valid(ts) && Apart(ts) && i <= |ts| && j < |ts| && (j < i ==> !ts[j].table.Overlaps(lo, hi))
    ensures
      var kids := Overlapping(ts[..i], lo, hi);
      ts[j].table.Overlaps(HullLo(kids, lo), HullHi(kids, hi)) <==> ts[j].table.Overlaps(lo, hi)
  {
    hide Overlapping, HullLo, HullHi, Meets;
    if i == 0 {
      ScanStart(ts, lo, hi);
    } else {
      var t := ts[i - 1];
      var kids := Overlapping(ts[..i - 1], lo, hi);
      assert kids + [] == kids;
      OverlappingNext(ts, i - 1, lo, hi);
      OnePass(ts, i - 1, lo, hi, j);
      if t.table.Overlaps(lo, hi) {
        HullAppend(kids, t, lo, hi);
        OnePass(ts, i - 1, lo, hi, i - 1);
        WidenSame(ts[j].table, t.table, HullLo(kids, lo), HullHi(kids, hi));
      }
    }
  }

  lemma PassedApart(ts: seq<SortedTable>, lo: Key, hi: Key)
    requires Valid(ts) && Apart(ts)
    ensures
      var kids := Overlapping(ts, lo, hi);
      forall t <- ts :: t in kids || !t.table.Overlaps(HullLo(kids, lo), HullHi(kids, hi))
  {
    var kids := Overlapping(ts, lo, hi);
    forall j | 0 <= j < |ts| && ts[j] !in kids
      ensures !ts[j].table.Overlaps(HullLo(kids, lo), HullHi(kids, hi))
    {
      assert ts[..|ts|] == ts;
      OnePass(ts, |ts|, lo, hi, j);
    }
  }

  /** The smallest range that holds the given one and all the tables */
  ghost predicate IsHull(ts: seq<SortedTable>, min: Key, max: Key, lo: Key, hi: Key) {
    && !Less(min, lo) && !Less(hi, max)
    && (forall t <- ts :: !Less(t.table.min, lo) && !Less(hi, t.table.max))
    && (lo == min || exists t <- ts :: t.table.min == lo)
    && (hi == max || exists t <- ts :: t.table.max == hi)
  }

  lemma {:induction false} HullIs(ts: seq<SortedTable>, min: Key, max: Key)
    ensures IsHull(ts, min, max, HullLo(ts, min), HullHi(ts, max))
  {
    if ts == [] {
      LessAsymmetric(min, min);
      LessAsymmetric(max, max);
    } else {
      var init, last := ts[..|ts| - 1], ts[|ts| - 1];
      HullIs(init, min, max);
      assert init + [last] == ts;
      hide HullLo, HullHi;
      var lo, hi := HullLo(init, min), HullHi(init, max);
      HullAppend(init, last, min, max);
      HullGrows(init, last, min, max, lo, hi);
    }
  }

  lemma HullGrows(ts: seq<SortedTable>, t: SortedTable, min: Key, max: Key, lo: Key, hi: Key)
    requires IsHull(ts, min, max, lo, hi)
    ensures IsHull(ts + [t], min, max, Min(t.table.min, lo), Max(t.table.max, hi))
  {
    var lo', hi' := Min(t.table.min, lo), Max(t.table.max, hi);
    HullContains(t.table.min, t.table.max, lo, hi);
    hide Less;
    LeqTransitive(lo', lo, min);
    LeqTransitive(max, hi, hi');
    forall u | u in ts ensures u.table.Inside(lo', hi') {
      WiderInside(u.table, lo, hi, lo', hi');
    }
    assert t in ts + [t];
    assert forall u <- ts :: u in ts + [t];
  }

  ghost function Flagged(ts: seq<SortedTable>): set<SortedTable>
    reads Objects(ts)
  {
    set t | t in ts && t.flag
  }

  /** On the child level, a table that meets the range is flagged, or the range to reserve meets a placeholder. */
  ghost predicate Contended(ts: seq<SortedTable>, holders: seq<Holder>, flagged: set<SortedTable>, min: Key, max: Key) {
    var kids := Overlapping(ts, min, max);
    || (exists t <- kids :: t in flagged)
    || (exists h <- holders :: !Less(h.hi, HullLo(kids, min)) && !Less(HullHi(kids, max), h.lo))
  }

  class Level {
    const index: nat
    var tables: seq<SortedTable>
    var placeholders: seq<Holder>

    constructor (index: nat)
      ensures this.index == index && tables == [] && placeholders == []
    {
      this.index := index;
      tables := [];
      placeholders := [];
    }

    method AddL0Table(t: SortedTable)
      requires index == 0
      modifies this
      ensures tables == old(tables) + [t] && placeholders == old(placeholders)
    {
      tables := tables + [t];
    }

    /** Search from the newest table to the oldest. */
    method Get(k: Key) returns (r: Option<Version>)
      ensures r == LevelMotion.SearchLevel(Contents(tables), k)
    {
      var i := |tables|;
      ghost var s := Contents(tables);
      assert s[..i] == s;
      while i > 0
        invariant 0 <= i <= |tables|
        invariant LevelMotion.SearchLevel(s, k) == LevelMotion.SearchLevel(s[..i], k)
      {
        i := i - 1;
        assert s[..i + 1][..i] == s[..i];
        if k in tables[i].table.rows {
          return Some(tables[i].table.rows[k]);
        }
      }
      return None;
    }

    /** Give back the flags of the given tables. */
    method AbortAll(ts: seq<SortedTable>)
      requires (forall i, j :: 0 <= i < j < |ts| ==> ts[i] != ts[j]) && forall t <- ts :: t.flag
      modifies Objects(ts)
      ensures forall t <- ts :: !t.flag
    {
      for i := 0 to |ts|
        invariant forall j :: 0 <= j < i ==> !ts[j].flag
        invariant forall j :: i <= j < |ts| ==> ts[j].flag
      {
        ts[i].AbortCompaction();
      }
    }

    /** Flag the chosen table and, on level 0, every table in the closure of its range.
        None if one of them is flagged already; then no flag changes. */
    method MaybeStartCompaction(offset: nat) returns (res: Option<seq<SortedTable>>)
      requires Valid(tables) && offset < |tables|
      modifies Objects(tables)
      ensures res.None? ==> forall t <- tables :: t.flag == old(t.flag)
      ensures res.None? ==>
                exists t <- tables ::
                  && old(t.flag)
                  && (if index == 0 then InClosure(tables, tables[offset].table, t.table) else t == tables[offset])
      ensures res.Some? ==> forall t <- tables :: t.flag == (old(t.flag) || t in res.value)
      ensures res.Some? ==> forall t <- res.value :: t in tables && !old(t.flag)
      ensures res.Some? ==> Distinct(res.value) && tables[offset] in res.value
      ensures res.Some? && index == 0 ==>
                forall t <- tables :: t in res.value <==> InClosure(tables, tables[offset].table, t.table)
      ensures res.Some? && index != 0 ==> res.value == [tables[offset]]
    {
      hide InClosure, ClosedRange, Meets, Less;
      var first := tables[offset];
      SelectFirst(tables, first);
      var ok := first.MaybeStartCompaction();
      if !ok {
        SelectInClosure(tables, [first], first, first.table.min, first.table.max);
        return None;
      }
      var sel := [first];
      if index != 0 {
        return Some(sel);
      }
      var min, max := first.table.min, first.table.max;
      var change := true;
      while change
        invariant Selected(tables, sel, first, min, max)
        invariant forall t <- tables :: t.flag == (old(t.flag) || t in sel)
        invariant forall t <- sel :: !old(t.flag)
        invariant !change ==> forall t <- tables :: t in sel || !t.table.Overlaps(min, max)
        decreases (set t | t in tables && t !in sel), change
      {
        ghost var rest := set t | t in tables && t !in sel;
        change := false;
        var pos := 0;
        while pos < |tables|
          invariant 0 <= pos <= |tables| && !change
          invariant forall i :: 0 <= i < pos ==> tables[i] in sel || !tables[i].table.Overlaps(min, max)
        {
          var t := tables[pos];
          if t !in sel && t.table.Overlaps(min, max) {
            ok := t.MaybeStartCompaction();
            if ok {
              SelectMore(tables, sel, first, min, max, t);
              min := Min(min, t.table.min);
              max := Max(max, t.table.max);
              sel := sel + [t];
              change := true;
              assert t in rest && (set u | u in tables && u !in sel) == rest - {t};
              break;
            } else {
              MeetsInClosure(tables, sel, first, min, max, t);
              AbortAll(sel);
              return None;
            }
          }
          pos := pos + 1;
        }
      }
      forall t | t in tables ensures t in sel <==> InClosure(tables, first.table, t.table) {
        SelectDone(tables, sel, first, min, max, t);
      }
      return Some(sel);
    }

    /** Flag every table that meets the range, widening it as tables are found.
        None, with no flag changed, if one of them is flagged already. */
    method ScanOverlaps(min: Key, max: Key) returns (res: Option<seq<SortedTable>>, lo: Key, hi: Key)
      requires Valid(tables) && Apart(tables)
      modifies Objects(tables)
      ensures res.None? ==> exists t <- Overlapping(tables, min, max) :: old(t.flag)
      ensures res.None? ==> forall t <- tables :: t.flag == old(t.flag)
      ensures res.Some? ==> res.value == Overlapping(tables, min, max) && Distinct(res.value)
      ensures res.Some? ==> lo == HullLo(res.value, min) && hi == HullHi(res.value, max)
      ensures res.Some? ==> forall t <- res.value :: !old(t.flag)
      ensures res.Some? ==> forall t <- tables :: t.flag == (old(t.flag) || t in res.value)
    {
      hide Overlapping, HullLo, HullHi, Meets, Apart, Valid;
      lo, hi := min, max;
      var kids: seq<SortedTable> := [];
      ScanStart(tables, min, max);
      for i := 0 to |tables|
        invariant kids == Overlapping(tables[..i], min, max)
        invariant lo == HullLo(kids, min) && hi == HullHi(kids, max)
        invariant forall t <- tables :: t.flag == (old(t.flag) || t in kids)
        invariant forall t <- kids :: !old(t.flag)
      {
        var t := tables[i];
        OnePass(tables, i, min, max, i);
        OverlappingNext(tables, i, min, max);
        KidsDistinct(tables, i, min, max);
        if t.table.Overlaps(lo, hi) {
          var ok := t.MaybeStartCompaction();
          if !ok {
            assert old(t.flag) && t in Overlapping(tables, min, max);
            AbortAll(kids);
            assert forall u <- tables :: u.flag == old(u.flag);
            return None, lo, hi;
          }
          HullAppend(kids, t, min, max);
          kids := kids + [t];
          lo := Min(t.table.min, lo);
          hi := Max(t.table.max, hi);
        }
      }
      assert tables[..|tables|] == tables;
      KidsDistinct(tables, |tables|, min, max);
      return Some(kids), lo, hi;
    }

    /** Flag every table that meets the range and reserve the hull of all of them.
        None if one of them is flagged or the hull is reserved already; then nothing changes.
        `newId` is the id the manifest would give out next. */
    method GetOverlaps(min: Key, max: Key, fastPath: Option<TableId>, newId: TableId)
      returns (res: Option<(TableId, seq<SortedTable>)>)
      requires Valid(tables) && Apart(tables)
      modifies this, Objects(tables)
      ensures tables == old(tables)
      ensures
        var kids := Overlapping(tables, min, max);
        var lo, hi := HullLo(kids, min), HullHi(kids, max);
        && (forall t <- tables :: t in kids <==> !Less(t.table.max, min) && !Less(max, t.table.min))
        && IsHull(kids, min, max, lo, hi)
        && (res.None? <==>
              || (exists t <- kids :: old(t.flag))
              || (exists h <- old(placeholders) :: !Less(h.hi, lo) && !Less(hi, h.lo)))
        && (res.None? <==> Contended(tables, old(placeholders), old(Flagged(tables)), min, max))
        && (res.None? ==> placeholders == old(placeholders) && forall t <- tables :: t.flag == old(t.flag))
        && (res.Some? ==>
              && res.value.1 == kids
              && res.value.0 == (if fastPath.Some? && kids == [] then fastPath.value else newId)
              && placeholders == old(placeholders) + [Holder(res.value.0, lo, hi)]
              && (forall t <- tables :: t.flag == (old(t.flag) || t in kids))
              && (forall t <- tables :: t in kids || !t.table.Overlaps(lo, hi)))
    {
      hide Overlapping, HullLo, HullHi, Less, Valid, Apart, IsHull;
      PassedApart(tables, min, max);
      HullIs(Overlapping(tables, min, max), min, max);
      var found, lo, hi := ScanOverlaps(min, max);
      if found.None? {
        return None;
      }
      var kids := found.value;
      if Held(placeholders, lo, hi) {
        AbortAll(kids);
        return None;
      }
      var id := if fastPath.Some? && kids == [] then fastPath.value else newId;
      placeholders := placeholders + [Holder(id, lo, hi)];
      return Some((id, kids));
    }

    /** Drop the placeholder with this id; there must be one. */
    method RemoveTablePlaceholder(id: TableId)
      requires exists h <- placeholders :: h.id == id
      requires forall i, j :: 0 <= i < j < |placeholders| ==> placeholders[i].id != placeholders[j].id
      modifies this
      ensures tables == old(tables) && placeholders == WithoutHolder(old(placeholders), id)
    {
      for pos := 0 to |placeholders|
        invariant placeholders == old(placeholders) && forall i :: 0 <= i < pos ==> placeholders[i].id != id
      {
        if placeholders[pos].id == id {
          DropHolder(placeholders, pos);
          placeholders := placeholders[..pos] + placeholders[pos + 1..];
          return;
        }
      }
      assert false;
    }
  }

  lemma {:induction false} KeepHolders(s: seq<Holder>, id: TableId)
    requires forall h <- s :: h.id != id
    ensures WithoutHolder(s, id) == s
  {
    if s != [] {
      KeepHolders(s[1..], id);
    }
  }

  lemma HolderFirst(s: seq<Holder>, id: TableId)
    requires s != []
    ensures WithoutHolder(s, id) == (if s[0].id == id then [] else [s[0]]) + WithoutHolder(s[1..], id)
  {
  }

  lemma {:induction false} DropHolder(s: seq<Holder>, pos: nat)
    requires pos < |s| && forall i :: 0 <= i < |s| && i != pos ==> s[i].id != s[pos].id
    ensures WithoutHolder(s, s[pos].id) == s[..pos] + s[pos + 1..]
  {
    hide WithoutHolder;
    var rest := s[1..];
    HolderFirst(s, s[pos].id);
    if pos == 0 {
      KeepHolders(rest, s[0].id);
    } else {
      DropHolder(rest, pos - 1);
      assert s[..pos] == [s[0]] + rest[..pos - 1] && s[pos + 1..] == rest[pos..];
    }
  }

  // ---- finishing a compaction ----

  function TableSet(ts: seq<SortedTable>): set<Table> {
    set t | t in ts :: t.table
  }

  lemma {:induction false} KeepTables(s: seq<Table>, gone: set<Table>)
    requires forall t <- s :: t !in gone
    ensures Without(s, gone) == s
  {
    if s != [] {
      KeepTables(s[1..], gone);
    }
  }

  lemma {:induction false} WithoutTwice(s: seq<Table>, a: set<Table>, b: set<Table>)
    ensures Without(Without(s, a), b) == Without(s, a + b)
  {
    if s != [] {
      WithoutTwice(s[1..], a, b);
    }
  }

  lemma TableFirst(s: seq<Table>, gone: set<Table>)
    requires s != []
    ensures Without(s, gone) == (if s[0] in gone then [] else [s[0]]) + Without(s[1..], gone)
  {
  }

  lemma {:induction false} DropTable(s: seq<Table>, pos: nat)
    requires pos < |s| && forall i :: 0 <= i < |s| && i != pos ==> s[i] != s[pos]
    ensures Without(s, {s[pos]}) == s[..pos] + s[pos + 1..]
  {
    hide Without;
    var rest := s[1..];
    TableFirst(s, {s[pos]});
    if pos == 0 {
      KeepTables(rest, {s[0]});
    } else {
      DropTable(rest, pos - 1);
      assert s[..pos] == [s[0]] + rest[..pos - 1] && s[pos + 1..] == rest[pos..];
    }
  }

  /** Remove the table with the given table's id; the code asserts that there is one. */
  method RemoveTable(ts: seq<SortedTable>, t: SortedTable) returns (r: seq<SortedTable>)
    requires Distinct(ts) && t in ts
    ensures Distinct(r) && Contents(r) == Without(Contents(ts), {t.table})
    ensures forall u <- ts :: u in r <==> u != t
    ensures forall u <- r :: u in ts
  {
    hide Without;
    var pos := 0;
    while ts[pos].table.id != t.table.id
      invariant 0 <= pos < |ts| && forall i :: 0 <= i < pos ==> ts[i] != t
      decreases |ts| - pos
    {
      assert ts[pos] != t;
      assert exists i :: pos < i < |ts| && ts[i] == t;
      pos := pos + 1;
    }
    DropTable(Contents(ts), pos);
    r := ts[..pos] + ts[pos + 1..];
    assert Contents(r) == Contents(ts)[..pos] + Contents(ts)[pos + 1..];
  }

  /** Remove all the given tables, one after the other. */
  method RemoveTables(ts: seq<SortedTable>, gone: seq<SortedTable>) returns (r: seq<SortedTable>)
    requires Distinct(ts) && Distinct(gone) && forall t <- gone :: t in ts
    ensures Distinct(r) && Contents(r) == Without(Contents(ts), TableSet(gone))
  {
    hide Without;
    r := ts;
    assert TableSet(gone[..0]) == {};
    KeepTables(Contents(ts), {});
    for i := 0 to |gone|
      invariant Distinct(r) && Contents(r) == Without(Contents(ts), TableSet(gone[..i]))
      invariant forall j :: i <= j < |gone| ==> gone[j] in r
    {
      WithoutTwice(Contents(ts), TableSet(gone[..i]), {gone[i].table});
      assert TableSet(gone[..i + 1]) == TableSet(gone[..i]) + {gone[i].table};
      r := RemoveTable(r, gone[i]);
    }
    assert gone[..|gone|] == gone;
  }

  /** The position before the first table that starts above `key`, or else `default` */
  method FindPlace(ts: seq<SortedTable>, key: Key, default: nat) returns (pos: nat)
    requires default <= |ts|
    ensures pos == Place(Contents(ts), key, default)
  {
    var i := 0;
    while i < |ts|
      invariant 0 <= i <= |ts| && Place(Contents(ts), key, default) == PlaceFrom(Contents(ts), key, default, i)
    {
      if Less(key, ts[i].table.min) {
        return i;
      }
      i := i + 1;
    }
    return default;
  }

  method InsertAt(ts: seq<SortedTable>, pos: nat, t: SortedTable) returns (r: seq<SortedTable>)
    requires pos <= |ts|
    ensures Contents(r) == InsertTable(Contents(ts), pos, t.table)
  {
    r := ts[..pos] + [t] + ts[pos..];
  }

  ghost predicate OnePlaceholder(level: Level, id: TableId)
    reads level
  {
    && (exists h <- level.placeholders :: h.id == id)
    && (forall i, j :: 0 <= i < j < |level.placeholders| ==> level.placeholders[i].id != level.placeholders[j].id)
  }

  /** The end of a regular compaction: the merged table replaces the tables it was made from. */
  method InstallMerged(parent: Level, child: Level, sel: seq<SortedTable>, kids: seq<SortedTable>, merged: SortedTable)
    requires parent != child && Distinct(parent.tables) && Distinct(child.tables) && Distinct(sel) && Distinct(kids)
    requires (forall t <- sel :: t in parent.tables) && (forall t <- kids :: t in child.tables)
    requires OnePlaceholder(child, merged.table.id)
    modifies parent, child
    ensures Contents(parent.tables) == Without(old(Contents(parent.tables)), TableSet(sel))
    ensures
      var rest := Without(old(Contents(child.tables)), TableSet(kids));
      Contents(child.tables) == InsertTable(rest, Place(rest, merged.table.min, |rest|), merged.table)
    ensures parent.placeholders == old(parent.placeholders)
    ensures child.placeholders == WithoutHolder(old(child.placeholders), merged.table.id)
  {
    hide Without, Place, InsertTable, WithoutHolder, Distinct;
    var rest := RemoveTables(child.tables, kids);
    var pos := FindPlace(rest, merged.table.min, |rest|);
    child.tables := InsertAt(rest, pos, merged);
    child.RemoveTablePlaceholder(merged.table.id);
    parent.tables := RemoveTables(parent.tables, sel);
  }

  /** The fast path: the table moves down as it is, and its flag is cleared. */
  method FastCompaction(parent: Level, child: Level, t: SortedTable)
    requires parent != child && Distinct(parent.tables) && t in parent.tables && t.flag
    requires OnePlaceholder(child, t.table.id)
    modifies parent, child, t
    ensures Contents(parent.tables) == Without(old(Contents(parent.tables)), {t.table})
    ensures
      var rest := old(Contents(child.tables));
      Contents(child.tables) == InsertTable(rest, Place(rest, t.table.min, 0), t.table)
    ensures parent.placeholders == old(parent.placeholders)
    ensures child.placeholders == WithoutHolder(old(child.placeholders), t.table.id)
    ensures !t.flag
  {
    hide Without, Place, InsertTable, WithoutHolder, Distinct;
    parent.tables := RemoveTable(parent.tables, t);
    var pos := FindPlace(child.tables, t.table.min, 0);
    child.tables := InsertAt(child.tables, pos, t);
    child.RemoveTablePlaceholder(t.table.id);
    t.AbortCompaction();
  }

  /** The two levels are as the level machine has them. */
  ghost predicate Mirrors(parent: Level, child: Level, tr: Tree, p: nat)
    reads parent, child
  {
    && p + 1 < |tr.tables| == |tr.holders|
    && Contents(parent.tables) == tr.tables[p] && Contents(child.tables) == tr.tables[p + 1]
    && parent.placeholders == tr.holders[p] && child.placeholders == tr.holders[p + 1]
  }

  lemma OneTable(ts: seq<SortedTable>)
    requires Distinct(ts)
    ensures |TableSet(ts)| == 1 <==> |ts| == 1
    ensures TableSet(ts) == {} <==> ts == []
    ensures |ts| == 1 ==> TableSet(ts) == {ts[0].table}
  {
    if |ts| == 1 { assert TableSet(ts) == {ts[0].table}; }
    if |ts| >= 1 { assert ts[0].table in TableSet(ts); }
    if |ts| >= 2 {
      assert ts[1].table in TableSet(ts) - {ts[0].table};
      assert |TableSet(ts)| == |TableSet(ts) - {ts[0].table}| + 1;
    }
  }

  lemma NothingGone(s: seq<Table>)
    ensures Without(s, {}) == s
  {
    KeepTables(s, {});
  }

  /** The end of a compaction, by the fast path or by installing the merged table, does what the level machine's install
      step does to the two levels. On the fast path `merged` is the selected table itself. */
  method FinishCompaction(parent: Level, child: Level, sel: seq<SortedTable>, kids: seq<SortedTable>,
                          merged: SortedTable, ghost tr: Tree, ghost j: JobId, ghost rows: Rows)
    requires parent != child && Distinct(parent.tables) && Distinct(child.tables) && Distinct(sel) && Distinct(kids)
    requires (forall t <- sel :: t in parent.tables && t.flag) && (forall t <- kids :: t in child.tables)
    requires Shape(tr) && j in tr.jobs && tr.jobs[j].phase.Merging? && Mirrors(parent, child, tr, tr.jobs[j].parent)
    requires tr.jobs[j].sel == TableSet(sel) && tr.jobs[j].kids == TableSet(kids)
    requires merged.table == NewTable(tr.jobs[j], rows) && OnePlaceholder(child, merged.table.id)
    requires |sel| == 1 && kids == [] ==> merged == sel[0]
    modifies parent, child, sel
    ensures Mirrors(parent, child, DoInstall(tr, j, rows), tr.jobs[j].parent)
    ensures |sel| == 1 && kids == [] ==> !merged.flag
  {
    hide Without, WithoutHolder, Place, InsertTable, InsertId, RemoveIds, Distinct;
    ghost var p := tr.jobs[j].parent;
    LevelSafety.InstallTablesAre(tr, j, rows);
    OneTable(sel);
    OneTable(kids);
    NothingGone(tr.tables[p + 1]);
    if |sel| == 1 && kids == [] {
      FastCompaction(parent, child, sel[0]);
    } else {
      InstallMerged(parent, child, sel, kids, merged);
    }
  }

  /** The range of a list of tables */
  method RangeOf(ts: seq<SortedTable>) returns (min: Key, max: Key)
    requires ts != []
    ensures forall t <- ts :: t.table.Inside(min, max)
    ensures (exists t <- ts :: t.table.min == min) && (exists t <- ts :: t.table.max == max)
  {
    min, max := ts[0].table.min, ts[0].table.max;
    LessAsymmetric(min, min);
    LessAsymmetric(max, max);
    assert ts[..1] == [ts[0]];
    for i := 1 to |ts|
      invariant forall t <- ts[..i] :: t.table.Inside(min, max)
      invariant (exists t <- ts[..i] :: t.table.min == min) && (exists t <- ts[..i] :: t.table.max == max)
    {
      var lo, hi := Min(min, ts[i].table.min), Max(max, ts[i].table.max);
      assert ts[..i + 1] == ts[..i] + [ts[i]];
      forall t | t in ts[..i + 1] ensures t.table.Inside(lo, hi) {
        HullContains(min, max, ts[i].table.min, ts[i].table.max);
        if t in ts[..i] { WiderInside(t.table, min, max, lo, hi); }
      }
      assert ts[i] in ts[..i + 1];
      min, max := lo, hi;
    }
    assert ts[..|ts|] == ts;
  }

  /** The tables a compaction takes from its parent level: the one at `offset` and, on level 0, all in its closure */
  ghost predicate Chosen(index: nat, ts: seq<SortedTable>, offset: nat, t: SortedTable)
    requires offset < |ts|
  {
    if index == 0 then InClosure(ts, ts[offset].table, t.table) else t == ts[offset]
  }

  /** The range of the chosen tables */
  ghost predicate Spans(index: nat, ts: seq<SortedTable>, offset: nat, min: Key, max: Key)
    requires offset < |ts|
  {
    && (forall t <- ts :: Chosen(index, ts, offset, t) ==> t.table.Inside(min, max))
    && (exists t <- ts :: Chosen(index, ts, offset, t) && t.table.min == min)
    && (exists t <- ts :: Chosen(index, ts, offset, t) && t.table.max == max)
  }

  lemma SpansOnce(index: nat, ts: seq<SortedTable>, offset: nat, min: Key, max: Key, min': Key, max': Key)
    requires offset < |ts| && Spans(index, ts, offset, min, max) && Spans(index, ts, offset, min', max')
    ensures min == min' && max == max'
  {
    hide Chosen;
    LessTotal(min, min');
    LessTotal(max, max');
  }

  /** Flag the tables to compact and find their range; None, with no flag changed, if one is flagged already. */
  method ChooseTables(parent: Level, offset: nat) returns (res: Option<seq<SortedTable>>, min: Key, max: Key)
    requires Valid(parent.tables) && offset < |parent.tables|
    modifies Objects(parent.tables)
    ensures res.None? <==> exists t <- parent.tables :: Chosen(parent.index, parent.tables, offset, t) && old(t.flag)
    ensures res.None? ==> forall t <- parent.tables :: t.flag == old(t.flag)
    ensures res.Some? ==>
              && Distinct(res.value) && (forall t <- res.value :: t in parent.tables && !old(t.flag))
              && (forall t <- parent.tables :: t in res.value <==> Chosen(parent.index, parent.tables, offset, t))
              && (forall t <- parent.tables :: t.flag == (old(t.flag) || t in res.value))
    ensures res.Some? ==> Spans(parent.index, parent.tables, offset, min, max)
    ensures res.Some? ==> forall lo, hi :: Spans(parent.index, parent.tables, offset, lo, hi) ==> lo == min && hi == max
  {
    hide Less, Valid, InClosure;
    res := parent.MaybeStartCompaction(offset);
    if res.None? {
      return None, [], [];
    }
    min, max := RangeOf(res.value);
    assert Spans(parent.index, parent.tables, offset, min, max);
    forall lo, hi | Spans(parent.index, parent.tables, offset, lo, hi) ensures lo == min && hi == max {
      SpansOnce(parent.index, parent.tables, offset, lo, hi, min, max);
    }
  }

  /** The start of a compaction. It gives up, and leaves no trace, if and only if another compaction holds one of the
      tables it needs or has reserved keys of its range. Otherwise it holds exactly the tables it chose and the child
      tables that meet their range, and has reserved the hull of them all. */
  method BeginCompaction(parent: Level, child: Level, offset: nat, newId: TableId)
    returns (sel: seq<SortedTable>, res: Option<(TableId, seq<SortedTable>)>)
    requires parent != child && Valid(parent.tables) && Valid(child.tables) && Apart(child.tables)
    requires offset < |parent.tables| && forall t <- parent.tables :: t !in child.tables
    modifies child, Objects(parent.tables), Objects(child.tables)
    ensures parent.tables == old(parent.tables) && child.tables == old(child.tables)
    ensures res.None? <==>
              || (exists t <- parent.tables :: Chosen(parent.index, parent.tables, offset, t) && old(t.flag))
              || (exists min, max ::
                    && Spans(parent.index, parent.tables, offset, min, max)
                    && Contended(child.tables, old(child.placeholders), old(Flagged(child.tables)), min, max))
    ensures res.None? ==>
              && child.placeholders == old(child.placeholders)
              && forall t <- parent.tables + child.tables :: t.flag == old(t.flag)
    ensures res.Some? ==>
              && Distinct(sel) && (forall t <- sel :: t in parent.tables)
              && (forall t <- parent.tables :: t in sel <==> Chosen(parent.index, parent.tables, offset, t))
              && (forall t <- parent.tables :: t.flag == (old(t.flag) || t in sel))
              && (forall t <- child.tables :: t.flag == (old(t.flag) || t in res.value.1))
    ensures res.Some? ==>
              exists min, max, h: Holder ::
                && Spans(parent.index, parent.tables, offset, min, max)
                && (forall t <- child.tables ::
                      t in res.value.1 <==> !Less(t.table.max, min) && !Less(max, t.table.min))
                && IsHull(res.value.1, min, max, h.lo, h.hi)
                && (forall t <- child.tables :: t in res.value.1 || !t.table.Overlaps(h.lo, h.hi))
                && child.placeholders == old(child.placeholders) + [h] && h.id == res.value.0
                && res.value.0 == (if |sel| == 1 && res.value.1 == [] then sel[0].table.id else newId)
  {
    hide Overlapping, HullLo, HullHi, Less, Valid, Apart, IsHull, Spans, Chosen, Contended;
    var start, min, max := ChooseTables(parent, offset);
    if start.None? {
      return [], None;
    }
    sel := start.value;
    var fastPath := if |sel| == 1 then Some(sel[0].table.id) else None;
    assert Flagged(child.tables) == old(Flagged(child.tables));
    res := child.GetOverlaps(min, max, fastPath, newId);
    if res.None? {
      parent.AbortAll(sel);
      return [], None;
    }
    ghost var h := child.placeholders[|child.placeholders| - 1];
    ghost var before := old(child.placeholders);
    assert child.placeholders == before + [h];
  }
}
