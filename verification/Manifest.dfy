/** The manifest's list of tables: per level a file with the ids in ascending order, changed in place. */
module Manifest {
  import opened Keys
  import opened Versions
  import opened Codec
  import opened Levels

  const PAGE_SIZE: nat := 4096
  const LIST_HEADER: nat := 8

  function IdBytes(ids: seq<TableId>): (b: seq<Byte>)
    ensures |b| == 8 * |ids|
  {
    if ids == [] then [] else IdBytes(ids[..|ids| - 1]) + Le64(ids[|ids| - 1])
  }

  lemma {:induction false} IdAt(ids: seq<TableId>, i: nat)
    requires i < |ids|
    ensures Holds(IdBytes(ids), 8 * i, Le64(ids[i]))
  {
    hide Le64;
    var n := |ids| - 1;
    var init := IdBytes(ids[..n]);
    if i == n {
      HoldsMiddle(init, Le64(ids[n]), []);
      assert init + Le64(ids[n]) + [] == IdBytes(ids);
    } else {
      IdAt(ids[..n], i);
      HoldsAppend(init, Le64(ids[n]), 8 * i, Le64(ids[i]));
    }
  }

  /** The file holds the list, with room for one more id. */
  ghost predicate ListHeld(data: seq<Byte>, ids: seq<TableId>) {
    && LIST_HEADER + 8 * |ids| < |data| && |ids| < U64 && (forall id <- ids :: id < U64)
    && Holds(data, 0, Le64(|ids|)) && Holds(data, LIST_HEADER, IdBytes(ids))
  }

  /** The bytes of the file: the number of ids, then each id, in eight bytes each */
  lemma ListLayout(data: seq<Byte>, ids: seq<TableId>)
    requires ListHeld(data, ids)
    ensures data[0..8] == Le(|ids|, 8)
    ensures forall i :: 0 <= i < |ids| ==> data[8 + 8 * i..16 + 8 * i] == Le(ids[i], 8)
  {
    hide Le, IdBytes;
    forall i | 0 <= i < |ids| ensures data[8 + 8 * i..16 + 8 * i] == Le(ids[i], 8) {
      IdAt(ids, i);
      HoldsThrough(data, LIST_HEADER, IdBytes(ids), 8 * i, Le64(ids[i]));
    }
  }

  lemma ReadList(data: seq<Byte>, ids: seq<TableId>)
    requires ListHeld(data, ids)
    ensures FromLe(data[0..8]) == |ids|
    ensures forall i :: 0 <= i < |ids| ==> FromLe(data[LIST_HEADER + 8 * i..LIST_HEADER + 8 * i + 8]) == ids[i]
  {
    hide Le64, FromLe, IdBytes;
    Le64RoundTrip(|ids|);
    forall i | 0 <= i < |ids| ensures FromLe(data[LIST_HEADER + 8 * i..LIST_HEADER + 8 * i + 8]) == ids[i] {
      IdAt(ids, i);
      HoldsThrough(data, LIST_HEADER, IdBytes(ids), 8 * i, Le64(ids[i]));
      assert ids[i] in ids;
      Le64RoundTrip(ids[i]);
    }
  }

  /** Writing the length and then the ids stores the list. */
  lemma WriteList(data: seq<Byte>, ids: seq<TableId>)
    requires LIST_HEADER + 8 * |ids| < |data| && |ids| < U64 && forall id <- ids :: id < U64
    ensures ListHeld(Overwrite(Overwrite(data, 0, Le64(|ids|)), LIST_HEADER, IdBytes(ids)), ids)
  {
    hide Le64, IdBytes, Overwrite, Holds;
    HoldsNothing(data);
    HoldsOverwrite(data, 0, Le64(|ids|), 8, []);
    HoldsOverwrite(Overwrite(data, 0, Le64(|ids|)), LIST_HEADER, IdBytes(ids), 0, Le64(|ids|));
  }

  lemma HoldsNothing(data: seq<Byte>)
    requires 8 <= |data|
    ensures Holds(data, 8, [])
  {
  }

  /** The id belongs at `pos`. */
  ghost predicate Between(ids: seq<TableId>, pos: nat, id: TableId) {
    && pos <= |ids|
    && (forall i :: 0 <= i < pos ==> ids[i] < id)
    && (forall i :: pos <= i < |ids| ==> id < ids[i])
  }

  /** Where an id is in an ascending list, or where it belongs */
  method FindId(ids: seq<TableId>, id: TableId) returns (found: bool, pos: nat)
    requires Ascending(ids)
    ensures found <==> id in ids
    ensures found ==> pos < |ids| && ids[pos] == id
    ensures !found ==> Between(ids, pos, id)
  {
    var lo, hi := 0, |ids|;
    while lo < hi
      invariant 0 <= lo <= hi <= |ids|
      invariant forall i :: 0 <= i < lo ==> ids[i] < id
      invariant forall i :: hi <= i < |ids| ==> id < ids[i]
    {
      var mid := (lo + hi) / 2;
      if ids[mid] == id {
        return true, mid;
      } else if ids[mid] < id {
        lo := mid + 1;
      } else {
        hi := mid;
      }
    }
    return false, lo;
  }

  lemma InsertFirst(ids: seq<TableId>, id: TableId)
    ensures InsertId(ids, id) ==
            if ids == [] || id < ids[0] then [id] + ids else [ids[0]] + InsertId(ids[1..], id)
  {
    hide Ascending;
  }

  lemma {:induction false} InsertIdIs(ids: seq<TableId>, id: TableId, pos: nat)
    requires Between(ids, pos, id)
    ensures InsertId(ids, id) == ids[..pos] + [id] + ids[pos..]
  {
    hide InsertId;
    InsertFirst(ids, id);
    if pos > 0 {
      var rest := ids[1..];
      InsertIdIs(rest, id, pos - 1);
      assert rest[..pos - 1] == ids[1..pos] && ids[..pos] == [ids[0]] + ids[1..pos];
      assert rest[pos - 1..] == ids[pos..];
    }
  }

  lemma {:induction false} RemoveNothing(ids: seq<TableId>, gone: set<TableId>)
    requires forall id <- ids :: id !in gone
    ensures RemoveIds(ids, gone) == ids
  {
    if ids != [] {
      assert forall x <- ids[1..] :: x in ids;
      RemoveNothing(ids[1..], gone);
    }
  }

  lemma RemoveFirst(ids: seq<TableId>, gone: set<TableId>)
    requires ids != []
    ensures RemoveIds(ids, gone) == (if ids[0] in gone then [] else [ids[0]]) + RemoveIds(ids[1..], gone)
  {
  }

  lemma {:induction false} RemoveIdIs(ids: seq<TableId>, pos: nat)
    requires Ascending(ids) && pos < |ids|
    ensures RemoveIds(ids, {ids[pos]}) == ids[..pos] + ids[pos + 1..]
  {
    hide RemoveIds;
    var rest := ids[1..];
    RemoveFirst(ids, {ids[pos]});
    if pos == 0 {
      RemoveNothing(rest, {ids[0]});
    } else {
      RemoveIdIs(rest, pos - 1);
      assert ids[..pos] == [ids[0]] + rest[..pos - 1] && ids[pos + 1..] == rest[pos..];
    }
  }

  class LevelMetadata {
    var data: seq<Byte>
    ghost var ids: seq<TableId>

    ghost predicate Valid()
      reads this
    {
      ListHeld(data, ids) && Ascending(ids)
    }

    method GetTableIds() returns (r: seq<TableId>)
      requires Valid()
      ensures r == ids
    {
      hide FromLe, ListHeld;
      ReadList(data, ids);
      ListFits(data, ids);
      var n := FromLe(data[0..8]);
      r := [];
      for i := 0 to n
        invariant |r| == i && forall k :: 0 <= k < i ==> r[k] == ids[k]
      {
        r := r + [FromLe(data[LIST_HEADER + 8 * i..LIST_HEADER + 8 * i + 8])];
      }
    }

    /** Add an id; false if it is there already. The file grows by a page when the list would fill it. */
    method Insert(id: TableId) returns (added: bool)
      requires Valid() && id < U64 && |ids| + 1 < U64
      modifies this
      ensures Valid() && added == (id !in old(ids))
      ensures ids == if added then InsertId(old(ids), id) else old(ids)
      ensures |data| == old(|data|) + if added && 8 + 8 * |ids| >= old(|data|) then 4096 else 0
    {
      hide ListHeld, InsertId, Le64, IdBytes, Overwrite;
      var tables := GetTableIds();
      var found, pos := FindId(tables, id);
      if found {
        return false;
      }
      InsertIdIs(tables, id, pos);
      ListFits(data, ids);
      ghost var before := tables;
      tables := tables[..pos] + [id] + tables[pos..];
      var bytes := IdBytes(tables);
      ghost var start := data;
      var grow := LIST_HEADER + |bytes| >= |data|;
      data := Overwrite(data, 0, Le64(|tables|));
      if grow {
        GrowFirst(start, Le64(|tables|), Zeros(PAGE_SIZE));
        data := data + Zeros(PAGE_SIZE);
        WriteList(start + Zeros(PAGE_SIZE), tables);
      } else {
        WriteList(start, tables);
      }
      data := Overwrite(data, LIST_HEADER, bytes);
      ids := tables;
      return true;
    }

    /** Remove an id; false if it is not there. */
    method Remove(id: TableId) returns (removed: bool)
      requires Valid()
      modifies this
      ensures Valid() && removed == (id in old(ids))
      ensures ids == RemoveIds(old(ids), {id}) && |data| == old(|data|)
    {
      hide ListHeld, RemoveIds, Le64, IdBytes, Overwrite;
      var tables := GetTableIds();
      var found, pos := FindId(tables, id);
      if !found {
        RemoveNothing(tables, {id});
        return false;
      }
      RemoveIdIs(tables, pos);
      ListFits(data, ids);
      tables := tables[..pos] + tables[pos + 1..];
      WriteList(data, tables);
      data := Overwrite(data, 0, Le64(|tables|));
      data := Overwrite(data, LIST_HEADER, IdBytes(tables));
      ids := tables;
      return true;
    }
  }

  lemma ListFits(data: seq<Byte>, ids: seq<TableId>)
    requires ListHeld(data, ids)
    ensures LIST_HEADER + 8 * |ids| < |data| && |ids| < U64 && forall id <- ids :: id < U64
  {
  }

  lemma GrowFirst(data: seq<Byte>, head: seq<Byte>, more: seq<Byte>)
    requires |head| <= |data|
    ensures Overwrite(data, 0, head) + more == Overwrite(data + more, 0, head)
  {
  }

  // ---- changing several levels at once ----

  /** A table on a level */
  datatype Entry = Entry(level: nat, id: TableId)

  /** Add tables one after another; None where the code panics. */
  function AddAll(listed: seq<seq<TableId>>, add: seq<Entry>): Option<seq<seq<TableId>>>
    decreases |add|
  {
    if add == [] then Some(listed)
    else
      var e := add[0];
      if e.level >= |listed| || e.id in listed[e.level] then None
      else AddAll(listed[e.level := InsertId(listed[e.level], e.id)], add[1..])
  }

  /** Remove tables one after another; None where the code panics. */
  function RemoveAll(listed: seq<seq<TableId>>, remove: seq<Entry>): Option<seq<seq<TableId>>>
    decreases |remove|
  {
    if remove == [] then Some(listed)
    else
      var e := remove[0];
      if e.level >= |listed| || e.id !in listed[e.level] then None
      else RemoveAll(listed[e.level := RemoveIds(listed[e.level], {e.id})], remove[1..])
  }

  function Updated(listed: seq<seq<TableId>>, add: seq<Entry>, remove: seq<Entry>): Option<seq<seq<TableId>>> {
    var added := AddAll(listed, add);
    if added.None? then None else RemoveAll(added.value, remove)
  }

  ghost function Listing(levels: seq<LevelMetadata>): (r: seq<seq<TableId>>)
    reads set m | m in levels
    ensures |r| == |levels| && forall i :: 0 <= i < |levels| ==> r[i] == levels[i].ids
  {
    seq(|levels|, i requires 0 <= i < |levels| reads set m | m in levels => levels[i].ids)
  }

  ghost predicate AllValid(levels: seq<LevelMetadata>)
    reads set m | m in levels
  {
    && (forall i :: 0 <= i < |levels| ==> levels[i].Valid())
    && (forall i, j :: 0 <= i < j < |levels| ==> levels[i] != levels[j])
  }

  lemma AddNext(listed: seq<seq<TableId>>, add: seq<Entry>, i: nat)
    requires i < |add|
    ensures
      var e := add[i];
      AddAll(listed, add[i..]) ==
      if e.level >= |listed| || e.id in listed[e.level] then None
      else AddAll(listed[e.level := InsertId(listed[e.level], e.id)], add[i + 1..])
  {
    assert add[i..][1..] == add[i + 1..];
  }

  lemma RemoveNext(listed: seq<seq<TableId>>, remove: seq<Entry>, i: nat)
    requires i < |remove|
    ensures
      var e := remove[i];
      RemoveAll(listed, remove[i..]) ==
      if e.level >= |listed| || e.id !in listed[e.level] then None
      else RemoveAll(listed[e.level := RemoveIds(listed[e.level], {e.id})], remove[i + 1..])
  {
    assert remove[i..][1..] == remove[i + 1..];
  }

  lemma AtEnds(listed: seq<seq<TableId>>, es: seq<Entry>)
    ensures AddAll(listed, es[|es|..]) == Some(listed) && RemoveAll(listed, es[|es|..]) == Some(listed)
    ensures es[0..] == es
  {
  }

  /** Add one table to its level; false if it is listed there already. */
  method AddTable(levels: seq<LevelMetadata>, e: Entry) returns (ok: bool)
    requires AllValid(levels) && e.id < U64 && e.level < |levels| && |levels[e.level].ids| + 1 < U64
    modifies set m | m in levels
    ensures AllValid(levels) && ok == (e.id !in old(Listing(levels))[e.level])
    ensures Listing(levels) ==
            if ok then old(Listing(levels))[e.level := InsertId(old(Listing(levels))[e.level], e.id)]
            else old(Listing(levels))
  {
    hide InsertId, ListHeld, Ascending;
    ok := levels[e.level].Insert(e.id);
  }

  method AddTables(levels: seq<LevelMetadata>, add: seq<Entry>) returns (ok: bool)
    requires AllValid(levels) && (forall e <- add :: e.id < U64) && (forall m <- levels :: |m.ids| + |add| < U64)
    modifies set m | m in levels
    ensures AllValid(levels)
    ensures ok <==> AddAll(old(Listing(levels)), add).Some?
    ensures ok ==> Some(Listing(levels)) == AddAll(old(Listing(levels)), add)
  {
    hide InsertId, AddAll, RemoveAll, AllValid;
    AtEnds(Listing(levels), add);
    for i := 0 to |add|
      invariant AllValid(levels) && forall m :: 0 <= m < |levels| ==> |Listing(levels)[m]| + |add| - i < U64
      invariant AddAll(old(Listing(levels)), add) == AddAll(Listing(levels), add[i..])
    {
      var e := add[i];
      ghost var before := Listing(levels);
      AddNext(before, add, i);
      if e.level >= |levels| {
        return false;
      }
      InsertOne(before[e.level], e.id);
      var added := AddTable(levels, e);
      if !added {
        return false;
      }
    }
    AtEnds(Listing(levels), add);
    return true;
  }

  method RemoveTables(levels: seq<LevelMetadata>, remove: seq<Entry>) returns (ok: bool)
    requires AllValid(levels)
    modifies set m | m in levels
    ensures AllValid(levels)
    ensures ok <==> RemoveAll(old(Listing(levels)), remove).Some?
    ensures ok ==> Some(Listing(levels)) == RemoveAll(old(Listing(levels)), remove)
  {
    hide RemoveIds, AddAll, RemoveAll, ListHeld, Ascending;
    AtEnds(Listing(levels), remove);
    for i := 0 to |remove|
      invariant AllValid(levels)
      invariant RemoveAll(old(Listing(levels)), remove) == RemoveAll(Listing(levels), remove[i..])
    {
      var e := remove[i];
      ghost var before := Listing(levels);
      RemoveNext(before, remove, i);
      if e.level >= |levels| {
        return false;
      }
      var removed := levels[e.level].Remove(e.id);
      if !removed {
        return false;
      }
      assert Listing(levels) == before[e.level := RemoveIds(before[e.level], {e.id})];
    }
    AtEnds(Listing(levels), remove);
    return true;
  }

  /** Add and remove tables. The result is false where the code panics: the table to add is listed already,
      the one to remove is not, or there is no such level. */
  method UpdateTableSet(levels: seq<LevelMetadata>, add: seq<Entry>, remove: seq<Entry>) returns (ok: bool)
    requires AllValid(levels) && (forall e <- add :: e.id < U64) && (forall m <- levels :: |m.ids| + |add| < U64)
    modifies set m | m in levels
    ensures AllValid(levels)
    ensures ok <==> Updated(old(Listing(levels)), add, remove).Some?
    ensures ok ==> Some(Listing(levels)) == Updated(old(Listing(levels)), add, remove)
  {
    hide AddAll, RemoveAll, Listing, AllValid;
    ok := AddTables(levels, add);
    if ok {
      ok := RemoveTables(levels, remove);
    }
  }

  lemma {:induction false} InsertOne(ids: seq<TableId>, id: TableId)
    ensures |InsertId(ids, id)| == |ids| + 1
  {
    if ids != [] && id >= ids[0] {
      InsertOne(ids[1..], id);
    }
  }

  // ---- what a compaction changes ----

  lemma {:induction false} RemoveTwice(ids: seq<TableId>, a: set<TableId>, b: set<TableId>)
    ensures RemoveIds(RemoveIds(ids, a), b) == RemoveIds(ids, a + b)
  {
    if ids != [] {
      RemoveTwice(ids[1..], a, b);
    }
  }

  /** The ids of the entries */
  function EntryIds(es: seq<Entry>): set<TableId> {
    set e | e in es :: e.id
  }

  /** Removing tables of one level one by one removes them all. */
  lemma {:induction false} RemoveLevel(listed: seq<seq<TableId>>, remove: seq<Entry>, rest: seq<Entry>, level: nat)
    requires level < |listed| && (forall e <- remove :: e.level == level && e.id in listed[level])
    requires forall i, j :: 0 <= i < j < |remove| ==> remove[i].id != remove[j].id
    ensures RemoveAll(listed, remove + rest) ==
            RemoveAll(listed[level := RemoveIds(listed[level], EntryIds(remove))], rest)
    decreases |remove|
  {
    hide RemoveIds;
    if remove == [] {
      assert remove + rest == rest && EntryIds(remove) == {};
      RemoveNothing(listed[level], {});
      assert listed[level := listed[level]] == listed;
    } else {
      var e, more := remove[0], remove[1..];
      var listed' := listed[level := RemoveIds(listed[level], {e.id})];
      assert (remove + rest)[1..] == more + rest;
      assert forall x <- more :: x in remove && x.id != e.id;
      RemoveLevel(listed', more, rest, level);
      RemoveTwice(listed[level], {e.id}, EntryIds(more));
      assert {e.id} + EntryIds(more) == EntryIds(remove);
      assert listed'[level := RemoveIds(listed'[level], EntryIds(more))] ==
             listed[level := RemoveIds(listed[level], EntryIds(remove))];
    }
  }

  /** A compaction's update: the new table is added to the child level, and then the tables it was made from are
      removed. */
  lemma CompactionUpdate(listed: seq<seq<TableId>>, parent: nat, id: TableId, kids: seq<Entry>, sel: seq<Entry>)
    requires parent + 1 < |listed| && id !in listed[parent + 1]
    requires (forall e <- kids :: e.level == parent + 1 && e.id in listed[parent + 1])
    requires (forall e <- sel :: e.level == parent && e.id in listed[parent])
    requires forall i, j :: 0 <= i < j < |kids| ==> kids[i].id != kids[j].id
    requires forall i, j :: 0 <= i < j < |sel| ==> sel[i].id != sel[j].id
    ensures Updated(listed, [Entry(parent + 1, id)], kids + sel) ==
            Some(listed[parent + 1 := RemoveIds(InsertId(listed[parent + 1], id), EntryIds(kids))]
                       [parent := RemoveIds(listed[parent], EntryIds(sel))])
  {
    hide RemoveIds, RemoveAll, InsertId;
    var add := [Entry(parent + 1, id)];
    assert add[1..] == [];
    var added := listed[parent + 1 := InsertId(listed[parent + 1], id)];
    assert AddAll(listed, add) == Some(added);
    RemoveLevel(added, kids, sel, parent + 1);
    var next := added[parent + 1 := RemoveIds(added[parent + 1], EntryIds(kids))];
    RemoveLevel(next, sel, [], parent);
    assert sel + [] == sel;
    AtEnds(next[parent := RemoveIds(next[parent], EntryIds(sel))], []);
    assert next[parent := RemoveIds(next[parent], EntryIds(sel))] ==
           listed[parent + 1 := RemoveIds(InsertId(listed[parent + 1], id), EntryIds(kids))]
                 [parent := RemoveIds(listed[parent], EntryIds(sel))];
  }
}
