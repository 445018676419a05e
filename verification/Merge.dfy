/** The k-way merge of a compaction: the newest version of every key, in key order. */
module Merge {
  import opened Keys
  import opened Versions
  import Levels

  /** One entry of a sorted table */
  datatype Row = Row(key: Key, version: Version)

  ghost predicate Sorted(rows: seq<Row>) {
    forall i, j :: 0 <= i < j < |rows| ==> Less(rows[i].key, rows[j].key)
  }

  /** The entries as a map */
  function ToRows(rows: seq<Row>): Rows {
    if rows == [] then map[]
    else ToRows(rows[..|rows| - 1])[rows[|rows| - 1].key := rows[|rows| - 1].version]
  }

  lemma NoRows()
    ensures ToRows([]) == map[]
  {
  }

  lemma {:induction false} ToRowsHolds(rows: seq<Row>)
    requires Sorted(rows)
    ensures forall i :: 0 <= i < |rows| ==> rows[i].key in ToRows(rows) && ToRows(rows)[rows[i].key] == rows[i].version
    ensures forall k <- ToRows(rows) :: exists i :: 0 <= i < |rows| && rows[i].key == k
  {
    if rows != [] {
      var n := |rows| - 1;
      var init := rows[..n];
      ToRowsHolds(init);
      forall i | 0 <= i < n ensures rows[i].key != rows[n].key {
        LessAsymmetric(rows[i].key, rows[n].key);
      }
      assert forall i :: 0 <= i < n ==> init[i] == rows[i];
    }
  }

  predicate Passed(last: Option<Key>, k: Key) {
    last.Some? && Leq(k, last.value)
  }

  /** The first `n` entries are passed, the others are not. */
  ghost predicate Split(rows: seq<Row>, n: nat, last: Option<Key>) {
    && n <= |rows|
    && (forall i :: 0 <= i < n ==> Passed(last, rows[i].key))
    && (forall i :: n <= i < |rows| ==> !Passed(last, rows[i].key))
  }

  /** Some input has this entry. */
  ghost predicate FromInput(inputs: seq<seq<Row>>, r: Row) {
    exists i, n :: 0 <= i < |inputs| && 0 <= n < |inputs[i]| && inputs[i][n] == r
  }

  /** Some entry of `out` has the same key and is at least as new. */
  ghost predicate Superseded(out: seq<Row>, r: Row) {
    exists n :: 0 <= n < |out| && out[n].key == r.key && r.version.num <= out[n].version.num
  }

  /** Step an iterator over the keys that are passed. */
  method Advance(rows: seq<Row>, pos: nat, last: Option<Key>) returns (p: nat)
    requires Sorted(rows) && pos <= |rows| && forall i :: 0 <= i < pos ==> Passed(last, rows[i].key)
    ensures Split(rows, p, last)
  {
    p := pos;
    while p < |rows| && Passed(last, rows[p].key)
      invariant pos <= p <= |rows| && forall i :: 0 <= i < p ==> Passed(last, rows[i].key)
    {
      p := p + 1;
    }
    if p < |rows| {
      forall i | p < i < |rows| ensures !Passed(last, rows[i].key) {
        StillAhead(last, rows[p].key, rows[i].key);
      }
    }
  }

  lemma StillAhead(last: Option<Key>, k: Key, k': Key)
    requires !Passed(last, k) && Less(k, k')
    ensures !Passed(last, k')
  {
    if last.Some? {
      LessTransitive(last.value, k, k');
      LessAsymmetric(last.value, k');
    }
  }

  ghost predicate AllSplit(inputs: seq<seq<Row>>, pos: seq<nat>, last: Option<Key>, n: nat) {
    |pos| == |inputs| && n <= |inputs| && forall i :: 0 <= i < n ==> Split(inputs[i], pos[i], last)
  }

  /** `min` is the smallest key at which one of the first `n` iterators stands. */
  ghost predicate IsMin(inputs: seq<seq<Row>>, pos: seq<nat>, n: nat, min: Option<Key>)
    requires |pos| == |inputs| && n <= |inputs|
  {
    && (min.None? ==> forall i :: 0 <= i < n ==> pos[i] >= |inputs[i]|)
    && (min.Some? ==>
          && (exists i :: 0 <= i < n && pos[i] < |inputs[i]| && inputs[i][pos[i]].key == min.value)
          && (forall i :: 0 <= i < n && pos[i] < |inputs[i]| ==> Leq(min.value, inputs[i][pos[i]].key)))
  }

  /** Advance all iterators and find the smallest key they stand at. */
  method FindMin(inputs: seq<seq<Row>>, pos: seq<nat>, last: Option<Key>) returns (p: seq<nat>, min: Option<Key>)
    requires (forall i :: 0 <= i < |inputs| ==> Sorted(inputs[i])) && |pos| == |inputs|
    requires forall i :: 0 <= i < |inputs| ==>
               pos[i] <= |inputs[i]| && forall n :: 0 <= n < pos[i] ==> Passed(last, inputs[i][n].key)
    ensures AllSplit(inputs, p, last, |inputs|) && IsMin(inputs, p, |inputs|, min)
  {
    p := pos;
    min := None;
    for i := 0 to |inputs|
      invariant |p| == |inputs| && AllSplit(inputs, p, last, i) && IsMin(inputs, p, i, min)
      invariant forall j :: i <= j < |inputs| ==> p[j] == pos[j]
    {
      var q := Advance(inputs[i], p[i], last);
      p := p[i := q];
      if q < |inputs[i]| {
        var key := inputs[i][q].key;
        if min.None? || Less(key, min.value) {
          NewMin(inputs, p, i, min, key);
          min := Some(key);
        } else {
          assert IsMin(inputs, p, i + 1, min);
        }
      }
    }
  }

  lemma NewMin(inputs: seq<seq<Row>>, p: seq<nat>, n: nat, min: Option<Key>, key: Key)
    requires |p| == |inputs| && n < |inputs| && IsMin(inputs, p, n, min)
    requires p[n] < |inputs[n]| && inputs[n][p[n]].key == key && (min.None? || Less(key, min.value))
    ensures IsMin(inputs, p, n + 1, Some(key))
  {
    LessAsymmetric(key, key);
    forall i | 0 <= i < n && p[i] < |inputs[i]| ensures Leq(key, inputs[i][p[i]].key) {
      LessAsymmetric(key, min.value);
      LeqTransitive(key, min.value, inputs[i][p[i]].key);
    }
  }

  /** Among the iterators that stand at `key`, the one with the greatest sequence number */
  method FindNewest(inputs: seq<seq<Row>>, pos: seq<nat>, key: Key) returns (newest: nat)
    requires |pos| == |inputs|
    requires exists i :: 0 <= i < |inputs| && pos[i] < |inputs[i]| && inputs[i][pos[i]].key == key
    ensures newest < |inputs| && pos[newest] < |inputs[newest]| && inputs[newest][pos[newest]].key == key
    ensures forall i :: 0 <= i < |inputs| && pos[i] < |inputs[i]| && inputs[i][pos[i]].key == key ==>
              inputs[i][pos[i]].version.num <= inputs[newest][pos[newest]].version.num
  {
    var found: Option<nat> := None;
    for i := 0 to |inputs|
      invariant found.None? ==> forall j :: 0 <= j < i ==> pos[j] >= |inputs[j]| || inputs[j][pos[j]].key != key
      invariant found.Some? ==>
          && found.value < i && pos[found.value] < |inputs[found.value]|
          && inputs[found.value][pos[found.value]].key == key
          && forall j :: 0 <= j < i && pos[j] < |inputs[j]| && inputs[j][pos[j]].key == key ==>
               inputs[j][pos[j]].version.num <= inputs[found.value][pos[found.value]].version.num
    {
      if pos[i] < |inputs[i]| && inputs[i][pos[i]].key == key {
        if found.None? || inputs[i][pos[i]].version.num > inputs[found.value][pos[found.value]].version.num {
          found := Some(i);
        }
      }
    }
    newest := found.value;
  }

  /** The keys not passed yet */
  ghost function AheadOf(inputs: seq<seq<Row>>, last: Option<Key>): set<Key> {
    set i, n | 0 <= i < |inputs| && 0 <= n < |inputs[i]| && !Passed(last, inputs[i][n].key) :: inputs[i][n].key
  }

  /** What the merge has put out so far: sorted, drawn from the inputs, and covering every passed entry */
  ghost predicate Merged(inputs: seq<seq<Row>>, out: seq<Row>, last: Option<Key>) {
    && Sorted(out)
    && (last.None? <==> out == []) && (last.Some? ==> last.value == out[|out| - 1].key)
    && (forall n :: 0 <= n < |out| ==> FromInput(inputs, out[n]))
    && (forall i, n :: 0 <= i < |inputs| && 0 <= n < |inputs[i]| && Passed(last, inputs[i][n].key) ==>
          Superseded(out, inputs[i][n]))
  }

  /** An entry passed by moving the boundary to `key` is one that stands exactly at `key`. */
  lemma NewlyPassed(inputs: seq<seq<Row>>, pos: seq<nat>, last: Option<Key>, key: Key, i: nat, n: nat)
    requires AllSplit(inputs, pos, last, |inputs|) && IsMin(inputs, pos, |inputs|, Some(key))
    requires i < |inputs| && n < |inputs[i]| && Sorted(inputs[i])
    requires Passed(Some(key), inputs[i][n].key) && !Passed(last, inputs[i][n].key)
    ensures n == pos[i] && inputs[i][n].key == key
  {
    assert Split(inputs[i], pos[i], last);
    LessTotal(inputs[i][pos[i]].key, key);
    if pos[i] < n {
      LessLeqTransitive(inputs[i][pos[i]].key, inputs[i][n].key, key);
      assert false;
    }
  }

  /** The iterators after FindMin and FindNewest: `newest` stands at `key`, and no iterator at `key` is newer. */
  ghost predicate Chosen(inputs: seq<seq<Row>>, pos: seq<nat>, last: Option<Key>, key: Key, newest: nat) {
    && (forall i :: 0 <= i < |inputs| ==> Sorted(inputs[i]))
    && AllSplit(inputs, pos, last, |inputs|) && IsMin(inputs, pos, |inputs|, Some(key))
    && newest < |inputs| && pos[newest] < |inputs[newest]| && inputs[newest][pos[newest]].key == key
    && forall i :: 0 <= i < |inputs| && pos[i] < |inputs[i]| && inputs[i][pos[i]].key == key ==>
         inputs[i][pos[i]].version.num <= inputs[newest][pos[newest]].version.num
  }

  lemma NextCovers(inputs: seq<seq<Row>>, pos: seq<nat>, out: seq<Row>, last: Option<Key>, key: Key, newest: nat,
                   i: nat, n: nat)
    requires Chosen(inputs, pos, last, key, newest) && i < |inputs| && n < |inputs[i]|
    requires Passed(last, inputs[i][n].key) ==> Superseded(out, inputs[i][n])
    requires Passed(Some(key), inputs[i][n].key)
    ensures Superseded(out + [inputs[newest][pos[newest]]], inputs[i][n])
  {
    var out' := out + [inputs[newest][pos[newest]]];
    if Passed(last, inputs[i][n].key) {
      var m :| 0 <= m < |out| && out[m].key == inputs[i][n].key && inputs[i][n].version.num <= out[m].version.num;
      assert out'[m] == out[m];
    } else {
      NewlyPassed(inputs, pos, last, key, i, n);
      assert out'[|out|] == inputs[newest][pos[newest]];
    }
  }

  lemma MergedNext(inputs: seq<seq<Row>>, pos: seq<nat>, out: seq<Row>, last: Option<Key>, key: Key, newest: nat)
    requires Merged(inputs, out, last) && Chosen(inputs, pos, last, key, newest)
    ensures Merged(inputs, out + [inputs[newest][pos[newest]]], Some(key))
    ensures AheadOf(inputs, Some(key)) < AheadOf(inputs, last)
  {
    hide Superseded, AheadOf, FromInput, IsMin, Sorted;
    var r := inputs[newest][pos[newest]];
    var out' := out + [r];
    assert !Passed(last, key) by { assert Split(inputs[newest], pos[newest], last); }
    NextSorted(out, last, r);
    forall i, n | 0 <= i < |inputs| && 0 <= n < |inputs[i]| && Passed(Some(key), inputs[i][n].key)
      ensures Superseded(out', inputs[i][n])
    {
      NextCovers(inputs, pos, out, last, key, newest, i, n);
    }
    InputFrom(inputs, newest, pos[newest]);
    AheadShrinks(inputs, last, key, newest, pos[newest]);
  }

  lemma InputFrom(inputs: seq<seq<Row>>, i: nat, n: nat)
    requires i < |inputs| && n < |inputs[i]|
    ensures FromInput(inputs, inputs[i][n])
  {
  }

  lemma NextSorted(out: seq<Row>, last: Option<Key>, r: Row)
    requires Sorted(out) && (last.None? <==> out == []) && (last.Some? ==> last.value == out[|out| - 1].key)
    requires !Passed(last, r.key)
    ensures Sorted(out + [r])
  {
    forall i | 0 <= i < |out| ensures Less(out[i].key, r.key) {
      if i < |out| - 1 { LessTransitive(out[i].key, last.value, r.key); }
    }
  }

  lemma AheadShrinks(inputs: seq<seq<Row>>, last: Option<Key>, key: Key, i: nat, n: nat)
    requires i < |inputs| && n < |inputs[i]| && inputs[i][n].key == key && !Passed(last, key)
    ensures AheadOf(inputs, Some(key)) < AheadOf(inputs, last)
  {
    LessAsymmetric(key, key);
    assert key in AheadOf(inputs, last);
    forall k | k in AheadOf(inputs, Some(key)) ensures k in AheadOf(inputs, last) && k != key {
      StillAhead(last, key, k);
    }
  }

  /** The compaction loop: repeatedly take the smallest key that is left and its newest entry. */
  method MergeTables(inputs: seq<seq<Row>>) returns (out: seq<Row>)
    requires forall i :: 0 <= i < |inputs| ==> Sorted(inputs[i])
    ensures Sorted(out)
    ensures forall n :: 0 <= n < |out| ==> FromInput(inputs, out[n])
    ensures forall i, n :: 0 <= i < |inputs| && 0 <= n < |inputs[i]| ==> Superseded(out, inputs[i][n])
  {
    var last: Option<Key> := None;
    var pos: seq<nat> := seq(|inputs|, i => 0);
    out := [];
    while true
      invariant |pos| == |inputs|
      invariant forall i :: 0 <= i < |inputs| ==>
                  pos[i] <= |inputs[i]| && forall n :: 0 <= n < pos[i] ==> Passed(last, inputs[i][n].key)
      invariant Merged(inputs, out, last)
      decreases AheadOf(inputs, last)
    {
      var min;
      pos, min := FindMin(inputs, pos, last);
      if min.None? {
        assert forall i :: 0 <= i < |inputs| ==> Split(inputs[i], pos[i], last);
        break;
      }
      var newest := FindNewest(inputs, pos, min.value);
      MergedNext(inputs, pos, out, last, min.value, newest);
      forall i, n | 0 <= i < |inputs| && 0 <= n < pos[i] ensures n < |inputs[i]| && Passed(min, inputs[i][n].key) {
        assert Split(inputs[i], pos[i], last);
        PassedFurther(last, min.value, inputs[i][n].key) by { assert Split(inputs[newest], pos[newest], last); }
      }
      out := out + [inputs[newest][pos[newest]]];
      last := min;
    }
  }

  lemma PassedFurther(last: Option<Key>, key: Key, k: Key)
    requires Passed(last, k) && !Passed(last, key)
    ensures Passed(Some(key), k)
  {
    LessAsymmetric(last.value, key);
    LeqTransitive(k, last.value, key);
  }

  /** `tables[i]` holds exactly the entries `inputs[i]`. */
  ghost predicate Hold(tables: seq<Levels.Table>, inputs: seq<seq<Row>>) {
    |inputs| == |tables| && forall i :: 0 <= i < |inputs| ==> Sorted(inputs[i]) && tables[i].rows == ToRows(inputs[i])
  }

  function TableSet(tables: seq<Levels.Table>): set<Levels.Table> {
    set t | t in tables
  }

  lemma MergeDrawn(tables: seq<Levels.Table>, inputs: seq<seq<Row>>, out: seq<Row>, k: Key)
    requires Hold(tables, inputs) && Sorted(out) && k in ToRows(out)
    requires forall n :: 0 <= n < |out| ==> FromInput(inputs, out[n])
    ensures exists t :: t in TableSet(tables) && k in t.rows && t.rows[k] == ToRows(out)[k]
  {
    hide ToRows;
    ToRowsHolds(out);
    var n :| 0 <= n < |out| && out[n].key == k;
    assert FromInput(inputs, out[n]);
    var i, m :| 0 <= i < |inputs| && 0 <= m < |inputs[i]| && inputs[i][m] == out[n];
    ToRowsHolds(inputs[i]);
    assert tables[i] in TableSet(tables);
  }

  lemma MergeCovers(tables: seq<Levels.Table>, inputs: seq<seq<Row>>, out: seq<Row>, t: Levels.Table, k: Key)
    requires Hold(tables, inputs) && Sorted(out) && t in tables && k in t.rows
    requires forall i, n :: 0 <= i < |inputs| && 0 <= n < |inputs[i]| ==> Superseded(out, inputs[i][n])
    ensures k in ToRows(out) && t.rows[k].num <= ToRows(out)[k].num
  {
    hide ToRows;
    ToRowsHolds(out);
    var i :| 0 <= i < |tables| && tables[i] == t;
    ToRowsHolds(inputs[i]);
    var n :| 0 <= n < |inputs[i]| && inputs[i][n].key == k;
    assert Superseded(out, inputs[i][n]);
  }

  /** The output of the merge loop is what an install may put in place of the merged tables. */
  lemma MergeIsMerge(tables: seq<Levels.Table>, inputs: seq<seq<Row>>, out: seq<Row>)
    requires Hold(tables, inputs) && Sorted(out)
    requires forall n :: 0 <= n < |out| ==> FromInput(inputs, out[n])
    requires forall i, n :: 0 <= i < |inputs| && 0 <= n < |inputs[i]| ==> Superseded(out, inputs[i][n])
    ensures Levels.IsMerge(ToRows(out), TableSet(tables))
  {
    hide ToRows, Sorted, FromInput, Superseded, Hold;
    forall k | k in ToRows(out)
      ensures exists t :: t in TableSet(tables) && k in t.rows && t.rows[k] == ToRows(out)[k]
    {
      MergeDrawn(tables, inputs, out, k);
    }
    forall t, k | t in TableSet(tables) && k in t.rows
      ensures k in ToRows(out) && t.rows[k].num <= ToRows(out)[k].num
    {
      MergeCovers(tables, inputs, out, t, k);
    }
  }
}
