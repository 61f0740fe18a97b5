/**
 * The reordered list that `moveRowAtIndexPath:toIndexPath:` hands to the
 * reorder closure: the fetched objects with the moved object taken out and
 * put back at its new place.
 */
module Reorder {
  import opened Sequences
  import opened Paths

  /** The object the user drags. */
  function MovedItem<T>(ss: seq<seq<T>>, from: IndexPath): T
    requires ValidPath(ss, from)
  {
    ss[from.section][from.row]
  }

  /**
   * The list as the code builds it: the dragged object is removed by value
   * from the flat fetched objects and inserted at flat index `to.row`, the
   * row number within the target section. It is still a permutation of the
   * fetched objects; only the insertion index is off.
   */
  function MovedListAsWritten<T(==)>(ss: seq<seq<T>>, from: IndexPath, to: IndexPath): (r: seq<T>)
    requires MoveWithinSection(ss, from, to) && Distinct(Flatten(ss))
    ensures |r| == |Flatten(ss)|
    ensures multiset(r) == multiset(Flatten(ss))
  {
    var flat, item := Flatten(ss), MovedItem(ss, from);
    RemovedLength(ss, from);
    FlatIndexOf(ss, from.section, from.row);
    RemoveAtMultiset(flat, Offset(ss, from.section) + from.row);
    InsertAtMultiset(RemoveAll(flat, item), to.row, item);
    InsertAt(RemoveAll(flat, item), to.row, item)
  }

  /**
   * The list with the dragged object inserted at the flat index of its target
   * row: the rows of the sections before the target section, plus `to.row`.
   */
  function MovedList<T(==)>(ss: seq<seq<T>>, from: IndexPath, to: IndexPath): seq<T>
    requires MoveWithinSection(ss, from, to) && Distinct(Flatten(ss))
  {
    var item := MovedItem(ss, from);
    RemovedLength(ss, from);
    InsertAt(RemoveAll(Flatten(ss), item), Offset(ss, to.section) + to.row, item)
  }

  /** Removing the dragged object takes exactly one entry out of the flat list. */
  lemma RemovedLength<T>(ss: seq<seq<T>>, from: IndexPath)
    requires ValidPath(ss, from) && Distinct(Flatten(ss))
    ensures Offset(ss, from.section) + |ss[from.section]| <= |Flatten(ss)|
    ensures RemoveAll(Flatten(ss), MovedItem(ss, from)) == RemoveAt(Flatten(ss), Offset(ss, from.section) + from.row)
    ensures |RemoveAll(Flatten(ss), MovedItem(ss, from))| + 1 == |Flatten(ss)|
  {
    var flat, k := Flatten(ss), Offset(ss, from.section) + from.row;
    FlattenSplit(ss, from.section);
    FlatIndexOf(ss, from.section, from.row);
    assert flat[k] == MovedItem(ss, from);
    RemoveAllOfDistinct(flat, k);
    assert |RemoveAt(flat, k)| == |flat| - 1;
  }

  /** Moving `s[i]` to index `j` of the same list. */
  function MoveWithin<T>(s: seq<T>, i: nat, j: nat): seq<T>
    requires i < |s| && j < |s|
  {
    InsertAt(RemoveAt(s, i), j, s[i])
  }

  /** Removing the dragged object only shortens its own section's part of the flat list. */
  lemma RemovedFromSection<T>(ss: seq<seq<T>>, from: IndexPath)
    requires ValidPath(ss, from) && Distinct(Flatten(ss))
    ensures RemoveAll(Flatten(ss), MovedItem(ss, from))
         == Flatten(ss[..from.section]) + RemoveAt(ss[from.section], from.row) + Flatten(ss[from.section + 1..])
  {
    var s := from.section;
    var before, sec, after := Flatten(ss[..s]), ss[s], Flatten(ss[s + 1..]);
    RemovedLength(ss, from);
    FlattenSplit(ss, s);
    RemoveAtSplit(before, sec, after, from.row);
  }

  /**
   * The reordered list is the fetched objects of the table after the drag:
   * the target section reordered by the move, every other section as it was,
   * flattened in section order.
   */
  lemma MovedListReordersOneSection<T>(ss: seq<seq<T>>, from: IndexPath, to: IndexPath)
    requires MoveWithinSection(ss, from, to) && Distinct(Flatten(ss))
    ensures MovedList(ss, from, to)
         == Flatten(ss[from.section := MoveWithin(ss[from.section], from.row, to.row)])
  {
    var s, item := from.section, MovedItem(ss, from);
    var before, sec, after := Flatten(ss[..s]), ss[s], Flatten(ss[s + 1..]);
    var rest := RemoveAt(sec, from.row);
    RemovedFromSection(ss, from);
    InsertAtSplit(before, rest, after, to.row, item);
    assert MovedList(ss, from, to) == before + MoveWithin(sec, from.row, to.row) + after;
    FlattenUpdate(ss, s, MoveWithin(sec, from.row, to.row));
  }

  /**
   * The reordered list is a permutation of the fetched objects of the same
   * length; the dragged object sits at the flat index of the target row; the
   * other objects keep their relative order; no object occurs twice.
   */
  lemma MovedListIsPermutation<T>(ss: seq<seq<T>>, from: IndexPath, to: IndexPath)
    requires MoveWithinSection(ss, from, to) && Distinct(Flatten(ss))
    ensures |MovedList(ss, from, to)| == |Flatten(ss)|
    ensures Offset(ss, to.section) + to.row < |Flatten(ss)|
    ensures multiset(MovedList(ss, from, to)) == multiset(Flatten(ss))
    ensures MovedList(ss, from, to)[Offset(ss, to.section) + to.row] == MovedItem(ss, from)
    ensures RemoveAll(MovedList(ss, from, to), MovedItem(ss, from)) == RemoveAll(Flatten(ss), MovedItem(ss, from))
    ensures Distinct(MovedList(ss, from, to))
  {
    var flat, item := Flatten(ss), MovedItem(ss, from);
    RemovedLength(ss, from);
    var k := Offset(ss, from.section) + from.row;
    FlatIndexOf(ss, from.section, from.row);
    var t := RemoveAll(flat, item);
    var j := Offset(ss, to.section) + to.row;
    assert MovedList(ss, from, to) == InsertAt(t, j, item);
    RemoveAtMultiset(flat, k);
    InsertAtMultiset(t, j, item);
    RemoveAllInsertAt(t, j, item);
    RemoveAllAbsent(t, item);
    DistinctRemoveAt(flat, k);
    DistinctInsertAt(t, j, item);
  }

  /** The reordered list holds exactly the fetched objects, each once. */
  lemma MovedListSameObjects<T>(ss: seq<seq<T>>, from: IndexPath, to: IndexPath)
    requires MoveWithinSection(ss, from, to) && Distinct(Flatten(ss))
    ensures forall x :: x in MovedList(ss, from, to) <==> x in Flatten(ss)
    ensures Distinct(MovedList(ss, from, to))
  {
    MovedListIsPermutation(ss, from, to);
    forall x ensures x in MovedList(ss, from, to) <==> x in Flatten(ss) {
      assert x in MovedList(ss, from, to) <==> x in multiset(MovedList(ss, from, to));
      assert x in Flatten(ss) <==> x in multiset(Flatten(ss));
    }
  }

  /**
   * The code as written agrees with the corrected list when no rows precede
   * the target section, in particular for a table with one section.
   */
  lemma AsWrittenAgreesWithoutEarlierRows<T>(ss: seq<seq<T>>, from: IndexPath, to: IndexPath)
    requires MoveWithinSection(ss, from, to) && Distinct(Flatten(ss))
    requires Offset(ss, to.section) == 0
    ensures MovedListAsWritten(ss, from, to) == MovedList(ss, from, to)
  {
  }

  /** The two-section table [[1], [2, 3]] used below. */
  lemma TwoSections()
    ensures Flatten([[1], [2, 3]]) == [1, 2, 3]
    ensures Offset([[1], [2, 3]], 1) == 1
    ensures Distinct([1, 2, 3])
  {
    var ss: seq<seq<int>> := [[1], [2, 3]];
    assert ss[1..] == [[2, 3]];
    assert ss[1..][1..] == [];
    assert ss[..1] == [[1]];
    assert [[1]][1..] == [];
  }

  /** Taking the middle object out of [1, 2, 3]. */
  lemma RemoveMiddle()
    ensures RemoveAll([1, 2, 3], 2) == [1, 3]
  {
    assert Distinct([1, 2, 3]);
    RemoveAllOfDistinct([1, 2, 3], 1);
    assert RemoveAt([1, 2, 3], 1) == [1, 3];
  }

  /**
   * The code as written misplaces a row moved inside any section but the
   * first: with sections [[1], [2, 3]], dragging row 0 of section 1 to row 1
   * hands [1, 2, 3] (the order is unchanged) to the reorder closure, where the
   * table shows [1, 3, 2].
   */
  lemma AsWrittenMisplacesInLaterSection()
    ensures Flatten([[1], [2, 3]]) == [1, 2, 3]
    ensures MovedListAsWritten([[1], [2, 3]], IndexPath(1, 0), IndexPath(1, 1)) == [1, 2, 3]
    ensures MovedList([[1], [2, 3]], IndexPath(1, 0), IndexPath(1, 1)) == [1, 3, 2]
  {
    TwoSections();
    RemoveMiddle();
    assert InsertAt([1, 3], 1, 2) == [1, 2, 3];
    assert InsertAt([1, 3], 2, 2) == [1, 3, 2];
  }

  /** The one-section table [[10, 20, 30]] used below. */
  lemma OneSection()
    ensures Flatten([[10, 20, 30]]) == [10, 20, 30]
    ensures Offset([[10, 20, 30]], 0) == 0
    ensures Distinct([10, 20, 30])
    ensures RemoveAll([10, 20, 30], 10) == [20, 30]
  {
    var ss: seq<seq<int>> := [[10, 20, 30]];
    assert ss[1..] == [];
    assert ss[..0] == [];
    RemoveAllOfDistinct([10, 20, 30], 0);
    assert RemoveAt([10, 20, 30], 0) == [20, 30];
  }

  /**
   * End-to-end: dragging the first of three objects to the last row hands the
   * reorder closure the list with that object at the end.
   */
  lemma MoveFirstToLast()
    ensures Flatten([[10, 20, 30]]) == [10, 20, 30]
    ensures MovedList([[10, 20, 30]], IndexPath(0, 0), IndexPath(0, 2)) == [20, 30, 10]
  {
    OneSection();
    assert InsertAt([20, 30], 2, 10) == [20, 30, 10];
  }
}
