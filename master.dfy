/**
 * The demo's `MasterViewController`: a list of `Event` records kept in the
 * order the user gives them, by writing each record's `position`. The records
 * are fetched sorted by position, then by time stamp; `numberOfItems` counts
 * them so that a new record can be given the next position.
 */
module MasterDemo {
  import opened Options
  import opened Sequences
  import opened Paths
  import opened TableOps
  import opened Reorder
  import opened FetchedResultsTable

  /** An `Event` managed object; its time stamp is an abstract clock reading. */
  class Record {
    var position: int
    const timeStamp: int

    constructor (timeStamp: int, position: int)
      ensures this.timeStamp == timeStamp && this.position == position
    {
      this.timeStamp := timeStamp;
      this.position := position;
    }
  }

  /** The fetch request's sort order: `position` ascending, then `timeStamp` ascending. */
  predicate SortsBefore(a: Record, b: Record)
    reads a, b
  {
    a.position < b.position || (a.position == b.position && a.timeStamp < b.timeStamp)
  }

  /** Every record's position is its index in the list. */
  ghost predicate PositionsAreIndices(items: seq<Record>)
    reads items
  {
    forall i :: 0 <= i < |items| ==> items[i].position == i
  }

  /** The index at which a sorted fetch places `r` among `items`: the records that sort before it. */
  function InsertionIndex(items: seq<Record>, r: Record): (k: nat)
    reads items, r
    ensures k <= |items|
  {
    if items == [] then 0
    else (if SortsBefore(items[0], r) then 1 else 0) + InsertionIndex(items[1..], r)
  }

  /** A record placed after every record in `items` sorts after all of them. */
  lemma {:induction false} HigherPositionSortsLast(items: seq<Record>, r: Record)
    requires forall i :: 0 <= i < |items| ==> items[i].position < r.position
    ensures InsertionIndex(items, r) == |items|
  {
    if items != [] {
      HigherPositionSortsLast(items[1..], r);
    }
  }

  /**
   * When the positions are the indices 0..n-1 and the counter is n, the record
   * `insertNewObject` creates (position n) sorts last.
   */
  lemma NewRecordSortsLast(items: seq<Record>, r: Record, numberOfItems: int)
    requires PositionsAreIndices(items) && numberOfItems == |items|
    requires r.position == numberOfItems
    ensures forall i :: 0 <= i < |items| ==> SortsBefore(items[i], r)
    ensures InsertionIndex(items, r) == |items|
  {
    HigherPositionSortsLast(items, r);
  }

  class MasterViewController {
    var numberOfItems: int
    const table: FetchedResultsTableViewController<Record>
    /** The records `insertNewObject` has inserted into the context, oldest first. */
    var inserted: seq<Record>

    ghost predicate Valid()
      reads this, table
    {
      && table.Valid()
      && table.results.Some? && |table.results.value| <= 1
      && table.allowEditing && table.allowReordering
      && table.hasReorderCellClosure && table.hasWillDeleteObjectClosure
    }

    /**
     * `viewDidLoad` with the fetch it triggers: the table is configured with
     * the fetched records (one section at most, since the fetch has no section
     * key path), editing and reordering are allowed, both closures are set,
     * and `numberOfItems` starts at the number of fetched records.
     */
    constructor (fetched: seq<seq<Record>>)
      requires |fetched| <= 1 && Distinct(Flatten(fetched))
      ensures Valid() && fresh(table)
      ensures table.results == Some(fetched) && table.log == [] && table.effects == []
      ensures numberOfItems == |Flatten(fetched)|
      ensures inserted == []
    {
      var t := new FetchedResultsTableViewController<Record>();
      t.results := Some(fetched);
      t.allowEditing, t.allowReordering := true, true;
      t.hasReorderCellClosure, t.hasWillDeleteObjectClosure := true, true;
      table := t;
      numberOfItems := |Flatten(fetched)|;
      inserted := [];
    }

    /**
     * `insertNewObject`: with a fetched results controller, a new record is
     * stamped with the current time and with position `numberOfItems`, and the
     * counter goes up by one; without one nothing happens.
     */
    method InsertNewObject(now: int) returns (created: Option<Record>)
      modifies this`numberOfItems, this`inserted
      ensures table.results.None? ==>
        created.None? && numberOfItems == old(numberOfItems) && inserted == old(inserted)
      ensures table.results.Some? ==>
        && created.Some? && fresh(created.value)
        && created.value.timeStamp == now
        && created.value.position == old(numberOfItems)
        && numberOfItems == old(numberOfItems) + 1
        && inserted == old(inserted) + [created.value]
    {
      if table.results.Some? {
        var r := new Record(now, numberOfItems);
        numberOfItems := numberOfItems + 1;
        inserted := inserted + [r];
        created := Some(r);
      } else {
        created := None;
      }
    }

    /** The will-delete closure: one item fewer, nothing else changes. */
    method WillDeleteObject(item: Record)
      modifies this`numberOfItems
      ensures numberOfItems == old(numberOfItems) - 1
    {
      numberOfItems := numberOfItems - 1;
    }

    /**
     * The reorder closure: each record's position becomes its index in
     * `items`, so the fetch's sort order agrees with the list order. The list
     * itself and every time stamp are left as they are.
     */
    method ReorderCells(items: seq<Record>)
      requires Distinct(items)
      modifies items
      ensures PositionsAreIndices(items)
      ensures forall i, j :: 0 <= i < j < |items| ==> SortsBefore(items[i], items[j])
    {
      var pos := 0;
      while pos < |items|
        invariant 0 <= pos <= |items|
        invariant forall i :: 0 <= i < pos ==> items[i].position == i
      {
        items[pos].position := pos;
        pos := pos + 1;
      }
    }

    /**
     * A delete committed from the table view, with the demo's will-delete
     * closure run before the record leaves the context.
     */
    method CommitDelete(path: IndexPath)
      requires Valid() && ValidPath(table.results.value, path)
      modifies this`numberOfItems, table`effects
      ensures Valid()
      ensures numberOfItems == old(numberOfItems) - 1
      ensures table.effects == old(table.effects) + [WillDeleteHook(table.ObjectAt(path)), ContextDelete(table.ObjectAt(path))]
      ensures table.log == old(table.log)
    {
      WillDeleteObject(table.ObjectAt(path));
      table.CommitEditingStyle(DeleteStyle, path);
    }

    /**
     * A row moved by the user, with the demo's reorder closure run on the
     * reordered records: afterwards every record's position is its index in
     * the new order, and the table view received nothing. With one section,
     * the list the library builds as written is the corrected one.
     */
    method MoveRow(from: IndexPath, to: IndexPath, closureEvents: seq<StoreEvent>) returns (items: seq<Record>)
      requires Valid() && MoveWithinSection(table.results.value, from, to)
      modifies table`userDrivenDataModelChange, table`log, table`effects
      modifies Flatten(table.results.value)
      ensures Valid()
      ensures items == MovedList(table.results.value, from, to)
      ensures items == MovedListAsWritten(table.results.value, from, to)
      ensures table.log == old(table.log)
      ensures table.effects == old(table.effects) + [ReorderHook(items)]
      ensures PositionsAreIndices(items)
      ensures forall i, j :: 0 <= i < j < |items| ==> SortsBefore(items[i], items[j])
    {
      var handed := table.MoveRow(from, to, closureEvents);
      items := handed.value;
      ghost var sections := table.results.value;
      assert sections == old(table.results.value);
      MovedListSameObjects(sections, from, to);
      assert forall i :: 0 <= i < |items| ==> items[i] in Flatten(sections);
      assert Valid();
      ReorderCells(items);
      assert table.results.value == sections;
      assert sections[..to.section] == [];
      AsWrittenAgreesWithoutEarlierRows(sections, from, to);
    }
  }
}
