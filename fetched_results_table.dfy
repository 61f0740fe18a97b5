/**
 * `FetchedResultsTableViewController`: a table view controller driven by a
 * fetched results controller. The table view is modelled by the log of the
 * primitives the controller sends it; the managed object context and the
 * host's closures by the log of the calls the controller makes to them.
 */
module FetchedResultsTable {
  import opened Options
  import opened Sequences
  import opened Paths
  import opened TableOps
  import opened Reorder

  /** `UITableViewCellEditingStyle`. */
  datatype EditingStyle = NoEditing | DeleteStyle | InsertStyle

  /** A call the controller makes outside the table view. */
  datatype Effect<T> =
    | WillDeleteHook(item: T)     // willDeleteObjectClosure(object:)
    | ContextDelete(item: T)      // managedObjectContext.deleteObject
    | ReorderHook(items: seq<T>)    // reorderCellClosure(items:)

  /**
   * The copy of the fetched objects that `moveRowAtIndexPath:toIndexPath:`
   * reorders: the dragged object is removed by value and inserted again at
   * the flat index of the target row. The result is a permutation of the
   * fetched objects with the dragged object at that index and every other
   * object in its old relative order.
   */
  method ReorderedObjects<T(==)>(sections: seq<seq<T>>, from: IndexPath, to: IndexPath) returns (items: seq<T>)
    requires MoveWithinSection(sections, from, to) && Distinct(Flatten(sections))
    ensures items == MovedList(sections, from, to)
    ensures multiset(items) == multiset(Flatten(sections))
    ensures Offset(sections, to.section) + to.row < |items|
    ensures items[Offset(sections, to.section) + to.row] == MovedItem(sections, from)
    ensures RemoveAll(items, MovedItem(sections, from)) == RemoveAll(Flatten(sections), MovedItem(sections, from))
    ensures Distinct(items)
  {
    var item := sections[from.section][from.row];
    RemovedLength(sections, from);
    items := RemoveAll(Flatten(sections), item);
    items := InsertAt(items, Offset(sections, to.section) + to.row, item);
    assert items == MovedList(sections, from, to);
    MovedListIsPermutation(sections, from, to);
  }

  class FetchedResultsTableViewController<T(==)> {
    /** The sections of the fetched results controller; None when no controller is set. */
    var results: Option<seq<seq<T>>>
    var allowEditing: bool
    var allowReordering: bool
    /** Whether the optional reorder and will-delete closures are set. */
    var hasReorderCellClosure: bool
    var hasWillDeleteObjectClosure: bool
    /** Set while the user's own reorder is written to the store. */
    var userDrivenDataModelChange: bool
    /** Every primitive sent to the table view, oldest first. */
    var log: seq<TableOp>
    /** Every call made to the context and to the host's closures, oldest first. */
    var effects: seq<Effect<T>>

    /**
     * Between two store batches: not suppressed, every primitive sent so far
     * lies inside a closed beginUpdates/endUpdates scope, and the fetched
     * objects are distinct managed objects.
     */
    ghost predicate Valid()
      reads this
    {
      && !userDrivenDataModelChange
      && Scan(log, Closed) == Some(Closed)
      && (results.Some? ==> Distinct(Flatten(results.value)))
    }

    /** A controller as created: nothing configured, nothing sent. */
    constructor ()
      ensures Valid()
      ensures results.None? && !allowEditing && !allowReordering
      ensures !hasReorderCellClosure && !hasWillDeleteObjectClosure
      ensures log == [] && effects == []
    {
      results := None;
      allowEditing, allowReordering := false, false;
      hasReorderCellClosure, hasWillDeleteObjectClosure := false, false;
      userDrivenDataModelChange := false;
      log, effects := [], [];
    }

    // -------------------------------------------------------------------------
    // Data source

    /** `numberOfSectionsInTableView`: 0 while no fetched results controller is set. */
    function NumberOfSections(): (n: nat)
      reads this
      ensures results.None? ==> n == 0
      ensures results.Some? ==> n == |results.value|
    {
      if results.Some? then |results.value| else 0
    }

    /** `tableView:numberOfRowsInSection:`. */
    function NumberOfRows(section: nat): (n: nat)
      reads this
      requires results.Some? && section < |results.value|
      ensures n == |results.value[section]|
    {
      |results.value[section]|
    }

    /** `objectAtIndexPath`: the fetched object shown at `path`. */
    function ObjectAt(path: IndexPath): (item: T)
      reads this
      requires results.Some? && ValidPath(results.value, path)
      ensures Offset(results.value, path.section) + path.row < |Flatten(results.value)|
      ensures item == Flatten(results.value)[Offset(results.value, path.section) + path.row]
    {
      FlatIndexOf(results.value, path.section, path.row);
      results.value[path.section][path.row]
    }

    /** The rows of all sections add up to the fetched objects. */
    lemma RowsAddUpToFetchedObjects()
      requires results.Some?
      ensures TotalLength(results.value) == |Flatten(results.value)|
    {
      FlattenLength(results.value);
    }

    /** `tableView:canEditRowAtIndexPath:`: one policy for every row. */
    function CanEdit(path: IndexPath): (editable: bool)
      reads this
      ensures editable == allowEditing
    {
      allowEditing
    }

    /** `tableView:canMoveRowAtIndexPath:`: one policy for every row. */
    function CanMove(path: IndexPath): (movable: bool)
      reads this
      ensures movable == allowReordering
    {
      allowReordering
    }

    // -------------------------------------------------------------------------
    // Commands from the table view

    /**
     * `tableView:commitEditingStyle:forRowAtIndexPath:`. A delete hands the
     * object to the will-delete closure and then deletes it from the context;
     * the table view is not touched (the row disappears when the store reports
     * the deletion). An insert, or a controller without a fetched results
     * controller, does nothing.
     */
    method CommitEditingStyle(style: EditingStyle, path: IndexPath)
      requires style == DeleteStyle && results.Some? ==> ValidPath(results.value, path)
      modifies this`effects
      ensures style == DeleteStyle && results.Some? ==>
        var item := ObjectAt(path);
        effects == old(effects)
                   + (if hasWillDeleteObjectClosure then [WillDeleteHook(item)] else [])
                   + [ContextDelete(item)]
      ensures !(style == DeleteStyle && results.Some?) ==> effects == old(effects)
    {
      if style == DeleteStyle {
        if results.Some? {
          var item := ObjectAt(path);
          if hasWillDeleteObjectClosure {
            effects := effects + [WillDeleteHook(item)];
          }
          effects := effects + [ContextDelete(item)];
        }
      } else if style == InsertStyle {
        // the source leaves this branch empty
      }
    }

    /**
     * `tableView:moveRowAtIndexPath:toIndexPath:`. With the flag raised, the
     * reordered fetched objects are handed to the reorder closure; the store
     * notifications its saving causes (`closureEvents`) reach the delegate
     * callbacks while the flag is still raised, so they send nothing to the
     * table view. The flag is lowered on return, also when no fetched results
     * controller is set and nothing is handed over.
     */
    method MoveRow(from: IndexPath, to: IndexPath, closureEvents: seq<StoreEvent>) returns (items: Option<seq<T>>)
      requires Valid()
      requires results.Some? ==> MoveWithinSection(results.value, from, to)
      modifies this`userDrivenDataModelChange, this`log, this`effects
      ensures Valid()
      ensures log == old(log)
      ensures results.None? ==> items.None? && effects == old(effects)
      ensures results.Some? ==>
        && items == Some(MovedList(results.value, from, to))
        && effects == old(effects) + (if hasReorderCellClosure then [ReorderHook(items.value)] else [])
    {
      userDrivenDataModelChange := true;
      if results.Some? {
        var reordered := ReorderedObjects(results.value, from, to);
        items := Some(reordered);
        if hasReorderCellClosure {
          CallReorderClosure(reordered, closureEvents);
        }
      } else {
        items := None;
      }
      userDrivenDataModelChange := false;
    }

    /**
     * The reorder closure's call while the flag is raised: it receives the
     * reordered objects, and the notifications its store changes cause are
     * ignored by the delegate callbacks.
     */
    method CallReorderClosure(reordered: seq<T>, closureEvents: seq<StoreEvent>)
      requires userDrivenDataModelChange
      modifies this`log, this`effects
      ensures log == old(log)
      ensures effects == old(effects) + [ReorderHook(reordered)]
    {
      effects := effects + [ReorderHook(reordered)];
      Deliver(closureEvents);
    }

    // -------------------------------------------------------------------------
    // NSFetchedResultsControllerDelegate

    /** `controllerWillChangeContent`. */
    method ControllerWillChangeContent()
      modifies this`log
      ensures userDrivenDataModelChange ==> log == old(log)
      ensures !userDrivenDataModelChange ==> log == old(log) + [BeginUpdates]
    {
      if userDrivenDataModelChange {
        return;
      }
      log := log + [BeginUpdates];
    }

    /** `controller:didChangeSection:atIndex:forChangeType:`. */
    method DidChangeSection(sectionIndex: nat, kind: ChangeType)
      modifies this`log
      ensures userDrivenDataModelChange ==> log == old(log)
      ensures !userDrivenDataModelChange && kind == Insert ==> log == old(log) + [InsertSection(sectionIndex)]
      ensures !userDrivenDataModelChange && kind == Delete ==> log == old(log) + [DeleteSection(sectionIndex)]
      ensures kind in {Move, Update} ==> log == old(log)
    {
      if userDrivenDataModelChange {
        return;
      }
      match kind {
        case Insert => log := log + [InsertSection(sectionIndex)];
        case Delete => log := log + [DeleteSection(sectionIndex)];
        case _ => return;
      }
    }

    /** `controller:didChangeObject:atIndexPath:forChangeType:newIndexPath:`. */
    method DidChangeObject(indexPath: Option<IndexPath>, kind: ChangeType, newIndexPath: Option<IndexPath>)
      requires !userDrivenDataModelChange ==> PathsDelivered(indexPath, kind, newIndexPath)
      modifies this`log
      ensures userDrivenDataModelChange ==> log == old(log)
      ensures !userDrivenDataModelChange && kind == Insert ==> log == old(log) + [InsertRow(newIndexPath.value)]
      ensures !userDrivenDataModelChange && kind == Delete ==> log == old(log) + [DeleteRow(indexPath.value)]
      ensures !userDrivenDataModelChange && kind == Update ==> log == old(log) + [Reconfigure(indexPath.value)]
      ensures !userDrivenDataModelChange && kind == Move ==>
        log == old(log) + [DeleteRow(indexPath.value), InsertRow(newIndexPath.value)]
    {
      if userDrivenDataModelChange {
        return;
      }
      match kind {
        case Insert => log := log + [InsertRow(newIndexPath.value)];
        case Delete => log := log + [DeleteRow(indexPath.value)];
        case Update => log := log + [Reconfigure(indexPath.value)];
        case Move =>
          log := log + [DeleteRow(indexPath.value)];
          log := log + [InsertRow(newIndexPath.value)];
      }
    }

    /** `controllerDidChangeContent`. */
    method ControllerDidChangeContent()
      modifies this`log
      ensures userDrivenDataModelChange ==> log == old(log)
      ensures !userDrivenDataModelChange ==> log == old(log) + [EndUpdates]
    {
      if userDrivenDataModelChange {
        return;
      }
      log := log + [EndUpdates];
    }

    // -------------------------------------------------------------------------
    // Delivery of notifications by the fetched results controller

    /** One notification, routed to its delegate callback. */
    method Dispatch(e: StoreEvent)
      requires !userDrivenDataModelChange ==> Delivered(e)
      modifies this`log
      ensures userDrivenDataModelChange ==> log == old(log)
      ensures !userDrivenDataModelChange ==> log == old(log) + Translate(e)
    {
      match e {
        case WillChangeContent => ControllerWillChangeContent();
        case SectionChanged(i, kind) => DidChangeSection(i, kind);
        case ObjectChanged(p, kind, q) => DidChangeObject(p, kind, q);
        case DidChangeContent => ControllerDidChangeContent();
      }
    }

    /** Notifications in the order the fetched results controller sends them. */
    method Deliver(events: seq<StoreEvent>)
      requires !userDrivenDataModelChange ==> AllDelivered(events)
      modifies this`log
      ensures userDrivenDataModelChange ==> log == old(log)
      ensures !userDrivenDataModelChange ==> log == old(log) + TranslateAll(events)
    {
      var i := 0;
      while i < |events|
        invariant 0 <= i <= |events|
        invariant userDrivenDataModelChange ==> log == old(log)
        invariant !userDrivenDataModelChange ==> log == old(log) + TranslateAll(events[..i])
      {
        assert events[i] in events;
        Dispatch(events[i]);
        if !userDrivenDataModelChange {
          TranslatePrefix(events, i);
        }
        i := i + 1;
      }
      assert events[..i] == events;
    }

    /**
     * One batch from the store outside a user reorder: its primitives are
     * appended in order, opened by BeginUpdates and closed by EndUpdates, so the
     * log stays bracketed and balanced.
     */
    method DeliverBatch(batch: seq<StoreEvent>)
      requires Valid()
      requires IsBatch(batch) && AllDelivered(batch)
      modifies this`log
      ensures Valid()
      ensures log == old(log) + TranslateAll(batch)
      ensures Occurrences(log, BeginUpdates) == Occurrences(log, EndUpdates)
    {
      Deliver(batch);
      BatchIsBracketed(batch);
      ScanAppend(old(log), TranslateAll(batch), Closed);
      BracketedCounts(log, Closed, Closed);
    }
  }
}
