# FetchedResultsTableViewController in Dafny

A model of `FetchedResultsTableViewController`, a `UITableViewController`
subclass that keeps a sectioned table view in step with an
`NSFetchedResultsController`, and of the demo's `MasterViewController`, which
uses it to keep a user-ordered list of `Event` records.

The controller does three things:

- It turns the fetched results controller's delegate notifications into
  table-view primitives: begin/end updates, insert/delete section, and
  insert/delete/reconfigure row.
- It turns the table view's edit commands into store operations.
  - A delete calls the will-delete closure, then deletes the object from the
    context.
  - A move raises the `userDrivenDataModelChange` flag. It then hands a
    reordered copy of the fetched objects to the reorder closure and lowers the
    flag. While the flag is raised, every notification is ignored, so the
    store changes the closure makes do not reach the table view a second time.
- It answers the table view's questions: the number of sections and rows,
  whether a row can be edited or moved, and where a dragged row may land
  (only inside its own section).

The demo stores a `position` in every record and fetches by position, then by
time stamp. Its reorder closure writes each record's index as its position.
`insertNewObject` gives a new record the position `numberOfItems` and
increments the counter. The will-delete closure decrements it.

Layout:

- `sequences.dfy` (modules `Options`, `Sequences`): flat lists of sections and
  the `NSMutableArray` edits (`removeObject`, `insertObject:atIndex:`).
- `paths.dfy` (`Paths`): index paths and the move-target rule.
- `table_ops.dfy` (`TableOps`): change types, notifications, table primitives.
  It holds the translation between them, the bracketing automaton and the
  row-count bookkeeping.
- `reorder.dfy` (`Reorder`): the list handed to the reorder closure.
- `fetched_results_table.dfy` (`FetchedResultsTable`): the controller, a class.
  Its table view is the log `log: seq<TableOp>`. The calls it makes to the
  context and the closures go to `effects`.
- `master.dfy` (`MasterDemo`): the `Record` class and the demo controller.

Three parts of the system are parameters of the model:

- The closures write state: the demo's closures write `numberOfItems` and
  each record's `position`. A Dafny function value cannot do that. The
  library therefore records each call to a closure in `effects`, and the
  demo's closures are methods of `MasterViewController`.
- The store notifications that the reorder closure's save causes are a
  parameter of `MoveRow`.
- The clock that stamps new records is an integer parameter of
  `InsertNewObject`.

## Model

| member | source | states |
|---|---|---|
| `Paths.TargetIndexPathForMove` | FetchedResultsTableViewController/FetchedResultsTableViewController.swift:172-180 | The target always lies in the source's section. It is the proposed path when the sections match and the source path (snap back) when they differ. |
| `FetchedResultsTable.FetchedResultsTableViewController.constructor` | FetchedResultsTableViewController/FetchedResultsTableViewController.swift:19-38 | A new controller has no fetched results controller, no closures, editing and reordering off, the flag down, and nothing sent. |
| `FetchedResultsTable.FetchedResultsTableViewController.NumberOfSections` | FetchedResultsTableViewController/FetchedResultsTableViewController.swift:94-96 | 0 when no fetched results controller is set, otherwise the number of fetched sections. |
| `FetchedResultsTable.FetchedResultsTableViewController.NumberOfRows` | FetchedResultsTableViewController/FetchedResultsTableViewController.swift:98-101 | The number of objects in that section. The caller must give an existing section, because the source force-unwraps. |
| `FetchedResultsTable.FetchedResultsTableViewController.ObjectAt` | FetchedResultsTableViewController/FetchedResultsTableViewController.swift:128 | The object at (section, row) is the fetched object at flat index "rows of earlier sections + row". |
| `FetchedResultsTable.FetchedResultsTableViewController.RowsAddUpToFetchedObjects` | FetchedResultsTableViewController/FetchedResultsTableViewController.swift:94-101 | The row counts of all sections add up to the number of fetched objects. |
| `FetchedResultsTable.FetchedResultsTableViewController.CanEdit` | FetchedResultsTableViewController/FetchedResultsTableViewController.swift:118-121 | Every index path gets the configured `allowEditing`. The policy does not depend on the row. |
| `FetchedResultsTable.FetchedResultsTableViewController.CanMove` | FetchedResultsTableViewController/FetchedResultsTableViewController.swift:165-167 | Every index path gets the configured `allowReordering`. |
| `FetchedResultsTable.FetchedResultsTableViewController.CommitEditingStyle` | FetchedResultsTableViewController/FetchedResultsTableViewController.swift:125-135 | A delete calls the will-delete hook with the object, if a hook is set, then deletes the object from the context. The table log is never touched. An insert, or a delete without a fetched results controller, changes nothing. |
| `FetchedResultsTable.ReorderedObjects` | FetchedResultsTableViewController/FetchedResultsTableViewController.swift:145-154 | The reordered copy is a permutation of the fetched objects with no duplicates. The dragged object sits at the target row's flat index. The other objects keep their relative order. |
| `FetchedResultsTable.FetchedResultsTableViewController.MoveRow` | FetchedResultsTableViewController/FetchedResultsTableViewController.swift:139-162 | The table log is unchanged, even though the closure's store notifications are delivered during the call. The flag is down on return. Without a fetched results controller nothing is handed over and no hook is called. Otherwise the reordered list goes to the reorder hook, if one is set. |
| `FetchedResultsTable.FetchedResultsTableViewController.CallReorderClosure` | FetchedResultsTableViewController/FetchedResultsTableViewController.swift:157 | While the flag is raised, the reorder closure receives the list, and the store notifications its changes cause leave the table log unchanged. |
| `FetchedResultsTable.FetchedResultsTableViewController.ControllerWillChangeContent` | FetchedResultsTableViewController/FetchedResultsTableViewController.swift:184-190 | Appends nothing while suppressed, otherwise exactly BeginUpdates. |
| `FetchedResultsTable.FetchedResultsTableViewController.DidChangeSection` | FetchedResultsTableViewController/FetchedResultsTableViewController.swift:192-204 | Appends nothing while suppressed. Otherwise: insert gives InsertSection(i), delete gives DeleteSection(i), and move or update gives nothing. |
| `FetchedResultsTable.FetchedResultsTableViewController.DidChangeObject` | FetchedResultsTableViewController/FetchedResultsTableViewController.swift:206-223 | Appends nothing while suppressed. Otherwise: insert gives InsertRow(new), delete gives DeleteRow(old), update gives only Reconfigure(old), and move gives DeleteRow(old) then InsertRow(new). |
| `FetchedResultsTable.FetchedResultsTableViewController.ControllerDidChangeContent` | FetchedResultsTableViewController/FetchedResultsTableViewController.swift:225-232 | Appends nothing while suppressed, otherwise exactly EndUpdates. |
| `FetchedResultsTable.FetchedResultsTableViewController.Deliver` | FetchedResultsTableViewController/FetchedResultsTableViewController.swift:184-232 | A sequence of notifications appends nothing while suppressed. Otherwise it appends the concatenated translations, in order. |
| `FetchedResultsTable.FetchedResultsTableViewController.DeliverBatch` | FetchedResultsTableViewController/FetchedResultsTableViewController.swift:184-232 | An unsuppressed batch keeps the log bracketed: every primitive is inside a closed begin/end scope, and the BeginUpdates and EndUpdates counts are equal. |
| `TableOps.BatchIsBracketed` | FetchedResultsTableViewController/FetchedResultsTableViewController.swift:184-232 | A batch's primitives start with BeginUpdates and end with EndUpdates. Everything between them is inside that one scope. |
| `TableOps.BracketedCounts` | FetchedResultsTableViewController/FetchedResultsTableViewController.swift:189-229 | A bracketed log has as many BeginUpdates as EndUpdates, or one more while a scope is open. |
| `TableOps.ObjectOpsMatchStore` | FetchedResultsTableViewController/FetchedResultsTableViewController.swift:210-222 | The primitives for an object change alter each section's row count exactly as the change alters the fetched objects. An update alters no count. A move takes one row from the old section and adds one to the new section. |
| `TableOps.TranslateMatchesStore` | FetchedResultsTableViewController/FetchedResultsTableViewController.swift:192-223 | One notification's row primitives insert and delete, in each section index, exactly the objects the notification reports inserted, deleted or moved there. Section changes and the begin/end notifications send no row primitive. |
| `TableOps.BatchRowDeltaMatchesStore` | FetchedResultsTableViewController/FetchedResultsTableViewController.swift:184-232 | Over a whole delivered batch, the row primitives sent insert and delete, in each section index, exactly the objects its notifications report inserted, deleted and moved there. |
| `TableOps.RowDeltaAppend` | FetchedResultsTableViewController/FetchedResultsTableViewController.swift:210-222 | Row-count changes add up over a sequence of primitives. |
| `Sequences.RemoveAll` | FetchedResultsTableViewController/FetchedResultsTableViewController.swift:152 | After `removeObject` the object no longer occurs, and the list never grows. |
| `Sequences.RemoveAllMultiset` | FetchedResultsTableViewController/FetchedResultsTableViewController.swift:152 | `removeObject` drops every copy of the object and keeps every other element with its count. |
| `Sequences.RemoveAllOfDistinct` | FetchedResultsTableViewController/FetchedResultsTableViewController.swift:152 | For distinct objects, removing by value equals removing at the object's index. |
| `Reorder.MovedListAsWritten` | FetchedResultsTableViewController/FetchedResultsTableViewController.swift:145-154 | The object is removed by value and reinserted at flat index `toIndexPath.row`, as the code does. The result is still a permutation of the fetched objects of the same length: only the insertion index is wrong. |
| `Reorder.MovedListIsPermutation` | FetchedResultsTableViewController/FetchedResultsTableViewController.swift:145-154 | The reordered list has the same length and the same elements, with no duplicates. The moved object is at the target's flat index. Removing it from either list gives the same list. |
| `Reorder.MovedListSameObjects` | FetchedResultsTableViewController/FetchedResultsTableViewController.swift:145-154 | The reordered list contains exactly the fetched objects, and each of them once. |
| `Reorder.MovedListReordersOneSection` | FetchedResultsTableViewController/FetchedResultsTableViewController.swift:145-154 | The reordered list is the flattening of the sections after the drag: the dragged section is reordered and the other sections are unchanged. |
| `Reorder.AsWrittenAgreesWithoutEarlierRows` | FetchedResultsTableViewController/FetchedResultsTableViewController.swift:154 | When no rows precede the target section, the code as written and the corrected list agree. This covers any single-section table, such as the demo's. |
| `Reorder.AsWrittenMisplacesInLaterSection` | FetchedResultsTableViewController/FetchedResultsTableViewController.swift:154 | A concrete counterexample: for sections [[1],[2,3]], moving (1,0) to (1,1) as written gives [1,2,3], but the table shows [1,3,2]. |
| `Reorder.MoveFirstToLast` | FetchedResultsTableViewController/FetchedResultsTableViewController.swift:145-157 | Moving the first of three objects to the last row hands over [B, C, A]. |
| `Paths.TargetIsMoveWithinSection` | FetchedResultsTableViewController/FetchedResultsTableViewController.swift:169-180 | For an existing source row, the target the rule returns is a valid same-section move. This holds for any proposed path in another section, including one past that section's last row. A proposed path in the source's own section must be an existing row. |
| `MasterDemo.MasterViewController.constructor` | FetchedResultsDemo/MasterViewController.swift:40-48 | The table is configured with the fetched records, at most one section because the fetch has no section key path. Editing and reordering are on, and both closures are set. `numberOfItems` starts at the number of fetched records. |
| `MasterDemo.MasterViewController.InsertNewObject` | FetchedResultsDemo/MasterViewController.swift:99-120 | The new record carries the current time stamp and position = `numberOfItems` before the call. `numberOfItems` then grows by exactly 1. Without a fetched results controller nothing changes. |
| `MasterDemo.MasterViewController.WillDeleteObject` | FetchedResultsDemo/MasterViewController.swift:86-90 | `numberOfItems` drops by exactly 1, and nothing else changes. |
| `MasterDemo.MasterViewController.ReorderCells` | FetchedResultsDemo/MasterViewController.swift:57-68 | Afterwards every record's position equals its index. The records therefore sort, by (position, timeStamp), in list order. |
| `MasterDemo.MasterViewController.CommitDelete` | FetchedResultsDemo/MasterViewController.swift:86-90 | A committed delete decrements the counter, then records the will-delete hook followed by the context delete. The table log is not touched. |
| `MasterDemo.MasterViewController.MoveRow` | FetchedResultsDemo/MasterViewController.swift:57-68 | The list the closure receives is the one the library's code builds as written, and it equals the corrected list, because the demo has one section. After the move, the reordered records have position = index and sort in the new order. The table log is unchanged. |
| `MasterDemo.InsertionIndex` | FetchedResultsDemo/MasterViewController.swift:41 | The number of records that sort before a given record, by (position, timeStamp). It is at most the list length. |
| `MasterDemo.HigherPositionSortsLast` | FetchedResultsDemo/MasterViewController.swift:41 | A record whose position exceeds every other record's sorts after all of them. |
| `MasterDemo.NewRecordSortsLast` | FetchedResultsDemo/MasterViewController.swift:106-108 | If positions are 0..n-1 and `numberOfItems` is n, every existing record sorts before the newly inserted record, by (position, timeStamp). Its insertion index is therefore n. |

## Findings

| source | as written | input that shows it | evidently intended | confidence | as-written member | corrected member |
|---|---|---|---|---|---|---|
| FetchedResultsTableViewController/FetchedResultsTableViewController.swift:154 | The moved object is reinserted into the flat list of all fetched objects at `toIndexPath.row`. That is its row within the target section. | Sections [[1],[2,3]]; move (1,0) to (1,1). The table shows [1,3,2], but the closure receives [1,2,3]. | Insert at the flat index of the target row: rows of the earlier sections + `toIndexPath.row`. | medium (not executed; affects only tables with a section key path, which the demo does not use) | `Reorder.AsWrittenMisplacesInLaterSection` | `Reorder.MovedListReordersOneSection` |

`Reorder.MovedListAsWritten` is the list as the code builds it. `MovedList` is
the corrected list, and `FetchedResultsTableViewController.MoveRow` uses it.

## Left out

- `MoveRow` requires a same-section move to an existing row
  (`MoveWithinSection`). The code never checks the section itself: the table
  view only commits targets that `targetIndexPathForMove…` returned.
- The code removes the dragged object by value (`removeObject`).
  `RemoveAllOfDistinct` shows this equals removal at its index for distinct
  managed objects.
- FetchedResultsTableViewController.MoveRow: the postcondition cannot say that
  the flag is raised while the reorder closure runs. It states the
  consequence: the closure's notifications add nothing to the log, and the
  flag is down on return.
- MasterViewController.MoveRow: it runs the demo's reorder closure
  (`ReorderCells`) after the library's `MoveRow` returns, not inside its flag
  window. The closure's `context.save` makes the fetched results controller
  call the four delegate callbacks. Those notifications are the
  `closureEvents` parameter, and the library's `MoveRow` delivers them
  inside the flag window (`CallReorderClosure`), so they add nothing to the
  table log. `ReorderCells` itself writes only the records' `position`
  fields, and nothing in the table log depends on them. The closure's
  `reloadData` is not modelled (see below).
- TableOps.BatchRowDeltaMatchesStore: the count compares the primitives with the notifications, not with the store's per-section counts before and after the batch. It also adds old-path and new-path section indices into one section number. So it is not the table view's full `endUpdates` consistency check once a batch inserts or deletes sections: the surviving section is renumbered, and a whole section's rows come and go with it.
- The fetched results controller's own contents are input. Notifications are
  not replayed onto `results`, and no operation changes them.
- A fetched results controller whose `sections` or `fetchedObjects` are still
  nil is treated as no controller (`results == None`).
- Cell dequeueing by `cellReuseIdentifier`, `cellForRowAtIndexPath` and the
  configure-cell closure are not modelled. Re-running the closure on an
  updated row is the `Reconfigure` primitive. An update to a row whose cell
  is not visible crashes at
  FetchedResultsTableViewController/FetchedResultsTableViewController.swift:216,
  because `cellForRowAtIndexPath` returns nil there. The model appends
  `Reconfigure` instead.
- Row animations, `reloadData`, and the `reloadData` call in the demo's
  reorder closure are not modelled; a redraw is not a batch primitive.
- `makeFetchedResultsControllerForEntityNamed`, the `fetchedResultsController`
  `didSet` (title defaulting, delegate assignment, `performFetch` and its
  logged error) are left out. They are framework wiring; the demo's
  constructor installs the fetched records directly.
- `context.save` and its logged failure are left out, in both the demo's
  closure and `insertNewObject`. The model has no persistence. Inserted
  records are collected in `inserted`.
- `NSDate` time stamps are abstract integers.
- `numberOfItems` is an unbounded integer. Swift's trap on overflow of `Int`
  is not modelled.
- View lifecycle, navigation, split view, segues, memory warnings and the
  text that the configure-cell closure writes are not modelled.
- Concurrency: everything runs on the main context, as in the source.
- No configuration error, query error or protocol-violation report is
  modelled, because the code has none. A missing reuse identifier is a crash
  at FetchedResultsTableViewController/FetchedResultsTableViewController.swift:110.
