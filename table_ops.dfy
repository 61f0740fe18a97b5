/**
 * The vocabulary between the fetched results controller and the table view:
 * the change notifications the store delivers, the primitives the table view
 * accepts, and the translation from one to the other that the controller's
 * delegate callbacks perform when they are not suppressed.
 */
module TableOps {
  import opened Options
  import opened Paths

  /** `NSFetchedResultsChangeType`. */
  datatype ChangeType = Insert | Delete | Move | Update

  /** One table-view primitive, as logged by the model of the table view. */
  datatype TableOp =
    | BeginUpdates
    | EndUpdates
    | InsertSection(sectionIndex: nat)
    | DeleteSection(sectionIndex: nat)
    | InsertRow(path: IndexPath)
    | DeleteRow(path: IndexPath)
    | Reconfigure(path: IndexPath)   // the configure-cell closure re-run on the row's cell

  /** One delegate notification from the fetched results controller. */
  datatype StoreEvent =
    | WillChangeContent
    | SectionChanged(sectionIndex: nat, kind: ChangeType)
    | ObjectChanged(indexPath: Option<IndexPath>, kind: ChangeType, newIndexPath: Option<IndexPath>)
    | DidChangeContent

  /**
   * The index paths the object callback force-unwraps are present: the new
   * path for an insert, the old path for a delete or an update, both for a move.
   */
  predicate PathsDelivered(indexPath: Option<IndexPath>, kind: ChangeType, newIndexPath: Option<IndexPath>) {
    match kind
    case Insert => newIndexPath.Some?
    case Delete => indexPath.Some?
    case Update => indexPath.Some?
    case Move => indexPath.Some? && newIndexPath.Some?
  }

  predicate Delivered(e: StoreEvent) {
    e.ObjectChanged? ==> PathsDelivered(e.indexPath, e.kind, e.newIndexPath)
  }

  predicate AllDelivered(events: seq<StoreEvent>) {
    forall e :: e in events ==> Delivered(e)
  }

  /** `controller:didChangeSection:atIndex:forChangeType:` when not suppressed. */
  function SectionOps(sectionIndex: nat, kind: ChangeType): seq<TableOp> {
    match kind
    case Insert => [InsertSection(sectionIndex)]
    case Delete => [DeleteSection(sectionIndex)]
    case _ => []
  }

  /** `controller:didChangeObject:atIndexPath:forChangeType:newIndexPath:` when not suppressed. */
  function ObjectOps(indexPath: Option<IndexPath>, kind: ChangeType, newIndexPath: Option<IndexPath>): seq<TableOp>
    requires PathsDelivered(indexPath, kind, newIndexPath)
  {
    match kind
    case Insert => [InsertRow(newIndexPath.value)]
    case Delete => [DeleteRow(indexPath.value)]
    case Update => [Reconfigure(indexPath.value)]
    case Move => [DeleteRow(indexPath.value), InsertRow(newIndexPath.value)]
  }

  /** What an unsuppressed controller appends to the table log for one notification. */
  function Translate(e: StoreEvent): seq<TableOp>
    requires Delivered(e)
  {
    match e
    case WillChangeContent => [BeginUpdates]
    case SectionChanged(i, kind) => SectionOps(i, kind)
    case ObjectChanged(p, kind, q) => ObjectOps(p, kind, q)
    case DidChangeContent => [EndUpdates]
  }

  function TranslateAll(events: seq<StoreEvent>): seq<TableOp>
    requires AllDelivered(events)
  {
    if events == [] then [] else Translate(events[0]) + TranslateAll(events[1..])
  }

  lemma {:induction false} TranslateAllAppend(a: seq<StoreEvent>, b: seq<StoreEvent>)
    requires AllDelivered(a) && AllDelivered(b)
    ensures AllDelivered(a + b)
    ensures TranslateAll(a + b) == TranslateAll(a) + TranslateAll(b)
  {
    if a == [] {
      assert a + b == b;
    } else {
      assert (a + b)[0] == a[0];
      assert (a + b)[1..] == a[1..] + b;
      TranslateAllAppend(a[1..], b);
    }
  }

  /** Translating one more notification appends its primitives. */
  lemma TranslatePrefix(events: seq<StoreEvent>, i: nat)
    requires AllDelivered(events) && i < |events|
    ensures AllDelivered(events[..i]) && AllDelivered(events[..i + 1])
    ensures TranslateAll(events[..i + 1]) == TranslateAll(events[..i]) + Translate(events[i])
  {
    var a, b := events[..i], [events[i]];
    assert forall e :: e in a ==> e in events;
    assert events[i] in events;
    assert events[..i + 1] == a + b;
    TranslateAllAppend(a, b);
    assert b[1..] == [];
  }

  // ---------------------------------------------------------------------------
  // Bracketing: every structural primitive lies inside one beginUpdates /
  // endUpdates scope, and scopes do not nest.

  datatype Scope = Closed | Open

  /** One step of the bracket automaton; None when a primitive breaks the bracketing. */
  function Step(scope: Scope, op: TableOp): Option<Scope> {
    match op
    case BeginUpdates => if scope == Closed then Some(Open) else None
    case EndUpdates => if scope == Open then Some(Closed) else None
    case _ => if scope == Open then Some(Open) else None
  }

  /** Runs the bracket automaton over a log from `scope`. */
  function Scan(log: seq<TableOp>, scope: Scope): Option<Scope> {
    if log == [] then Some(scope)
    else match Step(scope, log[0])
      case None => None
      case Some(next) => Scan(log[1..], next)
  }

  lemma {:induction false} ScanAppend(a: seq<TableOp>, b: seq<TableOp>, scope: Scope)
    ensures Scan(a + b, scope) == match Scan(a, scope) { case None => None case Some(mid) => Scan(b, mid) }
  {
    if a == [] {
      assert a + b == b;
    } else {
      assert (a + b)[0] == a[0];
      assert (a + b)[1..] == a[1..] + b;
      match Step(scope, a[0]) {
        case None =>
        case Some(next) => ScanAppend(a[1..], b, next);
      }
    }
  }

  /** The notifications between will-change and did-change of one batch. */
  predicate IsChange(e: StoreEvent) {
    e.SectionChanged? || e.ObjectChanged?
  }

  /** One batch as the store delivers it: will-change, section and object changes, did-change. */
  predicate IsBatch(events: seq<StoreEvent>) {
    && 2 <= |events|
    && events[0] == WillChangeContent
    && events[|events| - 1] == DidChangeContent
    && forall i :: 0 < i < |events| - 1 ==> IsChange(events[i])
  }

  /** A row or section primitive: anything but BeginUpdates and EndUpdates. */
  predicate IsStructural(op: TableOp) {
    !op.BeginUpdates? && !op.EndUpdates?
  }

  lemma {:induction false} StructuralStaysOpen(ops: seq<TableOp>)
    requires forall i :: 0 <= i < |ops| ==> IsStructural(ops[i])
    ensures Scan(ops, Open) == Some(Open)
  {
    if ops != [] {
      StructuralStaysOpen(ops[1..]);
    }
  }

  /** Changes inside an open scope keep it open: they emit no begin or end. */
  lemma {:induction false} ChangesStayOpen(changes: seq<StoreEvent>)
    requires AllDelivered(changes)
    requires forall i :: 0 <= i < |changes| ==> IsChange(changes[i])
    ensures Scan(TranslateAll(changes), Open) == Some(Open)
  {
    if changes != [] {
      var e := changes[0];
      assert e in changes;
      StructuralStaysOpen(Translate(e));
      ChangesStayOpen(changes[1..]);
      ScanAppend(Translate(e), TranslateAll(changes[1..]), Open);
    }
  }

  /**
   * An unsuppressed batch is bracketed: it opens one scope with BeginUpdates,
   * emits its primitives inside it and closes it with EndUpdates.
   */
  lemma BatchIsBracketed(events: seq<StoreEvent>)
    requires IsBatch(events) && AllDelivered(events)
    ensures Scan(TranslateAll(events), Closed) == Some(Closed)
    ensures TranslateAll(events)[0] == BeginUpdates
    ensures TranslateAll(events)[|TranslateAll(events)| - 1] == EndUpdates
  {
    var n := |events|;
    var changes := events[1..n - 1];
    assert events == [events[0]] + changes + [events[n - 1]];
    assert forall i :: 0 <= i < |changes| ==> IsChange(changes[i]) by {
      forall i | 0 <= i < |changes| ensures IsChange(changes[i]) {
        assert changes[i] == events[i + 1];
      }
    }
    TranslateAllAppend([events[0]], changes);
    TranslateAllAppend([events[0]] + changes, [events[n - 1]]);
    assert TranslateAll([events[0]]) == [BeginUpdates];
    assert TranslateAll([events[n - 1]]) == [EndUpdates];
    ChangesStayOpen(changes);
    var middle := TranslateAll(changes);
    assert TranslateAll(events) == [BeginUpdates] + middle + [EndUpdates];
    ScanAppend([BeginUpdates] + middle, [EndUpdates], Closed);
    ScanAppend([BeginUpdates], middle, Closed);
  }

  /** Number of occurrences of `op` in `log`. */
  function Occurrences(log: seq<TableOp>, op: TableOp): nat {
    if log == [] then 0 else (if log[0] == op then 1 else 0) + Occurrences(log[1..], op)
  }

  /**
   * A log the bracket automaton accepts has one more BeginUpdates than
   * EndUpdates while a scope is open, and as many when it is closed.
   */
  lemma {:induction false} BracketedCounts(log: seq<TableOp>, from: Scope, to: Scope)
    requires Scan(log, from) == Some(to)
    ensures Occurrences(log, BeginUpdates) + (if from == Open then 1 else 0)
         == Occurrences(log, EndUpdates) + (if to == Open then 1 else 0)
  {
    if log != [] {
      var next := Step(from, log[0]).value;
      BracketedCounts(log[1..], next, to);
    }
  }

  // ---------------------------------------------------------------------------
  // Row counts: the table view demands that each section's row count changes
  // by the rows inserted minus the rows deleted in it.

  /** Rows inserted minus rows deleted in section `section` by the primitives `ops`. */
  function RowDelta(ops: seq<TableOp>, section: nat): int {
    if ops == [] then 0
    else
      (match ops[0]
       case InsertRow(p) => if p.section == section then 1 else 0
       case DeleteRow(p) => if p.section == section then -1 else 0
       case _ => 0)
      + RowDelta(ops[1..], section)
  }

  /** How an object change alters the number of fetched objects in section `section`. */
  function StoreRowDelta(indexPath: Option<IndexPath>, kind: ChangeType, newIndexPath: Option<IndexPath>, section: nat): int
    requires PathsDelivered(indexPath, kind, newIndexPath)
  {
    var gained := if kind in {Insert, Move} && newIndexPath.value.section == section then 1 else 0;
    var lost := if kind in {Delete, Move} && indexPath.value.section == section then 1 else 0;
    gained - lost
  }

  /**
   * The primitives emitted for an object change alter every section's row
   * count exactly as the change alters the fetched objects: an update touches
   * no count, a move takes a row from the old section and gives one to the new.
   */
  lemma ObjectOpsMatchStore(indexPath: Option<IndexPath>, kind: ChangeType, newIndexPath: Option<IndexPath>, section: nat)
    requires PathsDelivered(indexPath, kind, newIndexPath)
    ensures RowDelta(ObjectOps(indexPath, kind, newIndexPath), section)
         == StoreRowDelta(indexPath, kind, newIndexPath, section)
  {
    var ops := ObjectOps(indexPath, kind, newIndexPath);
    if kind == Move {
      var rest := [InsertRow(newIndexPath.value)];
      assert ops[1..] == rest;
      assert rest[1..] == [];
      assert RowDelta(rest, section) == (if newIndexPath.value.section == section then 1 else 0);
    } else {
      assert ops[1..] == [];
    }
  }

  lemma {:induction false} RowDeltaAppend(a: seq<TableOp>, b: seq<TableOp>, section: nat)
    ensures RowDelta(a + b, section) == RowDelta(a, section) + RowDelta(b, section)
  {
    if a == [] {
      assert a + b == b;
    } else {
      assert (a + b)[0] == a[0];
      assert (a + b)[1..] == a[1..] + b;
      RowDeltaAppend(a[1..], b, section);
    }
  }

  /** The objects one notification reports inserted, minus those it reports removed, in section `section`. */
  function EventRowDelta(e: StoreEvent, section: nat): int
    requires Delivered(e)
  {
    match e
    case ObjectChanged(p, kind, q) => StoreRowDelta(p, kind, q, section)
    case _ => 0
  }

  /** The same count summed over a sequence of notifications. */
  function StoreBatchRowDelta(events: seq<StoreEvent>, section: nat): int
    requires AllDelivered(events)
  {
    if events == [] then 0
    else
      assert events[0] in events;
      EventRowDelta(events[0], section) + StoreBatchRowDelta(events[1..], section)
  }

  /** One notification's row primitives insert and delete in each section the rows it reports. */
  lemma TranslateMatchesStore(e: StoreEvent, section: nat)
    requires Delivered(e)
    ensures RowDelta(Translate(e), section) == EventRowDelta(e, section)
  {
    match e {
      case ObjectChanged(p, kind, q) => ObjectOpsMatchStore(p, kind, q, section);
      case SectionChanged(i, kind) =>
        assert SectionOps(i, kind) == [] || SectionOps(i, kind)[1..] == [];
      case _ =>
        assert Translate(e)[1..] == [];
    }
  }

  /**
   * Over a whole delivered sequence of notifications, such as a batch, the
   * row primitives sent insert and delete in each section index exactly the
   * objects the notifications report inserted, deleted and moved there.
   */
  lemma {:induction false} BatchRowDeltaMatchesStore(events: seq<StoreEvent>, section: nat)
    requires AllDelivered(events)
    ensures RowDelta(TranslateAll(events), section) == StoreBatchRowDelta(events, section)
  {
    if events != [] {
      assert events[0] in events;
      assert AllDelivered(events[1..]) by {
        forall e | e in events[1..] ensures Delivered(e) {
          assert e in events;
        }
      }
      TranslateMatchesStore(events[0], section);
      RowDeltaAppend(Translate(events[0]), TranslateAll(events[1..]), section);
      BatchRowDeltaMatchesStore(events[1..], section);
    }
  }
}
