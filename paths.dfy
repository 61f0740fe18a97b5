/** Positions in a sectioned table: `NSIndexPath` with its section and row. */
module Paths {

  datatype IndexPath = IndexPath(section: nat, row: nat)

  /** `path` names an existing row of the sectioned result `ss`. */
  predicate ValidPath<T>(ss: seq<seq<T>>, path: IndexPath) {
    path.section < |ss| && path.row < |ss[path.section]|
  }

  /**
   * `targetIndexPathForMoveFromRowAtIndexPath:toProposedIndexPath:`: a row may
   * only be dropped inside its own section; a drop anywhere else snaps back to
   * where the row came from.
   */
  function TargetIndexPathForMove(source: IndexPath, proposed: IndexPath): (target: IndexPath)
    ensures target.section == source.section
    ensures source.section == proposed.section ==> target == proposed
    ensures source.section != proposed.section ==> target == source
  {
    if source.section == proposed.section then proposed else source
  }

  /**
   * What the table view hands to `moveRowAtIndexPath:toIndexPath:` after
   * consulting `TargetIndexPathForMove`: an existing row, moved to a row of
   * the same section.
   */
  predicate MoveWithinSection<T>(ss: seq<seq<T>>, from: IndexPath, to: IndexPath) {
    ValidPath(ss, from) && ValidPath(ss, to) && to.section == from.section
  }

  /**
   * Every target the rule returns for an existing source row is such a move,
   * whatever the proposed path in another section (also one past its last
   * row); a proposed path in the source's own section must be an existing row.
   */
  lemma TargetIsMoveWithinSection<T>(ss: seq<seq<T>>, source: IndexPath, proposed: IndexPath)
    requires ValidPath(ss, source)
    requires proposed.section == source.section ==> ValidPath(ss, proposed)
    ensures MoveWithinSection(ss, source, TargetIndexPathForMove(source, proposed))
  {
  }
}
