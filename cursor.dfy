/** How far the cursor moved since the previous frame. */
module Cursor {
  import opened Wrappers
  import opened Geometry

  /** The `CursorDelta` resource. */
  class CursorDelta {
    var previousPosition: Vec2
    var currentDelta: Vec2

    /** `Default`: both vectors zero. */
    constructor ()
      ensures previousPosition == Zero2 && currentDelta == Zero2
    {
      previousPosition, currentDelta := Zero2, Zero2;
    }

    /**
     * `track_cursor`, given the window's cursor position if the cursor is
     * inside it: without one the previous position stands in. The delta is
     * the previous position minus the new one.
     */
    method TrackCursor(cursor: Option<Vec2>)
      modifies this
      ensures previousPosition == (if cursor.Some? then cursor.value else old(previousPosition))
      ensures currentDelta == old(previousPosition).Minus(previousPosition)
      ensures cursor.None? ==> currentDelta == Zero2
      ensures previousPosition.Plus(currentDelta) == old(previousPosition)
    {
      var pos := if cursor.Some? then cursor.value else previousPosition;
      currentDelta := previousPosition.Minus(pos);
      previousPosition := pos;
    }
  }
}
