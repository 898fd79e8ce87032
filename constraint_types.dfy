/**
 * The values the mounting-point ("constraint") workflow passes around: the
 * constraining mode, one captured mounting point, and a completed pairing.
 */
module ConstraintTypes {
  import opened Geometry
  import opened Ecs

  /** Whether the editor is in constraining mode; `NotConstraining` is the initial state. */
  datatype ConstrainState = Constraining | NotConstraining

  const InitialConstrainState: ConstrainState := NotConstraining

  /** A mounting point captured by the picker. */
  datatype ConstraintData = ConstraintData(transform: Transform)

  /**
   * A completed pairing of two mounting points. Index 0 of both pairs
   * belongs to the part that moves, index 1 to the part it is moved onto.
   */
  datatype ConstraintEvent = ConstraintEvent(
    constraints: (ConstraintData, ConstraintData),
    parents: (Entity, Entity))
}
