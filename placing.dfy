/**
 * The placing types the editor's systems use. Their definitions belong to a
 * placing revision that is not part of this model; they are rebuilt here from
 * the way the core uses them.
 */
module Placing {
  import opened Ecs
  import opened Handle

  datatype PlacingState = Placing | NotPlacing | PlacingDisabled

  /** One entry of the placed-parts list: the model path placed, and the part's entity. */
  datatype PlacedPart = PlacedPart(name: string, entity: Entity)

  /** A request to start placing the model at `path`, whose scene is `handle`. */
  datatype PlacingEvent = PlacingEvent(path: string, handle: SceneHandle)
}
