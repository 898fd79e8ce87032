/** The editor's action log: what was placed, constrained, deleted, plus placeholder entries. */
module Actions {
  import opened Geometry
  import opened Ecs
  import opened Placing
  import opened ConstraintTypes

  datatype Action =
    | Placed(name: string, entity: Entity)
    | Constrained(event: ConstraintEvent)
    | Deleted(entity: Entity, name: string, transform: Transform)
    | PlaceHolder

  predicate IsPlaced(a: Action) { a.Placed? }
  predicate IsConstrained(a: Action) { a.Constrained? }
  predicate IsDeleted(a: Action) { a.Deleted? }
  predicate IsPlaceholder(a: Action) { a.PlaceHolder? }

  /** How many of the four kind predicates hold of `a`. */
  function KindsHolding(a: Action): nat {
    (if IsPlaced(a) then 1 else 0) + (if IsConstrained(a) then 1 else 0) +
    (if IsDeleted(a) then 1 else 0) + (if IsPlaceholder(a) then 1 else 0)
  }

  /** Every action is of exactly one kind. */
  lemma ExactlyOneKind(a: Action)
    ensures KindsHolding(a) == 1
  {
  }

  /** `From<PlacedPart> for Action`. */
  function FromPlacedPart(p: PlacedPart): (a: Action)
    ensures IsPlaced(a)
  {
    Placed(p.name, p.entity)
  }

  /** `Into<PlacedPart> for Action`, which panics on every other kind. */
  function IntoPlacedPart(a: Action): (p: PlacedPart)
    requires IsPlaced(a)
    ensures FromPlacedPart(p) == a
  {
    PlacedPart(a.name, a.entity)
  }

  lemma PlacedPartRoundTrip(p: PlacedPart)
    ensures IntoPlacedPart(FromPlacedPart(p)) == p
  {
  }

  /** `From<ConstraintEvent> for Action`. */
  function FromConstraintEvent(e: ConstraintEvent): (a: Action)
    ensures IsConstrained(a)
  {
    Constrained(e)
  }

  /** `Into<ConstraintEvent> for Action`, which panics on every other kind. */
  function IntoConstraintEvent(a: Action): (e: ConstraintEvent)
    requires IsConstrained(a)
    ensures FromConstraintEvent(e) == a
  {
    a.event
  }

  lemma ConstraintEventRoundTrip(e: ConstraintEvent)
    ensures IntoConstraintEvent(FromConstraintEvent(e)) == e
  {
  }

  /** The `ActionList` resource. Nothing in the modelled code removes entries. */
  class ActionList {
    var list: seq<Action>

    constructor ()
      ensures list == []
    {
      list := [];
    }

    /** `action_list.0.push`. */
    method Push(a: Action)
      modifies this
      ensures list == old(list) + [a]
    {
      list := list + [a];
    }
  }
}
