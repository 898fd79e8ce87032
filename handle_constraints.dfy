/**
 * The mounting-point ("constraint") picker and aligner: clicking two markers
 * pairs them, and a pairing moves the first marker's part onto the second's.
 */
module HandleConstraints {
  import opened Wrappers
  import opened Geometry
  import opened Ecs
  import opened ConstraintTypes
  import opened Actions

  // ---------------------------------------------------------------------
  // Aligning a part
  // ---------------------------------------------------------------------

  /**
   * `constrain_to`: the part's new transform. It is displaced by the offset
   * from `other` to `curr`, turned by the rotation from `curr` to `other`,
   * and its scale is reset to one (the rest of the transform is defaulted).
   */
  function ConstrainTo(parent: Transform, curr: Transform, other: Transform): (r: Transform)
    ensures r.translation.Minus(parent.translation) == curr.translation.Minus(other.translation)
    ensures r.scale == One
  {
    var distance := other.translation.Minus(curr.translation);
    var angleBetween := curr.rotation.Inverse().Mul(other.rotation);
    Transform(parent.translation.Minus(distance), parent.rotation.Mul(angleBetween), One)
  }

  /**
   * Aligning a mounting point with itself leaves the part where it is, with
   * a unit rotation unchanged; only the scale is reset.
   */
  lemma ConstrainToSelf(parent: Transform, c: Transform)
    requires c.rotation.IsUnit()
    ensures ConstrainTo(parent, c, c) == parent.(scale := One)
  {
    InverseMul(c.rotation);
    MulIdentity(parent.rotation);
    assert c.translation.Minus(c.translation) == Zero;
  }

  // ---------------------------------------------------------------------
  // Applying pairings
  // ---------------------------------------------------------------------

  /** The two parents share an entity index; the index alone is compared, not the generation. */
  predicate SelfPairing(e: ConstraintEvent) {
    e.parents.0.index == e.parents.1.index
  }

  /** The position of the first self-pairing, where the batch stops, or the batch length. */
  function FirstSelfPairing(events: seq<ConstraintEvent>): (k: nat)
    ensures k <= |events|
    ensures forall j :: 0 <= j < k ==> !SelfPairing(events[j])
    ensures k < |events| ==> SelfPairing(events[k])
  {
    if events == [] then 0
    else if SelfPairing(events[0]) then 0
    else 1 + FirstSelfPairing(events[1..])
  }

  /** Events after a self-pairing do not move where the batch stops. */
  lemma {:induction false} FirstSelfPairingIgnoresRest(events: seq<ConstraintEvent>, rest: seq<ConstraintEvent>)
    requires FirstSelfPairing(events) < |events|
    ensures FirstSelfPairing(events + rest) == FirstSelfPairing(events)
  {
    if !SelfPairing(events[0]) {
      assert (events + rest)[1..] == events[1..] + rest;
      FirstSelfPairingIgnoresRest(events[1..], rest);
    }
  }

  /** Two distinct entities of the same slot stop the batch, although they are different parts. */
  lemma SameIndexStops(e: ConstraintEvent, rest: seq<ConstraintEvent>)
    requires e.parents == (Entity(7, 0), Entity(7, 1))
    ensures e.parents.0 != e.parents.1 && FirstSelfPairing([e] + rest) == 0
  {
  }

  /** The part an event moves can be moved: a live `Part` with a `Transform`. */
  predicate Movable(alive: map<Entity, Components>, p: Entity) {
    p in alive && alive[p].part && alive[p].transform.Some?
  }

  /** One pairing applied: the moving part's transform is rewritten by `ConstrainTo`. */
  function ApplyEvent(alive: map<Entity, Components>, e: ConstraintEvent): map<Entity, Components>
    requires Movable(alive, e.parents.0)
  {
    var p := e.parents.0;
    var t := ConstrainTo(alive[p].transform.value, e.constraints.0.transform, e.constraints.1.transform);
    alive[p := alive[p].(transform := Some(t))]
  }

  /** The first `n` pairings applied in order. */
  function ApplyEvents(alive: map<Entity, Components>, events: seq<ConstraintEvent>, n: nat): (r: map<Entity, Components>)
    requires n <= |events|
    requires forall i :: 0 <= i < n ==> Movable(alive, events[i].parents.0)
    ensures r.Keys == alive.Keys
    ensures forall x :: x in alive ==> r[x].part == alive[x].part && (r[x].transform.Some? <==> alive[x].transform.Some?)
  {
    if n == 0 then alive
    else
      var e := events[n - 1];
      var m := ApplyEvents(alive, events, n - 1);
      assert Movable(alive, e.parents.0);
      ApplyEvent(m, e)
  }

  /** One pairing rewrites the moving part's transform and nothing else. */
  lemma ApplyEventFrame(alive: map<Entity, Components>, e: ConstraintEvent, x: Entity)
    requires Movable(alive, e.parents.0) && x in alive
    ensures x in ApplyEvent(alive, e)
    ensures ApplyEvent(alive, e)[x] == alive[x].(transform := ApplyEvent(alive, e)[x].transform)
    ensures x != e.parents.0 ==> ApplyEvent(alive, e)[x] == alive[x]
  {
  }

  /** Two updates of the transform are one. */
  lemma TransformUpdates(a: Components, b: Components, c: Components)
    requires b == a.(transform := b.transform) && c == b.(transform := c.transform)
    ensures c == a.(transform := c.transform)
  {
  }

  /**
   * Applying pairings changes transforms only, and an entity that is not
   * the moving part of any of them keeps everything.
   */
  lemma {:induction false} ApplyEventsFrame(alive: map<Entity, Components>, events: seq<ConstraintEvent>, n: nat)
    requires n <= |events|
    requires forall i :: 0 <= i < n ==> Movable(alive, events[i].parents.0)
    ensures forall x :: x in alive ==>
      ApplyEvents(alive, events, n)[x] == alive[x].(transform := ApplyEvents(alive, events, n)[x].transform)
    ensures forall x :: x in alive && (forall i :: 0 <= i < n ==> events[i].parents.0 != x) ==>
      ApplyEvents(alive, events, n)[x] == alive[x]
  {
    if n > 0 {
      ApplyEventsFrame(alive, events, n - 1);
      var m := ApplyEvents(alive, events, n - 1);
      var e := events[n - 1];
      assert Movable(m, e.parents.0);
      var r := ApplyEvents(alive, events, n);
      assert r == ApplyEvent(m, e);
      forall x | x in alive
        ensures r[x] == alive[x].(transform := r[x].transform)
      {
        ApplyEventFrame(m, e, x);
        TransformUpdates(alive[x], m[x], r[x]);
      }
      forall x | x in alive && (forall i :: 0 <= i < n ==> events[i].parents.0 != x)
        ensures r[x] == alive[x]
      {
        assert events[n - 1].parents.0 != x;
        ApplyEventFrame(m, e, x);
      }
    }
  }

  /** The log entries of the first `n` pairings: each event, unmodified, as `Constrained`. */
  function ConstrainedActions(events: seq<ConstraintEvent>, n: nat): (r: seq<Action>)
    requires n <= |events|
    ensures |r| == n
    ensures forall i :: 0 <= i < n ==> r[i] == Constrained(events[i]) && IsConstrained(r[i])
  {
    if n == 0 then [] else ConstrainedActions(events, n - 1) + [FromConstraintEvent(events[n - 1])]
  }

  /** A batch of one proper pairing moves only its first part and logs the event once. */
  lemma SinglePairing(alive: map<Entity, Components>, e: ConstraintEvent)
    requires !SelfPairing(e) && Movable(alive, e.parents.0)
    ensures FirstSelfPairing([e]) == 1
    ensures ApplyEvents(alive, [e], 1) == ApplyEvent(alive, e)
    ensures e.parents.1 in alive ==> ApplyEvents(alive, [e], 1)[e.parents.1] == alive[e.parents.1]
    ensures ConstrainedActions([e], 1) == [Constrained(e)]
  {
    ApplyEventsFrame(alive, [e], 1);
  }

  /** One iteration of `handle_constraint_event` for a proper pairing: move the part, log the event. */
  method AlignPart(e: ConstraintEvent, world: World, log: ActionList)
    requires world.Valid() && Movable(world.alive, e.parents.0)
    modifies world, log
    ensures world.Valid() && world.nextIndex == old(world.nextIndex)
    ensures world.alive == ApplyEvent(old(world.alive), e)
    ensures log.list == old(log.list) + [Constrained(e)]
  {
    var p := e.parents.0;
    var t := world.alive[p].transform.value;
    world.Update(p, world.alive[p].(transform := Some(ConstrainTo(t, e.constraints.0.transform, e.constraints.1.transform))));
    log.Push(FromConstraintEvent(e));
  }

  /**
   * The first `i` pairings of the batch have been applied to the store that
   * held `alive0` and logged after `log0`.
   */
  ghost predicate Applied(alive0: map<Entity, Components>, events: seq<ConstraintEvent>, i: nat,
                          alive: map<Entity, Components>, log0: seq<Action>, log: seq<Action>) {
    i <= |events| &&
    (forall j :: 0 <= j < i ==> Movable(alive0, events[j].parents.0)) &&
    alive == ApplyEvents(alive0, events, i) &&
    log == log0 + ConstrainedActions(events, i)
  }

  /** Applying and logging pairing `i` extends the applied prefix by one. */
  lemma AppliedStep(alive0: map<Entity, Components>, events: seq<ConstraintEvent>, i: nat,
                    alive: map<Entity, Components>, log0: seq<Action>, log: seq<Action>)
    requires Applied(alive0, events, i, alive, log0, log)
    requires i < |events| && Movable(alive0, events[i].parents.0)
    ensures Movable(alive, events[i].parents.0)
    ensures Applied(alive0, events, i + 1, ApplyEvent(alive, events[i]), log0, log + [Constrained(events[i])])
  {
    assert ConstrainedActions(events, i + 1) == ConstrainedActions(events, i) + [Constrained(events[i])];
  }

  /**
   * `handle_constraint_event`: the batch is applied up to its first
   * self-pairing, which ends the loop (`break`); each applied event moves
   * its first part and is logged. The reader has then consumed the events up
   * to and including the self-pairing; the ones after it are `unread` and
   * come back on the next run.
   */
  method HandleConstraintEvent(events: seq<ConstraintEvent>, world: World, log: ActionList)
    returns (unread: seq<ConstraintEvent>)
    requires world.Valid()
    requires forall i :: 0 <= i < FirstSelfPairing(events) ==> Movable(world.alive, events[i].parents.0)
    modifies world, log
    ensures world.Valid() && world.nextIndex == old(world.nextIndex)
    ensures Applied(old(world.alive), events, FirstSelfPairing(events), world.alive, old(log.list), log.list)
    ensures world.alive == ApplyEvents(old(world.alive), events, FirstSelfPairing(events))
    ensures log.list == old(log.list) + ConstrainedActions(events, FirstSelfPairing(events))
    ensures FirstSelfPairing(events) == |events| ==> unread == []
    ensures FirstSelfPairing(events) < |events| ==>
      SelfPairing(events[FirstSelfPairing(events)]) && events == events[..FirstSelfPairing(events) + 1] + unread
  {
    unread := [];
    var i := 0;
    while i < |events|
      invariant 0 <= i <= FirstSelfPairing(events)
      invariant world.Valid() && world.nextIndex == old(world.nextIndex)
      invariant Applied(old(world.alive), events, i, world.alive, old(log.list), log.list)
    {
      var e := events[i];
      if e.parents.0.index == e.parents.1.index {
        unread := events[i + 1..];
        break;
      }
      AppliedStep(old(world.alive), events, i, world.alive, old(log.list), log.list);
      AlignPart(e, world, log);
      i := i + 1;
    }
  }

  // ---------------------------------------------------------------------
  // Picking mounting points
  // ---------------------------------------------------------------------

  /**
   * What a click captures from a marker: its local translation minus its
   * parent's translation, the component-wise sum of the two rotations, and
   * unit scale.
   */
  function Capture(marker: Transform, parent: Transform): (r: Transform)
    ensures r.translation.Plus(parent.translation) == marker.translation
    ensures r.scale == One
  {
    Transform(marker.translation.Minus(parent.translation), marker.rotation.Plus(parent.rotation), One)
  }

  /** The sum of two identity rotations is not a rotation: the capture holds a quaternion of norm 2. */
  lemma CaptureOfIdentities(marker: Transform, parent: Transform)
    requires marker.rotation == Identity && parent.rotation == Identity
    ensures Capture(marker, parent).rotation == Quat(0.0, 0.0, 0.0, 2.0)
    ensures !Capture(marker, parent).rotation.IsUnit()
  {
  }

  /** The rotation between two captures of norm 2 is the real quaternion 4. */
  lemma AngleBetweenDoubles(q0: Quat, q1: Quat)
    requires q0 == Quat(0.0, 0.0, 0.0, 2.0) && q1 == q0
    ensures q0.Inverse().Mul(q1) == Quat(0.0, 0.0, 0.0, 4.0)
  {
    InverseMul(q0);
  }

  /**
   * Pairing two such captures multiplies the moving part's rotation by 4
   * instead of leaving it alone.
   */
  lemma AlignIdentityCaptures(part: Transform, m0: Transform, p0: Transform, m1: Transform, p1: Transform)
    requires m0.rotation == Identity && p0.rotation == Identity
    requires m1.rotation == Identity && p1.rotation == Identity
    ensures ConstrainTo(part, Capture(m0, p0), Capture(m1, p1)).rotation == part.rotation.Scaled(4.0)
  {
    CaptureOfIdentities(m0, p0);
    CaptureOfIdentities(m1, p1);
    AngleBetweenDoubles(Capture(m0, p0).rotation, Capture(m1, p1).rotation);
    MulScalar(part.rotation, 4.0);
  }

  /** The picker's two slots, slot 0 for the part that moves. */
  datatype Slots = Slots(
    constraints: (Option<ConstraintData>, Option<ConstraintData>),
    parents: (Option<Entity>, Option<Entity>))

  /** `CurrentConstraintOperation::default()`. */
  const EmptySlots: Slots := Slots((None, None), (None, None))

  /** Between frames slot 1 is empty, and a slot holds a parent exactly when it holds a capture. */
  predicate SlotsValid(s: Slots) {
    s.constraints.1 == None && s.parents.1 == None && (s.constraints.0.Some? <==> s.parents.0.Some?)
  }

  /**
   * One successful click on a marker of `parent` capturing `data`: the first
   * empty slot is filled; filling slot 1 turns both slots into an event, in
   * click order, and empties the slots.
   */
  function ClickSlots(s: Slots, parent: Entity, data: ConstraintData): (r: (Slots, Option<ConstraintEvent>))
    requires s.constraints.0.Some? && s.constraints.1.None? ==> s.parents.0.Some?
    ensures SlotsValid(s) ==> SlotsValid(r.0)
    ensures r.1.Some? <==> s.constraints.0.Some? && s.constraints.1.None?
    ensures r.1.Some? ==> r.0 == EmptySlots && r.1.value.constraints.1 == data && r.1.value.parents.1 == parent
    ensures s.constraints.0.None? ==>
      r.0.constraints.0 == Some(data) && r.0.parents.0 == Some(parent) &&
      r.0.constraints.1 == s.constraints.1 && r.0.parents.1 == s.parents.1
  {
    if s.constraints.0.None? then
      (Slots((Some(data), s.constraints.1), (Some(parent), s.parents.1)), None)
    else if s.constraints.1.None? then
      (EmptySlots, Some(ConstraintEvent((s.constraints.0.value, data), (s.parents.0.value, parent))))
    else
      (s, None)
  }

  /** Two clicks from empty slots produce one event holding both captures in click order. */
  lemma TwoClicks(p0: Entity, d0: ConstraintData, p1: Entity, d1: ConstraintData)
    ensures ClickSlots(EmptySlots, p0, d0).1 == None
    ensures ClickSlots(ClickSlots(EmptySlots, p0, d0).0, p1, d1) == (EmptySlots, Some(ConstraintEvent((d0, d1), (p0, p1))))
  {
  }

  /** The `CurrentConstraintOperation` resource. */
  class ConstraintOperation {
    var constraints: (Option<ConstraintData>, Option<ConstraintData>)
    var parents: (Option<Entity>, Option<Entity>)

    function Value(): Slots
      reads this
    {
      Slots(constraints, parents)
    }

    ghost predicate Valid()
      reads this
    {
      SlotsValid(Value())
    }

    constructor ()
      ensures Valid() && Value() == EmptySlots
    {
      constraints, parents := (None, None), (None, None);
    }

    /** The slot updates of one click, as `select_constraints` performs them. */
    method Click(parent: Entity, data: ConstraintData) returns (sent: Option<ConstraintEvent>)
      requires Valid()
      modifies this
      ensures Valid()
      ensures (Value(), sent) == ClickSlots(old(Value()), parent, data)
    {
      sent := None;
      if constraints.0.None? {
        parents := (Some(parent), parents.1);
        constraints := (Some(data), constraints.1);
      } else if constraints.1.None? {
        parents := (parents.0, Some(parent));
        constraints := (constraints.0, Some(data));
        sent := Some(ConstraintEvent((constraints.0.value, constraints.1.value), (parents.0.value, parents.1.value)));
        constraints, parents := (None, None), (None, None);
      }
    }
  }

  /** A marker the cursor ray can hit: it carries `ConstrainComponent` and a material. */
  predicate Pickable(alive: map<Entity, Components>, x: Entity) {
    x in alive && alive[x].marker && alive[x].colour.Some?
  }

  /** The nearest hit that passes the ray cast's filter. */
  function FirstPickable(alive: map<Entity, Components>, hits: seq<Entity>): (r: Option<Entity>)
    ensures r.None? <==> forall i :: 0 <= i < |hits| ==> !Pickable(alive, hits[i])
    ensures r.Some? ==> exists i :: (0 <= i < |hits| && hits[i] == r.value && Pickable(alive, r.value) &&
      forall j :: 0 <= j < i ==> !Pickable(alive, hits[j]))
  {
    if hits == [] then None
    else if Pickable(alive, hits[0]) then Some(hits[0])
    else
      var r := FirstPickable(alive, hits[1..]);
      if r.Some? then
        var i :| 0 <= i < |hits[1..]| && hits[1..][i] == r.value && Pickable(alive, r.value) &&
          forall j :: 0 <= j < i ==> !Pickable(alive, hits[1..][j]);
        assert hits[i + 1] == r.value;
        r
      else
        assert forall i :: 1 <= i < |hits| ==> hits[i] == hits[1..][i - 1];
        r
  }

  /** A click can be captured: the marker has a transform and a parent. */
  predicate Capturable(alive: map<Entity, Components>, x: Entity) {
    x in alive && alive[x].transform.Some? && alive[x].parent.Some?
  }

  /** The marker's parent has a transform, which the capture unwraps. */
  predicate ParentPlaced(alive: map<Entity, Components>, x: Entity)
    requires Capturable(alive, x)
  {
    var p := alive[x].parent.value;
    p in alive && alive[p].transform.Some?
  }

  /** The capture a click on the captureable marker `x` takes. */
  function CaptureOf(alive: map<Entity, Components>, x: Entity): ConstraintData
    requires Capturable(alive, x) && ParentPlaced(alive, x)
  {
    ConstraintData(Capture(alive[x].transform.value, alive[alive[x].parent.value].transform.value))
  }

  /** The store with every pickable marker's material recoloured. */
  function Painted(alive: map<Entity, Components>, col: Colour): map<Entity, Components> {
    map x | x in alive :: if Pickable(alive, x) then alive[x].(colour := Some(col)) else alive[x]
  }

  /** Recolours every marker's material: the `for` loop over the marker query. */
  method PaintMarkers(world: World, col: Colour)
    requires world.Valid()
    modifies world
    ensures world.Valid() && world.nextIndex == old(world.nextIndex)
    ensures world.alive.Keys == old(world.alive).Keys
    ensures forall x :: x in old(world.alive) ==>
      world.alive[x] == if Pickable(old(world.alive), x) then old(world.alive)[x].(colour := Some(col)) else old(world.alive)[x]
  {
    var todo := set x | x in world.alive && Pickable(world.alive, x);
    ghost var before := world.alive;
    while todo != {}
      invariant world.Valid() && world.nextIndex == old(world.nextIndex)
      invariant todo <= before.Keys && world.alive.Keys == before.Keys
      invariant forall x :: x in todo ==> Pickable(before, x)
      invariant forall x :: x in before ==>
        world.alive[x] == if Pickable(before, x) && x !in todo then before[x].(colour := Some(col)) else before[x]
      decreases todo
    {
      var x :| x in todo;
      world.Update(x, world.alive[x].(colour := Some(col)));
      todo := todo - {x};
    }
  }

  /** The capture a click needs is possible: a clicked marker with a parent has a placed parent. */
  predicate SelectReady(alive: map<Entity, Components>, ray: bool, hits: seq<Entity>, justPressed: bool) {
    (ray && justPressed && FirstPickable(alive, hits).Some? && Capturable(alive, FirstPickable(alive, hits).value)) ==>
      ParentPlaced(alive, FirstPickable(alive, hits).value)
  }

  /**
   * What one run of `select_constraints` does, from the store `alive0` and
   * the slots `slots0` to `alive`, `slots` and the event `sent`. With a
   * cursor ray whose nearest hit is a marker: a click captures the marker
   * into the picker (when it has a parent) and colours it sea green;
   * otherwise the marker is coloured blue. A ray that hits no marker colours
   * every marker red. Without a ray nothing happens.
   */
  predicate SelectEffect(alive0: map<Entity, Components>, ray: bool, hits: seq<Entity>, justPressed: bool, slots0: Slots,
                         alive: map<Entity, Components>, slots: Slots, sent: Option<ConstraintEvent>)
    requires SelectReady(alive0, ray, hits, justPressed) && SlotsValid(slots0)
  {
    (!ray ==> sent == None && slots == slots0 && alive == alive0) &&
    (ray && FirstPickable(alive0, hits).None? ==> sent == None && slots == slots0 && alive == Painted(alive0, Red)) &&
    (ray && FirstPickable(alive0, hits).Some? ==>
      var x := FirstPickable(alive0, hits).value;
      alive == alive0[x := alive0[x].(colour := Some(if justPressed then SeaGreen else Blue))] &&
      if justPressed && Capturable(alive0, x) then
        (slots, sent) == ClickSlots(slots0, alive0[x].parent.value, CaptureOf(alive0, x))
      else
        sent == None && slots == slots0)
  }

  /** `select_constraints`, against the effect above. */
  method SelectConstraints(ray: bool, hits: seq<Entity>, justPressed: bool, op: ConstraintOperation, world: World)
    returns (sent: Option<ConstraintEvent>)
    requires world.Valid() && op.Valid()
    requires SelectReady(world.alive, ray, hits, justPressed)
    modifies op, world
    ensures world.Valid() && op.Valid() && world.nextIndex == old(world.nextIndex)
    ensures SelectEffect(old(world.alive), ray, hits, justPressed, old(op.Value()), world.alive, op.Value(), sent)
  {
    sent := None;
    if !ray {
      return;
    }
    var target := FirstPickable(world.alive, hits);
    if target.None? {
      PaintMarkers(world, Red);
      assert world.alive == Painted(old(world.alive), Red);
      return;
    }
    var x := target.value;
    if justPressed {
      var m := world.alive[x];
      if m.transform.Some? && m.parent.Some? {
        var data := CaptureOf(world.alive, x);
        sent := op.Click(m.parent.value, data);
      }
      world.Update(x, m.(colour := Some(SeaGreen)));
    } else {
      world.Update(x, world.alive[x].(colour := Some(Blue)));
    }
  }
}
