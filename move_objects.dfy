/**
 * Selecting a placed object for the move gizmo, unselecting it, deleting
 * it, and the guards of the gizmo update.
 */
module MoveObjects {
  import opened Wrappers
  import opened Geometry
  import opened Ecs
  import opened ConstraintTypes
  import opened Actions

  /** Whether an object is selected for moving; `NotMoving` is the initial state. */
  datatype MoveObjectsState = Moving | NotMoving

  const InitialMoveObjectsState: MoveObjectsState := NotMoving

  /**
   * `add_state::<MoveObjectsState>()`: nothing is selected at start-up and
   * no request is pending.
   */
  method InitMoveObjectsState() returns (m: StateMachine<MoveObjectsState>)
    ensures fresh(m) && m.current == NotMoving && m.next == None
  {
    m := new StateMachine(InitialMoveObjectsState);
  }

  /**
   * The ray cast's filter: placed parts and the grid are skipped, so the hit
   * is one of the meshes inside a part's scene.
   */
  predicate Hittable(alive: map<Entity, Components>, x: Entity) {
    !(x in alive && alive[x].part && !alive[x].placing) && !(x in alive && alive[x].grid)
  }

  /** The first hit, nearest first, that the filter lets through. */
  function FirstHit(alive: map<Entity, Components>, hits: seq<Entity>): (r: Option<Entity>)
    ensures r.None? <==> forall i :: 0 <= i < |hits| ==> !Hittable(alive, hits[i])
    ensures r.Some? ==> exists i :: (0 <= i < |hits| && hits[i] == r.value && Hittable(alive, r.value) &&
      forall j :: 0 <= j < i ==> !Hittable(alive, hits[j]))
  {
    if hits == [] then None
    else if Hittable(alive, hits[0]) then Some(hits[0])
    else
      var r := FirstHit(alive, hits[1..]);
      if r.Some? then
        var i :| (0 <= i < |hits| - 1 && hits[1..][i] == r.value && Hittable(alive, r.value) &&
          forall j :: 0 <= j < i ==> !Hittable(alive, hits[1..][j]));
        assert forall j :: 1 <= j < i + 1 ==> hits[j] == hits[1..][j - 1];
        r
      else r
  }

  /** The store with `CurrentlyMoving` on `target` and on nothing else. */
  function Reselect(alive: map<Entity, Components>, target: Entity): map<Entity, Components>
  {
    map x | x in alive :: alive[x].(moving := x == target)
  }

  /** After a reselect exactly the target is marked, and no other component changes. */
  lemma ReselectMarksOne(alive: map<Entity, Components>, target: Entity)
    requires target in alive
    ensures Reselect(alive, target).Keys == alive.Keys
    ensures forall x :: x in alive ==> Reselect(alive, target)[x].(moving := alive[x].moving) == alive[x]
    ensures forall x :: x in alive ==> (Reselect(alive, target)[x].moving <==> x == target)
  {
  }

  /** The store with `CurrentlyMoving` removed everywhere. */
  function Unmarked(alive: map<Entity, Components>): map<Entity, Components>
  {
    map x | x in alive :: alive[x].(moving := false)
  }

  /** Unmarking everything and then marking the target is a reselect. */
  lemma UnmarkThenMark(alive: map<Entity, Components>, target: Entity)
    requires target in alive
    ensures Unmarked(alive)[target := Unmarked(alive)[target].(moving := true)] == Reselect(alive, target)
  {
  }

  /** Removes `CurrentlyMoving` from every marked entity, one at a time. */
  method ClearMoving(world: World)
    requires world.Valid()
    modifies world
    ensures world.Valid() && world.nextIndex == old(world.nextIndex)
    ensures world.alive == Unmarked(old(world.alive))
  {
    var todo := set x | x in world.alive && world.alive[x].moving;
    ghost var before := world.alive;
    while todo != {}
      invariant world.Valid() && world.nextIndex == old(world.nextIndex)
      invariant todo <= before.Keys && world.alive.Keys == before.Keys
      invariant forall x :: x in todo ==> before[x].moving
      invariant forall x :: x in before ==>
        world.alive[x] == if x in todo then before[x] else before[x].(moving := false)
      decreases todo
    {
      var x :| x in todo;
      world.Update(x, world.alive[x].(moving := false));
      todo := todo - {x};
    }
  }

  /**
   * `select_object`. It does nothing unless the left button was just
   * pressed, some part is placed, constraining mode is off, there is a
   * cursor ray and the ray hits something; then the first hit becomes the
   * only marked entity and moving mode is requested.
   */
  method SelectObject(leftJustPressed: bool, ray: bool, hits: seq<Entity>, constrain: ConstrainState,
                      world: World, moving: StateMachine<MoveObjectsState>)
    returns (selected: Option<Entity>)
    requires world.Valid()
    requires forall i :: 0 <= i < |hits| ==> hits[i] in world.alive
    modifies world, moving
    ensures world.Valid() && world.nextIndex == old(world.nextIndex)
    ensures moving.current == old(moving.current)
    ensures selected.Some? <==>
      leftJustPressed && old(world.Placed()) != {} && constrain != Constraining && ray &&
      FirstHit(old(world.alive), hits).Some?
    ensures selected.None? ==> world.alive == old(world.alive) && moving.next == old(moving.next)
    ensures selected.Some? ==>
      selected == FirstHit(old(world.alive), hits) &&
      world.alive == Reselect(old(world.alive), selected.value) && moving.next == Some(Moving)
  {
    selected := None;
    if !leftJustPressed {
      return;
    }
    if world.Placed() == {} {
      return;
    }
    if constrain == Constraining {
      return;
    }
    if !ray {
      return;
    }
    var hit := FirstHit(world.alive, hits);
    if hit.None? {
      return;
    }
    ghost var before := world.alive;
    ClearMoving(world);
    var x := hit.value;
    assert x in before;
    world.Update(x, world.alive[x].(moving := true));
    UnmarkThenMark(before, x);
    moving.Set(Moving);
    selected := hit;
  }

  /**
   * `unselect_object`: Escape asks for `NotMoving` and removes the marker
   * from the marked entity when there is exactly one; without Escape
   * nothing changes.
   */
  method UnselectObject(escPressed: bool, world: World, moving: StateMachine<MoveObjectsState>)
    requires world.Valid()
    modifies world, moving
    ensures world.Valid() && world.nextIndex == old(world.nextIndex)
    ensures moving.current == old(moving.current)
    ensures !escPressed ==> world.alive == old(world.alive) && moving.next == old(moving.next)
    ensures escPressed ==> moving.next == Some(NotMoving)
    ensures escPressed && |old(world.Moving())| == 1 ==>
      world.alive.Keys == old(world.alive).Keys && world.Moving() == {} &&
      forall x :: x in old(world.alive) ==> world.alive[x] == old(world.alive)[x].(moving := false)
    ensures escPressed && |old(world.Moving())| != 1 ==> world.alive == old(world.alive)
  {
    if !escPressed {
      return;
    }
    moving.Set(NotMoving);
    var targets := world.Moving();
    if |targets| == 1 {
      var x :| x in targets;
      SingleElement(targets, x);
      world.Update(x, world.alive[x].(moving := false));
      assert forall y :: y in world.alive && y != x ==> !world.alive[y].moving;
    }
  }

  /** The entities `delete_object`'s query visits: marked, with a `Name` and a `Transform`. */
  function DeleteTargets(alive: map<Entity, Components>): (s: set<Entity>)
    ensures forall x :: x in s <==> x in alive && alive[x].moving && alive[x].name.Some? && alive[x].transform.Some?
  {
    set x | x in alive && alive[x].moving && alive[x].name.Some? && alive[x].transform.Some?
  }

  /** The log entry of deleting `x`: its handle, its name and its transform as they were. */
  function DeletedAction(alive: map<Entity, Components>, x: Entity): (a: Action)
    requires x in alive && alive[x].name.Some? && alive[x].transform.Some?
    ensures IsDeleted(a) && a.entity == x && a.name == alive[x].name.value && a.transform == alive[x].transform.value
  {
    Deleted(x, alive[x].name.value, alive[x].transform.value)
  }

  /**
   * `delete_object`: X asks for `NotMoving`; when exactly one marked entity
   * has a name and a transform, it is logged as `Deleted` and despawned with
   * its descendants. Without X nothing changes.
   */
  method DeleteObject(xPressed: bool, world: World, moving: StateMachine<MoveObjectsState>, log: ActionList)
    returns (deleted: Option<Entity>)
    requires world.Valid()
    modifies world, moving, log
    ensures world.Valid() && world.nextIndex == old(world.nextIndex)
    ensures moving.current == old(moving.current)
    ensures deleted.Some? <==> xPressed && |DeleteTargets(old(world.alive))| == 1
    ensures !xPressed ==> moving.next == old(moving.next)
    ensures xPressed ==> moving.next == Some(NotMoving)
    ensures deleted.None? ==> world.alive == old(world.alive) && log.list == old(log.list)
    ensures deleted.Some? ==>
      DeleteTargets(old(world.alive)) == {deleted.value} &&
      log.list == old(log.list) + [DeletedAction(old(world.alive), deleted.value)] &&
      world.alive == old(world.alive) - old(world.Subtree(deleted.value))
  {
    deleted := None;
    if !xPressed {
      return;
    }
    moving.Set(NotMoving);
    var targets := DeleteTargets(world.alive);
    if |targets| == 1 {
      var x :| x in targets;
      SingleElement(targets, x);
      log.Push(Deleted(x, world.alive[x].name.value, world.alive[x].transform.value));
      world.DespawnRecursive(x);
      deleted := Some(x);
    }
  }

  /** The entities the gizmo moves: marked ones with a `Transform`. */
  function GizmoTargets(alive: map<Entity, Components>): (s: set<Entity>)
    ensures forall x :: x in s <==> x in alive && alive[x].moving && alive[x].transform.Some?
  {
    set x | x in alive && alive[x].moving && alive[x].transform.Some?
  }

  /**
   * The guards of the gizmo `update`: in constraining mode, or with nothing
   * marked, no transform changes. Otherwise the single target takes the
   * transform the gizmo reports, if it reports one; the gizmo itself is an
   * input here.
   */
  method UpdateGizmoTarget(constrain: ConstrainState, gizmo: Option<Transform>, world: World)
    returns (moved: Option<Entity>)
    requires world.Valid()
    requires constrain != Constraining && GizmoTargets(world.alive) != {} ==> |GizmoTargets(world.alive)| == 1
    modifies world
    ensures world.Valid() && world.nextIndex == old(world.nextIndex)
    ensures constrain == Constraining || GizmoTargets(old(world.alive)) == {} || gizmo.None? ==>
      moved.None? && world.alive == old(world.alive)
    ensures constrain != Constraining && GizmoTargets(old(world.alive)) != {} && gizmo.Some? ==> moved.Some?
    ensures moved.Some? ==>
      GizmoTargets(old(world.alive)) == {moved.value} && gizmo.Some? &&
      world.alive == old(world.alive)[moved.value := old(world.alive)[moved.value].(transform := gizmo)]
  {
    moved := None;
    if constrain == Constraining {
      return;
    }
    var targets := GizmoTargets(world.alive);
    if targets == {} {
      return;
    }
    var x :| x in targets;
    SingleElement(targets, x);
    if gizmo.Some? {
      world.Update(x, world.alive[x].(transform := gizmo));
      moved := Some(x);
    }
  }
}
