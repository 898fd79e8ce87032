/**
 * Constraining mode: the key bindings that enter and leave it, the marker
 * visibility that follows it, and the mounting-point systems under their
 * run conditions.
 */
module Constraints {
  import opened Wrappers
  import opened Ecs
  import opened Placing
  import opened ConstraintTypes
  import opened Actions
  import opened HandleConstraints
  import opened AddConstraints

  /**
   * `init_state::<ConstrainState>()`: the mode starts out as the default,
   * `NotConstraining`, with no request pending, so in the first frame only
   * `check_for_c` of the mode-gated systems runs.
   */
  method InitConstrainState() returns (m: StateMachine<ConstrainState>)
    ensures fresh(m) && m.current == NotConstraining && m.next == None
    ensures forall p :: (!Runs(ExitConstrainSystem, m.current, p) && !Runs(HandleConstraintEventSystem, m.current, p) &&
                         !Runs(SelectConstraintsSystem, m.current, p))
  {
    m := new StateMachine(InitialConstrainState);
  }

  /** `check_for_c`: C, in any mode, disables placing and asks for constraining mode. */
  method CheckForC(cPressed: bool, placing: StateMachine<PlacingState>, constrain: StateMachine<ConstrainState>)
    modifies placing, constrain
    ensures cPressed ==> placing.next == Some(PlacingDisabled) && constrain.next == Some(Constraining)
    ensures !cPressed ==> placing.next == old(placing.next) && constrain.next == old(constrain.next)
    ensures placing.current == old(placing.current) && constrain.current == old(constrain.current)
  {
    if cPressed {
      placing.Set(PlacingDisabled);
      constrain.Set(Constraining);
    }
  }

  /** `exit_constrain`: Escape stops placing and asks to leave constraining mode. */
  method ExitConstrain(escPressed: bool, placing: StateMachine<PlacingState>, constrain: StateMachine<ConstrainState>)
    modifies placing, constrain
    ensures escPressed ==> placing.next == Some(NotPlacing) && constrain.next == Some(NotConstraining)
    ensures !escPressed ==> placing.next == old(placing.next) && constrain.next == old(constrain.next)
    ensures placing.current == old(placing.current) && constrain.current == old(constrain.current)
  {
    if escPressed {
      placing.Set(NotPlacing);
      constrain.Set(NotConstraining);
    }
  }

  // ---------------------------------------------------------------------
  // Marker visibility
  // ---------------------------------------------------------------------

  /** An entity the visibility query visits: a marker that has a `Visibility`. */
  predicate Shown(c: Components) {
    c.marker && c.visibility.Some?
  }

  /** The store with every marker's visibility set to `v`. */
  function WithVisibility(alive: map<Entity, Components>, v: Visibility): (r: map<Entity, Components>)
  {
    map x | x in alive :: if Shown(alive[x]) then alive[x].(visibility := Some(v)) else alive[x]
  }

  /**
   * Setting the marker visibility keeps every entity; markers end with `v`,
   * every other entity keeps all its components, and marker components
   * other than visibility are kept as well.
   */
  lemma WithVisibilityEffect(alive: map<Entity, Components>, v: Visibility)
    ensures WithVisibility(alive, v).Keys == alive.Keys
    ensures forall x :: x in alive && Shown(alive[x]) ==> WithVisibility(alive, v)[x].visibility == Some(v)
    ensures forall x :: x in alive ==> WithVisibility(alive, v)[x].(visibility := alive[x].visibility) == alive[x]
    ensures forall x :: x in alive && !alive[x].marker ==> WithVisibility(alive, v)[x] == alive[x]
  {
  }

  /** The later visibility wins: showing then hiding is hiding, and each is idempotent. */
  lemma WithVisibilityOverrides(alive: map<Entity, Components>, v: Visibility, w: Visibility)
    ensures WithVisibility(WithVisibility(alive, v), w) == WithVisibility(alive, w)
  {
    var a := WithVisibility(alive, v);
    assert forall x :: x in a ==> Shown(a[x]) == Shown(alive[x]);
  }

  /** The loop of `show_constraints` and `hide_constraints`: every marker's visibility becomes `v`. */
  method SetMarkerVisibility(world: World, v: Visibility)
    requires world.Valid()
    modifies world
    ensures world.Valid() && world.nextIndex == old(world.nextIndex)
    ensures world.alive == WithVisibility(old(world.alive), v)
  {
    var todo := set x | x in world.alive && Shown(world.alive[x]);
    ghost var before := world.alive;
    while todo != {}
      invariant world.Valid() && world.nextIndex == old(world.nextIndex)
      invariant todo <= before.Keys && world.alive.Keys == before.Keys
      invariant forall x :: x in todo ==> Shown(before[x])
      invariant forall x :: x in before ==>
        world.alive[x] == if Shown(before[x]) && x !in todo then before[x].(visibility := Some(v)) else before[x]
      decreases todo
    {
      var x :| x in todo;
      world.Update(x, world.alive[x].(visibility := Some(v)));
      todo := todo - {x};
    }
  }

  /** `show_constraints`, run on entering constraining mode. */
  method ShowConstraints(world: World)
    requires world.Valid()
    modifies world
    ensures world.Valid() && world.nextIndex == old(world.nextIndex)
    ensures world.alive == WithVisibility(old(world.alive), Visible)
  {
    SetMarkerVisibility(world, Visible);
  }

  /** `hide_constraints`, run on leaving constraining mode. */
  method HideConstraints(world: World)
    requires world.Valid()
    modifies world
    ensures world.Valid() && world.nextIndex == old(world.nextIndex)
    ensures world.alive == WithVisibility(old(world.alive), Hidden)
  {
    SetMarkerVisibility(world, Hidden);
  }

  // ---------------------------------------------------------------------
  // Scheduling
  // ---------------------------------------------------------------------

  /** The per-frame systems the constraint plugin registers. */
  datatype System = CheckForCSystem | ExitConstrainSystem | HandleConstraintEventSystem
                  | SelectConstraintsSystem | AddConstraintsEventSystem

  /** Whether `s` runs this frame, given the current constraining and placing modes. */
  predicate Runs(s: System, constrain: ConstrainState, placing: PlacingState) {
    match s
    case CheckForCSystem => true
    case ExitConstrainSystem | HandleConstraintEventSystem | SelectConstraintsSystem => constrain == Constraining
    case AddConstraintsEventSystem => placing == Placing
  }

  /**
   * The mounting-point systems of one frame, each under its run condition:
   * `handle_constraint_event` and then `select_constraints` while
   * constraining. Outside constraining mode the store, the picker's slots
   * and the action list stay as they were and nothing is sent; inside, the
   * pairings up to the first self-pairing are applied and logged, and the
   * picker then works on the store they leave. Events the reader did not
   * consume are `unread`: all of them outside constraining mode.
   */
  method PickerFrame(constrain: StateMachine<ConstrainState>, placing: StateMachine<PlacingState>,
                     events: seq<ConstraintEvent>, ray: bool, hits: seq<Entity>, justPressed: bool,
                     op: ConstraintOperation, world: World, log: ActionList)
    returns (sent: Option<ConstraintEvent>, unread: seq<ConstraintEvent>)
    requires world.Valid() && op.Valid()
    requires constrain.current == Constraining ==>
      forall i :: 0 <= i < FirstSelfPairing(events) ==> Movable(world.alive, events[i].parents.0)
    requires constrain.current == Constraining ==>
      SelectReady(ApplyEvents(world.alive, events, FirstSelfPairing(events)), ray, hits, justPressed)
    modifies op, world, log
    ensures world.Valid() && op.Valid() && world.nextIndex == old(world.nextIndex)
    ensures constrain.current != Constraining ==>
      sent == None && unread == events && op.Value() == old(op.Value()) && world.alive == old(world.alive) &&
      log.list == old(log.list)
    ensures constrain.current == Constraining && FirstSelfPairing(events) == |events| ==> unread == []
    ensures constrain.current == Constraining && FirstSelfPairing(events) < |events| ==>
      events == events[..FirstSelfPairing(events) + 1] + unread
    ensures constrain.current == Constraining ==>
      log.list == old(log.list) + ConstrainedActions(events, FirstSelfPairing(events)) &&
      SelectEffect(ApplyEvents(old(world.alive), events, FirstSelfPairing(events)), ray, hits, justPressed,
                   old(op.Value()), world.alive, op.Value(), sent)
  {
    sent, unread := None, events;
    if Runs(HandleConstraintEventSystem, constrain.current, placing.current) {
      unread := HandleConstraintEvent(events, world, log);
    }
    if Runs(SelectConstraintsSystem, constrain.current, placing.current) {
      sent := SelectConstraints(ray, hits, justPressed, op, world);
    }
  }

  /**
   * `add_constraints_event` under its run condition: while placing, every
   * event's mounting points are spawned; otherwise the store and the
   * allocator are left alone.
   */
  method AddConstraintsFrame(constrain: StateMachine<ConstrainState>, placing: StateMachine<PlacingState>, events: seq<Entity>, world: World)
    requires world.Valid()
    requires placing.current == Placing ==> forall i :: 0 <= i < |events| ==> Addable(world.alive, events[i])
    modifies world
    ensures world.Valid()
    ensures placing.current != Placing ==> world.alive == old(world.alive) && world.nextIndex == old(world.nextIndex)
    ensures placing.current == Placing ==>
      (world.alive, world.nextIndex) == AddAll(old(world.alive), old(world.nextIndex), events, |events|)
  {
    if Runs(AddConstraintsEventSystem, constrain.current, placing.current) {
      AddConstraintsEvent(events, world);
    }
  }

  /** The constraining mode a frame's requests lead to. */
  function ModeAfter(cPressed: bool, escPressed: bool, mode: ConstrainState, pending: Option<ConstrainState>): ConstrainState {
    if escPressed && mode == Constraining then NotConstraining
    else if cPressed then Constraining
    else if pending.Some? then pending.value
    else mode
  }

  /**
   * One frame of the mode switching: the key systems run under their run
   * conditions (`check_for_c` before `exit_constrain`), then the transition
   * step applies the requests, running `show_constraints` on entering
   * constraining mode and `hide_constraints` on leaving it.
   */
  method ModeFrame(cPressed: bool, escPressed: bool, placing: StateMachine<PlacingState>,
                   constrain: StateMachine<ConstrainState>, world: World)
    requires world.Valid()
    modifies placing, constrain, world
    ensures world.Valid() && world.nextIndex == old(world.nextIndex)
    ensures constrain.next == None && placing.next == None
    ensures constrain.current == ModeAfter(cPressed, escPressed, old(constrain.current), old(constrain.next))
    ensures escPressed && old(constrain.current) == Constraining ==> placing.current == NotPlacing
    ensures !(escPressed && old(constrain.current) == Constraining) && cPressed ==> placing.current == PlacingDisabled
    ensures !(escPressed && old(constrain.current) == Constraining) && !cPressed ==>
      placing.current == if old(placing.next).Some? then old(placing.next).value else old(placing.current)
    ensures old(constrain.current) != Constraining && constrain.current == Constraining ==>
      world.alive == WithVisibility(old(world.alive), Visible)
    ensures old(constrain.current) == Constraining && constrain.current != Constraining ==>
      world.alive == WithVisibility(old(world.alive), Hidden)
    ensures old(constrain.current) == constrain.current ==> world.alive == old(world.alive)
  {
    var mode := constrain.current;
    if Runs(CheckForCSystem, mode, placing.current) {
      CheckForC(cPressed, placing, constrain);
    }
    if Runs(ExitConstrainSystem, mode, placing.current) {
      ExitConstrain(escPressed, placing, constrain);
    }
    var _, _ := placing.Apply();
    var exited, entered := constrain.Apply();
    if entered == Some(Constraining) {
      ShowConstraints(world);
    }
    if exited == Some(Constraining) {
      HideConstraints(world);
    }
  }
}
