/**
 * The mounting points of each part and the system that spawns them: one
 * hidden, red marker per mounting point, attached as a child of the part.
 */
module AddConstraints {
  import opened Wrappers
  import opened Geometry
  import opened Ecs
  import opened ConstraintTypes
  import opened PartSelector

  /**
   * `Quat::from_rotation_z(PI / 2.0)`, a quarter turn about the z axis. Its
   * components are irrational, so it is kept as an unspecified constant;
   * the table only needs it to be one and the same rotation.
   */
  const QuarterTurnZ: Quat

  /** The five mounting points both C-channels have, in table order. */
  const ChannelPoints: seq<ConstraintData> := [
    ConstraintData(FromTranslation(Vec3(0.29, 0.035, 0.0))),
    ConstraintData(FromTranslation(Vec3(-0.29, 0.035, 0.0))),
    ConstraintData(FromTranslation(Vec3(0.0, 0.035, -0.29))),
    ConstraintData(Transform(Vec3(-0.55, 0.365, 0.0), QuarterTurnZ, One)),
    ConstraintData(Transform(Vec3(0.55, 0.365, 0.0), QuarterTurnZ, One))]

  /** The two part names the table knows. */
  predicate IsChannel(name: string) {
    name == "2x1 C-Channel" || name == "2x25 C-Channel"
  }

  /** `get_constraint_data`: the hard-coded mounting points of a part name. */
  function GetConstraintData(name: string): (r: seq<ConstraintData>)
    ensures IsChannel(name) <==> r != []
  {
    if IsChannel(name) then ChannelPoints else []
  }

  /** `v` reflected in the plane x = 0. */
  function MirrorX(v: Vec3): Vec3 {
    Vec3(-v.x, v.y, v.z)
  }

  /** Both C-channels have five mounting points, the same ones in the same order. */
  lemma ChannelTables()
    ensures |GetConstraintData("2x1 C-Channel")| == 5
    ensures GetConstraintData("2x25 C-Channel") == GetConstraintData("2x1 C-Channel")
  {
  }

  /** Every other name has no mounting point. */
  lemma OtherNamesHaveNone(name: string)
    requires name != "2x1 C-Channel" && name != "2x25 C-Channel"
    ensures GetConstraintData(name) == []
  {
  }

  /**
   * The shape of the channel table: points 0 to 2 are unrotated, points 3
   * and 4 share the quarter turn, every scale is one, and points 0/1 and
   * 3/4 are mirror images of each other in x.
   */
  lemma ChannelPointShapes()
    ensures forall i :: 0 <= i < 3 ==> ChannelPoints[i].transform.rotation == Identity
    ensures ChannelPoints[3].transform.rotation == QuarterTurnZ == ChannelPoints[4].transform.rotation
    ensures forall i :: 0 <= i < |ChannelPoints| ==> ChannelPoints[i].transform.scale == One
    ensures ChannelPoints[1].transform.translation == MirrorX(ChannelPoints[0].transform.translation)
    ensures ChannelPoints[4].transform.translation == MirrorX(ChannelPoints[3].transform.translation)
  {
  }

  /** Of the selector's parts, exactly the two C-channels have mounting points. */
  lemma PartsWithPoints(p: string)
    requires p in GetParts()
    ensures |GetConstraintData(p)| == (if p == "2x1 C-Channel" || p == "2x25 C-Channel" then 5 else 0)
  {
  }

  // ---------------------------------------------------------------------
  // Spawning markers
  // ---------------------------------------------------------------------

  /** The event's entity is a `Part` whose `PartName` `reverse_model_name` accepts; otherwise the system panics. */
  predicate Addable(alive: map<Entity, Components>, e: Entity) {
    e in alive && alive[e].part && alive[e].partName.Some? && IsModelPath(alive[e].partName.value)
  }

  /** The mounting points of the part `e`, looked up through its part name. */
  function MarkerData(alive: map<Entity, Components>, e: Entity): seq<ConstraintData>
    requires Addable(alive, e)
  {
    GetConstraintData(ReverseModelName(alive[e].partName.value))
  }

  /** The `n` handles the allocator hands out from `next` on. */
  function Fresh(next: nat, n: nat): (r: seq<Entity>)
    ensures |r| == n && forall k :: 0 <= k < n ==> r[k] == Entity(next + k, 0)
  {
    if n == 0 then [] else Fresh(next, n - 1) + [Entity(next + n - 1, 0)]
  }

  /** `x` is one of the `n` handles handed out from `next` on. */
  predicate IsFresh(x: Entity, next: nat, n: nat) {
    x.generation == 0 && next <= x.index < next + n
  }

  /** The store after one marker per entry of `data` was spawned, the `k`-th at `Entity(next + k, 0)`. */
  function SpawnMarkers(alive: map<Entity, Components>, next: nat, data: seq<ConstraintData>): map<Entity, Components>
  {
    if data == [] then alive
    else
      var k := |data| - 1;
      SpawnMarkers(alive, next, data[..k])[Entity(next + k, 0) := NewMarker(data[k].transform)]
  }

  /** `push_children`: each of `ids` gets `p` as its `Parent`. */
  function SetParents(alive: map<Entity, Components>, ids: seq<Entity>, p: Entity): map<Entity, Components>
  {
    if ids == [] then alive
    else
      var m := SetParents(alive, ids[..|ids| - 1], p);
      var id := ids[|ids| - 1];
      if id in m then m[id := m[id].(parent := Some(p))] else m
  }

  /** The store after one `AddConstraintsEvent` for `e` handled from allocator position `next`. */
  function AddMarkers(alive: map<Entity, Components>, next: nat, e: Entity, data: seq<ConstraintData>): map<Entity, Components>
  {
    SetParents(SpawnMarkers(alive, next, data), Fresh(next, |data|), e)
  }

  /** Spawning keeps every entity there was and adds exactly the fresh markers, in table order. */
  lemma {:induction false} SpawnMarkersContents(alive: map<Entity, Components>, next: nat, data: seq<ConstraintData>)
    requires forall x :: x in alive ==> x.index < next
    ensures forall x :: x in SpawnMarkers(alive, next, data) <==> x in alive || IsFresh(x, next, |data|)
    ensures forall x :: x in alive ==> SpawnMarkers(alive, next, data)[x] == alive[x]
    ensures forall k :: 0 <= k < |data| ==>
      Entity(next + k, 0) in SpawnMarkers(alive, next, data) &&
      SpawnMarkers(alive, next, data)[Entity(next + k, 0)] == NewMarker(data[k].transform)
  {
    if data != [] {
      var k := |data| - 1;
      SpawnMarkersContents(alive, next, data[..k]);
      assert forall j :: 0 <= j < k ==> data[..k][j] == data[j];
    }
  }

  /** Setting parents keeps the key set, and changes only the parent of the listed entities. */
  lemma {:induction false} SetParentsContents(alive: map<Entity, Components>, ids: seq<Entity>, p: Entity)
    ensures SetParents(alive, ids, p).Keys == alive.Keys
    ensures forall x :: x in alive && x in ids ==> SetParents(alive, ids, p)[x] == alive[x].(parent := Some(p))
    ensures forall x :: x in alive && x !in ids ==> SetParents(alive, ids, p)[x] == alive[x]
  {
    if ids != [] {
      var init := ids[..|ids| - 1];
      SetParentsContents(alive, init, p);
      assert forall x :: x in ids <==> x in init || x == ids[|ids| - 1];
    }
  }

  /**
   * One event: every entity keeps its components, and for each mounting
   * point `k` a hidden, red marker with that point's transform appears at
   * `Entity(next + k, 0)` as a child of `e`; nothing else appears.
   */
  lemma AddMarkersContents(alive: map<Entity, Components>, next: nat, e: Entity, data: seq<ConstraintData>)
    requires forall x :: x in alive ==> x.index < next
    ensures forall x :: x in AddMarkers(alive, next, e, data) <==> x in alive || IsFresh(x, next, |data|)
    ensures forall x :: x in alive ==> AddMarkers(alive, next, e, data)[x] == alive[x]
    ensures forall k :: 0 <= k < |data| ==>
      Entity(next + k, 0) in AddMarkers(alive, next, e, data) &&
      AddMarkers(alive, next, e, data)[Entity(next + k, 0)] == NewMarker(data[k].transform).(parent := Some(e))
  {
    SpawnMarkersContents(alive, next, data);
    var ids := Fresh(next, |data|);
    SetParentsContents(SpawnMarkers(alive, next, data), ids, e);
    forall x | x in alive
      ensures x !in ids
    {
    }
    forall k | 0 <= k < |data|
      ensures AddMarkers(alive, next, e, data)[Entity(next + k, 0)] == NewMarker(data[k].transform).(parent := Some(e))
    {
      assert ids[k] == Entity(next + k, 0) && ids[k] in ids;
    }
  }

  /**
   * The state after the first `n` events: the store and the allocator
   * position. Each event's points are looked up in the store as it was
   * before the batch, which spawning never changes.
   */
  function AddAll(alive0: map<Entity, Components>, next0: nat, events: seq<Entity>, n: nat): (r: (map<Entity, Components>, nat))
    requires n <= |events|
    requires forall i :: 0 <= i < |events| ==> Addable(alive0, events[i])
    ensures r.1 >= next0
  {
    if n == 0 then (alive0, next0)
    else
      var s := AddAll(alive0, next0, events, n - 1);
      var data := MarkerData(alive0, events[n - 1]);
      (AddMarkers(s.0, s.1, events[n - 1], data), s.1 + |data|)
  }

  /** A batch of events keeps every entity of the store it started from, and the allocator bound. */
  lemma {:induction false} AddAllKeeps(alive0: map<Entity, Components>, next0: nat, events: seq<Entity>, n: nat)
    requires n <= |events|
    requires forall i :: 0 <= i < |events| ==> Addable(alive0, events[i])
    requires forall x :: x in alive0 ==> x.index < next0
    ensures forall x :: x in AddAll(alive0, next0, events, n).0 ==> x.index < AddAll(alive0, next0, events, n).1
    ensures forall x :: x in alive0 ==> x in AddAll(alive0, next0, events, n).0 && AddAll(alive0, next0, events, n).0[x] == alive0[x]
  {
    if n > 0 {
      AddAllKeeps(alive0, next0, events, n - 1);
      var s := AddAll(alive0, next0, events, n - 1);
      AddMarkersContents(s.0, s.1, events[n - 1], MarkerData(alive0, events[n - 1]));
    }
  }

  /** An event for a 2x1 C-channel part spawns its five mounting points under it. */
  lemma ChannelEventSpawnsFive(alive: map<Entity, Components>, next: nat, e: Entity)
    requires forall x :: x in alive ==> x.index < next
    requires e in alive && alive[e].part && alive[e].partName == Some(ModelPath(GetModelName("2x1 C-Channel")))
    ensures Addable(alive, e) && MarkerData(alive, e) == ChannelPoints
    ensures AddAll(alive, next, [e], 1).1 == next + 5
    ensures forall k :: 0 <= k < 5 ==>
      Entity(next + k, 0) in AddAll(alive, next, [e], 1).0 &&
      AddAll(alive, next, [e], 1).0[Entity(next + k, 0)] == NewMarker(ChannelPoints[k].transform).(parent := Some(e))
  {
    PathRoundTrip("2x1 C-Channel");
    AddMarkersContents(alive, next, e, ChannelPoints);
  }

  /** Spawns one marker per entry of `data`, in order; the loop that fills `entity_list`. */
  method SpawnConstraintMarkers(data: seq<ConstraintData>, world: World) returns (ids: seq<Entity>)
    requires world.Valid()
    modifies world
    ensures world.Valid()
    ensures ids == Fresh(old(world.nextIndex), |data|)
    ensures world.alive == SpawnMarkers(old(world.alive), old(world.nextIndex), data)
    ensures world.nextIndex == old(world.nextIndex) + |data|
  {
    ids := [];
    for k := 0 to |data|
      invariant world.Valid()
      invariant ids == Fresh(old(world.nextIndex), k)
      invariant world.alive == SpawnMarkers(old(world.alive), old(world.nextIndex), data[..k])
      invariant world.nextIndex == old(world.nextIndex) + k
    {
      var id := world.Spawn(NewMarker(data[k].transform));
      assert data[..k + 1][..k] == data[..k];
      ids := ids + [id];
    }
    assert data[..|data|] == data;
  }

  /** `push_children`: attaches every spawned marker to `e`. */
  method PushChildren(e: Entity, ids: seq<Entity>, world: World)
    requires world.Valid()
    requires forall id :: id in ids ==> id in world.alive
    modifies world
    ensures world.Valid() && world.nextIndex == old(world.nextIndex)
    ensures world.alive == SetParents(old(world.alive), ids, e)
  {
    for j := 0 to |ids|
      invariant world.Valid() && world.nextIndex == old(world.nextIndex)
      invariant world.alive == SetParents(old(world.alive), ids[..j], e)
    {
      assert ids[..j + 1][..j] == ids[..j];
      SetParentsContents(old(world.alive), ids[..j], e);
      world.Update(ids[j], world.alive[ids[j]].(parent := Some(e)));
    }
    assert ids[..|ids|] == ids;
  }

  /** The markers of one event: spawn them, then attach them to the part. */
  method AddEventMarkers(e: Entity, data: seq<ConstraintData>, world: World)
    requires world.Valid()
    modifies world
    ensures world.Valid()
    ensures world.alive == AddMarkers(old(world.alive), old(world.nextIndex), e, data)
    ensures world.nextIndex == old(world.nextIndex) + |data|
  {
    var ids := SpawnConstraintMarkers(data, world);
    SpawnMarkersContents(old(world.alive), old(world.nextIndex), data);
    forall id | id in ids
      ensures id in world.alive
    {
      var k :| 0 <= k < |ids| && ids[k] == id;
    }
    PushChildren(e, ids, world);
  }

  /** The first `i` events of the batch have been handled from the store `alive0`, reaching `alive` and `next`. */
  ghost predicate Added(alive0: map<Entity, Components>, next0: nat, events: seq<Entity>, i: nat,
                        alive: map<Entity, Components>, next: nat) {
    i <= |events| &&
    (forall j :: 0 <= j < |events| ==> Addable(alive0, events[j])) &&
    (alive, next) == AddAll(alive0, next0, events, i)
  }

  /** Event `i` finds its part as it was before the batch. */
  lemma AddedFindsPart(alive0: map<Entity, Components>, next0: nat, events: seq<Entity>, i: nat,
                       alive: map<Entity, Components>, next: nat)
    requires Added(alive0, next0, events, i, alive, next) && i < |events|
    requires forall x :: x in alive0 ==> x.index < next0
    ensures Addable(alive, events[i]) && MarkerData(alive, events[i]) == MarkerData(alive0, events[i])
  {
    AddAllKeeps(alive0, next0, events, i);
  }

  /** Handling event `i` with the part's own mounting points extends the prefix by one. */
  lemma AddedStep(alive0: map<Entity, Components>, next0: nat, events: seq<Entity>, i: nat,
                  alive: map<Entity, Components>, next: nat, alive2: map<Entity, Components>, next2: nat)
    requires Added(alive0, next0, events, i, alive, next) && i < |events|
    requires Addable(alive, events[i]) && MarkerData(alive, events[i]) == MarkerData(alive0, events[i])
    requires alive2 == AddMarkers(alive, next, events[i], MarkerData(alive, events[i]))
    requires next2 == next + |MarkerData(alive, events[i])|
    ensures Added(alive0, next0, events, i + 1, alive2, next2)
  {
  }

  /** One event: look up the part's mounting points and spawn them under it. */
  method AddPartMarkers(e: Entity, world: World)
    requires world.Valid() && Addable(world.alive, e)
    modifies world
    ensures world.Valid()
    ensures world.alive == AddMarkers(old(world.alive), old(world.nextIndex), e, MarkerData(old(world.alive), e))
    ensures world.nextIndex == old(world.nextIndex) + |MarkerData(old(world.alive), e)|
  {
    var name := ReverseModelName(world.alive[e].partName.value);
    var data := GetConstraintData(name);
    AddEventMarkers(e, data, world);
  }

  /**
   * `add_constraints_event`: for each event, in order, the part's mounting
   * points are spawned as hidden markers under it.
   */
  method AddConstraintsEvent(events: seq<Entity>, world: World)
    requires world.Valid()
    requires forall i :: 0 <= i < |events| ==> Addable(world.alive, events[i])
    modifies world
    ensures world.Valid()
    ensures world.alive == AddAll(old(world.alive), old(world.nextIndex), events, |events|).0
    ensures world.nextIndex == AddAll(old(world.alive), old(world.nextIndex), events, |events|).1
  {
    ghost var alive0, next0 := world.alive, world.nextIndex;
    for i := 0 to |events|
      invariant world.Valid()
      invariant Added(alive0, next0, events, i, world.alive, world.nextIndex)
    {
      ghost var alive, next := world.alive, world.nextIndex;
      AddedFindsPart(alive0, next0, events, i, alive, next);
      AddPartMarkers(events[i], world);
      AddedStep(alive0, next0, events, i, alive, next, world.alive, world.nextIndex);
    }
  }
}
