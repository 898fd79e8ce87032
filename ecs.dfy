/**
 * The slice of the engine's entity-component store that the editor's systems
 * touch: the live entities and the components each one carries.
 *
 * A system is one atomic method on this store; the engine's deferred
 * commands are applied in the order the system issues them.
 */
module Ecs {
  import opened Wrappers
  import opened Geometry

  /** An entity handle: a slot index and the generation of that slot. */
  datatype Entity = Entity(index: nat, generation: nat)

  /** The engine's `Entity::PLACEHOLDER`, a handle that never names a live entity. */
  const Placeholder: Entity := Entity(0xFFFF_FFFF, 1)

  datatype Visibility = Inherited | Hidden | Visible

  /** The base colours the mounting-point picker gives a marker's material. */
  datatype Colour = Red | Blue | SeaGreen

  /**
   * The components of one entity that the core reads or writes. A flag is a
   * marker component; an `Option` is a component with data.
   */
  datatype Components = Components(
    /** `Transform`: for a child entity it is relative to the parent. */
    transform: Option<Transform>,
    /** `Parent`. */
    parent: Option<Entity>,
    /** `Part`: a placed part. */
    part: bool,
    /** `PartName`: the model path the part was placed from. */
    partName: Option<string>,
    /** `Name`. */
    name: Option<string>,
    /** `ConstrainComponent`: a mounting-point marker. */
    marker: bool,
    visibility: Option<Visibility>,
    /** The base colour of the entity's own material. */
    colour: Option<Colour>,
    /** `CurrentlyMoving`: selected for the move gizmo. */
    moving: bool,
    /** `CurrentlyPlacing`: the preview of a part being placed. */
    placing: bool,
    /** `InfiniteGrid`. */
    grid: bool)

  /** A mounting-point marker as `add_constraints_event` spawns it: hidden, red, not yet attached. */
  function NewMarker(t: Transform): (c: Components)
    ensures c.marker && c.transform == Some(t) && c.visibility == Some(Hidden) && c.colour == Some(Red)
    ensures c.parent == None && !c.part && !c.moving && !c.placing && !c.grid
  {
    Components(Some(t), None, false, None, None, true, Some(Hidden), Some(Red), false, false, false)
  }

  /** `m` is `base` with some entities removed: every entity left keeps its components. */
  predicate SubStore(m: map<Entity, Components>, base: map<Entity, Components>) {
    m.Keys <= base.Keys && forall e :: e in m ==> m[e] == base[e]
  }

  lemma SubStoreTransitive(a: map<Entity, Components>, b: map<Entity, Components>, c: map<Entity, Components>)
    requires SubStore(a, b) && SubStore(b, c)
    ensures SubStore(a, c)
  {
  }

  /** A set of one element holds nothing else. */
  lemma SingleElement(s: set<Entity>, x: Entity)
    requires |s| == 1 && x in s
    ensures s == {x}
  {
    assert |s - {x}| == 0;
  }

  /**
   * Following parent links from `x` leads to `root`. Only links to an entity
   * of lower index are followed; every link the editor creates is one (see
   * `ParentsOlder`), and the bound keeps a cyclic hierarchy finite.
   */
  predicate Reaches(alive: map<Entity, Components>, x: Entity, root: Entity)
    decreases x.index
  {
    x == root ||
    (x in alive && alive[x].parent.Some? && alive[x].parent.value.index < x.index &&
     Reaches(alive, alive[x].parent.value, root))
  }

  /**
   * The live entities below `root`, `root` included. Everything in it other
   * than `root` hangs from a parent that is `root` or in it, and every live
   * child of such a parent is in it.
   */
  function SubtreeOf(alive: map<Entity, Components>, root: Entity): (s: set<Entity>)
    ensures s <= alive.Keys
    ensures root in alive ==> root in s
    ensures forall x :: x in s && x != root ==>
      alive[x].parent.Some? && (alive[x].parent.value == root || alive[x].parent.value in s)
    ensures forall x :: (x in alive && alive[x].parent.Some? && alive[x].parent.value.index < x.index &&
      (alive[x].parent.value == root || alive[x].parent.value in s)) ==> x in s
  {
    var s := set x | x in alive && Reaches(alive, x, root);
    SubtreeShape(alive, root, s);
    s
  }

  lemma SubtreeShape(alive: map<Entity, Components>, root: Entity, s: set<Entity>)
    requires s == set x | x in alive && Reaches(alive, x, root)
    ensures forall x :: x in s && x != root ==>
      alive[x].parent.Some? && (alive[x].parent.value == root || alive[x].parent.value in s)
    ensures forall x :: (x in alive && alive[x].parent.Some? && alive[x].parent.value.index < x.index &&
      (alive[x].parent.value == root || alive[x].parent.value in s)) ==> x in s
  {
    forall x | x in s && x != root
      ensures alive[x].parent.Some? && (alive[x].parent.value == root || alive[x].parent.value in s)
    {
      var p := alive[x].parent.value;
      assert Reaches(alive, p, root);
    }
    forall x | x in alive && alive[x].parent.Some? && alive[x].parent.value.index < x.index &&
      (alive[x].parent.value == root || alive[x].parent.value in s)
      ensures x in s
    {
      assert Reaches(alive, alive[x].parent.value, root);
    }
  }

  /** Every parent link points to an entity of lower index, as it does for a child spawned after its parent. */
  predicate ParentsOlder(alive: map<Entity, Components>) {
    forall x :: x in alive && alive[x].parent.Some? ==> alive[x].parent.value.index < x.index
  }

  /** A chain of parent links: every entity but the last is live and has the next one as its `Parent`. */
  predicate ParentChain(alive: map<Entity, Components>, c: seq<Entity>) {
    |c| > 0 && forall k :: 0 <= k < |c| - 1 ==> c[k] in alive && alive[c[k]].parent == Some(c[k + 1])
  }

  /** When parents are older than their children, every chain of parent links is followed to its end. */
  lemma {:induction false} ChainReaches(alive: map<Entity, Components>, c: seq<Entity>)
    requires ParentsOlder(alive) && ParentChain(alive, c)
    ensures Reaches(alive, c[0], c[|c| - 1])
    decreases |c|
  {
    if |c| > 1 {
      assert ParentChain(alive, c[1..]);
      ChainReaches(alive, c[1..]);
    }
  }

  /** Every live entity whose parent chain ends at `root` is in `root`'s subtree. */
  lemma SubtreeComplete(alive: map<Entity, Components>, c: seq<Entity>, root: Entity)
    requires ParentsOlder(alive) && ParentChain(alive, c) && c[0] in alive && c[|c| - 1] == root
    ensures c[0] in SubtreeOf(alive, root)
  {
    ChainReaches(alive, c);
  }

  /** The live entities below any of `roots`. */
  function SubtreesOf(alive: map<Entity, Components>, roots: set<Entity>): (s: set<Entity>)
    ensures s <= alive.Keys
    ensures forall r :: r in roots ==> SubtreeOf(alive, r) <= s
    ensures forall x :: x in s ==> exists r :: r in roots && x in SubtreeOf(alive, r)
  {
    set x | x in alive && exists r :: r in roots && Reaches(alive, x, r)
  }

  /**
   * Removing the subtrees of `done` does not change whether a survivor
   * reaches `r`: a chain through a removed entity would have made the
   * survivor removed too.
   */
  lemma {:induction false} ReachesAfterDespawn(alive0: map<Entity, Components>, done: set<Entity>, x: Entity, r: Entity)
    requires x in alive0 && x !in SubtreesOf(alive0, done)
    ensures Reaches(alive0 - SubtreesOf(alive0, done), x, r) <==> Reaches(alive0, x, r)
    decreases x.index
  {
    var s := SubtreesOf(alive0, done);
    var a := alive0 - s;
    if x != r && alive0[x].parent.Some? && alive0[x].parent.value.index < x.index {
      var p := alive0[x].parent.value;
      if p in alive0 {
        ReachesAfterDespawn(alive0, done, p, r);
      }
      assert a[x] == alive0[x];
    }
  }

  /** Despawning one more root's subtree, as it is in what is left, removes its old subtree. */
  lemma DespawnStep(alive0: map<Entity, Components>, done: set<Entity>, r: Entity)
    ensures var a := alive0 - SubtreesOf(alive0, done);
      a - SubtreeOf(a, r) == alive0 - SubtreesOf(alive0, done + {r})
  {
    var s := SubtreesOf(alive0, done);
    var a := alive0 - s;
    forall x | x in alive0
      ensures x in a - SubtreeOf(a, r) <==> x in alive0 - SubtreesOf(alive0, done + {r})
    {
      if x !in s {
        ReachesAfterDespawn(alive0, done, x, r);
        if Reaches(alive0, x, r) {
          assert x in SubtreeOf(alive0, r);
        }
      }
      if x in alive0 - SubtreesOf(alive0, done + {r}) {
        assert x !in SubtreeOf(alive0, r);
      }
    }
  }

  /** The placing previews: entities marked `CurrentlyPlacing`. */
  function PlacingIn(alive: map<Entity, Components>): (s: set<Entity>)
    ensures forall e :: e in s <==> e in alive && alive[e].placing
  {
    set e | e in alive && alive[e].placing
  }

  /** No entity is a placing preview. */
  predicate NoPreviews(alive: map<Entity, Components>) {
    forall e :: e in alive ==> !alive[e].placing
  }

  /** The store once every placing preview was despawned with its descendants. */
  function WithoutPreviews(alive: map<Entity, Components>): map<Entity, Components> {
    alive - SubtreesOf(alive, PlacingIn(alive))
  }

  /**
   * Despawning the previews leaves no preview, keeps every survivor's
   * components, and keeps exactly the entities that hang below no preview.
   */
  lemma WithoutPreviewsEffect(alive: map<Entity, Components>)
    ensures SubStore(WithoutPreviews(alive), alive) && NoPreviews(WithoutPreviews(alive))
    ensures forall x :: x in alive ==>
      (x in WithoutPreviews(alive) <==> forall p :: p in PlacingIn(alive) ==> x !in SubtreeOf(alive, p))
  {
    var w := WithoutPreviews(alive);
    forall e | e in w
      ensures !w[e].placing
    {
      assert e in alive;
    }
  }

  /** With the previews gone, despawning the previews again changes nothing. */
  lemma WithoutPreviewsIdempotent(alive: map<Entity, Components>)
    ensures WithoutPreviews(WithoutPreviews(alive)) == WithoutPreviews(alive)
  {
    var w := WithoutPreviews(alive);
    var none := PlacingIn(w);
    assert none == {} by {
      WithoutPreviewsEffect(alive);
    }
    var gone := SubtreesOf(w, none);
    assert gone == {};
    assert w - gone == w;
  }

  class World {
    var alive: map<Entity, Components>
    /** Where the allocator hands out the next fresh entity. */
    var nextIndex: nat

    ghost predicate Valid()
      reads this
    {
      forall e :: e in alive ==> e.index < nextIndex
    }

    /** An empty store. */
    constructor ()
      ensures Valid() && alive == map[] && nextIndex == 0
    {
      alive, nextIndex := map[], 0;
    }

    function Markers(): (s: set<Entity>)
      reads this
      ensures forall e :: e in s <==> e in alive && alive[e].marker
    {
      set e | e in alive && alive[e].marker
    }

    function Moving(): (s: set<Entity>)
      reads this
      ensures forall e :: e in s <==> e in alive && alive[e].moving
    {
      set e | e in alive && alive[e].moving
    }

    /** Placed parts: `Part` and not `CurrentlyPlacing`. */
    function Placed(): (s: set<Entity>)
      reads this
      ensures forall e :: e in s <==> e in alive && alive[e].part && !alive[e].placing
    {
      set e | e in alive && alive[e].part && !alive[e].placing
    }

    function Previews(): (s: set<Entity>)
      reads this
      ensures s == PlacingIn(alive)
    {
      PlacingIn(alive)
    }

    /**
     * The live entities in the hierarchy below `root`, `root` included: those
     * whose parent links lead to `root`.
     */
    function Subtree(root: Entity): (s: set<Entity>)
      reads this
      ensures s == SubtreeOf(alive, root)
    {
      SubtreeOf(alive, root)
    }

    /**
     * The store after some entities were despawned: every survivor keeps
     * every component it had, and the allocator does not move.
     */
    twostate predicate OnlyDespawned()
      reads this
    {
      SubStore(alive, old(alive)) && nextIndex == old(nextIndex)
    }

    /** `despawn_recursive`: the entity and all its descendants disappear with every component. */
    method DespawnRecursive(root: Entity)
      requires Valid()
      modifies this
      ensures Valid() && OnlyDespawned()
      ensures alive == old(alive) - old(Subtree(root))
    {
      alive := alive - Subtree(root);
    }

    /**
     * Despawns every entity of `roots`, each with its descendants, one after
     * the other: what is left is the old store without the subtrees the
     * roots had in it.
     */
    method DespawnAllRecursive(roots: set<Entity>)
      requires Valid()
      modifies this
      ensures Valid() && OnlyDespawned()
      ensures alive == old(alive) - SubtreesOf(old(alive), roots)
      ensures forall r :: r in roots ==> r !in alive
    {
      ghost var alive0 := alive;
      var todo := roots;
      while todo != {}
        invariant Valid() && OnlyDespawned()
        invariant todo <= roots
        invariant alive == alive0 - SubtreesOf(alive0, roots - todo)
        decreases todo
      {
        var r :| r in todo;
        DespawnStep(alive0, roots - todo, r);
        DespawnRecursive(r);
        assert roots - (todo - {r}) == (roots - todo) + {r};
        todo := todo - {r};
      }
      forall r | r in roots
        ensures r !in alive
      {
        assert Reaches(alive0, r, r);
      }
    }

    /** Overwrites the components of the live entity `e`, as an in-place component update does. */
    method Update(e: Entity, c: Components)
      requires Valid() && e in alive
      modifies this
      ensures Valid() && nextIndex == old(nextIndex)
      ensures alive == old(alive)[e := c]
    {
      alive := alive[e := c];
    }

    /** Spawns an entity carrying exactly `c` and returns its fresh handle. */
    method Spawn(c: Components) returns (e: Entity)
      requires Valid()
      modifies this
      ensures Valid()
      ensures e !in old(alive) && e == Entity(old(nextIndex), 0)
      ensures alive == old(alive)[e := c] && nextIndex == old(nextIndex) + 1
    {
      e := Entity(nextIndex, 0);
      alive := alive[e := c];
      nextIndex := nextIndex + 1;
    }
  }

  /**
   * The engine's `State<S>` together with its `NextState<S>`: systems ask for
   * a new state, and the transition step applies the request.
   */
  class StateMachine<S(==)> {
    var current: S
    var next: Option<S>

    constructor (initial: S)
      ensures current == initial && next == None
    {
      current, next := initial, None;
    }

    /** `NextState::set`: the request takes effect at the next transition step. */
    method Set(s: S)
      modifies this
      ensures next == Some(s) && current == old(current)
    {
      next := Some(s);
    }

    /**
     * The transition step: a pending request is consumed; if it names a state
     * other than the current one, the old state is exited and the new one
     * entered (which is when `OnExit` and `OnEnter` systems run).
     */
    method Apply() returns (exited: Option<S>, entered: Option<S>)
      modifies this
      ensures next == None
      ensures old(next).Some? && old(next).value != old(current) ==>
        current == old(next).value && exited == Some(old(current)) && entered == Some(current)
      ensures !(old(next).Some? && old(next).value != old(current)) ==>
        current == old(current) && exited == None && entered == None
    {
      exited, entered := None, None;
      if next.Some? && next.value != current {
        exited, entered := Some(current), next;
        current := next.value;
      }
      next := None;
    }
  }
}
