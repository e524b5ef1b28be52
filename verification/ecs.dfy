/** The engine's entity store as the synchronisers see it: entities keyed by
    id, each carrying a role marker, an active flag, a pose token, an optional
    parent, and the camera or tracked-object components some roles carry.

    Two engine behaviours shape every synchroniser and are modelled here:
    - a query visits the entities of one role in a fixed order; the model
      uses ascending id order for Bevy's iteration order;
    - spawn, despawn, add-child and insert are deferred commands. A spawn
      reserves its id at once (`next` grows) but the entity only enters the
      store when the command list is applied after the system has run, so no
      query of the same call can see it. In-place component writes through a
      query (pose, active flag, camera fields) take effect immediately. */
module Ecs {
  import opened Wrappers
  import opened Platform
  import opened Skeleton
  import opened Projection

  type EntityId = nat

  /** The marker combinations the synchronisers query by. */
  datatype Role =
    | OriginRole                                 // XrOrigin
    | EyeRole(side: Side)                        // XrEye + LeftHanded / RightHanded
    | WindowRole                                 // XrWindow
    | ControllerRole(hand: Option<Side>)         // XrController, with or without a hand marker
    | HandJointRole(side: Side, joint: JointRole) // a joint of one hand's skeleton
    | OtherRole                                  // anything the synchronisers never query

  /** A camera viewport in physical pixels (u32 components). */
  datatype Viewport = Viewport(x: nat, y: nat, width: nat, height: nat)

  /** The camera components a camera entity carries: `Camera` (active flag,
      viewport, render target handle, order), the projection, the optional
      `FlipView::Y` marker and the eye or window index. */
  datatype CameraState = CameraState(
    isActive: bool,
    viewport: Viewport,
    target: nat,
    order: int,
    projection: WebXrProjection,
    flipY: bool,
    index: nat)

  datatype Entity = Entity(
    role: Role,
    active: bool,
    pose: Pose,
    parent: Option<EntityId>,
    camera: Option<CameraState>,
    tracked: Option<nat>)

  /** The store plus the next id the allocator hands out. */
  datatype World = World(entities: map<EntityId, Entity>, next: EntityId)

  /** Every stored id was handed out by the allocator. */
  predicate WellFormed(w: World) {
    forall id :: id in w.entities ==> id < w.next
  }

  /** Whether an entity is visited by the query for a role. Camera queries
      fetch the `Camera` component, so they skip entities without one. */
  predicate Matches(e: Entity, r: Role) {
    e.role == r && ((r.EyeRole? || r.WindowRole?) ==> e.camera.Some?)
  }

  predicate Increasing(q: seq<EntityId>) {
    forall a, b :: 0 <= a < b < |q| ==> q[a] < q[b]
  }

  function QueryFrom(es: map<EntityId, Entity>, r: Role, lo: nat, hi: nat): (q: seq<EntityId>)
    decreases hi - lo
    ensures forall id :: id in q <==> (lo <= id < hi && id in es && Matches(es[id], r))
    ensures Increasing(q)
    ensures forall a :: 0 <= a < |q| ==> lo <= q[a]
  {
    if lo >= hi then []
    else if lo in es && Matches(es[lo], r) then [lo] + QueryFrom(es, r, lo + 1, hi)
    else QueryFrom(es, r, lo + 1, hi)
  }

  /** The ids a query for role `r` visits, in visiting order: exactly the
      stored entities that match, each once. */
  function Query(w: World, r: Role): (q: seq<EntityId>)
    requires WellFormed(w)
    ensures forall id :: id in q <==> (id in w.entities && Matches(w.entities[id], r))
    ensures Increasing(q)
  {
    QueryFrom(w.entities, r, 0, w.next)
  }

  /** Two stores that agree on ids, roles and camera presence. */
  predicate SameShape(w: World, w': World) {
    && w.next == w'.next
    && w.entities.Keys == w'.entities.Keys
    && forall id :: id in w.entities ==>
         w'.entities[id].role == w.entities[id].role
         && w'.entities[id].camera.Some? == w.entities[id].camera.Some?
  }

  lemma {:induction false} QueryFromSameShape(w: World, w': World, r: Role, lo: nat)
    requires SameShape(w, w')
    decreases w.next - lo
    ensures QueryFrom(w.entities, r, lo, w.next) == QueryFrom(w'.entities, r, lo, w'.next)
  {
    if lo < w.next {
      QueryFromSameShape(w, w', r, lo + 1);
    }
  }

  /** In-place writes that keep every entity's role and components leave
      every query's answer unchanged. */
  lemma QuerySameShape(w: World, w': World, r: Role)
    requires WellFormed(w) && SameShape(w, w')
    ensures WellFormed(w')
    ensures Query(w, r) == Query(w', r)
  {
    QueryFromSameShape(w, w', r, 0);
  }

  /** Reserve a fresh id, as `commands.spawn` does. */
  function Reserve(w: World): (r: (World, EntityId))
    requires WellFormed(w)
    ensures r.1 !in w.entities && r.1 == w.next
    ensures r.0.entities == w.entities && r.0.next == w.next + 1
    ensures WellFormed(r.0)
  {
    (w.(next := w.next + 1), w.next)
  }

  /** Overwrite one stored entity in place. */
  function SetEntity(w: World, id: EntityId, e: Entity): (w': World)
    requires id in w.entities
    ensures w'.next == w.next && w'.entities.Keys == w.entities.Keys
    ensures w'.entities[id] == e
    ensures forall other :: other in w.entities && other != id ==> w'.entities[other] == w.entities[other]
  {
    w.(entities := w.entities[id := e])
  }

  /** The entity with its active flag cleared and, if it is a camera, its
      camera disabled. */
  function Disabled(e: Entity): (d: Entity)
    ensures !d.active && d.role == e.role && d.pose == e.pose && d.parent == e.parent
    ensures d.camera.Some? == e.camera.Some?
    ensures d.camera.Some? ==> !d.camera.value.isActive && d.camera.value.viewport == e.camera.value.viewport
  {
    e.(active := false,
       camera := if e.camera.Some? then Some(e.camera.value.(isActive := false)) else None)
  }

  /** Set `active = false` on every listed entity (the `for ... in query`
      deactivation loops); cameras also get `is_active = false`. */
  function DisableAll(w: World, ids: seq<EntityId>): (w': World)
    ensures w'.next == w.next && w'.entities.Keys == w.entities.Keys
    ensures forall id :: id in w.entities && id in ids ==> w'.entities[id] == Disabled(w.entities[id])
    ensures forall id :: id in w.entities && id !in ids ==> w'.entities[id] == w.entities[id]
  {
    w.(entities := map id | id in w.entities :: if id in ids then Disabled(w.entities[id]) else w.entities[id])
  }

  /** Set `active = false` on every entity in `ids`, touching nothing else
      (the deactivation loops over tracked-object queries). */
  function DeactivateAll(w: World, ids: set<EntityId>): (w': World)
    ensures w'.next == w.next && w'.entities.Keys == w.entities.Keys
    ensures forall id :: id in w.entities && id in ids ==> w'.entities[id] == w.entities[id].(active := false)
    ensures forall id :: id in w.entities && id !in ids ==> w'.entities[id] == w.entities[id]
  {
    w.(entities := map id | id in w.entities :: if id in ids then w.entities[id].(active := false) else w.entities[id])
  }

  /** Deferred commands, applied in order after the system returns. */
  datatype Command =
    | Spawn(id: EntityId, entity: Entity)
    | Despawn(id: EntityId)
    | AddChild(parent: EntityId, child: EntityId)
    | InsertTracked(id: EntityId, index: nat)

  predicate NoDespawn(cmds: seq<Command>) {
    forall k :: 0 <= k < |cmds| ==> !cmds[k].Despawn?
  }

  predicate NoSpawn(cmds: seq<Command>) {
    forall k :: 0 <= k < |cmds| ==> !cmds[k].Spawn?
  }

  /** One despawn command per id, in order. */
  function Despawns(ids: seq<EntityId>): (cmds: seq<Command>)
    ensures |cmds| == |ids|
    ensures forall k :: 0 <= k < |ids| ==> cmds[k] == Despawn(ids[k])
  {
    if ids == [] then [] else [Despawn(ids[0])] + Despawns(ids[1..])
  }

  /** The state a synchroniser threads through one call: the store with the
      in-place writes made so far, and the commands queued so far. */
  datatype Sync = Sync(world: World, cmds: seq<Command>)

  /** What a synchroniser may assume about its running state: the store
      keeps the ids it started with, the allocator only grew, and every queued
      spawn uses an id reserved during this call. */
  predicate Inv(w0: World, s: Sync) {
    && WellFormed(w0) && WellFormed(s.world)
    && s.world.entities.Keys == w0.entities.Keys
    && w0.next <= s.world.next
    && (forall id :: id in w0.entities ==>
          && s.world.entities[id].role == w0.entities[id].role
          && s.world.entities[id].camera.Some? == w0.entities[id].camera.Some?)
    && (forall k :: 0 <= k < |s.cmds| && s.cmds[k].Spawn? ==> w0.next <= s.cmds[k].id < s.world.next)
  }

  /** Disabling entities in place keeps a synchroniser's running state valid. */
  lemma DisableAllKeepsInv(w0: World, s: Sync, ids: seq<EntityId>)
    requires Inv(w0, s)
    ensures Inv(w0, Sync(DisableAll(s.world, ids), s.cmds))
  {
    var w' := DisableAll(s.world, ids);
    forall id | id in w0.entities
      ensures w'.entities[id].role == w0.entities[id].role
      ensures w'.entities[id].camera.Some? == w0.entities[id].camera.Some?
    {
    }
  }

  function ApplyOne(w: World, c: Command): World {
    match c
    case Spawn(id, e) => w.(entities := w.entities[id := e])
    case Despawn(id) => w.(entities := w.entities - {id})
    case AddChild(p, child) =>
      if child in w.entities then w.(entities := w.entities[child := w.entities[child].(parent := Some(p))]) else w
    case InsertTracked(id, i) =>
      if id in w.entities then w.(entities := w.entities[id := w.entities[id].(tracked := Some(i))]) else w
  }

  /** Apply a command list in order (what the engine does at the next sync
      point). Spawns only use ids the allocator already handed out. */
  function Apply(w: World, cmds: seq<Command>): (w': World)
    requires WellFormed(w)
    requires forall k :: 0 <= k < |cmds| && cmds[k].Spawn? ==> cmds[k].id < w.next
    ensures WellFormed(w') && w'.next == w.next
    ensures NoDespawn(cmds) ==> w.entities.Keys <= w'.entities.Keys
    ensures NoSpawn(cmds) ==> w'.entities.Keys <= w.entities.Keys
    decreases |cmds|
  {
    if cmds == [] then w else Apply(ApplyOne(w, cmds[0]), cmds[1..])
  }

  /** Deactivating twice is deactivating the union once. */
  lemma DeactivateAllTwice(w: World, a: set<EntityId>, b: set<EntityId>)
    ensures DeactivateAll(DeactivateAll(w, a), b) == DeactivateAll(w, a + b)
  {
    var l := DeactivateAll(DeactivateAll(w, a), b);
    var r := DeactivateAll(w, a + b);
    assert l.entities == r.entities;
  }

  /** An increasing sequence whose only member is `x` is `[x]`. */
  lemma SingletonQuery(q: seq<EntityId>, x: EntityId)
    requires Increasing(q)
    requires forall id :: id in q <==> id == x
    ensures q == [x]
  {
    assert x in q;
    assert q[0] in q && q[|q| - 1] in q;
  }

  /** Applying despawns removes exactly the listed ids. */
  lemma {:induction false} ApplyDespawns(w: World, ids: seq<EntityId>)
    requires WellFormed(w)
    ensures Apply(w, Despawns(ids)).entities == w.entities - (set id | id in ids)
    decreases |ids|
  {
    if ids != [] {
      var w1 := ApplyOne(w, Despawn(ids[0]));
      assert Despawns(ids)[1..] == Despawns(ids[1..]);
      ApplyDespawns(w1, ids[1..]);
      assert w1.entities - (set id | id in ids[1..]) == w.entities - (set id | id in ids);
    }
  }

  /** Despawning every entity of a query but the first leaves the first as
      the query's only entity. */
  lemma KeepFirst(w: World, r: Role)
    requires WellFormed(w) && |Query(w, r)| >= 1
    ensures var ids := Query(w, r);
      Query(Apply(w, Despawns(ids[1..])), r) == [ids[0]]
  {
    var ids := Query(w, r);
    var w' := Apply(w, Despawns(ids[1..]));
    ApplyDespawns(w, ids[1..]);
    forall id ensures id in w'.entities && Matches(w'.entities[id], r) <==> id == ids[0] {
      if id in ids[1..] {
        var a :| 0 <= a < |ids[1..]| && ids[1..][a] == id;
        assert ids[0] < ids[a + 1];
      }
      assert ids[0] in ids;
    }
    SingletonQuery(Query(w', r), ids[0]);
  }
}
