/** The hand-skeleton synchroniser (`update_xr_hands` and
    `update_xr_finger_joint` in `src/tracked/hands.rs`), for one hand. */
module Hands {
  import opened Wrappers
  import opened Platform
  import opened Skeleton
  import opened Ecs

  /** An input source the synchroniser can track for `side`: its handedness is
      the side's, it exposes a hand, and the hand's wrist pose resolves. */
  predicate Qualifies(src: InputSource, side: Side) {
    src.handedness == WebXrHandedness(side) && src.hand.Some? && Wrist in src.hand.value
  }

  function TrackedSourceFrom(sources: seq<InputSource>, side: Side, i: nat): (r: Option<nat>)
    requires i <= |sources|
    decreases |sources| - i
    ensures r.Some? ==>
              && i <= r.value < |sources| && Qualifies(sources[r.value], side)
              && forall j :: i <= j < r.value ==> !Qualifies(sources[j], side)
    ensures r.None? ==> forall j :: i <= j < |sources| ==> !Qualifies(sources[j], side)
  {
    if i == |sources| then None
    else if Qualifies(sources[i], side) then Some(i)
    else TrackedSourceFrom(sources, side, i + 1)
  }

  /** The input source whose hand is tracked this frame: the first one that
      qualifies. A matching source whose wrist does not resolve is passed
      over, and a source of the other handedness is never considered. */
  function TrackedSource(sources: seq<InputSource>, side: Side): (r: Option<nat>)
    ensures r.Some? ==>
              && r.value < |sources| && Qualifies(sources[r.value], side)
              && forall j :: 0 <= j < r.value ==> !Qualifies(sources[j], side)
    ensures r.None? <==> forall j :: 0 <= j < |sources| ==> !Qualifies(sources[j], side)
  {
    TrackedSourceFrom(sources, side, 0)
  }

  /** The entity a spawned joint starts as: the joint's role and the resolved
      pose, with no parent until the queued add-child runs. */
  function NewJoint(side: Side, role: JointRole, pose: Pose): Entity {
    Entity(HandJointRole(side, role), true, pose, None, None, None)
  }

  /** The ids of the skeleton-joint entities of one hand. */
  function HandIds(w: World, side: Side): set<EntityId> {
    set id | id in w.entities && w.entities[id].role.HandJointRole?
      && w.entities[id].role.side == side && IsSkeletonRole(w.entities[id].role.joint)
  }

  /** The ids the query for one joint role visits. */
  function JointIds(w: World, side: Side, role: JointRole): (ids: set<EntityId>)
    requires WellFormed(w)
    ensures forall id :: id in ids <==> id in w.entities && w.entities[id].role == HandJointRole(side, role)
  {
    set id | id in Query(w, HandJointRole(side, role))
  }

  datatype Joined = Joined(sync: Sync, entity: EntityId)

  /** Every queued despawn targets a joint entity of hand `side` that is not
      the first of its role's query: only this hand's duplicates are ever
      despawned. */
  predicate DespawnsOnlyDuplicates(w0: World, side: Side, cmds: seq<Command>)
    requires WellFormed(w0)
  {
    forall k :: 0 <= k < |cmds| && cmds[k].Despawn? ==>
      var id := cmds[k].id;
      id in w0.entities && Matches(w0.entities[id], w0.entities[id].role)
      && w0.entities[id].role.HandJointRole? && w0.entities[id].role.side == side
      && |Query(w0, w0.entities[id].role)| > 0 && Query(w0, w0.entities[id].role)[0] != id
  }

  lemma DuplicatesAreDuplicates(w0: World, side: Side, joint: JointRole, cmds: seq<Command>)
    requires WellFormed(w0)
    requires |Query(w0, HandJointRole(side, joint))| > 1
    ensures DespawnsOnlyDuplicates(w0, side, cmds) ==>
      DespawnsOnlyDuplicates(w0, side, cmds + Despawns(Query(w0, HandJointRole(side, joint))[1..]))
  {
    var role := HandJointRole(side, joint);
    var ids := Query(w0, role);
    var ds := Despawns(ids[1..]);
    forall k | 0 <= k < |ds|
      ensures ds[k].id in w0.entities && w0.entities[ds[k].id].role == role
      ensures ds[k].id != ids[0]
    {
      assert ds[k].id == ids[k + 1] && ids[k + 1] in ids;
    }
    if DespawnsOnlyDuplicates(w0, side, cmds) {
      var all := cmds + ds;
      forall k | 0 <= k < |all| && all[k].Despawn?
        ensures var id := all[k].id;
          id in w0.entities && Matches(w0.entities[id], w0.entities[id].role)
          && |Query(w0, w0.entities[id].role)| > 0 && Query(w0, w0.entities[id].role)[0] != id
      {
        if k >= |cmds| {
          assert all[k] == ds[k - |cmds|];
        }
      }
    }
  }

  /** One joint whose pose resolved, against the entities of its role
      (the `get_single_mut` match):
      - exactly one entity: it gets the pose and `active = true`;
      - several: the first is kept and the others are despawned; the survivor's
        pose and active flag are not touched;
      - none: one entity is spawned with the pose, under a freshly reserved id. */
  function ReconcileJoint(w0: World, s: Sync, side: Side, role: JointRole, pose: Pose): (r: Joined)
    requires Inv(w0, s)
    ensures Inv(w0, r.sync)
    ensures var ids := Query(w0, HandJointRole(side, role));
      && (|ids| == 1 ==>
            && r.entity == ids[0]
            && r.sync.world.entities[r.entity] == s.world.entities[r.entity].(pose := pose, active := true)
            && r.sync.cmds == s.cmds)
      && (|ids| > 1 ==>
            && r.entity == ids[0]
            && r.sync.world == s.world
            && r.sync.cmds == s.cmds + Despawns(ids[1..]))
      && (|ids| == 0 ==>
            && r.entity == s.world.next && r.entity !in w0.entities
            && r.sync.world.entities == s.world.entities
            && r.sync.cmds == s.cmds + [Spawn(r.entity, NewJoint(side, role, pose))])
    ensures r.sync.world.next == s.world.next + (if r.entity in w0.entities then 0 else 1)
    ensures r.entity in w0.entities || r.entity >= w0.next
    ensures r.entity in w0.entities ==> w0.entities[r.entity].role == HandJointRole(side, role)
    ensures forall id :: id in w0.entities && id != r.entity ==> r.sync.world.entities[id] == s.world.entities[id]
    ensures s.cmds <= r.sync.cmds
    ensures DespawnsOnlyDuplicates(w0, side, s.cmds) ==> DespawnsOnlyDuplicates(w0, side, r.sync.cmds)
  {
    var ids := Query(w0, HandJointRole(side, role));
    if |ids| == 1 then
      var e := s.world.entities[ids[0]];
      Joined(Sync(SetEntity(s.world, ids[0], e.(pose := pose, active := true)), s.cmds), ids[0])
    else if |ids| > 1 then
      DuplicatesAreDuplicates(w0, side, role, s.cmds);
      Joined(Sync(s.world, s.cmds + Despawns(ids[1..])), ids[0])
    else
      var (w', id) := Reserve(s.world);
      Joined(Sync(w', s.cmds + [Spawn(id, NewJoint(side, role, pose))]), id)
  }

  /** The pose a hand reports for a role, if the role's platform joint resolves. */
  function JointPose(hand: map<XrHandJoint, Pose>, role: JointRole): Option<Pose>
    requires IsSkeletonRole(role)
  {
    if ToPlatform(role).value in hand then Some(hand[ToPlatform(role).value]) else None
  }

  datatype Linked = Linked(sync: Sync, joint: Option<EntityId>)

  /** `update_xr_finger_joint`: with a previous joint and a resolving pose the
      joint is reconciled and (re)attached as a child of the previous joint's
      entity, every time, and its entity is returned; otherwise every entity
      of the joint is deactivated and there is no joint to hand on. */
  function UpdateFingerJoint(w0: World, s: Sync, side: Side, role: JointRole,
                             prev: Option<EntityId>, hand: map<XrHandJoint, Pose>): (r: Linked)
    requires Inv(w0, s) && IsSkeletonRole(role)
    ensures Inv(w0, r.sync)
    ensures r.joint.Some? <==> prev.Some? && JointPose(hand, role).Some?
    ensures r.joint.Some? ==>
      var j := ReconcileJoint(w0, s, side, role, JointPose(hand, role).value);
      && r.joint.value == j.entity
      && r.sync == Sync(j.sync.world, j.sync.cmds + [AddChild(prev.value, j.entity)])
    ensures r.joint.None? ==>
      r.sync == Sync(DeactivateAll(s.world, JointIds(w0, side, role)), s.cmds)
    ensures s.cmds <= r.sync.cmds
    ensures DespawnsOnlyDuplicates(w0, side, s.cmds) ==> DespawnsOnlyDuplicates(w0, side, r.sync.cmds)
  {
    var pose := JointPose(hand, role);
    if prev.Some? && pose.Some? then
      var j := ReconcileJoint(w0, s, side, role, pose.value);
      Linked(Sync(j.sync.world, j.sync.cmds + [AddChild(prev.value, j.entity)]), Some(j.entity))
    else
      Linked(Sync(DeactivateAll(s.world, JointIds(w0, side, role)), s.cmds), None)
  }

  /** Walk one finger's joints from the palm outwards, each joint resolved
      against the joint before it. */
  function WalkChain(w0: World, s: Sync, side: Side, f: Finger, js: seq<FingerJoint>,
                     prev: Option<EntityId>, hand: map<XrHandJoint, Pose>): (r: Sync)
    requires Inv(w0, s) && forall k :: 0 <= k < |js| ==> IsSkeletonRole(FingerRole(f, js[k]))
    ensures Inv(w0, r)
    ensures s.cmds <= r.cmds
    ensures DespawnsOnlyDuplicates(w0, side, s.cmds) ==> DespawnsOnlyDuplicates(w0, side, r.cmds)
    decreases |js|
  {
    if js == [] then s
    else
      var l := UpdateFingerJoint(w0, s, side, FingerRole(f, js[0]), prev, hand);
      WalkChain(w0, l.sync, side, f, js[1..], l.joint, hand)
  }

  lemma ChainsAreSkeleton(f: Finger)
    ensures forall k :: 0 <= k < |Chain(f)| ==> IsSkeletonRole(FingerRole(f, Chain(f)[k]))
  {
  }

  lemma ChainDistinct(f: Finger)
    ensures forall i, j :: 0 <= i < |Chain(f)| && 0 <= j < |Chain(f)| && i != j ==> Chain(f)[i] != Chain(f)[j]
  {
  }

  /** Walk every finger in turn; each finger starts again from the wrist. */
  function WalkFingers(w0: World, s: Sync, side: Side, fs: seq<Finger>, wrist: EntityId,
                       hand: map<XrHandJoint, Pose>): (r: Sync)
    requires Inv(w0, s)
    ensures Inv(w0, r)
    ensures s.cmds <= r.cmds
    ensures DespawnsOnlyDuplicates(w0, side, s.cmds) ==> DespawnsOnlyDuplicates(w0, side, r.cmds)
    decreases |fs|
  {
    if fs == [] then s
    else
      ChainsAreSkeleton(fs[0]);
      var s1 := WalkChain(w0, s, side, fs[0], Chain(fs[0]), Some(wrist), hand);
      WalkFingers(w0, s1, side, fs[1..], wrist, hand)
  }

  /** The wrist of a tracked hand: reconciled like any joint, and a newly
      spawned wrist is made a child of the origin. */
  function ReconcileWrist(w: World, side: Side, origin: EntityId, pose: Pose): (r: Joined)
    requires WellFormed(w)
    ensures Inv(w, r.sync)
    ensures DespawnsOnlyDuplicates(w, side, r.sync.cmds)
    ensures var j := ReconcileJoint(w, Sync(w, []), side, WristRole, pose);
      && r.entity == j.entity
      && r.sync.world == j.sync.world
      && r.sync.cmds == j.sync.cmds + (if j.entity in w.entities then [] else [AddChild(origin, j.entity)])
  {
    var j := ReconcileJoint(w, Sync(w, []), side, WristRole, pose);
    if j.entity in w.entities then j
    else Joined(Sync(j.sync.world, j.sync.cmds + [AddChild(origin, j.entity)]), j.entity)
  }

  /** `update_xr_hands` for the hand `side`. Without an origin, without a
      frame, or with no qualifying input source, every joint entity of the
      hand is deactivated and nothing is queued. Otherwise the wrist and then
      each finger is reconciled. */
  function UpdateXrHands(w: World, side: Side, frame: Option<XrFrame>): (r: Sync)
    requires WellFormed(w) && |Query(w, OriginRole)| <= 1
    ensures Inv(w, r)
    ensures DespawnsOnlyDuplicates(w, side, r.cmds)
    ensures (|Query(w, OriginRole)| == 0 || frame.None? || TrackedSource(frame.value.inputSources, side).None?)
      ==> r == Sync(DeactivateAll(w, HandIds(w, side)), [])
  {
    var origins := Query(w, OriginRole);
    if |origins| > 0 && frame.Some? then
      match TrackedSource(frame.value.inputSources, side)
      case Some(i) =>
        var hand := frame.value.inputSources[i].hand.value;
        var wrist := ReconcileWrist(w, side, origins[0], hand[Wrist]);
        WalkFingers(w, wrist.sync, side, Fingers, wrist.entity, hand)
      case None =>
        Sync(DeactivateAll(w, HandIds(w, side)), [])
    else
      Sync(DeactivateAll(w, HandIds(w, side)), [])
  }

  // ----- Properties of one frame -----

  /** Whether a role is a joint of finger `f` on hand `side`. */
  predicate IsFingerOf(r: Role, side: Side, f: Finger) {
    r.HandJointRole? && r.side == side && r.joint.FingerRole? && r.joint.finger == f
  }

  /** The ids of the entities of finger `f`'s joints `js` on hand `side`. */
  function ChainIds(w: World, side: Side, f: Finger, js: seq<FingerJoint>): (ids: set<EntityId>)
    ensures forall id :: id in ids <==>
      id in w.entities && IsFingerOf(w.entities[id].role, side, f) && w.entities[id].role.joint.joint in js
  {
    set id | id in w.entities && IsFingerOf(w.entities[id].role, side, f) && w.entities[id].role.joint.joint in js
  }

  lemma ChainIdsCons(w: World, side: Side, f: Finger, js: seq<FingerJoint>)
    requires WellFormed(w) && js != []
    ensures JointIds(w, side, FingerRole(f, js[0])) + ChainIds(w, side, f, js[1..]) == ChainIds(w, side, f, js)
  {
    var a := JointIds(w, side, FingerRole(f, js[0])) + ChainIds(w, side, f, js[1..]);
    var b := ChainIds(w, side, f, js);
    forall id | id in b ensures id in a {
      var j := w.entities[id].role.joint.joint;
      if j != js[0] {
        var k :| 0 <= k < |js| && js[k] == j;
        assert js[1..][k - 1] == j;
      }
    }
    forall id | id in a ensures id in b {
      if id in ChainIds(w, side, f, js[1..]) {
        var j := w.entities[id].role.joint.joint;
        var k :| 0 <= k < |js[1..]| && js[1..][k] == j;
        assert js[k + 1] == j;
      }
    }
  }

  /** Once a joint has no previous joint, the rest of the chain is only
      deactivated: every entity of every remaining joint gets
      `active = false` and nothing is queued. */
  lemma {:induction false} ChainWithoutPrevious(w0: World, s: Sync, side: Side, f: Finger,
                                                js: seq<FingerJoint>, hand: map<XrHandJoint, Pose>)
    requires Inv(w0, s) && forall k :: 0 <= k < |js| ==> IsSkeletonRole(FingerRole(f, js[k]))
    ensures WalkChain(w0, s, side, f, js, None, hand)
            == Sync(DeactivateAll(s.world, ChainIds(w0, side, f, js)), s.cmds)
    decreases |js|
  {
    if js == [] {
      assert DeactivateAll(s.world, {}).entities == s.world.entities;
      assert ChainIds(w0, side, f, js) == {};
    } else {
      var role := FingerRole(f, js[0]);
      var l := UpdateFingerJoint(w0, s, side, role, None, hand);
      ChainWithoutPrevious(w0, l.sync, side, f, js[1..], hand);
      DeactivateAllTwice(s.world, JointIds(w0, side, role), ChainIds(w0, side, f, js[1..]));
      ChainIdsCons(w0, side, f, js);
    }
  }

  /** A joint whose pose does not resolve breaks its finger: that joint and
      every joint after it on the finger end the call inactive, whatever
      the later joints report. */
  lemma {:induction false} ChainDeactivatesFromGap(w0: World, s: Sync, side: Side, f: Finger,
                                                   js: seq<FingerJoint>, prev: Option<EntityId>,
                                                   hand: map<XrHandJoint, Pose>, k: nat)
    requires Inv(w0, s) && forall k :: 0 <= k < |js| ==> IsSkeletonRole(FingerRole(f, js[k]))
    requires k < |js| && JointPose(hand, FingerRole(f, js[k])).None?
    ensures forall id :: id in ChainIds(w0, side, f, js[k..]) ==>
              !WalkChain(w0, s, side, f, js, prev, hand).world.entities[id].active
    decreases |js|
  {
    var role := FingerRole(f, js[0]);
    var l := UpdateFingerJoint(w0, s, side, role, prev, hand);
    if k == 0 {
      ChainWithoutPrevious(w0, l.sync, side, f, js[1..], hand);
      DeactivateAllTwice(s.world, JointIds(w0, side, role), ChainIds(w0, side, f, js[1..]));
      ChainIdsCons(w0, side, f, js);
    } else {
      ChainDeactivatesFromGap(w0, l.sync, side, f, js[1..], l.joint, hand, k - 1);
      assert js[1..][k - 1..] == js[k..];
    }
  }

  /** Walking one finger writes only that finger's entities. */
  lemma {:induction false} ChainFrame(w0: World, s: Sync, side: Side, f: Finger, js: seq<FingerJoint>,
                                      prev: Option<EntityId>, hand: map<XrHandJoint, Pose>)
    requires Inv(w0, s) && forall k :: 0 <= k < |js| ==> IsSkeletonRole(FingerRole(f, js[k]))
    ensures forall id :: id in w0.entities && !IsFingerOf(w0.entities[id].role, side, f) ==>
              WalkChain(w0, s, side, f, js, prev, hand).world.entities[id] == s.world.entities[id]
    decreases |js|
  {
    if js != [] {
      var l := UpdateFingerJoint(w0, s, side, FingerRole(f, js[0]), prev, hand);
      ChainFrame(w0, l.sync, side, f, js[1..], l.joint, hand);
    }
  }

  /** Whether a role is a joint of one of the fingers `fs` on hand `side`. */
  predicate InFingers(r: Role, side: Side, fs: seq<Finger>) {
    r.HandJointRole? && r.side == side && r.joint.FingerRole? && r.joint.finger in fs
  }

  /** Walking the fingers `fs` writes only their entities; in particular the
      wrist is left as the wrist step left it. */
  lemma {:induction false} FingersFrame(w0: World, s: Sync, side: Side, fs: seq<Finger>, wrist: EntityId,
                                        hand: map<XrHandJoint, Pose>)
    requires Inv(w0, s)
    ensures forall id :: id in w0.entities && !InFingers(w0.entities[id].role, side, fs) ==>
              WalkFingers(w0, s, side, fs, wrist, hand).world.entities[id] == s.world.entities[id]
    decreases |fs|
  {
    if fs != [] {
      ChainsAreSkeleton(fs[0]);
      var s1 := WalkChain(w0, s, side, fs[0], Chain(fs[0]), Some(wrist), hand);
      ChainFrame(w0, s, side, fs[0], Chain(fs[0]), Some(wrist), hand);
      FingersFrame(w0, s1, side, fs[1..], wrist, hand);
      assert forall g :: g in fs <==> g == fs[0] || g in fs[1..] by {
        assert fs == [fs[0]] + fs[1..];
      }
    }
  }

  /** A gap on finger `f` survives the walk over all fingers. */
  lemma {:induction false} FingersDeactivateFromGap(w0: World, s: Sync, side: Side, fs: seq<Finger>,
                                                    wrist: EntityId, hand: map<XrHandJoint, Pose>,
                                                    f: Finger, k: nat)
    requires Inv(w0, s) && f in fs
    requires k < |Chain(f)| && JointPose(hand, FingerRole(f, Chain(f)[k])).None?
    ensures forall id :: id in ChainIds(w0, side, f, Chain(f)[k..]) ==>
              !WalkFingers(w0, s, side, fs, wrist, hand).world.entities[id].active
    decreases |fs|
  {
    ChainsAreSkeleton(fs[0]);
    var s1 := WalkChain(w0, s, side, fs[0], Chain(fs[0]), Some(wrist), hand);
    if f in fs[1..] {
      FingersDeactivateFromGap(w0, s1, side, fs[1..], wrist, hand, f, k);
    } else {
      assert fs[0] == f by {
        assert fs == [fs[0]] + fs[1..];
      }
      ChainDeactivatesFromGap(w0, s, side, f, Chain(f), Some(wrist), hand, k);
      FingersFrame(w0, s1, side, fs[1..], wrist, hand);
    }
  }

  /** Walking joints `js` of one finger writes only the entities of those
      joints. */
  lemma {:induction false} ChainJointsFrame(w0: World, s: Sync, side: Side, f: Finger, js: seq<FingerJoint>,
                                            prev: Option<EntityId>, hand: map<XrHandJoint, Pose>)
    requires Inv(w0, s) && forall k :: 0 <= k < |js| ==> IsSkeletonRole(FingerRole(f, js[k]))
    ensures forall id :: id in w0.entities && id !in ChainIds(w0, side, f, js) ==>
              WalkChain(w0, s, side, f, js, prev, hand).world.entities[id] == s.world.entities[id]
    decreases |js|
  {
    if js != [] {
      var l := UpdateFingerJoint(w0, s, side, FingerRole(f, js[0]), prev, hand);
      ChainJointsFrame(w0, l.sync, side, f, js[1..], l.joint, hand);
      ChainIdsCons(w0, side, f, js);
    }
  }

  /** What reconciling a resolved joint leaves in the sync `r`, measured
      against the sync `s` before the walk: a single entity of the joint
      has the pose and `active = true` and is attached to some parent; with
      no entity, one is spawned with the pose and attached to some parent. */
  ghost predicate JointTracked(w0: World, s: Sync, r: Sync, side: Side, role: JointRole, pose: Pose)
    requires Inv(w0, s) && Inv(w0, r)
  {
    var ids := Query(w0, HandJointRole(side, role));
    && (|ids| == 1 ==>
          && r.world.entities[ids[0]] == s.world.entities[ids[0]].(pose := pose, active := true)
          && exists p :: AddChild(p, ids[0]) in r.cmds)
    && (|ids| == 0 ==>
          exists id, p :: Spawn(id, NewJoint(side, role, pose)) in r.cmds && AddChild(p, id) in r.cmds)
  }

  /** Later steps that only append commands and leave the joint's entity
      alone keep the joint tracked. */
  lemma JointTrackedLater(w0: World, s: Sync, a: Sync, b: Sync, side: Side, role: JointRole, pose: Pose)
    requires Inv(w0, s) && Inv(w0, a) && Inv(w0, b)
    requires JointTracked(w0, s, a, side, role, pose) && a.cmds <= b.cmds
    requires var ids := Query(w0, HandJointRole(side, role));
      |ids| == 1 ==> b.world.entities[ids[0]] == a.world.entities[ids[0]]
    ensures JointTracked(w0, s, b, side, role, pose)
  {
    assert forall c :: c in a.cmds ==> c in b.cmds by {
      forall c | c in a.cmds ensures c in b.cmds {
        var i :| 0 <= i < |a.cmds| && a.cmds[i] == c;
        assert b.cmds[i] == c;
      }
    }
  }

  /** One resolved joint with a previous joint ends its own step tracked. */
  lemma FingerJointTracked(w0: World, s: Sync, side: Side, role: JointRole,
                           prev: Option<EntityId>, hand: map<XrHandJoint, Pose>)
    requires Inv(w0, s) && IsSkeletonRole(role)
    requires prev.Some? && JointPose(hand, role).Some?
    ensures JointTracked(w0, s, UpdateFingerJoint(w0, s, side, role, prev, hand).sync, side, role, JointPose(hand, role).value)
  {
    var pose := JointPose(hand, role).value;
    var l := UpdateFingerJoint(w0, s, side, role, prev, hand);
    var j := ReconcileJoint(w0, s, side, role, pose);
    assert l.sync.cmds[|l.sync.cmds| - 1] == AddChild(prev.value, j.entity);
    if j.entity !in w0.entities {
      assert j.sync.cmds[|j.sync.cmds| - 1] == Spawn(j.entity, NewJoint(side, role, pose));
      assert l.sync.cmds[|j.sync.cmds| - 1] == Spawn(j.entity, NewJoint(side, role, pose));
    }
  }

  /** One joint's step leaves the single entity of any other joint alone. */
  lemma FingerJointLeavesOthers(w0: World, s: Sync, side: Side, role: JointRole,
                                prev: Option<EntityId>, hand: map<XrHandJoint, Pose>, other: JointRole)
    requires Inv(w0, s) && IsSkeletonRole(role) && other != role
    ensures var ids := Query(w0, HandJointRole(side, other));
      |ids| == 1 ==> UpdateFingerJoint(w0, s, side, role, prev, hand).sync.world.entities[ids[0]] == s.world.entities[ids[0]]
  {
    var ids := Query(w0, HandJointRole(side, other));
    if |ids| == 1 {
      assert ids[0] in ids;
    }
  }

  /** Once the first joint of `js` is tracked, walking the rest of the
      chain keeps it tracked. */
  lemma RestOfChainKeepsJoint(w0: World, s: Sync, l: Sync, side: Side, f: Finger, js: seq<FingerJoint>,
                              prev: Option<EntityId>, hand: map<XrHandJoint, Pose>)
    requires Inv(w0, s) && Inv(w0, l) && |js| > 0 && js[0] !in js[1..]
    requires forall i :: 0 <= i < |js| ==> IsSkeletonRole(FingerRole(f, js[i]))
    requires JointPose(hand, FingerRole(f, js[0])).Some?
    requires JointTracked(w0, s, l, side, FingerRole(f, js[0]), JointPose(hand, FingerRole(f, js[0])).value)
    ensures var role := FingerRole(f, js[0]);
      JointTracked(w0, s, WalkChain(w0, l, side, f, js[1..], prev, hand), side, role, JointPose(hand, role).value)
  {
    var role := FingerRole(f, js[0]);
    ChainJointsFrame(w0, l, side, f, js[1..], prev, hand);
    var ids := Query(w0, HandJointRole(side, role));
    if |ids| == 1 {
      assert ids[0] in ids;
    }
    JointTrackedLater(w0, s, l, WalkChain(w0, l, side, f, js[1..], prev, hand), side, role, JointPose(hand, role).value);
  }

  /** A joint that resolves, with every joint before it on the finger
      resolving too and a previous joint to start from, ends the walk
      tracked. */
  lemma {:induction false} ChainResolvedTracked(w0: World, s: Sync, side: Side, f: Finger,
                                                js: seq<FingerJoint>, prev: Option<EntityId>,
                                                hand: map<XrHandJoint, Pose>, k: nat)
    requires Inv(w0, s) && forall i :: 0 <= i < |js| ==> IsSkeletonRole(FingerRole(f, js[i]))
    requires prev.Some? && k < |js|
    requires forall i :: 0 <= i <= k ==> JointPose(hand, FingerRole(f, js[i])).Some?
    requires forall i :: 0 <= i < |js| && i != k ==> js[i] != js[k]
    ensures var role := FingerRole(f, js[k]);
      JointTracked(w0, s, WalkChain(w0, s, side, f, js, prev, hand), side, role, JointPose(hand, role).value)
    decreases |js|
  {
    var role := FingerRole(f, js[0]);
    var l := UpdateFingerJoint(w0, s, side, role, prev, hand);
    var r := WalkChain(w0, s, side, f, js, prev, hand);
    assert r == WalkChain(w0, l.sync, side, f, js[1..], l.joint, hand);
    if k == 0 {
      FingerJointTracked(w0, s, side, role, prev, hand);
      assert js[0] !in js[1..] by {
        forall i | 0 <= i < |js[1..]| ensures js[1..][i] != js[0] {
          assert js[1..][i] == js[i + 1];
        }
      }
      RestOfChainKeepsJoint(w0, s, l.sync, side, f, js, l.joint, hand);
    } else {
      var rk := FingerRole(f, js[k]);
      assert forall i :: 0 <= i < |js[1..]| ==> js[1..][i] == js[i + 1];
      ChainResolvedTracked(w0, l.sync, side, f, js[1..], l.joint, hand, k - 1);
      FingerJointLeavesOthers(w0, s, side, role, prev, hand, rk);
      JointTrackedEarlier(w0, s, l.sync, r, side, rk, JointPose(hand, rk).value);
    }
  }

  /** The joint's tracked state measured from an earlier sync: valid when
      the step between the two syncs left the joint's entity alone or
      already tracked it. */
  lemma JointTrackedEarlier(w0: World, s: Sync, s1: Sync, r: Sync, side: Side, role: JointRole, pose: Pose)
    requires Inv(w0, s) && Inv(w0, s1) && Inv(w0, r)
    requires JointTracked(w0, s1, r, side, role, pose)
    requires var ids := Query(w0, HandJointRole(side, role));
      |ids| == 1 ==>
        || s1.world.entities[ids[0]] == s.world.entities[ids[0]]
        || s1.world.entities[ids[0]] == s.world.entities[ids[0]].(pose := pose, active := true)
    ensures JointTracked(w0, s, r, side, role, pose)
  {
  }

  /** Walking one finger `g` either leaves a joint of finger `f` alone
      (another finger) or tracks it (the same finger, resolved up to it). */
  lemma OneFingerOnJoint(w0: World, s: Sync, side: Side, g: Finger, wrist: EntityId,
                         hand: map<XrHandJoint, Pose>, f: Finger, k: nat)
    requires Inv(w0, s) && k < |Chain(f)|
    requires forall i :: 0 <= i < |Chain(g)| ==> IsSkeletonRole(FingerRole(g, Chain(g)[i]))
    requires forall i :: 0 <= i <= k ==> JointPose(hand, FingerRole(f, Chain(f)[i])).Some?
    ensures var role := FingerRole(f, Chain(f)[k]);
      var s1 := WalkChain(w0, s, side, g, Chain(g), Some(wrist), hand);
      var ids := Query(w0, HandJointRole(side, role));
      && (g == f ==> JointTracked(w0, s, s1, side, role, JointPose(hand, role).value))
      && (|ids| == 1 ==>
            || s1.world.entities[ids[0]] == s.world.entities[ids[0]]
            || s1.world.entities[ids[0]] == s.world.entities[ids[0]].(pose := JointPose(hand, role).value, active := true))
  {
    var role := FingerRole(f, Chain(f)[k]);
    var ids := Query(w0, HandJointRole(side, role));
    if g == f {
      ChainDistinct(f);
      ChainResolvedTracked(w0, s, side, f, Chain(f), Some(wrist), hand, k);
    } else {
      ChainFrame(w0, s, side, g, Chain(g), Some(wrist), hand);
      if |ids| == 1 {
        assert ids[0] in ids;
      }
    }
  }

  /** The last visit of finger `f` in the walk: the chain tracks the
      joint and the remaining fingers leave it alone. */
  lemma LastVisitTracked(w0: World, s: Sync, side: Side, fs: seq<Finger>,
                         wrist: EntityId, hand: map<XrHandJoint, Pose>, f: Finger, k: nat)
    requires Inv(w0, s) && |fs| > 0 && fs[0] == f && f !in fs[1..] && k < |Chain(f)|
    requires forall i :: 0 <= i <= k ==> JointPose(hand, FingerRole(f, Chain(f)[i])).Some?
    ensures var role := FingerRole(f, Chain(f)[k]);
      JointTracked(w0, s, WalkFingers(w0, s, side, fs, wrist, hand), side, role, JointPose(hand, role).value)
  {
    var role := FingerRole(f, Chain(f)[k]);
    ChainsAreSkeleton(f);
    ChainDistinct(f);
    var s1 := WalkChain(w0, s, side, f, Chain(f), Some(wrist), hand);
    var r := WalkFingers(w0, s, side, fs, wrist, hand);
    assert r == WalkFingers(w0, s1, side, fs[1..], wrist, hand);
    ChainResolvedTracked(w0, s, side, f, Chain(f), Some(wrist), hand, k);
    var ids := Query(w0, HandJointRole(side, role));
    if |ids| == 1 {
      assert ids[0] in ids;
      FingersFrame(w0, s1, side, fs[1..], wrist, hand);
      assert !InFingers(w0.entities[ids[0]].role, side, fs[1..]);
    }
    JointTrackedLater(w0, s, s1, r, side, role, JointPose(hand, role).value);
  }

  /** A joint of finger `f` whose finger resolves up to and including it
      ends the walk over all fingers tracked. */
  lemma {:induction false} FingersResolvedTracked(w0: World, s: Sync, side: Side, fs: seq<Finger>,
                                                  wrist: EntityId, hand: map<XrHandJoint, Pose>,
                                                  f: Finger, k: nat)
    requires Inv(w0, s) && f in fs && k < |Chain(f)|
    requires forall i :: 0 <= i <= k ==> JointPose(hand, FingerRole(f, Chain(f)[i])).Some?
    ensures var role := FingerRole(f, Chain(f)[k]);
      JointTracked(w0, s, WalkFingers(w0, s, side, fs, wrist, hand), side, role, JointPose(hand, role).value)
    decreases |fs|
  {
    if f in fs[1..] {
      var role := FingerRole(f, Chain(f)[k]);
      ChainsAreSkeleton(fs[0]);
      var s1 := WalkChain(w0, s, side, fs[0], Chain(fs[0]), Some(wrist), hand);
      assert WalkFingers(w0, s, side, fs, wrist, hand) == WalkFingers(w0, s1, side, fs[1..], wrist, hand);
      OneFingerOnJoint(w0, s, side, fs[0], wrist, hand, f, k);
      FingersResolvedTracked(w0, s1, side, fs[1..], wrist, hand, f, k);
      JointTrackedEarlier(w0, s, s1, WalkFingers(w0, s1, side, fs[1..], wrist, hand), side, role, JointPose(hand, role).value);
    } else {
      assert fs[0] == f by {
        assert fs == [fs[0]] + fs[1..];
      }
      LastVisitTracked(w0, s, side, fs, wrist, hand, f, k);
    }
  }

  /** For a tracked hand, a finger joint that resolves, on a finger whose
      earlier joints all resolve, is tracked by the full update: a single
      entity of the joint gets the joint's pose and `active = true`, a
      missing one is spawned with the pose, and either way the entity is
      attached as a child of the joint before it. */
  lemma ResolvedJointTracked(w: World, side: Side, frame: Option<XrFrame>, f: Finger, k: nat)
    requires WellFormed(w) && |Query(w, OriginRole)| == 1
    requires frame.Some? && TrackedSource(frame.value.inputSources, side).Some?
    requires k < |Chain(f)|
    requires var hand := frame.value.inputSources[TrackedSource(frame.value.inputSources, side).value].hand.value;
      forall i :: 0 <= i <= k ==> JointPose(hand, FingerRole(f, Chain(f)[i])).Some?
    ensures var hand := frame.value.inputSources[TrackedSource(frame.value.inputSources, side).value].hand.value;
      var role := FingerRole(f, Chain(f)[k]);
      JointTracked(w, Sync(w, []), UpdateXrHands(w, side, frame), side, role, JointPose(hand, role).value)
  {
    var i := TrackedSource(frame.value.inputSources, side).value;
    var hand := frame.value.inputSources[i].hand.value;
    var role := FingerRole(f, Chain(f)[k]);
    var wrist := ReconcileWrist(w, side, Query(w, OriginRole)[0], hand[Wrist]);
    assert f in Fingers;
    FingersResolvedTracked(w, wrist.sync, side, Fingers, wrist.entity, hand, f, k);
    var ids := Query(w, HandJointRole(side, role));
    if |ids| == 1 {
      assert ids[0] in ids;
    }
  }

  /** For a tracked hand, a finger joint whose pose does not resolve leaves
      that joint and every later joint of the same finger inactive. */
  lemma FingerGapDeactivatesRest(w: World, side: Side, frame: Option<XrFrame>, f: Finger, k: nat)
    requires WellFormed(w) && |Query(w, OriginRole)| == 1
    requires frame.Some? && TrackedSource(frame.value.inputSources, side).Some?
    requires k < |Chain(f)|
    requires var i := TrackedSource(frame.value.inputSources, side).value;
      JointPose(frame.value.inputSources[i].hand.value, FingerRole(f, Chain(f)[k])).None?
    ensures forall id :: id in ChainIds(w, side, f, Chain(f)[k..]) ==>
              !UpdateXrHands(w, side, frame).world.entities[id].active
  {
    var i := TrackedSource(frame.value.inputSources, side).value;
    var hand := frame.value.inputSources[i].hand.value;
    var wrist := ReconcileWrist(w, side, Query(w, OriginRole)[0], hand[Wrist]);
    ChainsAreSkeleton(f);
    FingersDeactivateFromGap(w, wrist.sync, side, Fingers, wrist.entity, hand, f, k);
  }

  /** A tracked hand with exactly one wrist entity: the wrist gets the
      source's wrist pose and is active, and the fingers do not overwrite it. */
  lemma TrackedWristUpdated(w: World, side: Side, frame: Option<XrFrame>)
    requires WellFormed(w) && |Query(w, OriginRole)| == 1
    requires frame.Some? && TrackedSource(frame.value.inputSources, side).Some?
    requires |Query(w, HandJointRole(side, WristRole))| == 1
    ensures var id := Query(w, HandJointRole(side, WristRole))[0];
      var hand := frame.value.inputSources[TrackedSource(frame.value.inputSources, side).value].hand.value;
      UpdateXrHands(w, side, frame).world.entities[id] == w.entities[id].(pose := hand[Wrist], active := true)
  {
    var i := TrackedSource(frame.value.inputSources, side).value;
    var hand := frame.value.inputSources[i].hand.value;
    var wrist := ReconcileWrist(w, side, Query(w, OriginRole)[0], hand[Wrist]);
    FingersFrame(w, wrist.sync, side, Fingers, wrist.entity, hand);
  }

  /** A tracked hand with duplicate wrist entities: the duplicates are
      despawned, but the surviving wrist keeps its old pose and active flag
      for this frame (the duplicate branch does not write them). */
  lemma WristDuplicatesNotRefreshed(w: World, side: Side, frame: Option<XrFrame>)
    requires WellFormed(w) && |Query(w, OriginRole)| == 1
    requires frame.Some? && TrackedSource(frame.value.inputSources, side).Some?
    requires |Query(w, HandJointRole(side, WristRole))| > 1
    ensures var ids := Query(w, HandJointRole(side, WristRole));
      var r := UpdateXrHands(w, side, frame);
      && r.world.entities[ids[0]] == w.entities[ids[0]]
      && Despawns(ids[1..]) <= r.cmds
  {
    var ids := Query(w, HandJointRole(side, WristRole));
    var i := TrackedSource(frame.value.inputSources, side).value;
    var hand := frame.value.inputSources[i].hand.value;
    var wrist := ReconcileWrist(w, side, Query(w, OriginRole)[0], hand[Wrist]);
    assert wrist.entity == ids[0] && ids[0] in ids;
    assert wrist.sync == Sync(w, Despawns(ids[1..]));
    var r := WalkFingers(w, wrist.sync, side, Fingers, wrist.entity, hand);
    assert UpdateXrHands(w, side, frame) == r;
    FingersFrame(w, wrist.sync, side, Fingers, wrist.entity, hand);
  }

  /** A tracked hand with no wrist entity: a wrist is spawned with the
      source's wrist pose under the next id and made a child of the origin,
      before anything else is queued. */
  lemma MissingWristSpawned(w: World, side: Side, frame: Option<XrFrame>)
    requires WellFormed(w) && |Query(w, OriginRole)| == 1
    requires frame.Some? && TrackedSource(frame.value.inputSources, side).Some?
    requires |Query(w, HandJointRole(side, WristRole))| == 0
    ensures var hand := frame.value.inputSources[TrackedSource(frame.value.inputSources, side).value].hand.value;
      [Spawn(w.next, NewJoint(side, WristRole, hand[Wrist])), AddChild(Query(w, OriginRole)[0], w.next)]
        <= UpdateXrHands(w, side, frame).cmds
  {
    var i := TrackedSource(frame.value.inputSources, side).value;
    var hand := frame.value.inputSources[i].hand.value;
    var origin := Query(w, OriginRole)[0];
    var wrist := ReconcileWrist(w, side, origin, hand[Wrist]);
    assert wrist.sync.cmds == [Spawn(w.next, NewJoint(side, WristRole, hand[Wrist])), AddChild(origin, w.next)];
    assert UpdateXrHands(w, side, frame) == WalkFingers(w, wrist.sync, side, Fingers, wrist.entity, hand);
  }

  /** A store with at most one entity per joint of hand `side` loses no
      entity to despawns that only target that hand's duplicates. */
  lemma NoDuplicatesNoDespawn(w: World, side: Side, cmds: seq<Command>)
    requires WellFormed(w) && DespawnsOnlyDuplicates(w, side, cmds)
    requires forall j: JointRole :: |Query(w, HandJointRole(side, j))| <= 1
    ensures NoDespawn(cmds)
  {
    forall k | 0 <= k < |cmds|
      ensures !cmds[k].Despawn?
    {
      if cmds[k].Despawn? {
        assert false;
      }
    }
  }

  /** A store with at most one entity per joint of this hand never loses an
      entity to the hand synchroniser, whatever the other roles hold. */
  lemma HandsNeverDespawnSingletons(w: World, side: Side, frame: Option<XrFrame>)
    requires WellFormed(w) && |Query(w, OriginRole)| <= 1
    requires forall j: JointRole :: |Query(w, HandJointRole(side, j))| <= 1
    ensures NoDespawn(UpdateXrHands(w, side, frame).cmds)
  {
    NoDuplicatesNoDespawn(w, side, UpdateXrHands(w, side, frame).cmds);
  }

  /** Reconciling a joint and applying what it queued leaves exactly one
      entity for the joint, the one the call handed on. */
  lemma ReconcileJointCollapses(w: World, side: Side, role: JointRole, pose: Pose)
    requires WellFormed(w)
    ensures var j := ReconcileJoint(w, Sync(w, []), side, role, pose);
      Query(Apply(j.sync.world, j.sync.cmds), HandJointRole(side, role)) == [j.entity]
  {
    var n := |Query(w, HandJointRole(side, role))|;
    if n == 1 {
      CollapseSingle(w, side, role, pose);
    } else if n > 1 {
      CollapseDuplicates(w, side, role, pose);
    } else {
      CollapseMissing(w, side, role, pose);
    }
  }

  lemma CollapseSingle(w: World, side: Side, role: JointRole, pose: Pose)
    requires WellFormed(w) && |Query(w, HandJointRole(side, role))| == 1
    ensures var j := ReconcileJoint(w, Sync(w, []), side, role, pose);
      Query(Apply(j.sync.world, j.sync.cmds), HandJointRole(side, role)) == [j.entity]
  {
    var j := ReconcileJoint(w, Sync(w, []), side, role, pose);
    var hr := HandJointRole(side, role);
    var ids := Query(w, hr);
    var w' := Apply(j.sync.world, j.sync.cmds);
    assert w' == j.sync.world;
    QuerySameShape(w, w', hr);
    SingletonQuery(ids, ids[0]);
  }

  lemma CollapseDuplicates(w: World, side: Side, role: JointRole, pose: Pose)
    requires WellFormed(w) && |Query(w, HandJointRole(side, role))| > 1
    ensures var j := ReconcileJoint(w, Sync(w, []), side, role, pose);
      Query(Apply(j.sync.world, j.sync.cmds), HandJointRole(side, role)) == [j.entity]
  {
    var j := ReconcileJoint(w, Sync(w, []), side, role, pose);
    var hr := HandJointRole(side, role);
    var ids := Query(w, hr);
    assert j.sync == Sync(w, Despawns(ids[1..]));
    KeepFirst(w, hr);
  }

  lemma CollapseMissing(w: World, side: Side, role: JointRole, pose: Pose)
    requires WellFormed(w) && |Query(w, HandJointRole(side, role))| == 0
    ensures var j := ReconcileJoint(w, Sync(w, []), side, role, pose);
      Query(Apply(j.sync.world, j.sync.cmds), HandJointRole(side, role)) == [j.entity]
  {
    var j := ReconcileJoint(w, Sync(w, []), side, role, pose);
    var hr := HandJointRole(side, role);
    var ids := Query(w, hr);
    var c := Spawn(j.entity, NewJoint(side, role, pose));
    assert j.sync.cmds == [c];
    var w1 := ApplyOne(j.sync.world, c);
    assert w1.entities == w.entities[j.entity := NewJoint(side, role, pose)];
    assert WellFormed(w1);
    assert [c][1..] == [];
    assert Apply(j.sync.world, j.sync.cmds) == Apply(w1, []);
    forall id ensures id in w1.entities && Matches(w1.entities[id], hr) <==> id == j.entity {
      if id != j.entity && id in w.entities {
        assert id !in ids;
      }
    }
    SingletonQuery(Query(w1, hr), j.entity);
  }
}
