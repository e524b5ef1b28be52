/** What one call of the controller synchroniser does, arm by arm: which
    controllers it updates, despawns, spawns and deactivates, and which
    events it sends. */
module ControllerFacts {
  import opened Wrappers
  import opened Platform
  import opened Skeleton
  import opened Ecs
  import opened Controllers

  /** The source loop is entered: there is an origin, a frame and at least
      one input source. */
  predicate Runs(w: World, frame: Option<XrFrame>)
    requires WellFormed(w)
  {
    |Query(w, OriginRole)| > 0 && frame.Some? && |frame.value.inputSources| > 0
  }

  /** The handedness a side's match arm fires on. */
  function HandednessOf(side: Side): XrHandedness {
    if side == Left then HandednessLeft else HandednessRight
  }

  /** The controller a side's events are about. */
  function ControllerOf(side: Side): XrController {
    if side == Left then LeftController else RightController
  }

  /** Whether an entity is a left or right controller. */
  predicate Sided(e: Entity) {
    e.role.ControllerRole? && e.role.hand.Some?
  }

  /** The events the gamepad decoding appends for controller `c`, judged
      against the analog store the call started with. */
  function PadEvents(c: XrController, pad: Gamepad, analog: map<InputKey, real>, filter: Filter): seq<ControllerEvent> {
    ButtonEvents(c, pad.buttons, |pad.buttons|, analog, filter) + AxisEvents(c, pad.axes, |pad.axes|, analog, filter)
  }

  /** The call's result, given that the loop runs, is decided by the first
      input source alone: two frames that agree on it give the same result,
      whatever their later sources are. */
  lemma OnlySourceZero(w: World, f1: XrFrame, f2: XrFrame, order: seq<EntityId>,
                       analog: map<InputKey, real>, filter: Filter)
    requires WellFormed(w) && Runs(w, Some(f1)) && Runs(w, Some(f2))
    requires f1.inputSources[0] == f2.inputSources[0]
    ensures UpdateXrControllers(w, Some(f1), order, analog, filter) == UpdateXrControllers(w, Some(f2), order, analog, filter)
    ensures UpdateXrControllers(w, Some(f1), order, analog, filter)
            == FirstIteration(w, f1.inputSources[0], 0, order, analog, filter)
  {
  }

  /** The decoding step appends the gamepad's filtered events to the arm's. */
  lemma DecodeEvents(w: World, arm: Arm, c: XrController, pad: Gamepad, analog: map<InputKey, real>, filter: Filter)
    requires Inv(w, arm.sync)
    ensures Decode(w, arm, c, pad, analog, filter).events == arm.events + PadEvents(c, pad, analog, filter)
  {
    HandleInputEmitsFiltered(c, pad, InputState(arm.events, analog), filter);
  }

  /** `arm` is what one of the match arms of source `src` produced: the idle
      arm (nothing reconciled, or a non-exhaustive handedness) or the arm the
      handedness selects. */
  predicate ArmOf(w: World, src: InputSource, i: nat, order: seq<EntityId>, arm: Arm)
    requires WellFormed(w) && |Query(w, OriginRole)| >= 1
  {
    var listed := Listed(w, order);
    || arm == Arm(Sync(w, []), [], listed, order)
    || (Reconciled(src) &&
        var pose := src.gripPose.value;
        || Handed(w, Left, i, pose, listed, order) == Success(arm)
        || Handed(w, Right, i, pose, listed, order) == Success(arm)
        || Unclassified(w, i, pose, listed, order) == Success(arm))
  }

  /** Every successful first iteration is an arm followed by the
      post-processing; the arm leaves unvisited either the whole listed
      snapshot or all of it but its head. */
  lemma Finishes(w: World, src: InputSource, i: nat, order: seq<EntityId>, analog: map<InputKey, real>, filter: Filter)
    returns (arm: Arm, input: InputState)
    requires WellFormed(w) && |Query(w, OriginRole)| >= 1
    ensures var r := FirstIteration(w, src, i, order, analog, filter);
      r.Success? ==> Inv(w, arm.sync) && r.value == Finish(w, arm, input) && ArmOf(w, src, i, order, arm)
  {
    var r := FirstIteration(w, src, i, order, analog, filter);
    var listed := Listed(w, order);
    arm, input := Arm(Sync(w, []), [], listed, order), InputState([], analog);
    if Reconciled(src) && src.handedness != HandednessNonexhaustive {
      var pad, pose := src.gamepad.value, src.gripPose.value;
      var res, c;
      if src.handedness == HandednessLeft {
        res, c := Handed(w, Left, i, pose, listed, order), LeftController;
      } else if src.handedness == HandednessRight {
        res, c := Handed(w, Right, i, pose, listed, order), RightController;
      } else {
        res, c := Unclassified(w, i, pose, listed, order), OtherController(i);
      }
      if res.Success? {
        arm := res.value;
        input := HandleInput(c, pad, InputState(arm.events, analog), filter);
      }
    }
  }

  /** The post-processing leaves every left and right controller inactive
      and does not touch a non-controller. */
  lemma FinishDeactivatesSided(w: World, arm: Arm, input: InputState)
    requires Inv(w, arm.sync)
    ensures var s := Finish(w, arm, input).sync;
      forall id :: id in w.entities && Sided(w.entities[id]) ==> id in s.world.entities && !s.world.entities[id].active
  {
    var s := Finish(w, arm, input).sync;
    forall id | id in w.entities && Sided(w.entities[id])
      ensures id in s.world.entities && !s.world.entities[id].active
    {
      assert id in Leftovers(w, arm.rest) by {
        if w.entities[id].role.hand.value == Left {
          assert w.entities[id].role == SideRole(Left);
        } else {
          assert w.entities[id].role == SideRole(Right);
        }
      }
    }
  }

  /** Left and right controllers always end the call inactive, even the one
      the call has just updated: the post-processing loops are guarded by
      flags that are constantly true. */
  lemma SidedControllersEndInactive(w: World, frame: Option<XrFrame>, order: seq<EntityId>,
                                    analog: map<InputKey, real>, filter: Filter)
    requires WellFormed(w)
    requires UpdateXrControllers(w, frame, order, analog, filter).Success?
    ensures var s := UpdateXrControllers(w, frame, order, analog, filter).value.sync;
      forall id :: id in w.entities && Sided(w.entities[id]) ==> id in s.world.entities && !s.world.entities[id].active
  {
    if Runs(w, frame) {
      var r := FirstIteration(w, frame.value.inputSources[0], 0, order, analog, filter);
      assert UpdateXrControllers(w, frame, order, analog, filter) == r;
      var arm, input := Finishes(w, frame.value.inputSources[0], 0, order, analog, filter);
      FinishDeactivatesSided(w, arm, input);
    }
  }

  /** The call writes nothing into an entity that is not a controller. */
  lemma NonControllersUntouched(w: World, frame: Option<XrFrame>, order: seq<EntityId>,
                                analog: map<InputKey, real>, filter: Filter)
    requires WellFormed(w)
    requires UpdateXrControllers(w, frame, order, analog, filter).Success?
    ensures var s := UpdateXrControllers(w, frame, order, analog, filter).value.sync;
      forall id :: id in w.entities && !w.entities[id].role.ControllerRole? ==> s.world.entities[id] == w.entities[id]
  {
    if Runs(w, frame) {
      var src := frame.value.inputSources[0];
      var r := FirstIteration(w, src, 0, order, analog, filter);
      assert UpdateXrControllers(w, frame, order, analog, filter) == r;
      var arm, input := Finishes(w, src, 0, order, analog, filter);
      ArmTouchesOnlyControllers(w, src, 0, order, arm);
      FinishKeepsNonControllers(w, arm, input);
    }
  }

  /** The post-processing only deactivates controllers. */
  lemma FinishKeepsNonControllers(w: World, arm: Arm, input: InputState)
    requires Inv(w, arm.sync)
    requires forall id :: id in arm.rest ==> id in w.entities && w.entities[id].role == UNCLASSIFIED
    ensures var s := Finish(w, arm, input).sync;
      forall id :: id in w.entities && !w.entities[id].role.ControllerRole? ==> s.world.entities[id] == arm.sync.world.entities[id]
  {
  }

  /** A handed arm writes only into controllers of the side queries. */
  lemma HandedTouchesOnlyControllers(w: World, side: Side, i: nat, pose: Pose, listed: seq<EntityId>, order: seq<EntityId>)
    requires WellFormed(w) && |Query(w, OriginRole)| >= 1
    requires Handed(w, side, i, pose, listed, order).Success?
    ensures var arm := Handed(w, side, i, pose, listed, order).value;
      forall id :: id in w.entities && !w.entities[id].role.ControllerRole? ==> arm.sync.world.entities[id] == w.entities[id]
  {
    var ids := Query(w, SideRole(side));
    var kept := Query(w, SideRole(Left));
    if |ids| == 1 {
      assert ids[0] in ids;
    } else if |ids| > 1 {
      assert kept[0] in kept;
    }
  }

  /** The unclassified arm writes only into the listed controller it visits. */
  lemma UnclassifiedTouchesOnlyControllers(w: World, i: nat, pose: Pose, order: seq<EntityId>)
    requires WellFormed(w) && |Query(w, OriginRole)| >= 1
    requires Unclassified(w, i, pose, Listed(w, order), order).Success?
    ensures var arm := Unclassified(w, i, pose, Listed(w, order), order).value;
      && (forall id :: id in w.entities && !w.entities[id].role.ControllerRole? ==> arm.sync.world.entities[id] == w.entities[id])
      && forall id :: id in arm.rest ==> id in Listed(w, order)
  {
    var listed := Listed(w, order);
    if |listed| > 0 {
      assert listed[0] in listed;
      assert forall id :: id in listed[1..] ==> id in listed;
    }
  }

  /** What any arm writes in place, it writes into a controller, and the
      controllers it leaves unvisited are unclassified ones. */
  lemma ArmTouchesOnlyControllers(w: World, src: InputSource, i: nat, order: seq<EntityId>, arm: Arm)
    requires WellFormed(w) && |Query(w, OriginRole)| >= 1 && ArmOf(w, src, i, order, arm)
    ensures forall id :: id in w.entities && !w.entities[id].role.ControllerRole? ==>
      arm.sync.world.entities[id] == w.entities[id]
    ensures forall id :: id in arm.rest ==> id in w.entities && w.entities[id].role == UNCLASSIFIED
  {
    var listed := Listed(w, order);
    if arm != Arm(Sync(w, []), [], listed, order) {
      var pose := src.gripPose.value;
      if Handed(w, Left, i, pose, listed, order) == Success(arm) {
        HandedTouchesOnlyControllers(w, Left, i, pose, listed, order);
      } else if Handed(w, Right, i, pose, listed, order) == Success(arm) {
        HandedTouchesOnlyControllers(w, Right, i, pose, listed, order);
      } else {
        UnclassifiedTouchesOnlyControllers(w, i, pose, order);
      }
    }
  }

  // ----- The arms, one by one -----

  /** When the loop runs, the call is its first iteration. */
  lemma RunsFirst(w: World, frame: XrFrame, order: seq<EntityId>, analog: map<InputKey, real>, filter: Filter)
    requires WellFormed(w) && Runs(w, Some(frame))
    ensures UpdateXrControllers(w, Some(frame), order, analog, filter)
            == FirstIteration(w, frame.inputSources[0], 0, order, analog, filter)
  {
  }

  /** The controller a reconciled source's arm and events are about. */
  function SourceController(src: InputSource, i: nat): XrController {
    if src.handedness == HandednessLeft then LeftController
    else if src.handedness == HandednessRight then RightController
    else OtherController(i)
  }

  /** The arm a reconciled source's handedness selects. */
  function SourceArm(w: World, src: InputSource, i: nat, order: seq<EntityId>): Result<Arm, ControllerPanic>
    requires WellFormed(w) && |Query(w, OriginRole)| >= 1 && Reconciled(src)
  {
    var listed := Listed(w, order);
    var pose := src.gripPose.value;
    if src.handedness == HandednessLeft then Handed(w, Left, i, pose, listed, order)
    else if src.handedness == HandednessRight then Handed(w, Right, i, pose, listed, order)
    else Unclassified(w, i, pose, listed, order)
  }

  /** A reconciled source with an exhaustive handedness runs its arm, then the
      gamepad decoding and the post-processing; a panicking arm panics the
      call. */
  lemma ReconciledIteration(w: World, src: InputSource, i: nat, order: seq<EntityId>,
                            analog: map<InputKey, real>, filter: Filter)
    requires WellFormed(w) && |Query(w, OriginRole)| >= 1
    requires Reconciled(src) && src.handedness != HandednessNonexhaustive
    ensures var res := SourceArm(w, src, i, order);
      FirstIteration(w, src, i, order, analog, filter)
      == if res.Failure? then Failure(res.error)
         else Success(Decode(w, res.value, SourceController(src, i), src.gamepad.value, analog, filter))
  {
  }

  /** A source of one side selects that side's handed arm. */
  lemma SidedArm(w: World, src: InputSource, i: nat, order: seq<EntityId>, side: Side)
    requires WellFormed(w) && |Query(w, OriginRole)| >= 1
    requires Reconciled(src) && src.handedness == HandednessOf(side)
    ensures SourceArm(w, src, i, order) == Handed(w, side, i, src.gripPose.value, Listed(w, order), order)
    ensures SourceController(src, i) == ControllerOf(side)
  {
  }

  /** Exactly one controller of the source's side: it receives the pose and
      `XrTrackedObject(0)`, ends inactive all the same, and the events are the
      gamepad's alone. */
  lemma SingleSidedTracked(w: World, frame: XrFrame, order: seq<EntityId>, analog: map<InputKey, real>,
                           filter: Filter, side: Side)
    requires WellFormed(w) && Runs(w, Some(frame))
    requires Reconciled(frame.inputSources[0]) && frame.inputSources[0].handedness == HandednessOf(side)
    requires |Query(w, SideRole(side))| == 1
    ensures var src := frame.inputSources[0];
      var r := UpdateXrControllers(w, Some(frame), order, analog, filter);
      var id := Query(w, SideRole(side))[0];
      && r.Success? && r.value.sync.cmds == [InsertTracked(id, 0)]
      && r.value.sync.world.entities[id] == w.entities[id].(pose := src.gripPose.value, active := false)
      && r.value.sync.world.next == w.next && r.value.order == order
      && r.value.events == PadEvents(ControllerOf(side), src.gamepad.value, analog, filter)
  {
    var src := frame.inputSources[0];
    var listed := Listed(w, order);
    var id := Query(w, SideRole(side))[0];
    assert id in Query(w, SideRole(side));
    var arm := Arm(Update(w, id, 0, src.gripPose.value), [], listed, order);
    SidedArm(w, src, 0, order, side);
    assert SourceArm(w, src, 0, order) == Success(arm);
    var out := Decode(w, arm, ControllerOf(side), src.gamepad.value, analog, filter);
    RunsFirst(w, frame, order, analog, filter);
    ReconciledIteration(w, src, 0, order, analog, filter);
    assert UpdateXrControllers(w, Some(frame), order, analog, filter) == Success(out);
    DecodeEvents(w, arm, ControllerOf(side), src.gamepad.value, analog, filter);
    assert id in Leftovers(w, arm.rest);
  }

  /** Several controllers of the source's side: the left query is the one
      collapsed, whichever side the source is. With no left controller the
      unwrap panics; otherwise every left controller but the first is
      despawned, the first receives the pose and the tracked index, and no
      other entity's pose changes (so duplicated right controllers keep
      their poses and stay duplicated). */
  lemma SidedDuplicates(w: World, frame: XrFrame, order: seq<EntityId>, analog: map<InputKey, real>,
                        filter: Filter, side: Side)
    requires WellFormed(w) && Runs(w, Some(frame))
    requires Reconciled(frame.inputSources[0]) && frame.inputSources[0].handedness == HandednessOf(side)
    requires |Query(w, SideRole(side))| > 1
    ensures var src := frame.inputSources[0];
      var r := UpdateXrControllers(w, Some(frame), order, analog, filter);
      var left := Query(w, SideRole(Left));
      && (r.Failure? <==> |left| == 0)
      && (r.Failure? ==> r.error == EmptyLeftUnwrap)
      && (r.Success? ==>
            && r.value.sync.cmds == Despawns(left[1..]) + [InsertTracked(left[0], 0)]
            && r.value.sync.world.entities[left[0]] == w.entities[left[0]].(pose := src.gripPose.value, active := false)
            && (forall id :: id in w.entities && id != left[0] ==> r.value.sync.world.entities[id].pose == w.entities[id].pose)
            && r.value.sync.world.next == w.next && r.value.order == order)
  {
    var src := frame.inputSources[0];
    var listed := Listed(w, order);
    var left := Query(w, SideRole(Left));
    SidedArm(w, src, 0, order, side);
    RunsFirst(w, frame, order, analog, filter);
    ReconciledIteration(w, src, 0, order, analog, filter);
    if |left| == 0 {
      assert SourceArm(w, src, 0, order) == Failure(EmptyLeftUnwrap);
    } else {
      assert left[0] in left;
      var arm := Arm(Collapse(w, left, 0, src.gripPose.value), [], listed, order);
      assert SourceArm(w, src, 0, order) == Success(arm);
      var out := Decode(w, arm, ControllerOf(side), src.gamepad.value, analog, filter);
      assert UpdateXrControllers(w, Some(frame), order, analog, filter) == Success(out);
      assert left[0] in Leftovers(w, arm.rest);
      FinishKeepsPoses(w, arm, HandleInput(ControllerOf(side), src.gamepad.value, InputState([], analog), filter));
    }
  }

  /** The post-processing changes active flags only. */
  lemma FinishKeepsPoses(w: World, arm: Arm, input: InputState)
    requires Inv(w, arm.sync)
    ensures forall id :: id in w.entities ==> Finish(w, arm, input).sync.world.entities[id].pose == arm.sync.world.entities[id].pose
  {
  }

  /** No controller of the source's side: with more than one origin the
      call panics; otherwise a controller of that side is spawned under the
      origin with tracked index 0, and a tracking event named after the side
      precedes the gamepad's events. */
  lemma MissingSidedSpawned(w: World, frame: XrFrame, order: seq<EntityId>, analog: map<InputKey, real>,
                            filter: Filter, side: Side)
    requires WellFormed(w) && Runs(w, Some(frame))
    requires Reconciled(frame.inputSources[0]) && frame.inputSources[0].handedness == HandednessOf(side)
    requires |Query(w, SideRole(side))| == 0
    ensures var src := frame.inputSources[0];
      var r := UpdateXrControllers(w, Some(frame), order, analog, filter);
      var c := ControllerOf(side);
      && (r.Failure? <==> |Query(w, OriginRole)| > 1)
      && (r.Failure? ==> r.error == OriginNotSingle)
      && (r.Success? ==>
            && r.value.sync.cmds == [Spawn(w.next, NewController(Some(side), 0)), AddChild(Query(w, OriginRole)[0], w.next)]
            && r.value.sync.world.next == w.next + 1 && r.value.order == order
            && r.value.events == [StateChanged(c, ControllerName(c))] + PadEvents(c, src.gamepad.value, analog, filter))
  {
    var src := frame.inputSources[0];
    var listed := Listed(w, order);
    var c := ControllerOf(side);
    SidedArm(w, src, 0, order, side);
    RunsFirst(w, frame, order, analog, filter);
    ReconciledIteration(w, src, 0, order, analog, filter);
    var spawned := SpawnUnderOrigin(w, NewController(Some(side), 0));
    if spawned.Success? {
      var arm := Arm(spawned.value.0, [StateChanged(c, ControllerName(c))], listed, order);
      assert SourceArm(w, src, 0, order) == Success(arm);
      var out := Decode(w, arm, c, src.gamepad.value, analog, filter);
      assert UpdateXrControllers(w, Some(frame), order, analog, filter) == Success(out);
      DecodeEvents(w, arm, c, src.gamepad.value, analog, filter);
    } else {
      assert SourceArm(w, src, 0, order) == Failure(OriginNotSingle);
    }
  }

  /** An unclassified source while the listed snapshot still has a
      controller: its head receives the pose and the tracked index and stays
      active (unless the list names it again), every other listed controller
      ends inactive, and the order list is kept. */
  lemma ListedTracked(w: World, frame: XrFrame, order: seq<EntityId>, analog: map<InputKey, real>, filter: Filter)
    requires WellFormed(w) && Runs(w, Some(frame))
    requires Reconciled(frame.inputSources[0]) && frame.inputSources[0].handedness == HandednessNone
    requires |Listed(w, order)| > 0
    ensures var src := frame.inputSources[0];
      var r := UpdateXrControllers(w, Some(frame), order, analog, filter);
      var listed := Listed(w, order);
      && r.Success? && r.value.sync.cmds == [InsertTracked(listed[0], 0)]
      && r.value.sync.world.entities[listed[0]]
         == w.entities[listed[0]].(pose := src.gripPose.value, active := listed[0] !in listed[1..])
      && (forall k :: 1 <= k < |listed| ==> !r.value.sync.world.entities[listed[k]].active)
      && r.value.sync.world.next == w.next && r.value.order == order
      && r.value.events == PadEvents(OtherController(0), src.gamepad.value, analog, filter)
  {
    var src := frame.inputSources[0];
    var listed := Listed(w, order);
    assert listed[0] in listed;
    var arm := Arm(Update(w, listed[0], 0, src.gripPose.value), [], listed[1..], order);
    assert SourceArm(w, src, 0, order) == Success(arm);
    RunsFirst(w, frame, order, analog, filter);
    ReconciledIteration(w, src, 0, order, analog, filter);
    var out := Decode(w, arm, OtherController(0), src.gamepad.value, analog, filter);
    assert UpdateXrControllers(w, Some(frame), order, analog, filter) == Success(out);
    DecodeEvents(w, arm, OtherController(0), src.gamepad.value, analog, filter);
    ListedRestDeactivated(w, arm, HandleInput(OtherController(0), src.gamepad.value, InputState([], analog), filter), listed);
  }

  /** The post-processing deactivates every controller the arm left in the
      snapshot. */
  lemma ListedRestDeactivated(w: World, arm: Arm, input: InputState, listed: seq<EntityId>)
    requires Inv(w, arm.sync) && |listed| > 0 && arm.rest == listed[1..]
    requires forall id :: id in listed ==> id in w.entities && w.entities[id].role == UNCLASSIFIED
    ensures var s := Finish(w, arm, input).sync;
      && (forall k :: 1 <= k < |listed| ==> !s.world.entities[listed[k]].active)
      && (listed[0] !in listed[1..] ==> s.world.entities[listed[0]] == arm.sync.world.entities[listed[0]])
  {
    var s := Finish(w, arm, input).sync;
    forall k | 1 <= k < |listed| ensures !s.world.entities[listed[k]].active {
      assert listed[k] == listed[1..][k - 1];
      assert listed[k] in listed;
    }
  }

  /** An unclassified source once the listed snapshot is exhausted: with
      more than one origin the call panics; otherwise a handless controller
      is spawned under the origin, its id is appended to the order list,
      and a tracking event named after index 0 precedes the gamepad's
      events. */
  lemma UnlistedSpawned(w: World, frame: XrFrame, order: seq<EntityId>, analog: map<InputKey, real>, filter: Filter)
    requires WellFormed(w) && Runs(w, Some(frame))
    requires Reconciled(frame.inputSources[0]) && frame.inputSources[0].handedness == HandednessNone
    requires |Listed(w, order)| == 0
    ensures var src := frame.inputSources[0];
      var r := UpdateXrControllers(w, Some(frame), order, analog, filter);
      var c := OtherController(0);
      && (r.Failure? <==> |Query(w, OriginRole)| > 1)
      && (r.Failure? ==> r.error == OriginNotSingle)
      && (r.Success? ==>
            && r.value.sync.cmds == [Spawn(w.next, NewController(None, 0)), AddChild(Query(w, OriginRole)[0], w.next)]
            && r.value.sync.world.next == w.next + 1 && r.value.order == order + [w.next]
            && r.value.events == [StateChanged(c, "Xr Controller 0")] + PadEvents(c, src.gamepad.value, analog, filter))
  {
    var src := frame.inputSources[0];
    var listed := Listed(w, order);
    var c := OtherController(0);
    RunsFirst(w, frame, order, analog, filter);
    ReconciledIteration(w, src, 0, order, analog, filter);
    var spawned := SpawnUnderOrigin(w, NewController(None, 0));
    if spawned.Success? {
      assert ControllerName(c) == "Xr Controller " + Decimal(0) == "Xr Controller 0";
      var arm := Arm(spawned.value.0, [StateChanged(c, ControllerName(c))], [], order + [w.next]);
      assert SourceArm(w, src, 0, order) == Success(arm);
      var out := Decode(w, arm, c, src.gamepad.value, analog, filter);
      assert UpdateXrControllers(w, Some(frame), order, analog, filter) == Success(out);
      DecodeEvents(w, arm, c, src.gamepad.value, analog, filter);
    } else {
      assert SourceArm(w, src, 0, order) == Failure(OriginNotSingle);
    }
  }

  /** A first source that is not reconciled (no gamepad, grip space or pose)
      or has a non-exhaustive handedness: no command, no event, the order
      list and analog store kept, and only the post-processing runs: the
      left and right controllers and the listed ones are deactivated, every
      other entity (unlisted unclassified controllers included) is kept. */
  lemma IdleSource(w: World, frame: XrFrame, order: seq<EntityId>, analog: map<InputKey, real>, filter: Filter)
    requires WellFormed(w) && Runs(w, Some(frame))
    requires !Reconciled(frame.inputSources[0]) || frame.inputSources[0].handedness == HandednessNonexhaustive
    ensures var r := UpdateXrControllers(w, Some(frame), order, analog, filter);
      && r.Success? && r.value.sync.cmds == [] && r.value.events == [] && r.value.analog == analog
      && r.value.order == order && r.value.sync.world.next == w.next
      && forall id :: id in w.entities ==>
           r.value.sync.world.entities[id]
           == if Sided(w.entities[id]) || id in Listed(w, order) then w.entities[id].(active := false) else w.entities[id]
  {
    var src := frame.inputSources[0];
    var listed := Listed(w, order);
    var idle := Arm(Sync(w, []), [], listed, order);
    var out := Finish(w, idle, InputState([], analog));
    RunsFirst(w, frame, order, analog, filter);
    assert FirstIteration(w, src, 0, order, analog, filter) == Success(out);
    LeftoversOfSnapshot(w, listed);
  }

  /** Before any arm has run, the post-processing set is the left and right
      controllers plus the listed snapshot. */
  lemma LeftoversOfSnapshot(w: World, listed: seq<EntityId>)
    requires WellFormed(w)
    ensures forall id :: id in w.entities ==> (id in Leftovers(w, listed) <==> Sided(w.entities[id]) || id in listed)
  {
    forall id | id in w.entities
      ensures id in Leftovers(w, listed) <==> Sided(w.entities[id]) || id in listed
    {
      if Sided(w.entities[id]) {
        if w.entities[id].role.hand.value == Left {
          assert w.entities[id].role == SideRole(Left);
        } else {
          assert w.entities[id].role == SideRole(Right);
        }
      }
    }
  }
}
