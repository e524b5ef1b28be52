/** The balloons example (`examples/balloons.rs`): a thumbs-up gesture or a
    controller button press raises an Enter / Stay / Exit edge event; the
    events of both kinds are forwarded as balloon events, and each balloon
    event either moves the balloon attached to its entity or queues a new
    balloon attached to it. Balloons an Exit released drift upward. */
module Balloons {
  import opened Wrappers
  import opened Errors
  import opened Platform
  import opened Ecs
  import Controllers

  // ----- The edge detector -----

  datatype EventState = Enter | Stay | Exit

  /** What one call of a detector emits, and its latch afterwards. */
  datatype Edge = Edge(event: Option<EventState>, was: bool)

  /** The match on (current, was) both gesture systems share: a rising edge
      emits Enter, a held condition Stay, a falling edge Exit, and an idle
      one nothing. */
  function Detect(current: bool, was: bool): (r: Edge)
    ensures r.was == current
    ensures r.event == Some(Enter) <==> current && !was
    ensures r.event == Some(Stay) <==> current && was
    ensures r.event == Some(Exit) <==> !current && was
    ensures r.event.None? <==> !current && !was
  {
    match (current, was)
    case (true, false) => Edge(Some(Enter), true)
    case (true, true) => Edge(Some(Stay), was)
    case (false, true) => Edge(Some(Exit), false)
    case (false, false) => Edge(None, was)
  }

  /** The detector over successive completed calls: the final latch and the
      states emitted, in order. */
  function DetectAll(was: bool, currents: seq<bool>): (r: (bool, seq<EventState>))
    decreases |currents|
  {
    if currents == [] then (was, [])
    else
      var prev := DetectAll(was, currents[..|currents| - 1]);
      var e := Detect(currents[|currents| - 1], prev.0);
      (e.was, prev.1 + if e.event.Some? then [e.event.value] else [])
  }

  /** Enter opens an episode and comes first or right after an Exit; Stay
      and Exit only continue an open episode. */
  predicate Bracketed(ev: seq<EventState>) {
    && (ev != [] ==> ev[0] == Enter)
    && forall k :: 0 < k < |ev| ==> (ev[k] == Enter <==> ev[k - 1] == Exit)
  }

  /** From a lowered latch, any run of completed calls leaves the latch equal
      to the last condition, emits at most one state per call, and emits a
      well-bracketed stream whose last episode is open exactly when the
      latch is raised. */
  lemma {:induction false} DetectAllBracketed(currents: seq<bool>)
    ensures DetectAll(false, currents).0 == (currents != [] && currents[|currents| - 1])
    ensures |DetectAll(false, currents).1| <= |currents|
    ensures Bracketed(DetectAll(false, currents).1)
    ensures var ev := DetectAll(false, currents).1;
      DetectAll(false, currents).0 <==> ev != [] && ev[|ev| - 1] != Exit
    decreases |currents|
  {
    if currents != [] {
      var n := |currents|;
      DetectAllBracketed(currents[..n - 1]);
      var prev := DetectAll(false, currents[..n - 1]);
      var e := Detect(currents[n - 1], prev.0);
      var ev := prev.1 + if e.event.Some? then [e.event.value] else [];
      assert DetectAll(false, currents) == (e.was, ev);
      forall k | 0 < k < |ev|
        ensures ev[k] == Enter <==> ev[k - 1] == Exit
      {
        assert ev[k - 1] == prev.1[k - 1];
        if k == |prev.1| {
          assert ev[k] == e.event.value;
        }
      }
    }
  }

  // ----- Thumbs up -----

  /** Balloon-relevant events; the three event structs of the example carry
      the same fields, and the `From` conversions copy them one by one. */
  datatype ThumbsUpEvent = ThumbsUpEvent(entity: EntityId, position: Pose, state: EventState)
  datatype ControllerTriggerEvent = ControllerTriggerEvent(entity: EntityId, position: Pose, state: EventState)
  datatype BalloonEvent = BalloonEvent(entity: EntityId, position: Pose, state: EventState)

  /** What the gesture system's joint queries return for one hand: the
      proximal index and proximal little phalanges and the thumb tips, with
      their global poses. */
  datatype HandJoints = HandJoints(
    proximalIndex: seq<Pose>,
    proximalLittle: seq<Pose>,
    thumbTip: seq<(EntityId, Pose)>)

  /** One call's outcome: the event sent, if any, and the latch afterwards. */
  datatype Gesture<E> = Gesture(event: Option<E>, was: bool)

  /** `thumbs_up_gesture`: with any of the three joint queries empty the call
      returns at once, sending nothing and keeping the latch; a query with
      more than one match panics at `single()`; otherwise the edge detector
      runs on the gesture predicate (`isThumbsUp`, an angle test on floats),
      and the event carries the thumb tip's entity and pose. */
  function ThumbsUpGesture(hand: HandJoints, isThumbsUp: bool, was: bool): (r: Result<Gesture<ThumbsUpEvent>, Abort>)
    ensures hand.proximalIndex == [] || hand.proximalLittle == [] || hand.thumbTip == [] ==>
      r == Success(Gesture(None, was))
    ensures r == Failure(Panicked) <==>
      && hand.proximalIndex != [] && hand.proximalLittle != [] && hand.thumbTip != []
      && (|hand.proximalIndex| > 1 || |hand.proximalLittle| > 1 || |hand.thumbTip| > 1)
    ensures |hand.proximalIndex| == |hand.proximalLittle| == |hand.thumbTip| == 1 ==>
      && r.Success?
      && r.value.was == isThumbsUp
      && (r.value.event.Some? <==> Detect(isThumbsUp, was).event.Some?)
      && (r.value.event.Some? ==>
            r.value.event.value == ThumbsUpEvent(hand.thumbTip[0].0, hand.thumbTip[0].1, Detect(isThumbsUp, was).event.value))
  {
    if hand.proximalIndex == [] || hand.proximalLittle == [] || hand.thumbTip == [] then
      Success(Gesture(None, was))
    else if |hand.proximalIndex| > 1 || |hand.proximalLittle| > 1 || |hand.thumbTip| > 1 then
      Failure(Panicked)
    else
      var e := Detect(isThumbsUp, was);
      var (entity, position) := hand.thumbTip[0];
      Success(Gesture(if e.event.Some? then Some(ThumbsUpEvent(entity, position, e.event.value)) else None, e.was))
  }

  // ----- Controller trigger -----

  /** A digital input the trigger system asks about. `Bumper` is a role of
      the XR library's input type that the gamepad index table never
      produces. */
  datatype PressButton = Named(input: Controllers.InputType) | Bumper

  /** The buttons any of which counts as a press, in the order they are asked. */
  const TRIGGER_BUTTONS: seq<PressButton> :=
    [Named(Controllers.AorX), Named(Controllers.BorY), Bumper, Named(Controllers.Trigger)]

  /** A controller entity of this hand: id, global pose and which controller. */
  datatype HandController = HandController(entity: EntityId, position: Pose, controller: Controllers.XrController)

  /** `any` over the buttons: whether one of them is held on controller `c`. */
  function AnyPressed(c: Controllers.XrController, buttons: seq<PressButton>,
                      pressed: set<(Controllers.XrController, PressButton)>): (r: bool)
    ensures r <==> exists k :: 0 <= k < |buttons| && (c, buttons[k]) in pressed
    decreases |buttons|
  {
    if buttons == [] then false
    else (c, buttons[0]) in pressed || AnyPressed(c, buttons[1..], pressed)
  }

  /** `controller_trigger`: unless exactly one controller of this hand
      exists, nothing is sent and the latch is kept; otherwise the edge
      detector runs on "one of AorX, BorY, Bumper, Trigger is held". */
  function ControllerTrigger(controllers: seq<HandController>, pressed: set<(Controllers.XrController, PressButton)>,
                             was: bool): (r: Gesture<ControllerTriggerEvent>)
    ensures |controllers| != 1 ==> r == Gesture(None, was)
    ensures |controllers| == 1 ==>
      var held := exists b :: b in TRIGGER_BUTTONS && (controllers[0].controller, b) in pressed;
      && r.was == held
      && (r.event.Some? <==> held || was)
      && (r.event.Some? ==>
            r.event.value == ControllerTriggerEvent(controllers[0].entity, controllers[0].position, Detect(held, was).event.value))
  {
    if |controllers| != 1 then Gesture(None, was)
    else
      var c := controllers[0];
      var held := AnyPressed(c.controller, TRIGGER_BUTTONS, pressed);
      assert held <==> exists b :: b in TRIGGER_BUTTONS && (c.controller, b) in pressed by {
        if held {
          var k :| 0 <= k < |TRIGGER_BUTTONS| && (c.controller, TRIGGER_BUTTONS[k]) in pressed;
          assert TRIGGER_BUTTONS[k] in TRIGGER_BUTTONS;
        }
      }
      var e := Detect(held, was);
      Gesture(if e.event.Some? then Some(ControllerTriggerEvent(c.entity, c.position, e.event.value)) else None, e.was)
  }

  // ----- Forwarding -----

  function FromThumbsUp(e: ThumbsUpEvent): BalloonEvent {
    BalloonEvent(e.entity, e.position, e.state)
  }

  function FromTrigger(e: ControllerTriggerEvent): BalloonEvent {
    BalloonEvent(e.entity, e.position, e.state)
  }

  /** `balloon_events`: every hand event, then every controller event, each
      converted field by field, in the order they were read. */
  method BalloonEvents(hand: seq<ThumbsUpEvent>, controller: seq<ControllerTriggerEvent>) returns (out: seq<BalloonEvent>)
    ensures |out| == |hand| + |controller|
    ensures forall k :: 0 <= k < |hand| ==>
      out[k].entity == hand[k].entity && out[k].position == hand[k].position && out[k].state == hand[k].state
    ensures forall k :: 0 <= k < |controller| ==>
      && out[|hand| + k].entity == controller[k].entity
      && out[|hand| + k].position == controller[k].position
      && out[|hand| + k].state == controller[k].state
  {
    out := [];
    for i := 0 to |hand|
      invariant |out| == i
      invariant forall k :: 0 <= k < i ==> out[k] == FromThumbsUp(hand[k])
    {
      out := out + [FromThumbsUp(hand[i])];
    }
    for i := 0 to |controller|
      invariant |out| == |hand| + i
      invariant forall k :: 0 <= k < |hand| ==> out[k] == FromThumbsUp(hand[k])
      invariant forall k :: 0 <= k < i ==> out[|hand| + k] == FromTrigger(controller[k])
    {
      out := out + [FromTrigger(controller[i])];
    }
  }

  // ----- Balloons -----

  /** A balloon: the entity it follows (the `AttachedToEntity` component),
      its pose, how often it was inflated (scale times 1.03) and how often it
      rose while free. */
  datatype Balloon = Balloon(attachedTo: Option<EntityId>, position: Pose, inflations: nat, rises: nat)

  datatype Scene = Scene(balloons: map<EntityId, Balloon>, next: EntityId)

  predicate SceneWellFormed(s: Scene) {
    forall id :: id in s.balloons ==> id < s.next
  }

  /** Deferred commands of the balloons system. A spawn stands for the
      balloon origin with its four sphere meshes as children. */
  datatype BalloonCommand = SpawnBalloon(attachedTo: EntityId, position: Pose) | Detach(balloon: EntityId)

  /** The first balloon from `lo` on, in query order (ascending ids),
      attached to entity `x`. */
  function FirstAttached(s: Scene, x: EntityId, lo: nat): (r: Option<EntityId>)
    decreases s.next - lo
    ensures r.Some? ==>
      && lo <= r.value < s.next && r.value in s.balloons && s.balloons[r.value].attachedTo == Some(x)
      && forall b :: lo <= b < r.value && b in s.balloons ==> s.balloons[b].attachedTo != Some(x)
    ensures r.None? ==> forall b :: lo <= b < s.next && b in s.balloons ==> s.balloons[b].attachedTo != Some(x)
  {
    if lo >= s.next then None
    else if lo in s.balloons && s.balloons[lo].attachedTo == Some(x) then Some(lo)
    else FirstAttached(s, x, lo + 1)
  }

  /** The balloon the `find` over attached balloons picks for entity `x`. */
  function AttachedTo(s: Scene, x: EntityId): (r: Option<EntityId>)
    requires SceneWellFormed(s)
    ensures r.None? <==> forall b :: b in s.balloons ==> s.balloons[b].attachedTo != Some(x)
    ensures r.Some? ==> r.value in s.balloons && s.balloons[r.value].attachedTo == Some(x)
  {
    FirstAttached(s, x, 0)
  }

  /** Two scenes with the same ids and the same attachments. */
  predicate SameAttachments(s: Scene, s': Scene) {
    && s.next == s'.next && s.balloons.Keys == s'.balloons.Keys
    && forall b :: b in s.balloons ==> s'.balloons[b].attachedTo == s.balloons[b].attachedTo
  }

  lemma {:induction false} FirstAttachedSame(s: Scene, s': Scene, x: EntityId, lo: nat)
    requires SameAttachments(s, s')
    ensures FirstAttached(s, x, lo) == FirstAttached(s', x, lo)
    decreases s.next - lo
  {
    if lo < s.next {
      FirstAttachedSame(s, s', x, lo + 1);
    }
  }

  /** The commands one event queues, judged on the scene as the frame began. */
  function EventCommands(s: Scene, e: BalloonEvent): seq<BalloonCommand>
    requires SceneWellFormed(s)
  {
    match AttachedTo(s, e.entity)
    case None => [SpawnBalloon(e.entity, e.position)]
    case Some(b) => if e.state == Exit then [Detach(b)] else []
  }

  /** The commands a whole frame queues, judged on the scene as it began. */
  function SnapshotCommands(s: Scene, events: seq<BalloonEvent>): seq<BalloonCommand>
    requires SceneWellFormed(s)
    decreases |events|
  {
    if events == [] then [] else SnapshotCommands(s, events[..|events| - 1]) + EventCommands(s, events[|events| - 1])
  }

  /** One event in the loop: an attached balloon moves to the event's pose
      and inflates at once (in-place writes), and an Exit queues its release;
      with no attached balloon a new one is queued. */
  function OnEvent(s: Scene, e: BalloonEvent): (r: (Scene, seq<BalloonCommand>))
    requires SceneWellFormed(s)
    ensures SameAttachments(s, r.0) && SceneWellFormed(r.0)
    ensures r.1 == EventCommands(s, e)
    ensures AttachedTo(s, e.entity).None? ==> r.0 == s
    ensures AttachedTo(s, e.entity).Some? ==>
      var b := AttachedTo(s, e.entity).value;
      && r.0.balloons[b].position == e.position
      && r.0.balloons[b].inflations == s.balloons[b].inflations + 1
      && r.0.balloons[b].rises == s.balloons[b].rises
      && forall b' :: b' in s.balloons && b' != b ==> r.0.balloons[b'] == s.balloons[b']
  {
    match AttachedTo(s, e.entity)
    case None => (s, [SpawnBalloon(e.entity, e.position)])
    case Some(b) =>
      var cur := s.balloons[b];
      (s.(balloons := s.balloons[b := cur.(position := e.position, inflations := cur.inflations + 1)]),
       if e.state == Exit then [Detach(b)] else [])
  }

  /** The event loop over live scene state. Because releases and spawns are
      deferred, every event is judged on the attachments the frame began
      with: two events for an entity without a balloon queue two balloons. */
  function EventLoop(s: Scene, events: seq<BalloonEvent>): (r: (Scene, seq<BalloonCommand>))
    requires SceneWellFormed(s)
    ensures SameAttachments(s, r.0) && SceneWellFormed(r.0)
    ensures r.1 == SnapshotCommands(s, events)
    ensures forall b :: b in s.balloons ==> r.0.balloons[b].rises == s.balloons[b].rises
    decreases |events|
  {
    if events == [] then (s, [])
    else
      var prev := EventLoop(s, events[..|events| - 1]);
      FirstAttachedSame(s, prev.0, events[|events| - 1].entity, 0);
      var step := OnEvent(prev.0, events[|events| - 1]);
      (step.0, prev.1 + step.1)
  }

  /** Free balloons drift: each one without an attachment rises one step. */
  function Rise(s: Scene): (r: Scene)
    ensures SameAttachments(s, r)
    ensures forall b :: b in s.balloons ==>
      && r.balloons[b].position == s.balloons[b].position
      && r.balloons[b].inflations == s.balloons[b].inflations
      && r.balloons[b].rises == s.balloons[b].rises + (if s.balloons[b].attachedTo.None? then 1 else 0)
  {
    s.(balloons := map b | b in s.balloons ::
      if s.balloons[b].attachedTo.None? then s.balloons[b].(rises := s.balloons[b].rises + 1) else s.balloons[b])
  }

  /** One frame's result: the scene after the in-place writes, the queued
      commands, whether the shared mesh and material are cached now, and
      whether this frame created them. */
  datatype Frame = Frame(scene: Scene, cmds: seq<BalloonCommand>, cached: bool, created: bool)

  /** `balloons`: run the event loop, then let the free balloons rise. The
      sphere mesh and the material are created on the first spawn ever and
      reused after. */
  function BalloonsFrame(s: Scene, cached: bool, events: seq<BalloonEvent>): (r: Frame)
    requires SceneWellFormed(s)
    ensures SameAttachments(s, r.scene) && SceneWellFormed(r.scene)
    ensures r.cmds == SnapshotCommands(s, events)
    ensures forall b :: b in s.balloons ==>
      r.scene.balloons[b].rises == s.balloons[b].rises + (if s.balloons[b].attachedTo.None? then 1 else 0)
    ensures r.created <==> !cached && exists k :: 0 <= k < |r.cmds| && r.cmds[k].SpawnBalloon?
    ensures r.cached <==> cached || r.created
  {
    var (scene, cmds) := EventLoop(s, events);
    var spawns := exists k :: 0 <= k < |cmds| && cmds[k].SpawnBalloon?;
    Frame(Rise(scene), cmds, cached || spawns, !cached && spawns)
  }

  /** Applying the queued commands at the sync point: a spawn adds a fresh
      balloon attached to its entity; a release removes the attachment. */
  function ApplyBalloons(s: Scene, cmds: seq<BalloonCommand>): (r: Scene)
    requires SceneWellFormed(s)
    ensures SceneWellFormed(r) && s.balloons.Keys <= r.balloons.Keys
    decreases |cmds|
  {
    if cmds == [] then s
    else
      var s' := match cmds[0]
        case SpawnBalloon(x, p) => Scene(s.balloons[s.next := Balloon(Some(x), p, 0, 0)], s.next + 1)
        case Detach(b) =>
          if b in s.balloons then s.(balloons := s.balloons[b := s.balloons[b].(attachedTo := None)]) else s;
      ApplyBalloons(s', cmds[1..])
  }

  /** An event for an entity with no balloon attached queues exactly one
      balloon, which after the sync point is a fresh balloon attached to
      that entity at the event's pose; no balloon is released. */
  lemma UnattachedEventSpawns(s: Scene, e: BalloonEvent)
    requires SceneWellFormed(s) && AttachedTo(s, e.entity).None?
    ensures EventCommands(s, e) == [SpawnBalloon(e.entity, e.position)]
    ensures var s' := ApplyBalloons(s, EventCommands(s, e));
      && s'.balloons.Keys == s.balloons.Keys + {s.next}
      && s.next !in s.balloons
      && s'.balloons[s.next] == Balloon(Some(e.entity), e.position, 0, 0)
      && forall b :: b in s.balloons ==> s'.balloons[b] == s.balloons[b]
  {
    var cmds := EventCommands(s, e);
    assert cmds[1..] == [];
  }

  /** An Exit for an entity with a balloon releases that balloon at the sync
      point, spawns nothing and leaves every other balloon as it was. */
  lemma ExitReleases(s: Scene, e: BalloonEvent)
    requires SceneWellFormed(s) && AttachedTo(s, e.entity).Some? && e.state == Exit
    ensures var b := AttachedTo(s, e.entity).value;
      var s' := ApplyBalloons(OnEvent(s, e).0, EventCommands(s, e));
      && s'.balloons.Keys == s.balloons.Keys
      && s'.balloons[b].attachedTo.None?
      && s'.balloons[b].position == e.position
      && forall b' :: b' in s.balloons && b' != b ==> s'.balloons[b'] == s.balloons[b']
  {
    var cmds := EventCommands(s, e);
    assert cmds[1..] == [];
  }

  /** Enter and Stay for an entity with a balloon queue nothing: the balloon
      stays attached and only follows the event's pose. */
  lemma HeldEventFollows(s: Scene, e: BalloonEvent)
    requires SceneWellFormed(s) && AttachedTo(s, e.entity).Some? && e.state != Exit
    ensures EventCommands(s, e) == []
    ensures var b := AttachedTo(s, e.entity).value;
      && OnEvent(s, e).0.balloons[b].attachedTo == Some(e.entity)
      && OnEvent(s, e).0.balloons[b].position == e.position
  {
  }

  /** Deferral in action: the balloon queued for an entity is not visible
      to later events of the same frame, so a repeated event for an entity
      without a balloon queues a second balloon. */
  lemma RepeatedEventSpawnsTwice(s: Scene, e: BalloonEvent)
    requires SceneWellFormed(s) && AttachedTo(s, e.entity).None?
    ensures BalloonsFrame(s, true, [e, e]).cmds == [SpawnBalloon(e.entity, e.position), SpawnBalloon(e.entity, e.position)]
  {
    assert [e, e][..1] == [e];
    assert [e][..0] == [];
    assert SnapshotCommands(s, [e]) == EventCommands(s, e);
    assert SnapshotCommands(s, [e, e]) == SnapshotCommands(s, [e]) + EventCommands(s, e);
  }
}
