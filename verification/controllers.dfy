/** The controller synchroniser (`update_xr_controllers` in
    `src/tracked/controllers.rs`), the two index tables and the gamepad
    decoding (`handle_input`) it calls. */
module Controllers {
  import opened Wrappers
  import opened Platform
  import opened Skeleton
  import opened Ecs

  /** The two flags the source declares as `true` and never changes. They
      guard the handed match arms and the left and right post-processing
      loops. */
  const NO_LEFT_CONTROLLER: bool := true
  const NO_RIGHT_CONTROLLER: bool := true

  // ----- Index tables (xr-standard gamepad mapping) -----

  /** `XrControllerInputType`: the button roles of the xr-standard mapping
      (section 3.3 of the WebXR Gamepads Module - Level 1), plus an
      index-carrying fallback. */
  datatype InputType = Trigger | Grip | Pad | Stick | AorX | BorY | OtherInput(index: nat)

  /** `XrControllerAxisType`. */
  datatype AxisType = PadX | PadY | StickX | StickY | OtherAxis(index: nat)

  /** The button index an input type stands for. */
  function InputTypeIndex(t: InputType): nat {
    match t
    case Trigger => 0
    case Grip => 1
    case Pad => 2
    case Stick => 3
    case AorX => 4
    case BorY => 5
    case OtherInput(i) => i
  }

  /** `index_to_input_type`: the six named roles for buttons 0 to 5, the
      index itself for every other button. Reading the role back as an index
      gives the input, so no two buttons share a role. */
  function IndexToInputType(i: nat): (t: InputType)
    ensures InputTypeIndex(t) == i
    ensures t.OtherInput? <==> i >= 6
  {
    if i == 0 then Trigger
    else if i == 1 then Grip
    else if i == 2 then Pad
    else if i == 3 then Stick
    else if i == 4 then AorX
    else if i == 5 then BorY
    else OtherInput(i)
  }

  /** The axis index an axis type stands for. */
  function AxisTypeIndex(a: AxisType): nat {
    match a
    case PadX => 0
    case PadY => 1
    case StickX => 2
    case StickY => 3
    case OtherAxis(i) => i
  }

  /** `index_to_axis_type`: pad and stick axes for 0 to 3, the index itself
      for every other axis; injective, as its left inverse shows. */
  function IndexToAxisType(i: nat): (a: AxisType)
    ensures AxisTypeIndex(a) == i
    ensures a.OtherAxis? <==> i >= 4
  {
    if i == 0 then PadX
    else if i == 1 then PadY
    else if i == 2 then StickX
    else if i == 3 then StickY
    else OtherAxis(i)
  }

  // ----- Events and the analog store -----

  /** `XrController`: whose state an event reports. */
  datatype XrController = LeftController | RightController | OtherController(index: nat)

  /** The events the synchroniser sends. A state change always reports
      `XrControllerState::Tracking` with the given name. */
  datatype ControllerEvent =
    | StateChanged(controller: XrController, name: string)
    | TouchChanged(controller: XrController, input: InputType, value: real)
    | PressChanged(controller: XrController, input: InputType, value: real)
    | AxisChanged(controller: XrController, axis: AxisType, value: real)

  /** The keys of the three analog-input resources (touch, press, axes). */
  datatype InputKey =
    | TouchKey(controller: XrController, input: InputType)
    | PressKey(controller: XrController, input: InputType)
    | AxisKey(controller: XrController, axis: AxisType)

  /** The settings' change filter for a key (`filter(new_value, old_value)`):
      `Some` with the value to report, or `None` to stay silent. Its body
      belongs to another crate, so it is a parameter of the model. */
  type Filter = (InputKey, real, Option<real>) -> Option<real>

  /** `AnalogInput::get`: the stored value of a key, if any. */
  function Stored(analog: map<InputKey, real>, key: InputKey): (v: Option<real>)
    ensures v.Some? <==> key in analog
    ensures v.Some? ==> v.value == analog[key]
  {
    if key in analog then Some(analog[key]) else None
  }

  /** The change event reporting `value` for `key`. */
  function ChangedEvent(key: InputKey, value: real): (e: ControllerEvent)
    ensures !e.StateChanged? && e.controller == key.controller
  {
    match key
    case TouchKey(c, t) => TouchChanged(c, t, value)
    case PressKey(c, t) => PressChanged(c, t, value)
    case AxisKey(c, a) => AxisChanged(c, a, value)
  }

  /** The events sent so far and the analog store. */
  datatype InputState = InputState(events: seq<ControllerEvent>, analog: map<InputKey, real>)

  /** One analog channel of one button: when the filter passes the new
      value, its result is reported and stored so that later buttons read it
      as the old value. */
  function Channel(st: InputState, key: InputKey, v: real, filter: Filter): (r: InputState)
    ensures forall other :: other != key ==> Stored(r.analog, other) == Stored(st.analog, other)
    ensures filter(key, v, Stored(st.analog, key)).None? ==> r == st
    ensures filter(key, v, Stored(st.analog, key)).Some? ==>
      var x := filter(key, v, Stored(st.analog, key)).value;
      r.events == st.events + [ChangedEvent(key, x)] && Stored(r.analog, key) == Some(x)
  {
    match filter(key, v, Stored(st.analog, key))
    case None => st
    case Some(x) => InputState(st.events + [ChangedEvent(key, x)], st.analog[key := x])
  }

  /** The button loop over the first `k` buttons: entries that are not a
      `GamepadButton` are skipped; every other button's value goes through
      its touch channel and then its press channel. */
  function Buttons(c: XrController, buttons: seq<Option<real>>, k: nat, st: InputState, filter: Filter): InputState
    requires k <= |buttons|
  {
    if k == 0 then st
    else
      var prev := Buttons(c, buttons, k - 1, st, filter);
      match buttons[k - 1]
      case None => prev
      case Some(v) =>
        var t := IndexToInputType(k - 1);
        Channel(Channel(prev, TouchKey(c, t), v, filter), PressKey(c, t), v, filter)
  }

  /** The axis loop over the first `k` axes: a passed value is reported
      but, unlike the buttons' values, never stored. */
  function Axes(c: XrController, axes: seq<real>, k: nat, st: InputState, filter: Filter): (r: InputState)
    requires k <= |axes|
    ensures r.analog == st.analog
  {
    if k == 0 then st
    else
      var prev := Axes(c, axes, k - 1, st, filter);
      var key := AxisKey(c, IndexToAxisType(k - 1));
      match filter(key, axes[k - 1], Stored(prev.analog, key))
      case None => prev
      case Some(x) => InputState(prev.events + [ChangedEvent(key, x)], prev.analog)
  }

  /** `handle_input`: the buttons, then the axes. */
  function HandleInput(c: XrController, pad: Gamepad, st: InputState, filter: Filter): InputState {
    Axes(c, pad.axes, |pad.axes|, Buttons(c, pad.buttons, |pad.buttons|, st, filter), filter)
  }

  // ----- The emit-if-filtered rule, stated without the running store -----

  /** The events one key yields when judged against the store `a0`. */
  function Emit(key: InputKey, v: real, a0: map<InputKey, real>, filter: Filter): seq<ControllerEvent> {
    match filter(key, v, Stored(a0, key))
    case None => []
    case Some(x) => [ChangedEvent(key, x)]
  }

  /** The events of the first `k` buttons, each judged against `a0`. */
  function ButtonEvents(c: XrController, buttons: seq<Option<real>>, k: nat, a0: map<InputKey, real>, filter: Filter): seq<ControllerEvent>
    requires k <= |buttons|
  {
    if k == 0 then []
    else
      ButtonEvents(c, buttons, k - 1, a0, filter)
      + match buttons[k - 1]
        case None => []
        case Some(v) =>
          var t := IndexToInputType(k - 1);
          Emit(TouchKey(c, t), v, a0, filter) + Emit(PressKey(c, t), v, a0, filter)
  }

  /** The events of the first `k` axes, each judged against `a0`. */
  function AxisEvents(c: XrController, axes: seq<real>, k: nat, a0: map<InputKey, real>, filter: Filter): seq<ControllerEvent>
    requires k <= |axes|
  {
    if k == 0 then []
    else AxisEvents(c, axes, k - 1, a0, filter) + Emit(AxisKey(c, IndexToAxisType(k - 1)), axes[k - 1], a0, filter)
  }

  /** Whether the button loop has already passed `key` after `k` buttons. */
  predicate Visited(c: XrController, k: nat, key: InputKey) {
    (key.TouchKey? || key.PressKey?) && key.controller == c && InputTypeIndex(key.input) < k
  }

  /** The running store `a` still holds what `a0` held for every key the
      button loop has not reached after `k` buttons. */
  ghost predicate Agrees(c: XrController, k: nat, a: map<InputKey, real>, a0: map<InputKey, real>) {
    forall key :: !Visited(c, k, key) ==> Stored(a, key) == Stored(a0, key)
  }

  /** A channel whose key still holds its initial value sends what the
      key yields against the initial store. */
  lemma ChannelEmits(st: InputState, key: InputKey, v: real, a0: map<InputKey, real>, filter: Filter)
    requires Stored(st.analog, key) == Stored(a0, key)
    ensures Channel(st, key, v, filter).events == st.events + Emit(key, v, a0, filter)
  {
  }

  /** A skipped array entry changes nothing. */
  lemma ButtonSkipped(c: XrController, buttons: seq<Option<real>>, k: nat, st: InputState, filter: Filter)
    requires k < |buttons| && buttons[k].None?
    ensures Buttons(c, buttons, k + 1, st, filter) == Buttons(c, buttons, k, st, filter)
    ensures ButtonEvents(c, buttons, k + 1, st.analog, filter) == ButtonEvents(c, buttons, k, st.analog, filter)
  {
  }

  /** One button judged against the running store gives the events it gives
      against the initial store, as long as no earlier button has touched
      its keys. */
  lemma ButtonRead(c: XrController, buttons: seq<Option<real>>, k: nat, st: InputState, filter: Filter)
    requires k < |buttons| && buttons[k].Some?
    requires Buttons(c, buttons, k, st, filter).events == st.events + ButtonEvents(c, buttons, k, st.analog, filter)
    requires Agrees(c, k, Buttons(c, buttons, k, st, filter).analog, st.analog)
    ensures Buttons(c, buttons, k + 1, st, filter).events == st.events + ButtonEvents(c, buttons, k + 1, st.analog, filter)
  {
    var prev := Buttons(c, buttons, k, st, filter);
    var a0 := st.analog;
    var v := buttons[k].value;
    var t := IndexToInputType(k);
    var tk, pk := TouchKey(c, t), PressKey(c, t);
    assert !Visited(c, k, tk) && !Visited(c, k, pk);
    var mid := Channel(prev, tk, v, filter);
    assert Buttons(c, buttons, k + 1, st, filter) == Channel(mid, pk, v, filter);
    ChannelEmits(prev, tk, v, a0, filter);
    ChannelEmits(mid, pk, v, a0, filter);
    assert ButtonEvents(c, buttons, k + 1, a0, filter)
           == ButtonEvents(c, buttons, k, a0, filter) + (Emit(tk, v, a0, filter) + Emit(pk, v, a0, filter));
  }

  /** A button writes only its own two keys. */
  lemma ButtonKeys(c: XrController, buttons: seq<Option<real>>, k: nat, st: InputState, filter: Filter)
    requires k < |buttons| && buttons[k].Some?
    requires Agrees(c, k, Buttons(c, buttons, k, st, filter).analog, st.analog)
    ensures Agrees(c, k + 1, Buttons(c, buttons, k + 1, st, filter).analog, st.analog)
  {
    var prev := Buttons(c, buttons, k, st, filter);
    var v := buttons[k].value;
    var t := IndexToInputType(k);
    var tk, pk := TouchKey(c, t), PressKey(c, t);
    var last := Channel(Channel(prev, tk, v, filter), pk, v, filter);
    assert Buttons(c, buttons, k + 1, st, filter) == last;
    forall key | !Visited(c, k + 1, key) ensures Stored(last.analog, key) == Stored(st.analog, key) {
      assert key != tk && key != pk && !Visited(c, k, key);
    }
  }

  /** The button loop sends exactly the events each button yields against
      the store it started from: every button has its own keys (the role
      table is injective), so no button reads a value an earlier one wrote.
      Keys the loop has not reached keep their stored values. */
  lemma {:induction false} ButtonsAgree(c: XrController, buttons: seq<Option<real>>, k: nat, st: InputState, filter: Filter)
    requires k <= |buttons|
    ensures Buttons(c, buttons, k, st, filter).events == st.events + ButtonEvents(c, buttons, k, st.analog, filter)
    ensures Agrees(c, k, Buttons(c, buttons, k, st, filter).analog, st.analog)
  {
    if k > 0 {
      ButtonsAgree(c, buttons, k - 1, st, filter);
      if buttons[k - 1].None? {
        ButtonSkipped(c, buttons, k - 1, st, filter);
      } else {
        ButtonRead(c, buttons, k - 1, st, filter);
        ButtonKeys(c, buttons, k - 1, st, filter);
      }
    }
  }

  /** The axis loop sends exactly the events each axis yields against the
      store it started from. */
  lemma {:induction false} AxesAgree(c: XrController, axes: seq<real>, k: nat, st: InputState, filter: Filter)
    requires k <= |axes|
    ensures Axes(c, axes, k, st, filter).events == st.events + AxisEvents(c, axes, k, st.analog, filter)
  {
    if k > 0 {
      AxesAgree(c, axes, k - 1, st, filter);
    }
  }

  /** `handle_input` sends a touch and then a press event for each button,
      then an event for each axis, each exactly when the filter passes the
      reading against the value stored before the call, carrying the
      filtered value; nothing else is sent. Axis keys and the keys of other
      controllers keep their stored values. */
  lemma HandleInputEmitsFiltered(c: XrController, pad: Gamepad, st: InputState, filter: Filter)
    ensures var r := HandleInput(c, pad, st, filter);
      && r.events == st.events + ButtonEvents(c, pad.buttons, |pad.buttons|, st.analog, filter)
                              + AxisEvents(c, pad.axes, |pad.axes|, st.analog, filter)
      && forall key: InputKey :: key.AxisKey? || key.controller != c ==> Stored(r.analog, key) == Stored(st.analog, key)
  {
    var b := Buttons(c, pad.buttons, |pad.buttons|, st, filter);
    ButtonsAgree(c, pad.buttons, |pad.buttons|, st, filter);
    AxesAgree(c, pad.axes, |pad.axes|, b, filter);
    assert AxisEvents(c, pad.axes, |pad.axes|, b.analog, filter) == AxisEvents(c, pad.axes, |pad.axes|, st.analog, filter) by {
      AxisEventsStoreFree(c, pad.axes, |pad.axes|, b.analog, st.analog, filter);
    }
  }

  /** Axis events only read axis keys. */
  lemma {:induction false} AxisEventsStoreFree(c: XrController, axes: seq<real>, k: nat, a: map<InputKey, real>,
                                               b: map<InputKey, real>, filter: Filter)
    requires k <= |axes|
    requires forall key: InputKey :: key.AxisKey? ==> Stored(a, key) == Stored(b, key)
    ensures AxisEvents(c, axes, k, a, filter) == AxisEvents(c, axes, k, b, filter)
  {
    if k > 0 {
      AxisEventsStoreFree(c, axes, k - 1, a, b, filter);
      var key := AxisKey(c, IndexToAxisType(k - 1));
      assert Stored(a, key) == Stored(b, key);
    }
  }

  /** Every event `handle_input` adds is a change event for its controller. */
  lemma {:induction false} ButtonEventsShape(c: XrController, buttons: seq<Option<real>>, k: nat, a0: map<InputKey, real>, filter: Filter)
    requires k <= |buttons|
    ensures |ButtonEvents(c, buttons, k, a0, filter)| <= 2 * k
    ensures forall e :: e in ButtonEvents(c, buttons, k, a0, filter) ==> (e.TouchChanged? || e.PressChanged?) && e.controller == c
  {
    if k > 0 {
      ButtonEventsShape(c, buttons, k - 1, a0, filter);
    }
  }

  // ----- Names -----

  /** The decimal digits of `n`, as `to_string` prints them. */
  function Decimal(n: nat): (s: string)
    ensures |s| >= 1 && forall k :: 0 <= k < |s| ==> '0' <= s[k] <= '9'
  {
    if n < 10 then [DigitChar(n)] else Decimal(n / 10) + [DigitChar(n % 10)]
  }

  function DigitChar(d: nat): (ch: char)
    requires d < 10
    ensures '0' <= ch <= '9' && ch as int - '0' as int == d
  {
    ('0' as int + d) as char
  }

  /** The value a string of decimal digits denotes. */
  function DecimalValue(s: string): nat
    requires forall k :: 0 <= k < |s| ==> '0' <= s[k] <= '9'
  {
    if s == [] then 0 else 10 * DecimalValue(s[..|s| - 1]) + (s[|s| - 1] as int - '0' as int)
  }

  /** The printed index reads back as the index. */
  lemma {:induction false} DecimalRoundTrip(n: nat)
    ensures DecimalValue(Decimal(n)) == n
  {
    if n >= 10 {
      DecimalRoundTrip(n / 10);
      var s := Decimal(n);
      assert s[..|s| - 1] == Decimal(n / 10);
    }
  }

  /** The name a state-changed event carries. */
  function ControllerName(c: XrController): (s: string)
    ensures |s| > 14 && s[..14] == "Xr Controller "
    ensures c.OtherController? ==> s[14..] == Decimal(c.index)
    ensures c == LeftController ==> s[14..] == "Left"
    ensures c == RightController ==> s[14..] == "Right"
  {
    match c
    case LeftController => "Xr Controller Left"
    case RightController => "Xr Controller Right"
    case OtherController(i) =>
      assert ("Xr Controller " + Decimal(i))[14..] == Decimal(i);
      "Xr Controller " + Decimal(i)
  }

  // ----- Reconciliation -----

  /** The role each controller query reads. */
  function SideRole(side: Side): Role {
    ControllerRole(Some(side))
  }

  const UNCLASSIFIED: Role := ControllerRole(None)

  /** `i as u8`. */
  function AsU8(i: nat): (r: nat)
    ensures r < 256 && (i < 256 ==> r == i)
  {
    i % 256
  }

  /** The entity a controller bundle spawns as (`XrControllerBundle` or
      `XrControllerHandlessBundle` with index `i`): the controller role, active,
      the default transform and the tracked index. */
  function NewController(hand: Option<Side>, i: nat): (e: Entity)
    ensures e.role == ControllerRole(hand) && e.active && e.pose == DefaultPose && e.parent.None?
  {
    Entity(ControllerRole(hand), true, DefaultPose, None, None, Some(AsU8(i)))
  }

  /** What an update writes into a matched controller: the pose and
      `active = true`. */
  function Tracked(e: Entity, pose: Pose): (r: Entity)
    ensures r.pose == pose && r.active && r.role == e.role && r.camera == e.camera
    ensures r.parent == e.parent && r.tracked == e.tracked
  {
    e.(pose := pose, active := true)
  }

  /** The two ways the call can panic. */
  datatype ControllerPanic =
    | EmptyLeftUnwrap    // `controllers.next().unwrap()` on an empty left query
    | OriginNotSingle    // `origin.single()` with more than one origin

  /** One arm of the handedness match: the store and commands after it, the
      events it sent, and the unclassified controllers the snapshot
      iterator has not yet yielded. */
  datatype Arm = Arm(sync: Sync, events: seq<ControllerEvent>, rest: seq<EntityId>, order: seq<EntityId>)

  /** Update matched controller `id`: write the pose and active flag, and
      queue `XrTrackedObject(i as u8)`. */
  function Update(w: World, id: EntityId, i: nat, pose: Pose): (s: Sync)
    requires WellFormed(w) && id in w.entities
    ensures Inv(w, s)
    ensures s.world.entities[id] == Tracked(w.entities[id], pose)
    ensures forall other :: other in w.entities && other != id ==> s.world.entities[other] == w.entities[other]
    ensures s.world.next == w.next && s.cmds == [InsertTracked(id, AsU8(i))]
  {
    Sync(SetEntity(w, id, Tracked(w.entities[id], pose)), [InsertTracked(id, AsU8(i))])
  }

  /** The duplicates branch: every controller of `kept` but the first is
      despawned, then the first is updated. */
  function Collapse(w: World, kept: seq<EntityId>, i: nat, pose: Pose): (s: Sync)
    requires WellFormed(w) && |kept| >= 1 && forall id :: id in kept ==> id in w.entities
    ensures Inv(w, s)
    ensures s.world.entities[kept[0]] == Tracked(w.entities[kept[0]], pose)
    ensures forall other :: other in w.entities && other != kept[0] ==> s.world.entities[other] == w.entities[other]
    ensures s.world.next == w.next && s.cmds == Despawns(kept[1..]) + [InsertTracked(kept[0], AsU8(i))]
  {
    assert kept[0] in kept;
    var u := Update(w, kept[0], i, pose);
    var cmds := Despawns(kept[1..]) + u.cmds;
    assert forall k :: 0 <= k < |cmds| ==> !cmds[k].Spawn? by {
      forall k | 0 <= k < |cmds| ensures !cmds[k].Spawn? {
        if k < |kept| - 1 {
          assert cmds[k] == Despawns(kept[1..])[k];
        }
      }
    }
    Sync(u.world, cmds)
  }

  /** Spawn a controller under the single origin; more than one origin
      panics. */
  function SpawnUnderOrigin(w: World, e: Entity): (r: Result<(Sync, EntityId), ControllerPanic>)
    requires WellFormed(w) && |Query(w, OriginRole)| >= 1
    ensures r.Failure? <==> |Query(w, OriginRole)| > 1
    ensures r.Failure? ==> r.error == OriginNotSingle
    ensures r.Success? ==>
      var (s, id) := r.value;
      && id == w.next && Inv(w, s) && s.world.entities == w.entities && s.world.next == w.next + 1
      && s.cmds == [Spawn(id, e), AddChild(Query(w, OriginRole)[0], id)]
  {
    var origins := Query(w, OriginRole);
    if |origins| > 1 then Failure(OriginNotSingle)
    else
      var (w', id) := Reserve(w);
      Success((Sync(w', [Spawn(id, e), AddChild(origins[0], id)]), id))
  }

  /** A handed arm (`get_single_mut` on the side's query):
      - exactly one controller: it is updated;
      - several: the first of the kept query survives and is updated, the
        rest of that query are despawned first. The kept query is the left
        one for both sides, so with right duplicates and no left controller
        the unwrap panics;
      - none: a controller is spawned under the origin and a tracking event
        is sent. */
  function Handed(w: World, side: Side, i: nat, pose: Pose, listed: seq<EntityId>, order: seq<EntityId>): (r: Result<Arm, ControllerPanic>)
    requires WellFormed(w) && |Query(w, OriginRole)| >= 1
    ensures r.Success? ==> Inv(w, r.value.sync) && r.value.rest == listed && r.value.order == order
  {
    var ids := Query(w, SideRole(side));
    var c := if side == Left then LeftController else RightController;
    if |ids| == 1 then
      Success(Arm(Update(w, ids[0], i, pose), [], listed, order))
    else if |ids| > 1 then
      var kept := Query(w, SideRole(Left));
      if |kept| == 0 then Failure(EmptyLeftUnwrap)
      else Success(Arm(Collapse(w, kept, i, pose), [], listed, order))
    else
      var (s, _) :- SpawnUnderOrigin(w, NewController(Some(side), i));
      Success(Arm(s, [StateChanged(c, ControllerName(c))], listed, order))
  }

  /** The unclassified arm: the snapshot iterator yields the next listed
      controller, which is updated; once the list is exhausted a handless
      controller is spawned, appended to the order list and parented to the
      origin, and a tracking event is sent. */
  function Unclassified(w: World, i: nat, pose: Pose, listed: seq<EntityId>, order: seq<EntityId>): (r: Result<Arm, ControllerPanic>)
    requires WellFormed(w) && |Query(w, OriginRole)| >= 1
    requires forall id :: id in listed ==> id in w.entities
    ensures r.Success? ==> Inv(w, r.value.sync) && order <= r.value.order
  {
    if |listed| > 0 then
      assert listed[0] in listed;
      Success(Arm(Update(w, listed[0], i, pose), [], listed[1..], order))
    else
      var (s, id) :- SpawnUnderOrigin(w, NewController(None, i));
      Success(Arm(s, [StateChanged(OtherController(i), ControllerName(OtherController(i)))], [], order + [id]))
  }

  /** The unclassified controllers the snapshot of the order list visits,
      in list order (`iter_many_mut` skips ids the query does not match). */
  function Listed(w: World, order: seq<EntityId>): (ids: seq<EntityId>)
    ensures forall id :: id in ids <==> id in order && id in w.entities && Matches(w.entities[id], UNCLASSIFIED)
  {
    if order == [] then []
    else
      var head := if order[0] in w.entities && Matches(w.entities[order[0]], UNCLASSIFIED) then [order[0]] else [];
      assert forall id :: id in order <==> id == order[0] || id in order[1..];
      head + Listed(w, order[1..])
  }

  /** What lines 259-273 deactivate: every left and every right controller
      (their guards are constant `true`) and every unclassified controller
      the snapshot iterator has not yielded. */
  function Leftovers(w: World, rest: seq<EntityId>): (ids: set<EntityId>)
    requires WellFormed(w)
    ensures forall id :: id in ids <==>
      || (NO_LEFT_CONTROLLER && id in w.entities && w.entities[id].role == SideRole(Left))
      || (NO_RIGHT_CONTROLLER && id in w.entities && w.entities[id].role == SideRole(Right))
      || id in rest
  {
    (if NO_LEFT_CONTROLLER then set id | id in Query(w, SideRole(Left)) else {})
    + (if NO_RIGHT_CONTROLLER then set id | id in Query(w, SideRole(Right)) else {})
    + set id | id in rest
  }

  lemma DeactivateAllKeepsInv(w0: World, s: Sync, ids: set<EntityId>)
    requires Inv(w0, s)
    ensures Inv(w0, Sync(DeactivateAll(s.world, ids), s.cmds))
  {
    var w' := DeactivateAll(s.world, ids);
    forall id | id in w0.entities
      ensures w'.entities[id].role == w0.entities[id].role
      ensures w'.entities[id].camera.Some? == w0.entities[id].camera.Some?
    {
    }
  }

  /** The state the call leaves behind. */
  datatype ControllerFrame = ControllerFrame(
    sync: Sync,
    order: seq<EntityId>,
    events: seq<ControllerEvent>,
    analog: map<InputKey, real>)

  /** The arm's effects, then the post-processing deactivation; `input`
      holds the arm's events followed by the gamepad decoding's, and the
      analog store after it. */
  function Finish(w: World, arm: Arm, input: InputState): (r: ControllerFrame)
    requires Inv(w, arm.sync)
    ensures Inv(w, r.sync) && r.sync.cmds == arm.sync.cmds && r.order == arm.order
    ensures r.events == input.events && r.analog == input.analog
    ensures r.sync.world.next == arm.sync.world.next
    ensures forall id :: id in w.entities ==>
      r.sync.world.entities[id]
      == if id in Leftovers(w, arm.rest) then arm.sync.world.entities[id].(active := false) else arm.sync.world.entities[id]
  {
    DeactivateAllKeepsInv(w, arm.sync, Leftovers(w, arm.rest));
    ControllerFrame(Sync(DeactivateAll(arm.sync.world, Leftovers(w, arm.rest)), arm.sync.cmds), arm.order, input.events, input.analog)
  }

  /** The arm, the gamepad decoding for controller `c` on top of the arm's
      events, and the post-processing. */
  function Decode(w: World, arm: Arm, c: XrController, pad: Gamepad, analog: map<InputKey, real>, filter: Filter): (r: ControllerFrame)
    requires Inv(w, arm.sync)
    ensures Inv(w, r.sync) && r.sync.cmds == arm.sync.cmds && r.order == arm.order
  {
    Finish(w, arm, HandleInput(c, pad, InputState(arm.events, analog), filter))
  }

  /** Whether an input source is reconciled: it has a gamepad, a grip space
      and a grip pose that resolves. */
  predicate Reconciled(src: InputSource) {
    src.gamepad.Some? && src.gripSpace && src.gripPose.Some?
  }

  /** The one iteration of the source loop that runs: input source `i`
      (always 0) is examined, then the post-processing runs and the call
      returns. */
  function FirstIteration(w: World, src: InputSource, i: nat, order: seq<EntityId>, analog: map<InputKey, real>,
                          filter: Filter): (r: Result<ControllerFrame, ControllerPanic>)
    requires WellFormed(w) && |Query(w, OriginRole)| >= 1
    ensures r.Success? ==> Inv(w, r.value.sync) && order <= r.value.order
  {
    var listed := Listed(w, order);
    var idle := Arm(Sync(w, []), [], listed, order);
    if !Reconciled(src) then
      Success(Finish(w, idle, InputState([], analog)))
    else
      var pad, pose := src.gamepad.value, src.gripPose.value;
      if src.handedness == HandednessLeft && NO_LEFT_CONTROLLER then
        var arm :- Handed(w, Left, i, pose, listed, order);
        Success(Decode(w, arm, LeftController, pad, analog, filter))
      else if src.handedness == HandednessRight && NO_RIGHT_CONTROLLER then
        var arm :- Handed(w, Right, i, pose, listed, order);
        Success(Decode(w, arm, RightController, pad, analog, filter))
      else if src.handedness == HandednessNonexhaustive then
        Success(Finish(w, idle, InputState([], analog)))
      else
        var arm :- Unclassified(w, i, pose, listed, order);
        Success(Decode(w, arm, OtherController(i), pad, analog, filter))
  }

  /** Every controller of the three queries. */
  function AllControllers(w: World): (ids: set<EntityId>)
    requires WellFormed(w)
    ensures forall id :: id in ids <==> id in w.entities && w.entities[id].role.ControllerRole?
  {
    ControllerQueries(w);
    set id | id in Query(w, SideRole(Left)) + Query(w, SideRole(Right)) + Query(w, UNCLASSIFIED)
  }

  /** The three controller queries between them visit every controller. */
  lemma ControllerQueries(w: World)
    requires WellFormed(w)
    ensures forall id :: id in w.entities && w.entities[id].role.ControllerRole? ==>
      id in Query(w, SideRole(Left)) || id in Query(w, SideRole(Right)) || id in Query(w, UNCLASSIFIED)
  {
    forall id | id in w.entities && w.entities[id].role.ControllerRole?
      ensures id in Query(w, SideRole(Left)) || id in Query(w, SideRole(Right)) || id in Query(w, UNCLASSIFIED)
    {
      match w.entities[id].role.hand
      case None => assert id in Query(w, UNCLASSIFIED);
      case Some(Left) => assert id in Query(w, SideRole(Left));
      case Some(Right) => assert id in Query(w, SideRole(Right));
    }
  }

  /** `update_xr_controllers`, given the store, the frame, the persisted
      order list, the analog store and the settings' filter. With an origin,
      a frame and at least one input source, the first iteration of the
      source loop decides everything; otherwise every controller is
      deactivated and nothing else happens. */
  function UpdateXrControllers(w: World, frame: Option<XrFrame>, order: seq<EntityId>,
                               analog: map<InputKey, real>, filter: Filter): (r: Result<ControllerFrame, ControllerPanic>)
    requires WellFormed(w)
    ensures r.Success? ==> Inv(w, r.value.sync) && order <= r.value.order
    ensures (|Query(w, OriginRole)| == 0 || frame.None? || |frame.value.inputSources| == 0) ==>
      && r.Success? && r.value.sync.cmds == [] && r.value.order == order
      && r.value.events == [] && r.value.analog == analog && r.value.sync.world.next == w.next
      && forall id :: id in w.entities ==>
           r.value.sync.world.entities[id]
           == if w.entities[id].role.ControllerRole? then w.entities[id].(active := false) else w.entities[id]
  {
    if |Query(w, OriginRole)| > 0 && frame.Some? && |frame.value.inputSources| > 0 then
      FirstIteration(w, frame.value.inputSources[0], 0, order, analog, filter)
    else
      Success(ControllerFrame(Sync(DeactivateAll(w, AllControllers(w)), []), order, [], analog))
  }
}
