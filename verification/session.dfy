/** The polling startup path (`src/session.rs`): a system that waits for the
    shared session slot to hold a granted session and then, exactly once,
    starts a task that binds the canvas's WebGL2 context to the session and
    starts the frame loop. */
module Session {
  import opened Wrappers
  import opened Errors
  import opened FrameLoop
  import Init

  /** The shared session slot: empty until the request settles, then the
      session or the error. */
  type SessionSlot = Option<Result<SessionToken, WebXrError>>

  /** The slot holds a granted session. */
  predicate Ready(slot: SessionSlot) {
    slot.Some? && slot.value.Success?
  }

  // ----- The one-shot latch -----

  /** The latch after one poll, and whether the poll started the
      initialisation task. */
  datatype Poll = Poll(latch: bool, spawned: bool)

  /** `poll_session`: while the latch is down, a ready slot starts the
      initialisation task and raises the latch; anything else leaves both
      as they were. */
  function PollSession(latch: bool, slot: SessionSlot): (p: Poll)
    ensures p.spawned <==> !latch && Ready(slot)
    ensures p.latch <==> latch || Ready(slot)
  {
    if !latch then
      if Ready(slot) then Poll(true, true) else Poll(false, false)
    else Poll(latch, false)
  }

  /** Poll once per frame over the slot's successive contents: the final
      latch and the frames at which the initialisation task was started. */
  function PollAll(latch: bool, slots: seq<SessionSlot>): (r: (bool, seq<nat>))
    decreases |slots|
  {
    if slots == [] then (latch, [])
    else
      var (l, spawns) := PollAll(latch, slots[..|slots| - 1]);
      var p := PollSession(l, slots[|slots| - 1]);
      (p.latch, spawns + if p.spawned then [|slots| - 1] else [])
  }

  /** The first frame at which the slot is ready, or `|slots|` if none. */
  function FirstReady(slots: seq<SessionSlot>): (k: nat)
    ensures k <= |slots|
    ensures k < |slots| ==> Ready(slots[k])
    ensures forall j :: 0 <= j < k && j < |slots| ==> !Ready(slots[j])
    decreases |slots|
  {
    if slots == [] then 0
    else
      var f := FirstReady(slots[..|slots| - 1]);
      if f < |slots| - 1 then f
      else if Ready(slots[|slots| - 1]) then |slots| - 1
      else |slots|
  }

  /** From a lowered latch, the initialisation task is started exactly
      once, at the first frame whose slot is ready, and never if no frame's
      slot is; the latch ends raised exactly when it was started. */
  lemma {:induction false} StartsOnceAtFirstReady(slots: seq<SessionSlot>)
    ensures var (latch, spawns) := PollAll(false, slots);
      && (latch <==> FirstReady(slots) < |slots|)
      && spawns == if FirstReady(slots) < |slots| then [FirstReady(slots)] else []
    decreases |slots|
  {
    if slots != [] {
      var n := |slots|;
      var prefix := slots[..n - 1];
      StartsOnceAtFirstReady(prefix);
      var (l, spawns) := PollAll(false, prefix);
      assert PollAll(false, slots).0 == PollSession(l, slots[n - 1]).latch;
    }
  }

  /** Once the latch is raised, polling never starts the initialisation
      task again. */
  lemma {:induction false} RaisedLatchStaysQuiet(slots: seq<SessionSlot>)
    ensures PollAll(true, slots).0 && PollAll(true, slots).1 == []
    decreases |slots|
  {
    if slots != [] {
      RaisedLatchStaysQuiet(slots[..|slots| - 1]);
    }
  }

  // ----- Binding the context -----

  /** What `query_selector` gives for the canvas selector. */
  datatype CanvasLookup = LookupFailed(error: JsValue) | NoMatch | Matched(isCanvas: bool)

  /** What `get_context("webgl2")` gives. */
  datatype ContextLookup = ContextFailed(error: JsValue) | NoContext | ContextFound(isWebGl2: bool)

  /** The page and platform as `init_context` meets them: window and
      document (unwrapped), the canvas and context lookups, and how
      `make_xr_compatible` and the layer constructor settle. */
  datatype ContextOracle = ContextOracle(
    hasWindow: bool,
    hasDocument: bool,
    canvas: CanvasLookup,
    context: ContextLookup,
    compatible: Result<(), JsValue>,
    layer: Result<(), JsValue>)

  /** `init_context`: a failing lookup or platform call is a `JsError`;
      a missing or non-canvas element is `CanvasNotFound`, a missing or
      non-WebGL2 context `WebGl2ContextNotFound`; a missing window or
      document panics. On success the session's render state gets the
      layer. */
  function InitContext(o: ContextOracle): (r: Result<(), Abort>)
    ensures r == Failure(Panicked) <==> !o.hasWindow || !o.hasDocument
    ensures r == Failure(Failed(CanvasNotFound)) <==>
      o.hasWindow && o.hasDocument && (o.canvas == NoMatch || o.canvas == Matched(false))
    ensures r == Failure(Failed(WebGl2ContextNotFound)) <==>
      && o.hasWindow && o.hasDocument && o.canvas == Matched(true)
      && (o.context == NoContext || o.context == ContextFound(false))
    ensures r.Success? <==>
      && o.hasWindow && o.hasDocument && o.canvas == Matched(true) && o.context == ContextFound(true)
      && o.compatible.Success? && o.layer.Success?
    ensures o.hasWindow && o.hasDocument && o.canvas.LookupFailed? ==> r == Failure(Failed(JsError(o.canvas.error)))
    ensures o.hasWindow && o.hasDocument && o.canvas == Matched(true) && o.context.ContextFailed? ==>
      r == Failure(Failed(JsError(o.context.error)))
  {
    if !o.hasWindow || !o.hasDocument then Failure(Panicked)
    else
      match o.canvas
      case LookupFailed(e) => Failure(Failed(JsError(e)))
      case NoMatch => Failure(Failed(CanvasNotFound))
      case Matched(isCanvas) =>
        if !isCanvas then Failure(Failed(CanvasNotFound))
        else
          match o.context
          case ContextFailed(e) => Failure(Failed(JsError(e)))
          case NoContext => Failure(Failed(WebGl2ContextNotFound))
          case ContextFound(isWebGl2) =>
            if !isWebGl2 then Failure(Failed(WebGl2ContextNotFound))
            else if o.compatible.Failure? then Failure(Failed(JsError(o.compatible.error)))
            else if o.layer.Failure? then Failure(Failed(JsError(o.layer.error)))
            else Success(())
  }

  /** `init_session`: without a granted session in the slot it fails with
      `SessionError`; otherwise it binds the context, then requests the
      first frame (`request_web_xr_frame` cannot fail), passing on the
      binding's failure. The frame is requested only on success. */
  function InitSession(slot: SessionSlot, o: ContextOracle, app: AppState): (r: (AppState, Result<(), Abort>))
    ensures r.1.Success? <==> Ready(slot) && InitContext(o).Success?
    ensures !Ready(slot) ==> r.1 == Failure(Failed(SessionError))
    ensures Ready(slot) && r.1.Failure? ==> r.1.error == InitContext(o).error
    ensures r.0.frame == app.frame && r.0.seen == app.seen
    ensures r.0.requests == app.requests + (if r.1.Success? then 1 else 0)
  {
    if !Ready(slot) then (app, Failure(Failed(SessionError)))
    else
      match InitContext(o)
      case Failure(e) => (app, Failure(e))
      case Success(_) => (app.(requests := app.requests + 1), Success(()))
  }

  // ----- The frame loop -----

  /** The callback `request_web_xr_frame` installs: insert this frame as
      the module's own `XrFrame` resource, run one update, take that
      resource back out, and only then request the next frame. */
  function SessionFrameCallback(f: FrameToken): seq<FrameAction> {
    [InsertSessionFrame(f), RunUpdate, RemoveSessionFrame, RequestNextFrame]
  }

  /** One callback: the frame goes into the private resource, so the update
      sees the `WebXrFrame` resource as it already was, not this frame; the
      private resource is gone afterwards, and one frame is requested after
      the update. */
  lemma SessionCallbackEffect(s: AppState, f: FrameToken)
    ensures Run(s, SessionFrameCallback(f)) == AppState(s.frame, s.seen + [s.frame], s.requests + 1, None)
    ensures IndexOf(SessionFrameCallback(f), RunUpdate) == 1 && IndexOf(SessionFrameCallback(f), RequestNextFrame) == 3
  {
    var a := SessionFrameCallback(f);
    var s1 := Step(s, InsertSessionFrame(f));
    var s2 := Step(s1, RunUpdate);
    var s3 := Step(s2, RemoveSessionFrame);
    var s4 := Step(s3, RequestNextFrame);
    assert a[1..] == [RunUpdate, RemoveSessionFrame, RequestNextFrame];
    assert a[1..][1..] == [RemoveSessionFrame, RequestNextFrame];
    assert a[1..][1..][1..] == [RequestNextFrame];
    assert a[1..][1..][1..][1..] == [];
    assert Run(s, a) == Run(s1, a[1..]) == Run(s2, a[1..][1..]) == Run(s3, a[1..][1..][1..]) == Run(s4, []);
    assert IndexOf(a, RequestNextFrame) == 1 + IndexOf(a[1..], RequestNextFrame)
           == 2 + IndexOf(a[1..][1..], RequestNextFrame) == 3 + IndexOf(a[1..][1..][1..], RequestNextFrame) == 3;
  }

  /** The two frame loops order the same actions oppositely: the runner's
      requests the next frame before the update, this one after it. Only
      the runner's update sees the frame it was given, and only the runner's
      leaves it in the app; this one leaves the `WebXrFrame` resource as it
      found it. */
  lemma OppositeFrameOrders(s: AppState, f: FrameToken)
    ensures IndexOf(Init.InitFrameCallback(f), RequestNextFrame) < IndexOf(Init.InitFrameCallback(f), RunUpdate)
    ensures IndexOf(SessionFrameCallback(f), RunUpdate) < IndexOf(SessionFrameCallback(f), RequestNextFrame)
    ensures Run(s, Init.InitFrameCallback(f)).frame == Some(f) && Run(s, SessionFrameCallback(f)).frame == s.frame
    ensures Run(s, Init.InitFrameCallback(f)).seen == s.seen + [Some(f)]
    ensures Run(s, SessionFrameCallback(f)).seen == s.seen + [s.frame]
  {
    Init.InitCallbackEffect(s, f);
    SessionCallbackEffect(s, f);
  }

  /** After any run of polling-path callbacks one frame was requested per
      callback, no private frame is left, and every update saw the
      `WebXrFrame` resource as it was before the run. */
  lemma {:induction false} SessionCallbacksRun(s: AppState, frames: seq<FrameToken>)
    ensures Run(s, Callbacks(SessionFrameCallback, frames))
            == if frames == [] then s else AppState(s.frame, s.seen + Repeat(s.frame, |frames|), s.requests + |frames|, None)
    decreases |frames|
  {
    var n := |frames|;
    if n == 0 {
      assert Callbacks(SessionFrameCallback, frames) == [];
    } else {
      var init := frames[..n - 1];
      SessionCallbacksRun(s, init);
      RunConcat(s, Callbacks(SessionFrameCallback, init), SessionFrameCallback(frames[n - 1]));
      SessionCallbackEffect(Run(s, Callbacks(SessionFrameCallback, init)), frames[n - 1]);
      if n == 1 {
        assert Repeat(s.frame, 1) == [s.frame];
      } else {
        assert s.seen + Repeat(s.frame, n - 1) + [s.frame] == s.seen + Repeat(s.frame, n);
      }
    }
  }

  /** On the polling path, started with no `WebXrFrame` resource, no update
      ever sees a frame, so every tracking system takes its no-frame path. */
  lemma PollingUpdatesSeeNoFrame(s: AppState, frames: seq<FrameToken>)
    requires s.frame.None?
    ensures var t := Run(s, Callbacks(SessionFrameCallback, frames));
      |t.seen| == |s.seen| + |frames| && forall k :: |s.seen| <= k < |t.seen| ==> t.seen[k].None?
  {
    SessionCallbacksRun(s, frames);
  }
}
