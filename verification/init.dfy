/** Startup through the runner (`src/init.rs`): probing which session modes
    the platform supports, the enter-VR/AR buttons, the canvas, requesting a
    session with its reference space, and the frame loop the runner drives.

    Every browser call is an oracle: the document is a record of what its
    lookups find and whether its calls succeed, and each promise is the
    value it settles with. Awaiting is modelled as sequencing. */
module Init {
  import opened Wrappers
  import opened Errors
  import opened FrameLoop

  /** `XrMode`. */
  datatype XrMode = VR | AR | Inline

  /** `XrOrigin`, with the four variants the reference-space match names. */
  datatype XrOrigin = View | Seat | Room | OtherOrigin

  /** The `XRReferenceSpaceType` enum of the WebXR Device API. */
  datatype ReferenceSpaceType = Viewer | Local | LocalFloor | BoundedFloor | Unbounded

  /** The `XRSessionMode` enum of the WebXR Device API. */
  datatype SessionMode = InlineMode | ImmersiveVr | ImmersiveAr

  /** `WebXrSettings` as the startup code reads it (`origin` included). */
  datatype Settings = Settings(
    vrSupported: bool,
    arSupported: bool,
    inlineSupported: bool,
    vrButton: string,
    arButton: string,
    canvas: string,
    origin: XrOrigin)

  // ----- Mapping tables -----

  /** `initialize_reference_space`: the space type requested for a mode and
      origin. */
  function ReferenceSpaceFor(mode: XrMode, origin: XrOrigin): (t: ReferenceSpaceType)
    ensures t == Viewer <==> mode == Inline
    ensures t == Unbounded <==> mode != Inline && origin == OtherOrigin
    ensures t == Local <==> mode != Inline && origin != OtherOrigin
  {
    match (mode, origin)
    case (VR, View) => Local
    case (VR, Seat) => Local
    case (VR, Room) => Local
    case (VR, OtherOrigin) => Unbounded
    case (AR, View) => Local
    case (AR, Seat) => Local
    case (AR, Room) => Local
    case (AR, OtherOrigin) => Unbounded
    case (Inline, _) => Viewer
  }

  /** The two immersive modes request the same space for every origin, and
      no origin ever yields a floor-level space. */
  lemma ImmersiveSpacesAgree(origin: XrOrigin)
    ensures ReferenceSpaceFor(VR, origin) == ReferenceSpaceFor(AR, origin)
    ensures forall mode: XrMode :: ReferenceSpaceFor(mode, origin) !in {LocalFloor, BoundedFloor}
  {
  }

  /** `request_session`'s mode match. */
  function SessionModeFor(mode: XrMode): (m: SessionMode)
    ensures m == InlineMode <==> mode == Inline
    ensures m == ImmersiveVr <==> mode == VR
    ensures m == ImmersiveAr <==> mode == AR
  {
    match mode
    case VR => ImmersiveVr
    case AR => ImmersiveAr
    case Inline => InlineMode
  }

  /** The mode a session mode was requested for. */
  function ModeOf(m: SessionMode): XrMode {
    match m
    case InlineMode => Inline
    case ImmersiveVr => VR
    case ImmersiveAr => AR
  }

  /** The session-mode map is a bijection. */
  lemma SessionModeRoundTrip(mode: XrMode, m: SessionMode)
    ensures ModeOf(SessionModeFor(mode)) == mode
    ensures SessionModeFor(ModeOf(m)) == m
  {
  }

  /** The one optional feature every session request asks for. */
  const HAND_TRACKING: string := "hand-tracking"

  /** What `request_session_with_options` is called with. */
  datatype SessionRequest = SessionRequest(mode: SessionMode, optionalFeatures: seq<string>)

  /** `request_session`: the request made (none without a window) and the
      session or error it settles with. `answer` is the platform's reply to
      a request for each mode. */
  function RequestSession(hasWindow: bool, mode: XrMode, answer: SessionMode -> Result<SessionToken, JsValue>)
    : (r: (Option<SessionRequest>, Result<SessionToken, WebXrError>))
    ensures r.0.None? <==> !hasWindow
    ensures !hasWindow ==> r.1 == Failure(NoWindow)
    ensures hasWindow ==>
      && r.0.value.mode == SessionModeFor(mode) && r.0.value.optionalFeatures == [HAND_TRACKING]
      && (r.1.Success? <==> answer(r.0.value.mode).Success?)
      && (r.1.Success? ==> r.1.value == answer(r.0.value.mode).value)
      && (r.1.Failure? ==> r.1.error == SessionRequestError(answer(r.0.value.mode).error))
  {
    if !hasWindow then (None, Failure(NoWindow))
    else
      var request := SessionRequest(SessionModeFor(mode), [HAND_TRACKING]);
      match answer(request.mode)
      case Success(session) => (Some(request), Success(session))
      case Failure(e) => (Some(request), Failure(SessionRequestError(e)))
  }

  // ----- Probing support -----

  /** How an `is_session_supported` promise settles: rejected, or resolved
      with a value that `as_bool` may or may not read as a bool. */
  datatype Probe = Rejected(error: JsValue) | Answered(value: Option<bool>)

  datatype SupportedSessions = SupportedSessions(inline: bool, vr: bool, ar: bool)

  /** The order the modes are probed in. */
  const PROBE_ORDER: seq<SessionMode> := [InlineMode, ImmersiveVr, ImmersiveAr]

  /** One probe's reading: a rejection becomes `JsError`, a non-bool
      `NotABool`. */
  function ProbeValue(p: Probe): (r: Result<bool, WebXrError>)
    ensures r.Failure? <==> p.Rejected? || p.value.None?
    ensures p.Rejected? ==> r == Failure(JsError(p.error))
    ensures p.Answered? && p.value.None? ==> r == Failure(NotABool)
  {
    match p
    case Rejected(e) => Failure(JsError(e))
    case Answered(None) => Failure(NotABool)
    case Answered(Some(b)) => Success(b)
  }

  /** Probe the modes one after the other, stopping at the first that does
      not read as a bool: the modes asked, and the values or the error. */
  function ProbeInOrder(modes: seq<SessionMode>, probe: SessionMode -> Probe): (r: (seq<SessionMode>, Result<seq<bool>, WebXrError>))
    ensures r.0 <= modes
    ensures r.1.Success? ==> r.0 == modes && |r.1.value| == |modes|
    ensures r.1.Failure? ==>
      && |r.0| >= 1 && ProbeValue(probe(r.0[|r.0| - 1])).Failure?
      && r.1.error == ProbeValue(probe(r.0[|r.0| - 1])).error
      && forall k :: 0 <= k < |r.0| - 1 ==> ProbeValue(probe(r.0[k])).Success?
  {
    if modes == [] then ([], Success([]))
    else
      match ProbeValue(probe(modes[0]))
      case Failure(e) => ([modes[0]], Failure(e))
      case Success(b) =>
        var (asked, rest) := ProbeInOrder(modes[1..], probe);
        assert modes == [modes[0]] + modes[1..];
        (
          [modes[0]] + asked,
          if rest.Failure? then Failure(rest.error) else Success([b] + rest.value)
        )
  }

  /** `get_supported_sessions`: the modes asked, in order, and what they
      tell. */
  function GetSupportedSessions(hasWindow: bool, probe: SessionMode -> Probe): (r: (seq<SessionMode>, Result<SupportedSessions, WebXrError>))
    ensures !hasWindow ==> r == ([], Failure(NoWindow))
    ensures hasWindow ==> 1 <= |r.0| && r.0 <= PROBE_ORDER
    ensures r.1.Success? <==> hasWindow && forall m :: m in PROBE_ORDER ==> ProbeValue(probe(m)).Success?
  {
    if !hasWindow then ([], Failure(NoWindow))
    else
      var inline := ProbeValue(probe(InlineMode));
      if inline.Failure? then ([InlineMode], Failure(inline.error))
      else
        var vr := ProbeValue(probe(ImmersiveVr));
        if vr.Failure? then ([InlineMode, ImmersiveVr], Failure(vr.error))
        else
          var ar := ProbeValue(probe(ImmersiveAr));
          if ar.Failure? then (PROBE_ORDER, Failure(ar.error))
          else (PROBE_ORDER, Success(SupportedSessions(inline.value, vr.value, ar.value)))
  }

  /** With a window, support probing is probing the three modes in order:
      the same modes are asked, the first failure is the error, and on
      success the three values are the three answers. */
  lemma SupportedIsSequential(probe: SessionMode -> Probe)
    ensures var (asked, r) := GetSupportedSessions(true, probe);
      var (asked', r') := ProbeInOrder(PROBE_ORDER, probe);
      && asked == asked'
      && r.Failure? == r'.Failure?
      && (r.Failure? ==> r.error == r'.error)
      && (r.Success? ==> [r.value.inline, r.value.vr, r.value.ar] == r'.value)
  {
    var p0, p1, p2 := ProbeValue(probe(InlineMode)), ProbeValue(probe(ImmersiveVr)), ProbeValue(probe(ImmersiveAr));
    assert PROBE_ORDER[1..] == [ImmersiveVr, ImmersiveAr];
    assert PROBE_ORDER[1..][1..] == [ImmersiveAr];
    assert PROBE_ORDER[1..][1..][1..] == [];
  }

  // ----- The startup decision -----

  datatype ButtonType = VRButton | ARButton

  /** What `initialize_webxr` goes on to do, in order. A button step keeps
      the outcome of setting that button up, which the source only logs. */
  datatype StartupStep =
    | InitButton(button: ButtonType, outcome: Result<ButtonResult, WebXrError>)
    | StartSession(mode: XrMode)
    | RunWinit

  /** Whether both the platform and the settings allow a button's mode. */
  predicate ButtonEnabled(settings: Settings, s: SupportedSessions, b: ButtonType) {
    if b == VRButton then s.vr && settings.vrSupported else s.ar && settings.arSupported
  }

  /** Whether a step left a click handler holding a clone of the shared
      app: `initialize_button` forgets its closure, and so never drops that
      clone, exactly when it returns `Ok`. */
  predicate HoldsApp(step: StartupStep) {
    step.InitButton? && step.outcome.Success?
  }

  /** The button steps: VR first, then AR on the page the VR button left. */
  function ButtonSteps(settings: Settings, s: SupportedSessions, doc: Document): seq<StartupStep> {
    var vr := if ButtonEnabled(settings, s, VRButton) then [InitButton(VRButton, InitializeButton(doc, VRButton, settings))] else [];
    var doc' := if |vr| == 1 && vr[0].outcome.Success? then vr[0].outcome.value.doc else doc;
    var ar := if ButtonEnabled(settings, s, ARButton) then [InitButton(ARButton, InitializeButton(doc', ARButton, settings))] else [];
    vr + ar
  }

  /** `initialize_webxr`, given what support probing settled with: a probing
      error is raised; otherwise each button is set up when the platform
      and the settings both allow its mode, then an inline session is
      started if the platform supports inline. If not, the app is taken
      out of its shared cell for the ordinary runner, and `try_unwrap`
      panics when a forgotten click handler still holds a clone of it. */
  function InitializeWebxr(settings: Settings, supported: Result<SupportedSessions, WebXrError>, doc: Document): (r: Result<seq<StartupStep>, Abort>)
    ensures supported.Failure? ==> r == Failure(Failed(supported.error))
    ensures supported.Success? ==>
      var s := supported.value;
      r == Failure(Panicked) <==>
        && !s.inline
        && exists b: ButtonType :: ButtonEnabled(settings, s, b) && InitializeButton(doc, b, settings).Success?
    ensures r.Success? ==>
      var s, steps := supported.value, r.value;
      && (forall b: ButtonType :: (exists k :: 0 <= k < |steps| && steps[k].InitButton? && steps[k].button == b) <==> ButtonEnabled(settings, s, b))
      && (forall k :: 0 <= k < |steps| && steps[k].InitButton? ==> steps[k].outcome.Success? == InitializeButton(doc, steps[k].button, settings).Success?)
      && |steps| >= 1 && steps[|steps| - 1] == (if s.inline then StartSession(Inline) else RunWinit)
      && (forall k :: 0 <= k < |steps| - 1 ==> steps[k].InitButton?)
      && (forall j, k :: 0 <= j < k < |steps| - 1 ==> steps[j].button == VRButton && steps[k].button == ARButton)
  {
    if supported.Failure? then Failure(Failed(supported.error))
    else
      var s := supported.value;
      var buttons := ButtonSteps(settings, s, doc);
      var last := if s.inline then StartSession(Inline) else RunWinit;
      ButtonsAgree(settings, s, doc);
      assert forall k :: 0 <= k < |buttons| ==> (buttons + [last])[k] == buttons[k];
      if !s.inline && exists k :: 0 <= k < |buttons| && HoldsApp(buttons[k]) then Failure(Panicked)
      else Success(buttons + [last])
  }

  /** Setting up the VR button does not change whether the AR button can be
      set up: if the AR selector now finds the appended "Enter VR" button,
      that is a button, and the creation it replaces would have succeeded
      as the VR button's did; otherwise the lookup and the creation go as
      on the first page. */
  lemma VrButtonKeepsArOutcome(doc: Document, settings: Settings)
    requires InitializeButton(doc, VRButton, settings).Success?
    ensures var doc' := InitializeButton(doc, VRButton, settings).value.doc;
      InitializeButton(doc', ARButton, settings).Success? == InitializeButton(doc, ARButton, settings).Success?
  {
    var doc' := InitializeButton(doc, VRButton, settings).value.doc;
    if QuerySelector(doc, settings.vrButton).None? {
      var e := Element(ButtonElement, "", ButtonText(VRButton), []);
      assert doc' == doc.(body := doc.body + [e]);
      QuerySelectorAfterAppend(doc, settings.arButton, e);
    }
  }

  /** When the AR selector finds nothing the page had but matches the
      "Enter VR" button start-up has just appended, the AR set-up reuses
      that button instead of adding a second one: the page gains one
      button, and its click handler, installed last, starts an AR
      session. */
  lemma SharedSelectorReusesVrButton(settings: Settings, s: SupportedSessions, doc: Document)
    requires ButtonEnabled(settings, s, VRButton) && ButtonEnabled(settings, s, ARButton)
    requires doc.hasWindow && doc.hasDocument
    requires QuerySelector(doc, settings.vrButton).None? && QuerySelector(doc, settings.arButton).None?
    requires (settings.arButton, Element(ButtonElement, "", "Enter VR", [])) in doc.matches
    ensures var steps := ButtonSteps(settings, s, doc);
      && |steps| == 2
      && (steps[0].outcome.Success? <==> doc.create.Success? && doc.hasBody && doc.append.Success?)
      && (steps[0].outcome.Success? ==>
            && steps[1].outcome.Success?
            && steps[0].outcome.value.button == Appended(|doc.body|)
            && steps[1].outcome.value.button == steps[0].outcome.value.button
            && steps[1].outcome.value.doc.body == doc.body + [Element(ButtonElement, "", "Enter VR", [])]
            && steps[1].outcome.value.onClick == AR)
  {
    var e := Element(ButtonElement, "", "Enter VR", []);
    QuerySelectorAfterAppend(doc, settings.arButton, e);
  }

  /** The button steps are exactly one per enabled button, VR before AR,
      each with the outcome it would have on the first page. */
  lemma ButtonsAgree(settings: Settings, s: SupportedSessions, doc: Document)
    ensures var steps := ButtonSteps(settings, s, doc);
      && (forall k :: 0 <= k < |steps| ==> steps[k].InitButton?)
      && (forall b: ButtonType :: (exists k :: 0 <= k < |steps| && steps[k].button == b) <==> ButtonEnabled(settings, s, b))
      && (forall k :: 0 <= k < |steps| ==> steps[k].outcome.Success? == InitializeButton(doc, steps[k].button, settings).Success?)
      && (forall b: ButtonType :: (ButtonEnabled(settings, s, b) && InitializeButton(doc, b, settings).Success?) <==>
            exists k :: 0 <= k < |steps| && HoldsApp(steps[k]) && steps[k].button == b)
      && (forall j, k :: 0 <= j < k < |steps| ==> steps[j].button == VRButton && steps[k].button == ARButton)
  {
    var vr := if ButtonEnabled(settings, s, VRButton) then [InitButton(VRButton, InitializeButton(doc, VRButton, settings))] else [];
    var doc' := if |vr| == 1 && vr[0].outcome.Success? then vr[0].outcome.value.doc else doc;
    if |vr| == 1 && vr[0].outcome.Success? {
      VrButtonKeepsArOutcome(doc, settings);
    }
    var steps := ButtonSteps(settings, s, doc);
    if ButtonEnabled(settings, s, VRButton) {
      assert steps[0].button == VRButton;
    }
    if ButtonEnabled(settings, s, ARButton) {
      assert steps[|steps| - 1].button == ARButton;
    }
  }

  /** Setting up a button and falling back to the ordinary runner cannot
      both happen: a button whose click handler was installed keeps a clone
      of the app alive, so taking the app out of its cell panics. The runner
      is reached exactly when no enabled button could be set up. */
  lemma InstalledButtonBlocksWinit(settings: Settings, s: SupportedSessions, doc: Document)
    requires !s.inline
    ensures var r := InitializeWebxr(settings, Success(s), doc);
      && (r.Success? <==> forall b: ButtonType :: ButtonEnabled(settings, s, b) ==> InitializeButton(doc, b, settings).Failure?)
      && (r.Success? ==> r.value[|r.value| - 1] == RunWinit)
      && (r.Failure? ==> r.error == Panicked)
  {
  }

  /** The `inline_supported` setting plays no part: whether an inline
      session starts depends on the platform alone. */
  lemma InlineSettingIgnored(settings: Settings, supported: Result<SupportedSessions, WebXrError>, doc: Document, flag: bool)
    ensures InitializeWebxr(settings, supported, doc) == InitializeWebxr(settings.(inlineSupported := flag), supported, doc)
  {
  }

  // ----- Buttons and the canvas -----

  datatype ElementKind = ButtonElement | CanvasElement | OtherElement

  /** An element the startup code creates: its kind, id, text and
      attributes. */
  datatype Element = Element(kind: ElementKind, id: string, text: string, attributes: seq<(string, string)>)

  /** The page as the startup code sees it: whether the window, document
      and body exist, the kind of element each selector finds among the
      elements the page had before start-up (a failing lookup counts as
      finding nothing), how `create_element` and `append_child` settle,
      whether `set_attribute` accepts its name, the elements start-up has
      appended to the body so far, and which of those each selector
      matches. */
  datatype Document = Document(
    hasWindow: bool,
    hasDocument: bool,
    hasBody: bool,
    found: map<string, ElementKind>,
    create: Result<(), JsValue>,
    append: Result<(), JsValue>,
    attributeAccepted: bool,
    body: seq<Element>,
    matches: set<(string, Element)>)

  /** Where an acquired element came from: an element the page already had,
      found by `selector`, or the `index`-th element start-up appended to
      the body, whether by this call or an earlier one. */
  datatype Acquired = Reused(selector: string) | Appended(index: nat)

  /** The first element from position `from` of the appended elements that
      the selector matches. */
  function FirstMatchFrom(doc: Document, sel: string, from: nat): (r: Option<nat>)
    requires from <= |doc.body|
    ensures r.Some? ==> from <= r.value < |doc.body| && (sel, doc.body[r.value]) in doc.matches
    ensures forall i :: from <= i < |doc.body| && (r.None? || i < r.value) ==> (sel, doc.body[i]) !in doc.matches
    decreases |doc.body| - from
  {
    if from == |doc.body| then None
    else if (sel, doc.body[from]) in doc.matches then Some(from)
    else FirstMatchFrom(doc, sel, from + 1)
  }

  /** `query_selector` on the live page. The elements start-up appends come
      last in document order, so an element the page already had wins;
      otherwise the first appended element the selector matches is found. */
  function QuerySelector(doc: Document, sel: string): (r: Option<(ElementKind, Acquired)>)
    ensures sel in doc.found ==> r == Some((doc.found[sel], Reused(sel)))
    ensures sel !in doc.found && r.Some? ==> r.value.1.Appended?
    ensures sel !in doc.found && r.Some? && r.value.1.Appended? ==>
      var i := r.value.1.index;
      && i < |doc.body| && r.value.0 == doc.body[i].kind
      && (sel, doc.body[i]) in doc.matches
      && forall j :: 0 <= j < i ==> (sel, doc.body[j]) !in doc.matches
    ensures sel !in doc.found && r.None? ==> forall j :: 0 <= j < |doc.body| ==> (sel, doc.body[j]) !in doc.matches
  {
    if sel in doc.found then Some((doc.found[sel], Reused(sel)))
    else match FirstMatchFrom(doc, sel, 0)
      case Some(i) => Some((doc.body[i].kind, Appended(i)))
      case None => None
  }

  /** Appending an element hides nothing: what a selector found before is
      still found, and a selector that found nothing now finds the new
      element exactly when it matches it. */
  lemma QuerySelectorAfterAppend(doc: Document, sel: string, e: Element)
    ensures var q, q' := QuerySelector(doc, sel), QuerySelector(doc.(body := doc.body + [e]), sel);
      && (q.Some? ==> q' == q)
      && (q.None? ==> q' == if (sel, e) in doc.matches then Some((e.kind, Appended(|doc.body|))) else None)
  {
    if sel !in doc.found {
      FirstMatchAfterAppend(doc, sel, e, 0);
    }
  }

  lemma {:induction false} FirstMatchAfterAppend(doc: Document, sel: string, e: Element, from: nat)
    requires from <= |doc.body|
    ensures var m, m' := FirstMatchFrom(doc, sel, from), FirstMatchFrom(doc.(body := doc.body + [e]), sel, from);
      && (m.Some? ==> m' == m)
      && (m.None? ==> m' == if (sel, e) in doc.matches then Some(|doc.body|) else None)
    decreases |doc.body| - from
  {
    var doc' := doc.(body := doc.body + [e]);
    if from < |doc.body| {
      assert doc'.body[from] == doc.body[from];
      FirstMatchAfterAppend(doc, sel, e, from + 1);
    } else {
      assert doc'.body[from] == e;
      assert from + 1 == |doc'.body|;
    }
  }

  /** Append a fresh element to the body: a missing body is `NoBody`, a
      rejected append `JsError`. */
  function AppendToBody(doc: Document, e: Element): (r: Result<(Document, Acquired), WebXrError>)
    ensures r.Success? <==> doc.hasBody && doc.append.Success?
    ensures r.Success? ==> r.value == (doc.(body := doc.body + [e]), Appended(|doc.body|))
    ensures r.Failure? ==> r.error == if !doc.hasBody then NoBody else JsError(doc.append.error)
  {
    if !doc.hasBody then Failure(NoBody)
    else if doc.append.Failure? then Failure(JsError(doc.append.error))
    else Success((doc.(body := doc.body + [e]), Appended(|doc.body|)))
  }

  function ButtonSelector(b: ButtonType, settings: Settings): string {
    if b == VRButton then settings.vrButton else settings.arButton
  }

  function ButtonText(b: ButtonType): string {
    if b == VRButton then "Enter VR" else "Enter AR"
  }

  function ButtonMode(b: ButtonType): XrMode {
    if b == VRButton then VR else AR
  }

  /** The button used and the mode its click handler starts a session in. */
  datatype ButtonResult = ButtonResult(doc: Document, button: Acquired, onClick: XrMode)

  /** `initialize_button`: reuse the element the selector finds, which must
      be a button; otherwise create an "Enter VR"/"Enter AR" button and
      append it to the body. Either way its click starts a session in the
      button's mode. */
  function InitializeButton(doc: Document, b: ButtonType, settings: Settings): (r: Result<ButtonResult, WebXrError>)
    ensures !doc.hasWindow ==> r == Failure(NoWindow)
    ensures doc.hasWindow && !doc.hasDocument ==> r == Failure(NoDocument)
    ensures doc.hasWindow && doc.hasDocument ==>
      var q := QuerySelector(doc, ButtonSelector(b, settings));
      if q.Some? then
        && (r.Success? <==> q.value.0 == ButtonElement)
        && (r.Success? ==> r.value == ButtonResult(doc, q.value.1, ButtonMode(b)))
        && (r.Failure? ==> r.error == ElementNotButtonElement)
      else
        && (r.Success? <==> doc.create.Success? && doc.hasBody && doc.append.Success?)
        && (r.Success? ==> r.value.doc.body == doc.body + [Element(ButtonElement, "", ButtonText(b), [])])
        && (r.Success? ==> r.value.button == Appended(|doc.body|) && r.value.onClick == ButtonMode(b))
        && (doc.create.Failure? ==> r == Failure(JsError(doc.create.error)))
    ensures r.Success? ==> r.value.onClick == (if b == VRButton then VR else AR)
  {
    if !doc.hasWindow then Failure(NoWindow)
    else if !doc.hasDocument then Failure(NoDocument)
    else
      var q := QuerySelector(doc, ButtonSelector(b, settings));
      var (doc', acquired) :-
        if q.Some? then
          if q.value.0 == ButtonElement then Success((doc, q.value.1)) else Failure(ElementNotButtonElement)
        else if doc.create.Failure? then Failure(JsError(doc.create.error))
        else AppendToBody(doc, Element(ButtonElement, "", ButtonText(b), []));
      Success(ButtonResult(doc', acquired, ButtonMode(b)))
  }

  /** `initialize_canvas`: reuse the element the selector finds, which must
      be a canvas; otherwise create a canvas whose id is the selector, set an
      attribute named and valued by the selector (a rejected name panics
      on `unwrap`), and append it to the body. */
  function InitializeCanvas(doc: Document, selector: string): (r: Result<(Document, Acquired), Abort>)
    ensures !doc.hasWindow ==> r == Failure(Failed(NoWindow))
    ensures doc.hasWindow && !doc.hasDocument ==> r == Failure(Failed(NoDocument))
    ensures doc.hasWindow && doc.hasDocument ==>
      var q := QuerySelector(doc, selector);
      if q.Some? then
        && (r.Success? <==> q.value.0 == CanvasElement)
        && (r.Success? ==> r.value == (doc, q.value.1))
        && (r.Failure? ==> r.error == Failed(ElementNotCanvasElement))
      else
        && (r.Success? <==> doc.create.Success? && doc.attributeAccepted && doc.hasBody && doc.append.Success?)
        && (r == Failure(Panicked) <==> doc.create.Success? && !doc.attributeAccepted)
        && (r.Success? ==>
              r.value == (doc.(body := doc.body + [Element(CanvasElement, selector, "", [(selector, selector)])]), Appended(|doc.body|)))
  {
    if !doc.hasWindow then Failure(Failed(NoWindow))
    else if !doc.hasDocument then Failure(Failed(NoDocument))
    else if QuerySelector(doc, selector).Some? then
      var q := QuerySelector(doc, selector).value;
      if q.0 == CanvasElement then Success((doc, q.1)) else Failure(Failed(ElementNotCanvasElement))
    else if doc.create.Failure? then Failure(Failed(JsError(doc.create.error)))
    else if !doc.attributeAccepted then Failure(Panicked)
    else
      match AppendToBody(doc, Element(CanvasElement, selector, "", [(selector, selector)]))
      case Success(v) => Success(v)
      case Failure(e) => Failure(Failed(e))
  }

  /** A canvas the selector finds is reused and leaves the page unchanged;
      otherwise one is created and appended exactly once, at the end of
      the body, carrying the selector as its id. */
  lemma CanvasAcquisition(doc: Document, selector: string)
    requires InitializeCanvas(doc, selector).Success?
    ensures var (doc', acquired) := InitializeCanvas(doc, selector).value;
      var q := QuerySelector(doc, selector);
      && (q.Some? ==> doc' == doc && acquired == q.value.1)
      && (q.None? ==> |doc'.body| == |doc.body| + 1 && doc'.body[..|doc.body|] == doc.body
                      && acquired == Appended(|doc.body|) && doc'.body[acquired.index].id == selector)
  {
  }

  // ----- Starting a session -----

  /** What `initialize_session` does that the page or the platform can
      observe, in order. */
  datatype SessionStep =
    | EndSession(frame: FrameToken)              // the previous frame's session is ended
    | RequestedSession(request: SessionRequest)
    | AcquiredCanvas(canvas: Acquired)
    | RequestedSpace(space: ReferenceSpaceType)
    | BoundRenderContext(result: Result<(), WebXrError>)  // only logged
    | RequestedFirstFrame
    | SentInitialized(mode: XrMode, origin: XrOrigin)   // `WebXrSessionInitialized`
    | FinishedPlugins                            // `app.finish()` and `app.cleanup()`

  /** How the platform answers the session's remaining requests: the
      session request per mode, the reference-space request, the
      render-context setup, and whether the app's plugins are ready. */
  datatype SessionOracle = SessionOracle(
    session: SessionMode -> Result<SessionToken, JsValue>,
    space: Result<(), JsValue>,
    renderContext: Result<(), WebXrError>,
    pluginsReady: bool)

  /** The app, the page and the steps taken; `stopped` is how the start-up
      stopped early, if it did. */
  datatype SessionStart = SessionStart(app: AppState, doc: Document, steps: seq<SessionStep>, stopped: Option<Abort>)

  /** `request_first_web_xr_frame`'s visible steps. */
  function FirstFrameSteps(mode: XrMode, origin: XrOrigin, ready: bool): seq<SessionStep> {
    [RequestedFirstFrame, SentInitialized(mode, origin)] + if ready then [FinishedPlugins] else []
  }

  /** `suffix` is how `steps` ends. */
  predicate EndsWith(steps: seq<SessionStep>, suffix: seq<SessionStep>) {
    |suffix| <= |steps| && steps[|steps| - |suffix|..] == suffix
  }

  /** `initialize_session`'s first step: take the frame resource out of the
      app and, if there was one, end its session. */
  function Teardown(app: AppState): (r: (AppState, seq<SessionStep>))
    ensures r.0 == app.(frame := None)
    ensures app.frame.Some? ==> r.1 == [EndSession(app.frame.value)]
    ensures app.frame.None? ==> r.1 == []
  {
    if app.frame.Some? then (app.(frame := None), [EndSession(app.frame.value)]) else (app, [])
  }

  /** The rest of `initialize_session`: request the session, acquire the
      canvas, request the reference space, set up the render context (its
      result is only logged), then start the frame loop. A failure of the
      session, canvas or reference-space step stops the start-up there. */
  function Connect(mode: XrMode, settings: Settings, app: AppState, doc: Document, o: SessionOracle): (r: SessionStart)
    ensures r.app.frame == app.frame && r.app.seen == app.seen
    ensures forall k :: 0 <= k < |r.steps| ==> !r.steps[k].EndSession?
    ensures r.stopped.None? <==>
      && doc.hasWindow && o.session(SessionModeFor(mode)).Success?
      && InitializeCanvas(doc, settings.canvas).Success? && o.space.Success?
    ensures r.stopped.None? ==>
      && RequestedSpace(ReferenceSpaceFor(mode, settings.origin)) in r.steps
      && r.app.requests == app.requests + 1
      && EndsWith(r.steps, FirstFrameSteps(mode, settings.origin, o.pluginsReady))
    ensures r.stopped.Some? ==> r.app.requests == app.requests && RequestedFirstFrame !in r.steps
  {
    var (request, session) := RequestSession(doc.hasWindow, mode, o.session);
    var steps1 := if request.Some? then [RequestedSession(request.value)] else [];
    if session.Failure? then SessionStart(app, doc, steps1, Some(Failed(session.error)))
    else
      match InitializeCanvas(doc, settings.canvas)
      case Failure(abort) => SessionStart(app, doc, steps1, Some(abort))
      case Success((doc2, canvas)) =>
        var steps2 := steps1 + [AcquiredCanvas(canvas), RequestedSpace(ReferenceSpaceFor(mode, settings.origin))];
        if o.space.Failure? then SessionStart(app, doc2, steps2, Some(Failed(JsError(o.space.error))))
        else
          var first := FirstFrameSteps(mode, settings.origin, o.pluginsReady);
          var steps3 := steps2 + [BoundRenderContext(o.renderContext)] + first;
          assert steps3[|steps3| - |first|..] == first;
          SessionStart(app.(requests := app.requests + 1), doc2, steps3, None)
  }

  /** `initialize_session`: the teardown, then the connection. The frame
      resource is gone afterwards whatever happens, and the previous
      session, if any, is ended before anything else. */
  function InitializeSession(mode: XrMode, settings: Settings, app: AppState, doc: Document, o: SessionOracle): (r: SessionStart)
    ensures r.app.frame.None? && r.app.seen == app.seen
    ensures app.frame.Some? ==> |r.steps| >= 1 && r.steps[0] == EndSession(app.frame.value)
    ensures forall k :: 0 <= k < |r.steps| && r.steps[k].EndSession? ==> k == 0 && app.frame.Some?
    ensures r.stopped.None? <==>
      && doc.hasWindow && o.session(SessionModeFor(mode)).Success?
      && InitializeCanvas(doc, settings.canvas).Success? && o.space.Success?
    ensures r.stopped.None? ==> r.app.requests == app.requests + 1
    ensures r.stopped.Some? ==> r.app.requests == app.requests
  {
    var t := Teardown(app);
    var c := Connect(mode, settings, t.0, doc, o);
    PrependTeardown(t.1, c.steps);
    c.(steps := t.1 + c.steps)
  }

  /** Putting at most one teardown step in front of steps that end no
      session leaves that step as the only one that ends a session. */
  lemma PrependTeardown(ended: seq<SessionStep>, steps: seq<SessionStep>)
    requires |ended| <= 1
    requires forall k :: 0 <= k < |steps| ==> !steps[k].EndSession?
    ensures forall k :: 0 <= k < |ended + steps| && (ended + steps)[k].EndSession? ==> k == 0
  {
    assert forall k :: |ended| <= k < |ended + steps| ==> (ended + steps)[k] == steps[k - |ended|];
  }

  /** A failing render-context setup changes nothing but the logged result:
      the session still starts and requests its first frame. */
  lemma RenderContextErrorIgnored(mode: XrMode, settings: Settings, app: AppState, doc: Document,
                                  o: SessionOracle, other: Result<(), WebXrError>)
    ensures var r, r' := InitializeSession(mode, settings, app, doc, o),
                         InitializeSession(mode, settings, app, doc, o.(renderContext := other));
      && r.stopped == r'.stopped && r.app == r'.app && r.doc == r'.doc && |r.steps| == |r'.steps|
      && forall k :: 0 <= k < |r.steps| && !r.steps[k].BoundRenderContext? ==> r.steps[k] == r'.steps[k]
  {
    var (app1, ended) := Teardown(app);
    var c, c' := Connect(mode, settings, app1, doc, o), Connect(mode, settings, app1, doc, o.(renderContext := other));
    ConnectIgnoresRenderContext(mode, settings, app1, doc, o, other);
    var r, r' := InitializeSession(mode, settings, app, doc, o),
                 InitializeSession(mode, settings, app, doc, o.(renderContext := other));
    assert r.steps == ended + c.steps && r'.steps == ended + c'.steps;
    forall k | 0 <= k < |r.steps| && !r.steps[k].BoundRenderContext? ensures r.steps[k] == r'.steps[k] {
      if k >= |ended| {
        assert r.steps[k] == c.steps[k - |ended|] && r'.steps[k] == c'.steps[k - |ended|];
      }
    }
  }

  /** The connection step by step: changing only the render-context result
      changes only the step that logs it. */
  lemma ConnectIgnoresRenderContext(mode: XrMode, settings: Settings, app: AppState, doc: Document,
                                    o: SessionOracle, other: Result<(), WebXrError>)
    ensures var c, c' := Connect(mode, settings, app, doc, o), Connect(mode, settings, app, doc, o.(renderContext := other));
      && c.stopped == c'.stopped && c.app == c'.app && c.doc == c'.doc && |c.steps| == |c'.steps|
      && forall k :: 0 <= k < |c.steps| && !c.steps[k].BoundRenderContext? ==> c.steps[k] == c'.steps[k]
  {
    var o' := o.(renderContext := other);
    var c, c' := Connect(mode, settings, app, doc, o), Connect(mode, settings, app, doc, o');
    var (request, session) := RequestSession(doc.hasWindow, mode, o.session);
    var steps1 := if request.Some? then [RequestedSession(request.value)] else [];
    if session.Success? && InitializeCanvas(doc, settings.canvas).Success? && o.space.Success? {
      var (doc2, canvas) := InitializeCanvas(doc, settings.canvas).value;
      var steps2 := steps1 + [AcquiredCanvas(canvas), RequestedSpace(ReferenceSpaceFor(mode, settings.origin))];
      var first := FirstFrameSteps(mode, settings.origin, o.pluginsReady);
      assert c.steps == steps2 + [BoundRenderContext(o.renderContext)] + first;
      assert c'.steps == steps2 + [BoundRenderContext(other)] + first;
      forall k | 0 <= k < |c.steps| && !c.steps[k].BoundRenderContext? ensures c.steps[k] == c'.steps[k] {
        if k < |steps2| {
          assert c.steps[k] == steps2[k] == c'.steps[k];
        } else {
          assert k > |steps2|;
          assert c.steps[k] == first[k - |steps2| - 1] == c'.steps[k];
        }
      }
    }
  }

  // ----- The runner's frame loop -----

  /** The callback `request_first_web_xr_frame` installs: request the next
      frame first, then insert this frame and run one update. The frame is
      not removed afterwards. */
  function InitFrameCallback(f: FrameToken): seq<FrameAction> {
    [RequestNextFrame, InsertFrame(f), RunUpdate]
  }

  /** One callback: the update sees this frame, the next frame is requested
      before the update runs, and the frame stays in the app. */
  lemma InitCallbackEffect(s: AppState, f: FrameToken)
    ensures Run(s, InitFrameCallback(f)) == AppState(Some(f), s.seen + [Some(f)], s.requests + 1, s.sessionFrame)
    ensures IndexOf(InitFrameCallback(f), RequestNextFrame) < IndexOf(InitFrameCallback(f), RunUpdate) < 3
  {
    var a := InitFrameCallback(f);
    var s1 := Step(s, RequestNextFrame);
    var s2 := Step(s1, InsertFrame(f));
    var s3 := Step(s2, RunUpdate);
    assert a[1..] == [InsertFrame(f), RunUpdate] && a[1..][1..] == [RunUpdate] && a[1..][1..][1..] == [];
    assert Run(s, a) == Run(s1, a[1..]) == Run(s2, a[1..][1..]) == Run(s3, []);
    assert IndexOf(a, RunUpdate) == 1 + IndexOf(a[1..], RunUpdate) == 2 + IndexOf(a[1..][1..], RunUpdate) == 2;
  }

  /** After any run of callbacks, every update saw its own frame, one frame
      was requested per callback, and the last frame is still in the app. */
  lemma {:induction false} InitCallbacksRun(s: AppState, frames: seq<FrameToken>)
    requires |frames| >= 1
    ensures Run(s, Callbacks(InitFrameCallback, frames)) == AppState(Some(frames[|frames| - 1]), s.seen + Seen(frames), s.requests + |frames|, s.sessionFrame)
    decreases |frames|
  {
    var n := |frames|;
    var init := frames[..n - 1];
    if n == 1 {
      assert Callbacks(InitFrameCallback, frames) == [] + InitFrameCallback(frames[0]);
      assert [] + InitFrameCallback(frames[0]) == InitFrameCallback(frames[0]);
      InitCallbackEffect(s, frames[0]);
      assert Seen(frames) == [] + [Some(frames[0])];
    } else {
      InitCallbacksRun(s, init);
      RunConcat(s, Callbacks(InitFrameCallback, init), InitFrameCallback(frames[n - 1]));
      InitCallbackEffect(Run(s, Callbacks(InitFrameCallback, init)), frames[n - 1]);
      assert s.seen + Seen(init) + [Some(frames[n - 1])] == s.seen + Seen(frames);
    }
  }

  /** Because the runner's callback leaves the frame in the app, starting
      another session after any frames have run ends the session of the
      last frame before anything else. */
  lemma RestartEndsLastSession(mode: XrMode, settings: Settings, s: AppState, frames: seq<FrameToken>,
                               doc: Document, o: SessionOracle)
    requires |frames| >= 1
    ensures var r := InitializeSession(mode, settings, Run(s, Callbacks(InitFrameCallback, frames)), doc, o);
      |r.steps| >= 1 && r.steps[0] == EndSession(frames[|frames| - 1])
  {
    InitCallbacksRun(s, frames);
  }
}
