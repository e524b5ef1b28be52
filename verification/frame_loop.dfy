/** The frame loop both startup paths drive: a callback the platform invokes
    once per frame, which moves the frame into the app, runs one update and
    asks the platform for the next frame. The two paths do these in
    different orders, so each is a sequence of actions run against the part
    of the app state they touch. */
module FrameLoop {
  import opened Wrappers

  /** A granted session; only its identity matters. */
  type SessionToken = nat

  /** The frame a callback receives; only its identity matters. */
  type FrameToken = nat

  datatype FrameAction =
    | RequestNextFrame                   // `session.request_animation_frame(callback)`
    | InsertFrame(frame: FrameToken)     // `insert_non_send_resource(WebXrFrame { .. })`
    | RunUpdate                          // `app.update()`
    | RemoveFrame                        // `remove_non_send_resource::<WebXrFrame>()`
    | InsertSessionFrame(frame: FrameToken)  // `insert_non_send_resource(XrFrame { .. })`
    | RemoveSessionFrame                 // `remove_non_send_resource::<XrFrame>()`

  /** The app state a frame loop touches:
      - `frame`: the `WebXrFrame` resource, the one the tracking systems read;
      - `seen`: the `WebXrFrame` resource each update saw, in turn;
      - `requests`: how many frames have been requested;
      - `sessionFrame`: the polling path's own `XrFrame` resource, a
        different type that no system reads. */
  datatype AppState = AppState(frame: Option<FrameToken>, seen: seq<Option<FrameToken>>, requests: nat,
                               sessionFrame: Option<FrameToken>)

  function Step(s: AppState, a: FrameAction): (t: AppState)
    ensures a.RunUpdate? <==> t.seen == s.seen + [s.frame]
    ensures !a.RunUpdate? ==> t.seen == s.seen
    ensures t.requests == s.requests + (if a.RequestNextFrame? then 1 else 0)
    ensures !a.InsertFrame? && !a.RemoveFrame? ==> t.frame == s.frame
  {
    match a
    case RequestNextFrame => s.(requests := s.requests + 1)
    case InsertFrame(f) => s.(frame := Some(f))
    case RunUpdate => s.(seen := s.seen + [s.frame])
    case RemoveFrame => s.(frame := None)
    case InsertSessionFrame(f) => s.(sessionFrame := Some(f))
    case RemoveSessionFrame => s.(sessionFrame := None)
  }

  /** The actions in order. */
  function Run(s: AppState, actions: seq<FrameAction>): AppState
    decreases |actions|
  {
    if actions == [] then s else Run(Step(s, actions[0]), actions[1..])
  }

  /** Running two action lists back to back is running their concatenation. */
  lemma {:induction false} RunConcat(s: AppState, a: seq<FrameAction>, b: seq<FrameAction>)
    ensures Run(s, a + b) == Run(Run(s, a), b)
    decreases |a|
  {
    if a != [] {
      assert (a + b)[0] == a[0] && (a + b)[1..] == a[1..] + b;
      RunConcat(Step(s, a[0]), a[1..], b);
    } else {
      assert a + b == b;
    }
  }

  /** The first position of `a` in `actions`, or `|actions|` if absent. */
  function IndexOf(actions: seq<FrameAction>, a: FrameAction): (k: nat)
    ensures k <= |actions|
    ensures k < |actions| ==> actions[k] == a
    ensures forall j :: 0 <= j < k ==> actions[j] != a
  {
    if actions == [] then 0
    else if actions[0] == a then 0
    else 1 + IndexOf(actions[1..], a)
  }

  /** The callback run for each of the frames in turn. */
  function Callbacks(callback: FrameToken -> seq<FrameAction>, frames: seq<FrameToken>): seq<FrameAction>
    decreases |frames|
  {
    if frames == [] then [] else Callbacks(callback, frames[..|frames| - 1]) + callback(frames[|frames| - 1])
  }

  /** What `n` updates see when the frame resource stays `x` throughout. */
  function Repeat(x: Option<FrameToken>, n: nat): (r: seq<Option<FrameToken>>)
    ensures |r| == n && forall k :: 0 <= k < n ==> r[k] == x
  {
    if n == 0 then [] else Repeat(x, n - 1) + [x]
  }

  /** What the updates see when each sees its own frame. */
  function Seen(frames: seq<FrameToken>): (r: seq<Option<FrameToken>>)
    ensures |r| == |frames| && forall k :: 0 <= k < |frames| ==> r[k] == Some(frames[k])
  {
    if frames == [] then [] else Seen(frames[..|frames| - 1]) + [Some(frames[|frames| - 1])]
  }
}
