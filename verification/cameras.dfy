/** The camera synchroniser (`update_xr_cameras` in `src/tracked/camera.rs`):
    one camera entity per view of the viewer pose, matched by eye and by rank
    (the n-th left view drives the n-th left-eye camera the query visits),
    spawned when missing and disabled when surplus. */
module Cameras {
  import opened Wrappers
  import opened Platform
  import opened Skeleton
  import opened Projection
  import opened Ecs

  /** The manual texture-view handle every XR camera renders into. */
  const FRAMEBUFFER_HANDLE: nat := 5724242

  /** A registered manual texture view: the framebuffer's size. */
  datatype TextureView = TextureView(width: nat, height: nat)

  datatype CameraResult = CameraResult(sync: Sync, textures: map<nat, TextureView>)

  /** The camera query a view's eye selects; the hidden variant selects none. */
  function ViewRole(eye: XrEye): (r: Option<Role>)
    ensures r.None? <==> eye == EyeNonexhaustive
    ensures r.Some? ==> r.value.EyeRole? || r.value.WindowRole?
  {
    match eye
    case EyeLeft => Some(EyeRole(Left))
    case EyeRight => Some(EyeRole(Right))
    case EyeNone => Some(WindowRole)
    case EyeNonexhaustive => None
  }

  /** Different eyes select different queries. */
  lemma ViewRoleInjective(a: XrEye, b: XrEye)
    requires ViewRole(a).Some?
    ensures ViewRole(a) == ViewRole(b) ==> a == b
  {
  }

  /** Spawned right-eye and window cameras carry `FlipView::Y`; the left
      eye's marker is commented out in the source, so left cameras do not. */
  function FlipsY(eye: XrEye): bool {
    eye == EyeRight || eye == EyeNone
  }

  /** The camera viewport a platform viewport becomes: each `i32` attribute
      cast `as u32`. */
  function ToViewport(v: XrViewport): (r: Viewport)
    ensures r.x < U32_LIMIT && r.y < U32_LIMIT && r.width < U32_LIMIT && r.height < U32_LIMIT
    ensures v.width >= 0 && v.height >= 0 ==> r.width == v.width && r.height == v.height
  {
    Viewport(AsU32(v.x), AsU32(v.y), AsU32(v.width), AsU32(v.height))
  }

  /** How many of the first `k` views have eye `eye`: the value of that
      eye's counter (`eye_left_index`, ...) when view `k` is reached. */
  function Rank(views: seq<XrView>, k: nat, eye: XrEye): (n: nat)
    requires k <= |views|
    ensures n <= k
  {
    if k == 0 then 0 else Rank(views, k - 1, eye) + (if views[k - 1].eye == eye then 1 else 0)
  }

  lemma RankStep(views: seq<XrView>, k: nat, eye: XrEye)
    requires 0 < k <= |views|
    ensures Rank(views, k, eye) == Rank(views, k - 1, eye) + (if views[k - 1].eye == eye then 1 else 0)
  {
  }

  lemma {:induction false} RankMonotone(views: seq<XrView>, a: nat, b: nat, eye: XrEye)
    requires a <= b <= |views|
    ensures Rank(views, a, eye) <= Rank(views, b, eye)
    decreases b - a
  {
    if a < b {
      RankMonotone(views, a, b - 1, eye);
    }
  }

  /** A matched camera after the view has been written into it: the view's
      pose, the cast viewport, `is_active` and `XrActive` set, and the
      projection rebuilt from the view's matrix; target, order, flip and
      index are kept. */
  function Refreshed(e: Entity, view: XrView): (r: Entity)
    requires e.camera.Some?
    ensures r.role == e.role && r.parent == e.parent && r.tracked == e.tracked
    ensures r.active && r.pose == view.pose
    ensures r.camera.Some? && r.camera.value.isActive
    ensures r.camera.value.viewport == ToViewport(view.viewport)
    ensures r.camera.value.projection == Projection.FromPlatform(view.projection)
    ensures var c := e.camera.value; var c' := r.camera.value;
      c'.target == c.target && c'.order == c.order && c'.flipY == c.flipY && c'.index == c.index
  {
    var c := e.camera.value;
    e.(pose := view.pose, active := true,
       camera := Some(c.(isActive := true, viewport := ToViewport(view.viewport),
                         projection := UpdateMatrix(c.projection, view.projection))))
  }

  /** The camera spawned for view `i`, the `n`-th view of its eye. */
  function NewCamera(view: XrView, i: nat, n: nat): (e: Entity)
    requires ViewRole(view.eye).Some?
    ensures Matches(e, ViewRole(view.eye).value)
    ensures e.active && e.pose == view.pose && e.parent.None?
    ensures var c := e.camera.value;
      && c.isActive && c.viewport == ToViewport(view.viewport)
      && c.target == FRAMEBUFFER_HANDLE && c.order == i && c.index == n
      && c.flipY == FlipsY(view.eye)
      && c.projection == Projection.FromPlatform(view.projection)
  {
    Entity(ViewRole(view.eye).value, true, view.pose, None,
           Some(CameraState(true, ToViewport(view.viewport), FRAMEBUFFER_HANDLE, i,
                            Projection.FromPlatform(view.projection), FlipsY(view.eye), n)),
           None)
  }

  /** The three camera queries, evaluated once against the store the call
      starts from (in-place writes never change which entities they visit). */
  datatype Queries = Queries(left: seq<EntityId>, right: seq<EntityId>, window: seq<EntityId>)

  function QueriesOf(w: World): Queries
    requires WellFormed(w)
  {
    Queries(Query(w, EyeRole(Left)), Query(w, EyeRole(Right)), Query(w, WindowRole))
  }

  /** The query a view's eye walks. */
  function Ids(qs: Queries, eye: XrEye): seq<EntityId>
    requires eye != EyeNonexhaustive
  {
    match eye
    case EyeLeft => qs.left
    case EyeRight => qs.right
    case EyeNone => qs.window
  }

  /** Ascending order stated on neighbours; the recursion keeps the
      verifier from weighing every pair of positions at once. */
  predicate Ascending(q: seq<EntityId>) {
    |q| <= 1 || (q[0] < q[1] && Ascending(q[1..]))
  }

  lemma {:induction false} IncreasingAscending(q: seq<EntityId>)
    requires Increasing(q)
    ensures Ascending(q)
  {
    if |q| > 1 {
      assert Increasing(q[1..]) by {
        forall a, b | 0 <= a < b < |q[1..]| ensures q[1..][a] < q[1..][b] {
          assert q[1..][a] == q[a + 1] && q[1..][b] == q[b + 1];
        }
      }
      IncreasingAscending(q[1..]);
    }
  }

  lemma {:induction false} AscendingApart(q: seq<EntityId>, a: nat, b: nat)
    requires Ascending(q) && a < b < |q|
    ensures q[a] < q[b]
  {
    if a > 0 {
      AscendingApart(q[1..], a - 1, b - 1);
    } else if b > 1 {
      AscendingApart(q[1..], 0, b - 1);
    }
  }

  /** `ids` could be the answer of the query for `role` on `w0`: ascending
      ids of stored entities that match the role. */
  predicate Lists(w0: World, ids: seq<EntityId>, role: Role) {
    Ascending(ids) && forall id :: id in ids ==> id in w0.entities && Matches(w0.entities[id], role)
  }

  predicate Answers(w0: World, qs: Queries) {
    && Lists(w0, qs.left, EyeRole(Left))
    && Lists(w0, qs.right, EyeRole(Right))
    && Lists(w0, qs.window, WindowRole)
  }

  lemma QueriesAnswer(w: World)
    requires WellFormed(w)
    ensures Answers(w, QueriesOf(w))
  {
    IncreasingAscending(Query(w, EyeRole(Left)));
    IncreasingAscending(Query(w, EyeRole(Right)));
    IncreasingAscending(Query(w, WindowRole));
  }

  lemma AnswersFor(w0: World, qs: Queries, eye: XrEye)
    requires Answers(w0, qs) && eye != EyeNonexhaustive
    ensures Lists(w0, Ids(qs, eye), ViewRole(eye).value)
  {
  }

  /** One view placed against its eye's query, the eye's counter being `n`:
      the `n`-th camera the query visits is written, or, once the query has
      run out, a camera is spawned and parented to the origin. */
  function Place(w0: World, qs: Queries, s: Sync, origin: EntityId, view: XrView, i: nat, n: nat): (r: Sync)
    requires Answers(w0, qs) && Inv(w0, s) && view.eye != EyeNonexhaustive
    ensures Inv(w0, r)
    ensures s.cmds <= r.cmds
  {
    AnswersFor(w0, qs, view.eye);
    var ids := Ids(qs, view.eye);
    if n < |ids| then
      assert ids[n] in ids;
      Sync(SetEntity(s.world, ids[n], Refreshed(s.world.entities[ids[n]], view)), s.cmds)
    else
      var (w', id) := Reserve(s.world);
      Sync(w', s.cmds + [Spawn(id, NewCamera(view, i, n)), AddChild(origin, id)])
  }

  /** The synchroniser's state after the first `k` views. The source keeps
      one counter per eye (`eye_left_index`, `eye_right_index`,
      `window_index`), bumped after each view of that eye whether it matched
      or spawned, so when view `k` is reached its eye's counter is
      `Rank(views, k, eye)`; the hidden eye variant is skipped. */
  function Prefix(w0: World, qs: Queries, origin: EntityId, views: seq<XrView>, k: nat): (r: Sync)
    requires WellFormed(w0) && Answers(w0, qs) && k <= |views|
    ensures Inv(w0, r)
  {
    if k == 0 then Sync(w0, [])
    else
      var prev := Prefix(w0, qs, origin, views, k - 1);
      var e := views[k - 1].eye;
      if e == EyeNonexhaustive then prev
      else Place(w0, qs, prev, origin, views[k - 1], k - 1, Rank(views, k - 1, e))
  }

  lemma IdsOfQueries(w: World, eye: XrEye)
    requires WellFormed(w) && eye != EyeNonexhaustive
    ensures Ids(QueriesOf(w), eye) == Query(w, ViewRole(eye).value)
  {
  }

  /** Two positions of the camera queries name the same entity only when
      they are the same position of the same query. */
  lemma Distinct(w0: World, qs: Queries, a: XrEye, m: nat, b: XrEye, n: nat)
    requires Answers(w0, qs) && a != EyeNonexhaustive && b != EyeNonexhaustive
    requires m < |Ids(qs, a)| && n < |Ids(qs, b)|
    requires a != b || m != n
    ensures Ids(qs, a)[m] != Ids(qs, b)[n]
  {
    AnswersFor(w0, qs, a);
    AnswersFor(w0, qs, b);
    if a != b {
      assert Ids(qs, a)[m] in Ids(qs, a);
      assert Ids(qs, b)[n] in Ids(qs, b);
      ViewRoleInjective(a, b);
    } else if m < n {
      AscendingApart(Ids(qs, a), m, n);
    } else {
      AscendingApart(Ids(qs, a), n, m);
    }
  }

  /** Placing a view writes only the camera its counter selects. */
  lemma PlaceFrame(w0: World, qs: Queries, s: Sync, origin: EntityId, view: XrView, i: nat, n: nat, id: EntityId)
    requires Answers(w0, qs) && Inv(w0, s) && view.eye != EyeNonexhaustive && id in w0.entities
    requires n >= |Ids(qs, view.eye)| || Ids(qs, view.eye)[n] != id
    ensures Place(w0, qs, s, origin, view, i, n).world.entities[id] == s.world.entities[id]
  {
  }

  /** Placing a matched view writes it into the selected camera and queues
      nothing. */
  lemma PlaceWrites(w0: World, qs: Queries, s: Sync, origin: EntityId, view: XrView, i: nat, n: nat)
    requires Answers(w0, qs) && Inv(w0, s) && view.eye != EyeNonexhaustive && n < |Ids(qs, view.eye)|
    ensures var id := Ids(qs, view.eye)[n];
      var r := Place(w0, qs, s, origin, view, i, n);
      && id in w0.entities
      && r.world.entities[id] == Refreshed(s.world.entities[id], view)
      && r.cmds == s.cmds && r.world.next == s.world.next
  {
    AnswersFor(w0, qs, view.eye);
    assert Ids(qs, view.eye)[n] in Ids(qs, view.eye);
  }

  /** Placing an unmatched view reserves the next id, queues its spawn and
      then its attachment to the origin. */
  lemma PlaceSpawns(w0: World, qs: Queries, s: Sync, origin: EntityId, view: XrView, i: nat, n: nat)
    requires Answers(w0, qs) && Inv(w0, s) && view.eye != EyeNonexhaustive && n >= |Ids(qs, view.eye)|
    ensures var r := Place(w0, qs, s, origin, view, i, n);
      && r.cmds == s.cmds + [Spawn(s.world.next, NewCamera(view, i, n)), AddChild(origin, s.world.next)]
      && r.world.next == s.world.next + 1
  {
  }

  /** The step for view `k - 1` is that view placed with its eye's rank, or
      nothing for the hidden eye variant. */
  lemma StepIsPlace(w0: World, qs: Queries, origin: EntityId, views: seq<XrView>, k: nat)
    requires WellFormed(w0) && Answers(w0, qs) && 0 < k <= |views|
    ensures var prev := Prefix(w0, qs, origin, views, k - 1);
      views[k - 1].eye == EyeNonexhaustive ==> Prefix(w0, qs, origin, views, k) == prev
    ensures var prev := Prefix(w0, qs, origin, views, k - 1);
      var e := views[k - 1].eye;
      e != EyeNonexhaustive ==>
        Prefix(w0, qs, origin, views, k) == Place(w0, qs, prev, origin, views[k - 1], k - 1, Rank(views, k - 1, e))
  {
  }

  /** Whether view `i` claims camera `id`: its eye's query, read at that
      eye's counter, yields `id`. */
  predicate Selects(qs: Queries, views: seq<XrView>, i: nat, id: EntityId)
    requires i < |views|
  {
    var e := views[i].eye;
    e != EyeNonexhaustive && Rank(views, i, e) < |Ids(qs, e)| && Ids(qs, e)[Rank(views, i, e)] == id
  }

  /** A view claims the `n`-th camera of a query exactly when it is the
      `n`-th view of that query's eye. */
  lemma SelectsIff(w0: World, qs: Queries, views: seq<XrView>, i: nat, eye: XrEye, n: nat)
    requires Answers(w0, qs) && i < |views| && eye != EyeNonexhaustive && n < |Ids(qs, eye)|
    ensures Selects(qs, views, i, Ids(qs, eye)[n]) <==> views[i].eye == eye && Rank(views, i, eye) == n
  {
    var e := views[i].eye;
    if e != EyeNonexhaustive && Rank(views, i, e) < |Ids(qs, e)| && (e != eye || Rank(views, i, e) != n) {
      Distinct(w0, qs, e, Rank(views, i, e), eye, n);
    }
  }

  /** A view of an eye comes strictly before the next rank of that eye. */
  lemma RankStrict(views: seq<XrView>, i: nat, k: nat, eye: XrEye)
    requires i < k <= |views| && views[i].eye == eye
    ensures Rank(views, i, eye) < Rank(views, k, eye)
  {
    RankStep(views, i + 1, eye);
    RankMonotone(views, i + 1, k, eye);
  }

  /** No view after the `j`-th claims the camera the `j`-th view claimed. */
  lemma NotReselected(w0: World, qs: Queries, views: seq<XrView>, j: nat, i: nat)
    requires Answers(w0, qs) && j < i < |views|
    requires views[j].eye != EyeNonexhaustive && Rank(views, j, views[j].eye) < |Ids(qs, views[j].eye)|
    ensures !Selects(qs, views, i, Ids(qs, views[j].eye)[Rank(views, j, views[j].eye)])
  {
    var eye := views[j].eye;
    RankStrict(views, j, i, eye);
    SelectsIff(w0, qs, views, i, eye, Rank(views, j, eye));
  }

  /** While fewer than `n + 1` views of an eye have been seen, none has
      claimed the eye's `n`-th camera. */
  lemma NotYetSelected(w0: World, qs: Queries, views: seq<XrView>, i: nat, eye: XrEye, n: nat)
    requires Answers(w0, qs) && i < |views| && eye != EyeNonexhaustive
    requires Rank(views, i + 1, eye) <= n < |Ids(qs, eye)|
    ensures !Selects(qs, views, i, Ids(qs, eye)[n])
  {
    RankStep(views, i + 1, eye);
    SelectsIff(w0, qs, views, i, eye, n);
  }

  /** Only cameras are ever claimed. */
  lemma SelectsCamera(w0: World, qs: Queries, views: seq<XrView>, i: nat, id: EntityId)
    requires Answers(w0, qs) && i < |views| && Selects(qs, views, i, id)
    ensures id in w0.entities && IsCamera(w0.entities[id])
  {
    var e := views[i].eye;
    AnswersFor(w0, qs, e);
    assert Ids(qs, e)[Rank(views, i, e)] in Ids(qs, e);
  }

  lemma OnlyCamerasSelected(w0: World, qs: Queries, views: seq<XrView>, i: nat, id: EntityId)
    requires Answers(w0, qs) && i < |views| && id in w0.entities && !IsCamera(w0.entities[id])
    ensures !Selects(qs, views, i, id)
  {
    if Selects(qs, views, i, id) {
      SelectsCamera(w0, qs, views, i, id);
    }
  }

  /** The step for view `k - 1` leaves `id` alone unless that view claims it. */
  lemma StepFrame(w0: World, qs: Queries, origin: EntityId, views: seq<XrView>, k: nat, id: EntityId)
    requires WellFormed(w0) && Answers(w0, qs) && 0 < k <= |views| && id in w0.entities
    requires !Selects(qs, views, k - 1, id)
    ensures Prefix(w0, qs, origin, views, k).world.entities[id]
            == Prefix(w0, qs, origin, views, k - 1).world.entities[id]
  {
    StepIsPlace(w0, qs, origin, views, k);
    var e := views[k - 1].eye;
    if e != EyeNonexhaustive {
      var prev := Prefix(w0, qs, origin, views, k - 1);
      PlaceFrame(w0, qs, prev, origin, views[k - 1], k - 1, Rank(views, k - 1, e), id);
    }
  }

  /** The step for view `k - 1` writes that view into the camera it claims. */
  lemma StepWrites(w0: World, qs: Queries, origin: EntityId, views: seq<XrView>, k: nat, id: EntityId)
    requires WellFormed(w0) && Answers(w0, qs) && 0 < k <= |views|
    requires Selects(qs, views, k - 1, id)
    ensures id in w0.entities && Prefix(w0, qs, origin, views, k - 1).world.entities[id].camera.Some?
    ensures Prefix(w0, qs, origin, views, k).world.entities[id]
            == Refreshed(Prefix(w0, qs, origin, views, k - 1).world.entities[id], views[k - 1])
  {
    SelectsCamera(w0, qs, views, k - 1, id);
    StepIsPlace(w0, qs, origin, views, k);
    var prev := Prefix(w0, qs, origin, views, k - 1);
    PlaceWrites(w0, qs, prev, origin, views[k - 1], k - 1, Rank(views, k - 1, views[k - 1].eye));
  }

  /** What the view loop leaves in entity `id` after the first `k` views:
      each view that claims it writes itself in, every other view passes it
      by. */
  function Trace(w0: World, qs: Queries, views: seq<XrView>, k: nat, id: EntityId): (e: Entity)
    requires Answers(w0, qs) && k <= |views| && id in w0.entities
    ensures e.role == w0.entities[id].role && e.camera.Some? == w0.entities[id].camera.Some?
  {
    if k == 0 then w0.entities[id]
    else
      var e := Trace(w0, qs, views, k - 1, id);
      if Selects(qs, views, k - 1, id) then
        SelectsCamera(w0, qs, views, k - 1, id);
        Refreshed(e, views[k - 1])
      else e
  }

  /** One step of the loop keeps an entity equal to its trace. */
  lemma StepIsTrace(w0: World, qs: Queries, origin: EntityId, views: seq<XrView>, k: nat, id: EntityId)
    requires WellFormed(w0) && Answers(w0, qs) && 0 < k <= |views| && id in w0.entities
    requires Prefix(w0, qs, origin, views, k - 1).world.entities[id] == Trace(w0, qs, views, k - 1, id)
    ensures Prefix(w0, qs, origin, views, k).world.entities[id] == Trace(w0, qs, views, k, id)
  {
    if Selects(qs, views, k - 1, id) {
      StepWrites(w0, qs, origin, views, k, id);
    } else {
      StepFrame(w0, qs, origin, views, k, id);
    }
  }

  /** The loop's entities are the traces of their ids. */
  lemma LoopIsTrace(w0: World, qs: Queries, origin: EntityId, views: seq<XrView>, k: nat, id: EntityId)
    requires WellFormed(w0) && Answers(w0, qs) && k <= |views| && id in w0.entities
    ensures Prefix(w0, qs, origin, views, k).world.entities[id] == Trace(w0, qs, views, k, id)
  {
    var i := 0;
    while i < k
      invariant i <= k
      invariant Prefix(w0, qs, origin, views, i).world.entities[id] == Trace(w0, qs, views, i, id)
    {
      StepIsTrace(w0, qs, origin, views, i + 1, id);
      i := i + 1;
    }
  }

  /** Before the view that claims it, a camera still holds its old state. */
  lemma {:induction false} NotYetWritten(w0: World, qs: Queries, views: seq<XrView>, k: nat, eye: XrEye, n: nat)
    requires Answers(w0, qs) && k <= |views| && eye != EyeNonexhaustive
    requires Rank(views, k, eye) <= n < |Ids(qs, eye)|
    ensures Ids(qs, eye)[n] in w0.entities
    ensures Trace(w0, qs, views, k, Ids(qs, eye)[n]) == w0.entities[Ids(qs, eye)[n]]
  {
    AnswersFor(w0, qs, eye);
    assert Ids(qs, eye)[n] in Ids(qs, eye);
    if k > 0 {
      RankStep(views, k, eye);
      NotYetWritten(w0, qs, views, k - 1, eye, n);
      NotYetSelected(w0, qs, views, k - 1, eye, n);
    }
  }

  /** A view after the one that claimed a camera leaves it alone. */
  lemma StaysStep(w0: World, qs: Queries, views: seq<XrView>, j: nat, k: nat, id: EntityId)
    requires Answers(w0, qs) && j < k < |views| && id in w0.entities && Selects(qs, views, j, id)
    ensures Trace(w0, qs, views, k + 1, id) == Trace(w0, qs, views, k, id)
  {
    NotReselected(w0, qs, views, j, k);
  }

  /** After its view, a camera keeps what that view wrote: no later view
      claims it again. */
  lemma StaysWritten(w0: World, qs: Queries, views: seq<XrView>, j: nat, id: EntityId)
    requires Answers(w0, qs) && j < |views| && id in w0.entities && Selects(qs, views, j, id)
    ensures Trace(w0, qs, views, |views|, id) == Trace(w0, qs, views, j + 1, id)
  {
    var i := j + 1;
    while i < |views|
      invariant j + 1 <= i <= |views|
      invariant Trace(w0, qs, views, i, id) == Trace(w0, qs, views, j + 1, id)
    {
      StaysStep(w0, qs, views, j, i, id);
      i := i + 1;
    }
  }

  /** At the end of the loop, the camera a view claims holds that view
      written into its original state. */
  lemma TraceRefreshes(w0: World, qs: Queries, views: seq<XrView>, j: nat, id: EntityId)
    requires Answers(w0, qs) && j < |views| && Selects(qs, views, j, id)
    ensures id in w0.entities && IsCamera(w0.entities[id])
    ensures Trace(w0, qs, views, |views|, id) == Refreshed(w0.entities[id], views[j])
  {
    SelectsCamera(w0, qs, views, j, id);
    NotYetWritten(w0, qs, views, j, views[j].eye, Rank(views, j, views[j].eye));
    StaysWritten(w0, qs, views, j, id);
  }

  /** The loop only ever writes cameras. */
  lemma {:induction false} TraceKeepsOthers(w0: World, qs: Queries, views: seq<XrView>, k: nat, id: EntityId)
    requires Answers(w0, qs) && k <= |views|
    requires id in w0.entities && !IsCamera(w0.entities[id])
    ensures Trace(w0, qs, views, k, id) == w0.entities[id]
  {
    if k > 0 {
      TraceKeepsOthers(w0, qs, views, k - 1, id);
      OnlyCamerasSelected(w0, qs, views, k - 1, id);
    }
  }

  /** Whether view `i` finds its eye's query exhausted and spawns a camera. */
  predicate Spawns(qs: Queries, views: seq<XrView>, i: nat)
    requires i < |views|
  {
    var e := views[i].eye;
    e != EyeNonexhaustive && Rank(views, i, e) >= |Ids(qs, e)|
  }

  /** How many of the first `k` views spawn a camera. */
  function Unmatched(qs: Queries, views: seq<XrView>, k: nat): nat
    requires k <= |views|
  {
    if k == 0 then 0
    else Unmatched(qs, views, k - 1) + (if Spawns(qs, views, k - 1) then 1 else 0)
  }

  /** How many views of one eye exceed that eye's cameras. */
  function Excess(qs: Queries, views: seq<XrView>, k: nat, eye: XrEye): nat
    requires k <= |views| && eye != EyeNonexhaustive
  {
    var r := Rank(views, k, eye);
    var c := |Ids(qs, eye)|;
    if r > c then r - c else 0
  }

  /** One more view adds one to its eye's excess exactly when it spawns. */
  lemma ExcessStep(qs: Queries, views: seq<XrView>, k: nat, eye: XrEye)
    requires 0 < k <= |views| && eye != EyeNonexhaustive
    ensures Excess(qs, views, k, eye)
            == Excess(qs, views, k - 1, eye) + (if views[k - 1].eye == eye && Spawns(qs, views, k - 1) then 1 else 0)
  {
    RankStep(views, k, eye);
  }

  /** The spawning views are exactly the excess of each eye. */
  lemma {:induction false} UnmatchedIsExcess(qs: Queries, views: seq<XrView>, k: nat)
    requires k <= |views|
    ensures Unmatched(qs, views, k)
            == Excess(qs, views, k, EyeLeft) + Excess(qs, views, k, EyeRight) + Excess(qs, views, k, EyeNone)
  {
    if k > 0 {
      UnmatchedIsExcess(qs, views, k - 1);
      ExcessStep(qs, views, k, EyeLeft);
      ExcessStep(qs, views, k, EyeRight);
      ExcessStep(qs, views, k, EyeNone);
    }
  }

  /** The commands the first `k` views queue, the first spawn taking id
      `next0`: for each spawning view, the spawn of its camera at the next
      free id and then the camera's attachment to the origin. */
  function Queued(qs: Queries, origin: EntityId, views: seq<XrView>, k: nat, next0: nat): seq<Command>
    requires k <= |views|
  {
    if k == 0 then []
    else if Spawns(qs, views, k - 1) then
      var id := next0 + Unmatched(qs, views, k - 1);
      var view := views[k - 1];
      Queued(qs, origin, views, k - 1, next0)
      + [Spawn(id, NewCamera(view, k - 1, Rank(views, k - 1, view.eye))), AddChild(origin, id)]
    else Queued(qs, origin, views, k - 1, next0)
  }

  /** The loop so far has queued `Queued` and reserved one id per spawn. */
  predicate QueuedSoFar(w0: World, qs: Queries, origin: EntityId, views: seq<XrView>, k: nat)
    requires WellFormed(w0) && Answers(w0, qs) && k <= |views|
  {
    && Prefix(w0, qs, origin, views, k).cmds == Queued(qs, origin, views, k, w0.next)
    && Prefix(w0, qs, origin, views, k).world.next == w0.next + Unmatched(qs, views, k)
  }

  /** One more view extends `Queued` by its spawn and attachment when it
      spawns, and leaves it as it was otherwise. */
  lemma QueuedStep(qs: Queries, origin: EntityId, views: seq<XrView>, k: nat, next0: nat)
    requires k < |views|
    ensures !Spawns(qs, views, k) ==>
      && Queued(qs, origin, views, k + 1, next0) == Queued(qs, origin, views, k, next0)
      && Unmatched(qs, views, k + 1) == Unmatched(qs, views, k)
    ensures Spawns(qs, views, k) ==>
      var id := next0 + Unmatched(qs, views, k);
      && Queued(qs, origin, views, k + 1, next0)
         == Queued(qs, origin, views, k, next0)
            + [Spawn(id, NewCamera(views[k], k, Rank(views, k, views[k].eye))), AddChild(origin, id)]
      && Unmatched(qs, views, k + 1) == Unmatched(qs, views, k) + 1
  {
  }

  /** A view that claims a camera, or has no eye, queues nothing. */
  lemma StepQueuesKeep(w0: World, qs: Queries, origin: EntityId, views: seq<XrView>, k: nat)
    requires WellFormed(w0) && Answers(w0, qs) && k < |views| && !Spawns(qs, views, k)
    requires QueuedSoFar(w0, qs, origin, views, k)
    ensures QueuedSoFar(w0, qs, origin, views, k + 1)
  {
    StepIsPlace(w0, qs, origin, views, k + 1);
    QueuedStep(qs, origin, views, k, w0.next);
    var e := views[k].eye;
    if e != EyeNonexhaustive {
      PlaceWrites(w0, qs, Prefix(w0, qs, origin, views, k), origin, views[k], k, Rank(views, k, e));
    }
  }

  /** A view past its eye's cameras queues the spawn at the next free id. */
  lemma StepQueuesSpawn(w0: World, qs: Queries, origin: EntityId, views: seq<XrView>, k: nat)
    requires WellFormed(w0) && Answers(w0, qs) && k < |views| && Spawns(qs, views, k)
    requires QueuedSoFar(w0, qs, origin, views, k)
    ensures QueuedSoFar(w0, qs, origin, views, k + 1)
  {
    StepIsPlace(w0, qs, origin, views, k + 1);
    QueuedStep(qs, origin, views, k, w0.next);
    var prev := Prefix(w0, qs, origin, views, k);
    var n := Rank(views, k, views[k].eye);
    PlaceSpawns(w0, qs, prev, origin, views[k], k, n);
    var id := w0.next + Unmatched(qs, views, k);
    var tail := [Spawn(id, NewCamera(views[k], k, n)), AddChild(origin, id)];
    assert Prefix(w0, qs, origin, views, k + 1).cmds == prev.cmds + tail;
    assert Queued(qs, origin, views, k + 1, w0.next) == prev.cmds + tail;
  }

  /** The loop's commands are `Queued`, its reservations one per spawn. */
  lemma LoopQueues(w0: World, qs: Queries, origin: EntityId, views: seq<XrView>, k: nat)
    requires WellFormed(w0) && Answers(w0, qs) && k <= |views|
    ensures QueuedSoFar(w0, qs, origin, views, k)
  {
    var i := 0;
    while i < k
      invariant i <= k && QueuedSoFar(w0, qs, origin, views, i)
    {
      if Spawns(qs, views, i) {
        StepQueuesSpawn(w0, qs, origin, views, i);
      } else {
        StepQueuesKeep(w0, qs, origin, views, i);
      }
      i := i + 1;
    }
  }

  /** Two commands per spawning view, and never a despawn. */
  lemma {:induction false} QueuedShape(qs: Queries, origin: EntityId, views: seq<XrView>, k: nat, next0: nat)
    requires k <= |views|
    ensures |Queued(qs, origin, views, k, next0)| == 2 * Unmatched(qs, views, k)
    ensures NoDespawn(Queued(qs, origin, views, k, next0))
  {
    if k > 0 {
      QueuedShape(qs, origin, views, k - 1, next0);
    }
  }

  /** Later views only append commands. */
  lemma {:induction false} QueuedGrows(qs: Queries, origin: EntityId, views: seq<XrView>, a: nat, b: nat, next0: nat)
    requires a <= b <= |views|
    ensures Queued(qs, origin, views, a, next0) <= Queued(qs, origin, views, b, next0)
    decreases b - a
  {
    if a < b {
      QueuedGrows(qs, origin, views, a, b - 1, next0);
    }
  }

  /** The `j`-th view, when it spawns, queues its camera's spawn at id
      `next0` plus the number of earlier spawns, right after the commands
      of the earlier views, and then the attachment to the origin. */
  lemma QueuedSpawn(qs: Queries, origin: EntityId, views: seq<XrView>, j: nat, k: nat, next0: nat)
    requires j < k <= |views| && Spawns(qs, views, j)
    ensures var u := Unmatched(qs, views, j);
      var id := next0 + u;
      var cmds := Queued(qs, origin, views, k, next0);
      && 2 * u + 1 < |cmds|
      && cmds[2 * u] == Spawn(id, NewCamera(views[j], j, Rank(views, j, views[j].eye)))
      && cmds[2 * u + 1] == AddChild(origin, id)
  {
    QueuedShape(qs, origin, views, j, next0);
    QueuedGrows(qs, origin, views, j + 1, k, next0);
  }

  /** Every rank below an eye's count is reached by some view of that eye. */
  lemma {:induction false} RankHits(views: seq<XrView>, k: nat, eye: XrEye, n: nat)
    requires k <= |views| && n < Rank(views, k, eye)
    ensures exists j :: 0 <= j < k && views[j].eye == eye && Rank(views, j, eye) == n
  {
    RankStep(views, k, eye);
    if n < Rank(views, k - 1, eye) {
      RankHits(views, k - 1, eye, n);
    } else {
      assert views[k - 1].eye == eye && Rank(views, k - 1, eye) == n;
    }
  }

  /** The cameras of one eye that no view claimed: the query's tail past
      the eye's view count. */
  function Surplus(qs: Queries, views: seq<XrView>, eye: XrEye): (ids: seq<EntityId>)
    requires eye != EyeNonexhaustive
    ensures forall id :: id in ids ==> id in Ids(qs, eye)
  {
    var q := Ids(qs, eye);
    var n := Rank(views, |views|, eye);
    if n < |q| then q[n..] else []
  }

  /** The surplus cameras of all three eyes. */
  function AllSurplus(qs: Queries, views: seq<XrView>): seq<EntityId> {
    Surplus(qs, views, EyeLeft) + Surplus(qs, views, EyeRight) + Surplus(qs, views, EyeNone)
  }

  /** An eye or window entity carrying a camera: what the three camera
      queries visit. */
  predicate IsCamera(e: Entity) {
    (e.role.EyeRole? || e.role.WindowRole?) && e.camera.Some?
  }

  /** Every camera of the three queries, in query order. */
  function AllCameras(w: World): (ids: seq<EntityId>)
    requires WellFormed(w)
    ensures forall id :: id in ids <==> id in w.entities && IsCamera(w.entities[id])
  {
    CameraRoles(w);
    Query(w, EyeRole(Left)) + Query(w, EyeRole(Right)) + Query(w, WindowRole)
  }

  lemma CameraRoles(w: World)
    requires WellFormed(w)
    ensures forall id :: id in w.entities && IsCamera(w.entities[id]) ==>
      id in Query(w, EyeRole(Left)) || id in Query(w, EyeRole(Right)) || id in Query(w, WindowRole)
  {
    forall id | id in w.entities && IsCamera(w.entities[id])
      ensures id in Query(w, EyeRole(Left)) || id in Query(w, EyeRole(Right)) || id in Query(w, WindowRole)
    {
      match w.entities[id].role
      case EyeRole(side) =>
        if side == Left {
          assert id in Query(w, EyeRole(Left));
        } else {
          assert id in Query(w, EyeRole(Right));
        }
      case WindowRole =>
        assert id in Query(w, WindowRole);
    }
  }

  /** Whether the synchroniser reaches its view loop: an origin exists, the
      frame exists, the viewer pose resolves with at least one view, and the
      base layer exposes a framebuffer. */
  predicate Renders(w: World, frame: Option<XrFrame>)
    requires WellFormed(w)
  {
    && |Query(w, OriginRole)| > 0
    && frame.Some?
    && frame.value.viewerViews.Some? && |frame.value.viewerViews.value| > 0
    && frame.value.baseLayer.Some? && frame.value.baseLayer.value.hasFramebuffer
  }

  /** The view loop and the surplus pass, once every check has passed. */
  function RenderViews(w: World, origin: EntityId, views: seq<XrView>): (r: Sync)
    requires WellFormed(w)
    ensures Inv(w, r)
  {
    var qs := QueriesOf(w);
    QueriesAnswer(w);
    var s := Prefix(w, qs, origin, views, |views|);
    DisableAllKeepsInv(w, s, AllSurplus(qs, views));
    Sync(DisableAll(s.world, AllSurplus(qs, views)), s.cmds)
  }

  /** No position of a camera query other than `(eye, n)` itself, from
      position `lo` on, names the entity at `(eye, n)`. */
  lemma NotInIds(w0: World, qs: Queries, eye: XrEye, n: nat, other: XrEye, lo: nat)
    requires Answers(w0, qs) && eye != EyeNonexhaustive && other != EyeNonexhaustive
    requires n < |Ids(qs, eye)| && lo <= |Ids(qs, other)|
    requires other != eye || n < lo
    ensures Ids(qs, eye)[n] !in Ids(qs, other)[lo..]
  {
    var q := Ids(qs, other);
    forall m | 0 <= m < |q[lo..]| ensures q[lo..][m] != Ids(qs, eye)[n] {
      Distinct(w0, qs, other, lo + m, eye, n);
    }
  }

  /** A camera no view of its eye reaches is surplus. */
  lemma InSurplus(w0: World, qs: Queries, views: seq<XrView>, eye: XrEye, n: nat)
    requires eye != EyeNonexhaustive && Rank(views, |views|, eye) <= n < |Ids(qs, eye)|
    ensures Ids(qs, eye)[n] in AllSurplus(qs, views)
  {
    var q := Ids(qs, eye);
    var r := Rank(views, |views|, eye);
    var sl, sr, sn := Surplus(qs, views, EyeLeft), Surplus(qs, views, EyeRight), Surplus(qs, views, EyeNone);
    assert Surplus(qs, views, eye) == q[r..];
    assert q[r..][n - r] == q[n];
    assert AllSurplus(qs, views) == sl + sr + sn;
    match eye
    case EyeLeft => assert q[n] in sl;
    case EyeRight => assert q[n] in sr;
    case EyeNone => assert q[n] in sn;
  }

  /** The surplus of eye `other` leaves out the `n`-th camera of `eye`
      when some view of `eye` reaches it. */
  lemma NotInSurplusOf(w0: World, qs: Queries, views: seq<XrView>, eye: XrEye, n: nat, other: XrEye)
    requires Answers(w0, qs) && eye != EyeNonexhaustive && other != EyeNonexhaustive
    requires n < Rank(views, |views|, eye) && n < |Ids(qs, eye)|
    ensures Ids(qs, eye)[n] !in Surplus(qs, views, other)
  {
    var r := Rank(views, |views|, other);
    if r < |Ids(qs, other)| {
      NotInIds(w0, qs, eye, n, other, r);
    }
  }

  /** A camera some view of its eye reaches is not surplus. */
  lemma NotInSurplus(w0: World, qs: Queries, views: seq<XrView>, eye: XrEye, n: nat)
    requires Answers(w0, qs) && eye != EyeNonexhaustive
    requires n < Rank(views, |views|, eye) && n < |Ids(qs, eye)|
    ensures Ids(qs, eye)[n] !in AllSurplus(qs, views)
  {
    NotInSurplusOf(w0, qs, views, eye, n, EyeLeft);
    NotInSurplusOf(w0, qs, views, eye, n, EyeRight);
    NotInSurplusOf(w0, qs, views, eye, n, EyeNone);
  }

  /** Only cameras are ever surplus. */
  lemma SurplusAreCameras(w0: World, qs: Queries, views: seq<XrView>, id: EntityId)
    requires Answers(w0, qs) && id in w0.entities && !IsCamera(w0.entities[id])
    ensures id !in AllSurplus(qs, views)
  {
    AnswersFor(w0, qs, EyeLeft);
    AnswersFor(w0, qs, EyeRight);
    AnswersFor(w0, qs, EyeNone);
  }

  /** An entity after the call: its trace through the view loop, disabled
      when it is surplus. */
  lemma RenderViewsEntity(w: World, origin: EntityId, views: seq<XrView>, id: EntityId)
    requires WellFormed(w) && id in w.entities
    ensures Answers(w, QueriesOf(w))
    ensures var qs := QueriesOf(w);
      var e := RenderViews(w, origin, views).world.entities[id];
      && (id in AllSurplus(qs, views) ==> e == Disabled(Trace(w, qs, views, |views|, id)))
      && (id !in AllSurplus(qs, views) ==> e == Trace(w, qs, views, |views|, id))
  {
    QueriesAnswer(w);
    LoopIsTrace(w, QueriesOf(w), origin, views, |views|, id);
  }

  /** The commands after the call are `Queued`, the reservations one per
      spawn. */
  lemma RenderViewsQueues(w: World, origin: EntityId, views: seq<XrView>)
    requires WellFormed(w)
    ensures var r := RenderViews(w, origin, views);
      && r.cmds == Queued(QueriesOf(w), origin, views, |views|, w.next)
      && r.world.next == w.next + Unmatched(QueriesOf(w), views, |views|)
  {
    QueriesAnswer(w);
    LoopQueues(w, QueriesOf(w), origin, views, |views|);
  }

  /** The `n`-th view of an eye, when the eye's query has an `n`-th camera,
      leaves that camera holding the view written into its old state: pose,
      viewport, projection and active flags from the view, everything else
      kept. */
  lemma MatchedViewRefreshes(w: World, origin: EntityId, views: seq<XrView>, j: nat)
    requires WellFormed(w) && j < |views| && views[j].eye != EyeNonexhaustive
    requires Rank(views, j, views[j].eye) < |Query(w, ViewRole(views[j].eye).value)|
    ensures var id := Query(w, ViewRole(views[j].eye).value)[Rank(views, j, views[j].eye)];
      && id in w.entities
      && RenderViews(w, origin, views).world.entities[id] == Refreshed(w.entities[id], views[j])
  {
    var eye := views[j].eye;
    var qs := QueriesOf(w);
    QueriesAnswer(w);
    IdsOfQueries(w, eye);
    var id := Ids(qs, eye)[Rank(views, j, eye)];
    assert Selects(qs, views, j, id);
    TraceRefreshes(w, qs, views, j, id);
    RankStrict(views, j, |views|, eye);
    NotInSurplus(w, qs, views, eye, Rank(views, j, eye));
    RenderViewsEntity(w, origin, views, id);
  }

  /** A camera past its eye's view count is disabled and otherwise kept. */
  lemma SurplusDisabled(w: World, origin: EntityId, views: seq<XrView>, eye: XrEye, n: nat)
    requires WellFormed(w) && eye != EyeNonexhaustive
    requires Rank(views, |views|, eye) <= n < |Query(w, ViewRole(eye).value)|
    ensures var id := Query(w, ViewRole(eye).value)[n];
      && id in w.entities
      && RenderViews(w, origin, views).world.entities[id] == Disabled(w.entities[id])
  {
    var qs := QueriesOf(w);
    QueriesAnswer(w);
    IdsOfQueries(w, eye);
    NotYetWritten(w, qs, views, |views|, eye, n);
    InSurplus(w, qs, views, eye, n);
    RenderViewsEntity(w, origin, views, Ids(qs, eye)[n]);
  }

  /** Entities that are not cameras keep their state. */
  lemma OthersUntouched(w: World, origin: EntityId, views: seq<XrView>, id: EntityId)
    requires WellFormed(w) && id in w.entities && !IsCamera(w.entities[id])
    ensures RenderViews(w, origin, views).world.entities[id] == w.entities[id]
  {
    var qs := QueriesOf(w);
    QueriesAnswer(w);
    TraceKeepsOthers(w, qs, views, |views|, id);
    SurplusAreCameras(w, qs, views, id);
    RenderViewsEntity(w, origin, views, id);
  }

  /** The view eye whose query visits cameras of a role. */
  function EyeOf(r: Role): (eye: XrEye)
    requires r.EyeRole? || r.WindowRole?
    ensures eye != EyeNonexhaustive && ViewRole(eye) == Some(r)
  {
    match r
    case EyeRole(Left) => EyeLeft
    case EyeRole(Right) => EyeRight
    case WindowRole => EyeNone
  }

  /** Every camera ends the call either refreshed by the view of its eye
      whose rank is the camera's position in the query, or disabled. */
  lemma EveryCameraAccountedFor(w: World, origin: EntityId, views: seq<XrView>, id: EntityId)
    requires WellFormed(w) && id in w.entities && IsCamera(w.entities[id])
    ensures var e := RenderViews(w, origin, views).world.entities[id];
      var eye := EyeOf(w.entities[id].role);
      var q := Query(w, ViewRole(eye).value);
      || e == Disabled(w.entities[id])
      || exists j :: 0 <= j < |views| && views[j].eye == eye
           && Rank(views, j, eye) < |q| && q[Rank(views, j, eye)] == id
           && e == Refreshed(w.entities[id], views[j])
  {
    var e := RenderViews(w, origin, views).world.entities[id];
    var eye := EyeOf(w.entities[id].role);
    var q := Query(w, ViewRole(eye).value);
    assert id in q;
    var n :| 0 <= n < |q| && q[n] == id;
    if n < Rank(views, |views|, eye) {
      RankHits(views, |views|, eye, n);
      var j :| 0 <= j < |views| && views[j].eye == eye && Rank(views, j, eye) == n;
      MatchedViewRefreshes(w, origin, views, j);
      assert 0 <= j < |views| && views[j].eye == eye
        && Rank(views, j, eye) < |q| && q[Rank(views, j, eye)] == id
        && e == Refreshed(w.entities[id], views[j]);
    } else {
      SurplusDisabled(w, origin, views, eye, n);
    }
  }

  /** A view past its eye's cameras, the `u`-th such view, queues at
      positions `2u` and `2u + 1` the spawn of its camera at id `next + u`
      and that camera's attachment to the origin. */
  lemma UnmatchedViewSpawns(w: World, origin: EntityId, views: seq<XrView>, j: nat)
    requires WellFormed(w) && j < |views| && views[j].eye != EyeNonexhaustive
    requires Rank(views, j, views[j].eye) >= |Query(w, ViewRole(views[j].eye).value)|
    ensures var u := Unmatched(QueriesOf(w), views, j);
      var cmds := RenderViews(w, origin, views).cmds;
      && 2 * u + 1 < |cmds|
      && cmds[2 * u] == Spawn(w.next + u, NewCamera(views[j], j, Rank(views, j, views[j].eye)))
      && cmds[2 * u + 1] == AddChild(origin, w.next + u)
  {
    var qs := QueriesOf(w);
    IdsOfQueries(w, views[j].eye);
    QueuedSpawn(qs, origin, views, j, |views|, w.next);
    var cmds := Queued(qs, origin, views, |views|, w.next);
    var u := Unmatched(qs, views, j);
    var spawn := Spawn(w.next + u, NewCamera(views[j], j, Rank(views, j, views[j].eye)));
    assert 2 * u + 1 < |cmds| && cmds[2 * u] == spawn && cmds[2 * u + 1] == AddChild(origin, w.next + u);
    RenderViewsQueues(w, origin, views);
  }

  /** The call queues a spawn and an attachment for each view beyond its
      eye's cameras, nothing else, and reserves one id per spawn. */
  lemma SpawnCount(w: World, origin: EntityId, views: seq<XrView>)
    requires WellFormed(w)
    ensures var qs := QueriesOf(w);
      var u := Unmatched(qs, views, |views|);
      var r := RenderViews(w, origin, views);
      && u == Excess(qs, views, |views|, EyeLeft) + Excess(qs, views, |views|, EyeRight)
              + Excess(qs, views, |views|, EyeNone)
      && |r.cmds| == 2 * u && NoDespawn(r.cmds)
      && r.world.next == w.next + u
  {
    RenderViewsQueues(w, origin, views);
    QueuedShape(QueriesOf(w), origin, views, |views|, w.next);
    UnmatchedIsExcess(QueriesOf(w), views, |views|);
  }

  /** `update_xr_cameras`. When the view loop is reached, the framebuffer's
      texture view is registered under `FRAMEBUFFER_HANDLE`, every view is
      synchronised, and the surplus cameras of each eye are disabled; on any
      earlier miss every camera is disabled and nothing is registered. */
  function UpdateXrCameras(w: World, frame: Option<XrFrame>, textures: map<nat, TextureView>): (r: CameraResult)
    requires WellFormed(w) && |Query(w, OriginRole)| <= 1
    ensures Inv(w, r.sync)
    ensures !Renders(w, frame) ==>
      && r.textures == textures && r.sync.cmds == [] && r.sync.world.next == w.next
      && forall id :: id in w.entities ==>
           r.sync.world.entities[id] == if IsCamera(w.entities[id]) then Disabled(w.entities[id]) else w.entities[id]
    ensures Renders(w, frame) ==>
      var layer := frame.value.baseLayer.value;
      r.textures == textures[FRAMEBUFFER_HANDLE := TextureView(layer.framebufferWidth, layer.framebufferHeight)]
  {
    if Renders(w, frame) then
      var layer := frame.value.baseLayer.value;
      CameraResult(RenderViews(w, Query(w, OriginRole)[0], frame.value.viewerViews.value),
                   textures[FRAMEBUFFER_HANDLE := TextureView(layer.framebufferWidth, layer.framebufferHeight)])
    else
      CameraResult(Sync(DisableAll(w, AllCameras(w)), []), textures)
  }
}
