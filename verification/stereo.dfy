/** The side-by-side stereo setup of `src/camera.rs`: once a session is
    granted, the base layer's framebuffer is registered as a texture view
    under a fixed handle, and two cameras render into it, the left eye into
    the left half and the right eye into the right half. */
module Stereo {
  import opened Wrappers
  import opened Errors
  import opened Platform
  import opened Ecs
  import Session

  /** The handle the framebuffer view is registered under (`ManualTextureViewHandle(0)`). */
  const FRAMEBUFFER_VIEW: nat := 0

  datatype Eye = LeftEye | RightEye

  /** A spawned camera: which eye it stands for (its transform, a float
      position mirrored between the eyes, is not modelled), its viewport and
      the texture view it renders into. */
  datatype StereoCamera = StereoCamera(eye: Eye, viewport: Viewport, target: nat)

  /** A texture view registration: handle and size. */
  datatype ViewRegistration = ViewRegistration(handle: nat, width: nat, height: nat)

  /** Everything one run of the setup does. */
  datatype StereoSetup = StereoSetup(view: ViewRegistration, left: StereoCamera, right: StereoCamera)

  /** The pixel (px, py) lies inside the viewport. */
  predicate Contains(v: Viewport, px: int, py: int) {
    v.x <= px < v.x + v.width && v.y <= py < v.y + v.height
  }

  /** `spawn_webxr_camera`: nothing happens unless the session slot holds a
      granted session; a missing base layer panics (`base_layer().unwrap()`);
      otherwise the framebuffer is registered under the fixed handle with
      its full size and the two eye cameras are spawned, each with half the
      width (rounded down) and the full height. Reading the `framebuffer`
      property of the layer object cannot fail, and a null framebuffer is
      cast unchecked, so it is registered like any other. */
  function SpawnWebxrCamera(slot: Session.SessionSlot, layer: Option<BaseLayer>): (r: Result<Option<StereoSetup>, Abort>)
    ensures r == Success(None) <==> !Session.Ready(slot)
    ensures r == Failure(Panicked) <==> Session.Ready(slot) && layer.None?
    ensures r.Success? && r.value.Some? ==>
      && layer.Some?
      && r.value.value.view == ViewRegistration(FRAMEBUFFER_VIEW, layer.value.framebufferWidth, layer.value.framebufferHeight)
      && r.value.value.left.eye == LeftEye && r.value.value.right.eye == RightEye
      && r.value.value.left.target == r.value.value.right.target == r.value.value.view.handle
  {
    if !Session.Ready(slot) then Success(None)
    else if layer.None? then Failure(Panicked)
    else
      var w := layer.value.framebufferWidth;
      var h := layer.value.framebufferHeight;
      Success(Some(StereoSetup(
        ViewRegistration(FRAMEBUFFER_VIEW, w, h),
        StereoCamera(LeftEye, Viewport(0, 0, w / 2, h), FRAMEBUFFER_VIEW),
        StereoCamera(RightEye, Viewport(w / 2, 0, w / 2, h), FRAMEBUFFER_VIEW))))
  }

  /** A null framebuffer makes no difference: the setup for a layer depends
      only on its size. */
  lemma NullFramebufferStillRegistered(slot: Session.SessionSlot, w: nat, h: nat)
    requires Session.Ready(slot)
    ensures SpawnWebxrCamera(slot, Some(BaseLayer(false, w, h))) == SpawnWebxrCamera(slot, Some(BaseLayer(true, w, h)))
    ensures SpawnWebxrCamera(slot, Some(BaseLayer(false, w, h))).Success?
  {
  }

  /** The setup produced for a base layer of the given size. */
  function SetupFor(w: nat, h: nat): StereoSetup {
    SpawnWebxrCamera(Some(Success(0)), Some(BaseLayer(true, w, h))).value.value
  }

  /** The eyes share one row band: each viewport starts at the top, spans the
      full height and half the width (rounded down), and the right one
      starts where the left one ends. */
  lemma EyesSideBySide(w: nat, h: nat)
    ensures var s := SetupFor(w, h);
      && s.left.viewport.x == 0 && s.left.viewport.x + s.left.viewport.width == s.right.viewport.x
      && s.left.viewport.y == s.right.viewport.y == 0
      && s.left.viewport.height == s.right.viewport.height == h
      && s.left.viewport.width == s.right.viewport.width == w / 2
  {
  }

  /** No pixel is drawn by both eyes, and a pixel is drawn by one of them
      exactly when it lies in the first `2 * (w / 2)` columns of the
      registered view. */
  lemma EyesPartitionView(w: nat, h: nat, px: int, py: int)
    ensures var s := SetupFor(w, h);
      && !(Contains(s.left.viewport, px, py) && Contains(s.right.viewport, px, py))
      && (Contains(s.left.viewport, px, py) || Contains(s.right.viewport, px, py)
          <==> 0 <= px < 2 * (w / 2) && 0 <= py < h)
  {
  }

  /** Both viewports stay inside the registered view. */
  lemma EyesInsideView(w: nat, h: nat, px: int, py: int)
    ensures var s := SetupFor(w, h);
      Contains(s.left.viewport, px, py) || Contains(s.right.viewport, px, py) ==>
        0 <= px < s.view.width && 0 <= py < s.view.height
  {
  }

  /** The two eyes cover every pixel of a non-empty view exactly when its
      width is even; an odd width leaves the last column undrawn. */
  lemma CoversViewIffEvenWidth(w: nat, h: nat)
    requires h > 0
    ensures var s := SetupFor(w, h);
      (forall px :: 0 <= px < w ==> Contains(s.left.viewport, px, 0) || Contains(s.right.viewport, px, 0))
      <==> w % 2 == 0
  {
    var s := SetupFor(w, h);
    if w % 2 == 1 {
      assert !(Contains(s.left.viewport, w - 1, 0) || Contains(s.right.viewport, w - 1, 0));
    } else {
      forall px | 0 <= px < w
        ensures Contains(s.left.viewport, px, 0) || Contains(s.right.viewport, px, 0)
      {
        EyesPartitionView(w, h, px, 0);
      }
    }
  }
}
