/** The slice of the WebXR platform API the synchronisers read, as plain data.
    Every platform call that may fail to resolve (a pose, a viewport, a hand) is
    an `Option` carried in these records: the model never calls the platform. */
module Platform {
  import opened Wrappers

  /** A resolved pose (position + orientation), kept as an opaque token. */
  datatype Pose = DefaultPose | TrackedPose(token: nat)

  /** `XRHandedness`; the binding adds a hidden non-exhaustive variant. */
  datatype XrHandedness = HandednessNone | HandednessLeft | HandednessRight | HandednessNonexhaustive

  /** `XREye`; the binding adds a hidden non-exhaustive variant. */
  datatype XrEye = EyeLeft | EyeRight | EyeNone | EyeNonexhaustive

  /** `XRViewport`: signed 32-bit attributes as the binding exposes them. */
  datatype XrViewport = XrViewport(x: I32, y: I32, width: I32, height: I32)

  /** `XRView.projectionMatrix`: a `Float32Array` of 16 values. */
  type PlatformMatrix = m: seq<real> | |m| == 16
    witness [0.0, 0.0, 0.0, 0.0, 0.0, 0.0, 0.0, 0.0, 0.0, 0.0, 0.0, 0.0, 0.0, 0.0, 0.0, 0.0]

  /** One view of the viewer pose, with the viewport the base layer reports
      for it (`get_viewport(view)`) and its platform projection matrix. */
  datatype XrView = XrView(eye: XrEye, pose: Pose, projection: PlatformMatrix, viewport: XrViewport)

  /** The 25 joints of section 3.1 ("Skeleton Joints") of the WebXR Hand Input
      Module - Level 1, in the order that section lists them. */
  datatype XrHandJoint =
    | Wrist
    | ThumbMetacarpal | ThumbPhalanxProximal | ThumbPhalanxDistal | ThumbTip
    | IndexFingerMetacarpal | IndexFingerPhalanxProximal | IndexFingerPhalanxIntermediate
    | IndexFingerPhalanxDistal | IndexFingerTip
    | MiddleFingerMetacarpal | MiddleFingerPhalanxProximal | MiddleFingerPhalanxIntermediate
    | MiddleFingerPhalanxDistal | MiddleFingerTip
    | RingFingerMetacarpal | RingFingerPhalanxProximal | RingFingerPhalanxIntermediate
    | RingFingerPhalanxDistal | RingFingerTip
    | PinkyFingerMetacarpal | PinkyFingerPhalanxProximal | PinkyFingerPhalanxIntermediate
    | PinkyFingerPhalanxDistal | PinkyFingerTip

  /** A gamepad: each entry of `buttons` is `None` when the array element is
      not a `GamepadButton`, otherwise the button's analog value. */
  datatype Gamepad = Gamepad(buttons: seq<Option<real>>, axes: seq<real>)

  /** An `XRInputSource` as seen during one frame. `hand` maps each joint
      whose pose resolves (against its predecessor joint's space; the wrist
      against the reference space) to that pose; a joint missing from the map
      does not resolve. `gripPose` is only consulted when `gripSpace` holds. */
  datatype InputSource = InputSource(
    handedness: XrHandedness,
    gamepad: Option<Gamepad>,
    gripSpace: bool,
    gripPose: Option<Pose>,
    hand: Option<map<XrHandJoint, Pose>>)

  /** The base layer of the session's render state. */
  datatype BaseLayer = BaseLayer(hasFramebuffer: bool, framebufferWidth: nat, framebufferHeight: nat)

  /** What one XR frame answers: the viewer pose's views (`None` when the
      viewer pose does not resolve), the base layer, and the input sources. */
  datatype XrFrame = XrFrame(
    viewerViews: Option<seq<XrView>>,
    baseLayer: Option<BaseLayer>,
    inputSources: seq<InputSource>)

  const U32_LIMIT: int := 0x1_0000_0000
  const I32_MIN: int := -0x8000_0000

  predicate IsI32(x: int) {
    I32_MIN <= x < 0x8000_0000
  }

  type I32 = x: int | IsI32(x)

  /** Rust's `x as u32` on an `i32`: the two's-complement bit pattern read as
      unsigned, so negative values wrap to the top of the u32 range. */
  function AsU32(x: int): (r: nat)
    requires IsI32(x)
    ensures r < U32_LIMIT
    ensures r % U32_LIMIT == x % U32_LIMIT
  {
    if x >= 0 then x else x + U32_LIMIT
  }

  /** Rust's `x as i32` on a `u32`. */
  function AsI32(u: nat): (r: int)
    requires u < U32_LIMIT
    ensures IsI32(r)
    ensures r % U32_LIMIT == u
  {
    if u < 0x8000_0000 then u else u - U32_LIMIT
  }

  /** The cast keeps every bit: reading the u32 back as i32 gives the input. */
  lemma AsU32RoundTrip(x: int)
    requires IsI32(x)
    ensures AsI32(AsU32(x)) == x
    ensures x >= 0 ==> AsU32(x) == x
  {
  }
}
