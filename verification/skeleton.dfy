/** The fixed hand skeleton the hand synchroniser walks, and the table that
    maps each engine-side (finger, joint) role to the platform's hand joint
    (the `WebXrHandJoint` impls of `src/tracked/hands.rs`). */
module Skeleton {
  import opened Wrappers
  import opened Platform

  datatype Side = Left | Right

  datatype Finger = Thumb | Index | Middle | Ring | Little

  datatype FingerJoint = Metacarpal | ProximalPhalanx | IntermediatePhalanx | DistalPhalanx | Tip

  /** A joint role of one hand: the wrist, or a joint of one finger. */
  datatype JointRole = WristRole | FingerRole(finger: Finger, joint: FingerJoint)

  /** The platform handedness a hand marker stands for (`webxr_handedness`). */
  function WebXrHandedness(side: Side): (h: XrHandedness)
    ensures h != HandednessNone && h != HandednessNonexhaustive
  {
    match side
    case Left => HandednessLeft
    case Right => HandednessRight
  }

  /** The joints of one finger, from the palm outwards. The thumb has no
      intermediate phalanx. */
  function Chain(f: Finger): (c: seq<FingerJoint>)
    ensures |c| == (if f == Thumb then 4 else 5)
    ensures c[0] == Metacarpal && c[|c| - 1] == Tip
    ensures (IntermediatePhalanx in c) <==> f != Thumb
  {
    if f == Thumb then [Metacarpal, ProximalPhalanx, DistalPhalanx, Tip]
    else [Metacarpal, ProximalPhalanx, IntermediatePhalanx, DistalPhalanx, Tip]
  }

  /** The fingers in the order the synchroniser walks them. */
  const Fingers: seq<Finger> := [Thumb, Index, Middle, Ring, Little]

  /** Every (finger, joint) pair is a role except the thumb's intermediate
      phalanx, which the thumb does not have. */
  predicate IsSkeletonRole(r: JointRole) {
    !(r.FingerRole? && r.finger == Thumb && r.joint == IntermediatePhalanx)
  }

  lemma SkeletonRolesAreChainJoints(r: JointRole)
    requires r.FingerRole?
    ensures IsSkeletonRole(r) <==> r.joint in Chain(r.finger)
  {
    var c := Chain(r.finger);
    if r.finger == Thumb {
      assert c == [Metacarpal, ProximalPhalanx, DistalPhalanx, Tip];
    } else {
      assert c == [Metacarpal, ProximalPhalanx, IntermediatePhalanx, DistalPhalanx, Tip];
      assert c[2] == IntermediatePhalanx;
    }
    match r.joint
    case Metacarpal => assert c[0] == Metacarpal;
    case ProximalPhalanx => assert c[1] == ProximalPhalanx;
    case IntermediatePhalanx =>
    case DistalPhalanx => assert c[|c| - 2] == DistalPhalanx;
    case Tip => assert c[|c| - 1] == Tip;
  }

  function FingerRoles(f: Finger, js: seq<FingerJoint>): seq<JointRole> {
    if js == [] then [] else [FingerRole(f, js[0])] + FingerRoles(f, js[1..])
  }

  /** Every joint role of one hand: the wrist, then the chains of the thumb,
      index, middle, ring and little finger, the order of `Fingers`. */
  function AllRoles(): seq<JointRole> {
    [WristRole]
    + FingerRoles(Thumb, Chain(Thumb))
    + FingerRoles(Index, Chain(Index))
    + FingerRoles(Middle, Chain(Middle))
    + FingerRoles(Ring, Chain(Ring))
    + FingerRoles(Little, Chain(Little))
  }

  /** The platform joint of a role; `None` for the one (finger, joint) pair
      that has no platform counterpart, the thumb's intermediate phalanx. */
  function ToPlatform(r: JointRole): (p: Option<XrHandJoint>)
    ensures p.None? <==> !IsSkeletonRole(r)
  {
    match r
    case WristRole => Some(Wrist)
    case FingerRole(Thumb, Metacarpal) => Some(ThumbMetacarpal)
    case FingerRole(Thumb, ProximalPhalanx) => Some(ThumbPhalanxProximal)
    case FingerRole(Thumb, IntermediatePhalanx) => None
    case FingerRole(Thumb, DistalPhalanx) => Some(ThumbPhalanxDistal)
    case FingerRole(Thumb, Tip) => Some(ThumbTip)
    case FingerRole(Index, Metacarpal) => Some(IndexFingerMetacarpal)
    case FingerRole(Index, ProximalPhalanx) => Some(IndexFingerPhalanxProximal)
    case FingerRole(Index, IntermediatePhalanx) => Some(IndexFingerPhalanxIntermediate)
    case FingerRole(Index, DistalPhalanx) => Some(IndexFingerPhalanxDistal)
    case FingerRole(Index, Tip) => Some(IndexFingerTip)
    case FingerRole(Middle, Metacarpal) => Some(MiddleFingerMetacarpal)
    case FingerRole(Middle, ProximalPhalanx) => Some(MiddleFingerPhalanxProximal)
    case FingerRole(Middle, IntermediatePhalanx) => Some(MiddleFingerPhalanxIntermediate)
    case FingerRole(Middle, DistalPhalanx) => Some(MiddleFingerPhalanxDistal)
    case FingerRole(Middle, Tip) => Some(MiddleFingerTip)
    case FingerRole(Ring, Metacarpal) => Some(RingFingerMetacarpal)
    case FingerRole(Ring, ProximalPhalanx) => Some(RingFingerPhalanxProximal)
    case FingerRole(Ring, IntermediatePhalanx) => Some(RingFingerPhalanxIntermediate)
    case FingerRole(Ring, DistalPhalanx) => Some(RingFingerPhalanxDistal)
    case FingerRole(Ring, Tip) => Some(RingFingerTip)
    case FingerRole(Little, Metacarpal) => Some(PinkyFingerMetacarpal)
    case FingerRole(Little, ProximalPhalanx) => Some(PinkyFingerPhalanxProximal)
    case FingerRole(Little, IntermediatePhalanx) => Some(PinkyFingerPhalanxIntermediate)
    case FingerRole(Little, DistalPhalanx) => Some(PinkyFingerPhalanxDistal)
    case FingerRole(Little, Tip) => Some(PinkyFingerTip)
  }

  /** The engine role a platform joint belongs to: an independent inverse of
      the table, written from the platform side. */
  function FromPlatform(p: XrHandJoint): JointRole {
    match p
    case Wrist => WristRole
    case ThumbMetacarpal => FingerRole(Thumb, Metacarpal)
    case ThumbPhalanxProximal => FingerRole(Thumb, ProximalPhalanx)
    case ThumbPhalanxDistal => FingerRole(Thumb, DistalPhalanx)
    case ThumbTip => FingerRole(Thumb, Tip)
    case IndexFingerMetacarpal => FingerRole(Index, Metacarpal)
    case IndexFingerPhalanxProximal => FingerRole(Index, ProximalPhalanx)
    case IndexFingerPhalanxIntermediate => FingerRole(Index, IntermediatePhalanx)
    case IndexFingerPhalanxDistal => FingerRole(Index, DistalPhalanx)
    case IndexFingerTip => FingerRole(Index, Tip)
    case MiddleFingerMetacarpal => FingerRole(Middle, Metacarpal)
    case MiddleFingerPhalanxProximal => FingerRole(Middle, ProximalPhalanx)
    case MiddleFingerPhalanxIntermediate => FingerRole(Middle, IntermediatePhalanx)
    case MiddleFingerPhalanxDistal => FingerRole(Middle, DistalPhalanx)
    case MiddleFingerTip => FingerRole(Middle, Tip)
    case RingFingerMetacarpal => FingerRole(Ring, Metacarpal)
    case RingFingerPhalanxProximal => FingerRole(Ring, ProximalPhalanx)
    case RingFingerPhalanxIntermediate => FingerRole(Ring, IntermediatePhalanx)
    case RingFingerPhalanxDistal => FingerRole(Ring, DistalPhalanx)
    case RingFingerTip => FingerRole(Ring, Tip)
    case PinkyFingerMetacarpal => FingerRole(Little, Metacarpal)
    case PinkyFingerPhalanxProximal => FingerRole(Little, ProximalPhalanx)
    case PinkyFingerPhalanxIntermediate => FingerRole(Little, IntermediatePhalanx)
    case PinkyFingerPhalanxDistal => FingerRole(Little, DistalPhalanx)
    case PinkyFingerTip => FingerRole(Little, Tip)
  }

  /** The platform-side inverse undoes the table. */
  lemma FromPlatformInverse(p: XrHandJoint)
    ensures IsSkeletonRole(FromPlatform(p))
    ensures ToPlatform(FromPlatform(p)) == Some(p)
  {
    match p
    case Wrist =>
    case ThumbMetacarpal =>
    case ThumbPhalanxProximal =>
    case ThumbPhalanxDistal =>
    case ThumbTip =>
    case IndexFingerMetacarpal =>
    case IndexFingerPhalanxProximal =>
    case IndexFingerPhalanxIntermediate =>
    case IndexFingerPhalanxDistal =>
    case IndexFingerTip =>
    case MiddleFingerMetacarpal =>
    case MiddleFingerPhalanxProximal =>
    case MiddleFingerPhalanxIntermediate =>
    case MiddleFingerPhalanxDistal =>
    case MiddleFingerTip =>
    case RingFingerMetacarpal =>
    case RingFingerPhalanxProximal =>
    case RingFingerPhalanxIntermediate =>
    case RingFingerPhalanxDistal =>
    case RingFingerTip =>
    case PinkyFingerMetacarpal =>
    case PinkyFingerPhalanxProximal =>
    case PinkyFingerPhalanxIntermediate =>
    case PinkyFingerPhalanxDistal =>
    case PinkyFingerTip =>
  }

  /** The table undoes its platform-side inverse on every skeleton role. */
  lemma ToPlatformInverse(r: JointRole)
    requires IsSkeletonRole(r)
    ensures FromPlatform(ToPlatform(r).value) == r
  {
    match r
    case WristRole =>
    case FingerRole(f, j) =>
      match f
      case Thumb =>
      case Index =>
      case Middle =>
      case Ring =>
      case Little =>
  }

  /** The table and its inverse agree in both directions, so the table is a
      bijection between skeleton roles and the 25 platform joints. */
  lemma TableRoundTrip(r: JointRole, p: XrHandJoint)
    ensures ToPlatform(FromPlatform(p)) == Some(p)
    ensures ToPlatform(r) == Some(p) <==> (IsSkeletonRole(r) && FromPlatform(p) == r)
  {
    FromPlatformInverse(p);
    if IsSkeletonRole(r) {
      ToPlatformInverse(r);
    }
  }

  /** No two skeleton roles share a platform joint. */
  lemma TableInjective(r1: JointRole, r2: JointRole)
    requires IsSkeletonRole(r1) && IsSkeletonRole(r2)
    requires ToPlatform(r1) == ToPlatform(r2)
    ensures r1 == r2
  {
    TableRoundTrip(r1, ToPlatform(r1).value);
    TableRoundTrip(r2, ToPlatform(r2).value);
  }

  /** The little finger is the platform's pinky finger. */
  lemma LittleIsPinky(j: FingerJoint)
    requires j in Chain(Little)
    ensures ToPlatform(FingerRole(Little, j)) ==
      Some(match j
           case Metacarpal => PinkyFingerMetacarpal
           case ProximalPhalanx => PinkyFingerPhalanxProximal
           case IntermediatePhalanx => PinkyFingerPhalanxIntermediate
           case DistalPhalanx => PinkyFingerPhalanxDistal
           case Tip => PinkyFingerTip)
  {
  }

  lemma {:induction false} FingerRolesShape(f: Finger, js: seq<FingerJoint>)
    ensures |FingerRoles(f, js)| == |js|
    ensures forall k :: 0 <= k < |js| ==> FingerRoles(f, js)[k] == FingerRole(f, js[k])
  {
    if js != [] {
      FingerRolesShape(f, js[1..]);
    }
  }

  /** The position of a platform joint in the order section 3.1 of the WebXR
      Hand Input Module - Level 1 lists the joints. */
  function JointIndex(p: XrHandJoint): (k: nat)
    ensures k < 25
  {
    match p
    case Wrist => 0
    case ThumbMetacarpal => 1
    case ThumbPhalanxProximal => 2
    case ThumbPhalanxDistal => 3
    case ThumbTip => 4
    case IndexFingerMetacarpal => 5
    case IndexFingerPhalanxProximal => 6
    case IndexFingerPhalanxIntermediate => 7
    case IndexFingerPhalanxDistal => 8
    case IndexFingerTip => 9
    case MiddleFingerMetacarpal => 10
    case MiddleFingerPhalanxProximal => 11
    case MiddleFingerPhalanxIntermediate => 12
    case MiddleFingerPhalanxDistal => 13
    case MiddleFingerTip => 14
    case RingFingerMetacarpal => 15
    case RingFingerPhalanxProximal => 16
    case RingFingerPhalanxIntermediate => 17
    case RingFingerPhalanxDistal => 18
    case RingFingerTip => 19
    case PinkyFingerMetacarpal => 20
    case PinkyFingerPhalanxProximal => 21
    case PinkyFingerPhalanxIntermediate => 22
    case PinkyFingerPhalanxDistal => 23
    case PinkyFingerTip => 24
  }

  /** The walk order, written out. */
  const StandardRoles: seq<JointRole> := [WristRole,
      FingerRole(Thumb, Metacarpal), FingerRole(Thumb, ProximalPhalanx),
      FingerRole(Thumb, DistalPhalanx), FingerRole(Thumb, Tip),
      FingerRole(Index, Metacarpal), FingerRole(Index, ProximalPhalanx),
      FingerRole(Index, IntermediatePhalanx), FingerRole(Index, DistalPhalanx), FingerRole(Index, Tip),
      FingerRole(Middle, Metacarpal), FingerRole(Middle, ProximalPhalanx),
      FingerRole(Middle, IntermediatePhalanx), FingerRole(Middle, DistalPhalanx), FingerRole(Middle, Tip),
      FingerRole(Ring, Metacarpal), FingerRole(Ring, ProximalPhalanx),
      FingerRole(Ring, IntermediatePhalanx), FingerRole(Ring, DistalPhalanx), FingerRole(Ring, Tip),
      FingerRole(Little, Metacarpal), FingerRole(Little, ProximalPhalanx),
      FingerRole(Little, IntermediatePhalanx), FingerRole(Little, DistalPhalanx), FingerRole(Little, Tip)]

  /** The chains build exactly the written-out walk order. */
  lemma AllRolesListed()
    ensures AllRoles() == StandardRoles
  {
    FingerRolesShape(Thumb, Chain(Thumb));
    FingerRolesShape(Index, Chain(Index));
    FingerRolesShape(Middle, Chain(Middle));
    FingerRolesShape(Ring, Chain(Ring));
    FingerRolesShape(Little, Chain(Little));
  }

  /** The walk visits each role at the position of its platform joint in the
      standard's list. */
  lemma AllRolesFollowStandardOrder(k: nat)
    requires k < 25
    ensures |AllRoles()| == 25
    ensures IsSkeletonRole(AllRoles()[k])
    ensures JointIndex(ToPlatform(AllRoles()[k]).value) == k
  {
    AllRolesListed();
    StandardRolesIndexed(k);
  }

  lemma StandardRolesIndexed(k: nat)
    requires k < 25
    ensures IsSkeletonRole(StandardRoles[k])
    ensures JointIndex(ToPlatform(StandardRoles[k]).value) == k
  {
    if k < 5 { StandardRolesIndexedThumb(k); }
    else if k < 10 { StandardRolesIndexedIndex(k); }
    else if k < 15 { StandardRolesIndexedMiddle(k); }
    else if k < 20 { StandardRolesIndexedRing(k); }
    else { StandardRolesIndexedLittle(k); }
  }

  lemma StandardRolesIndexedThumb(k: nat)
    requires 0 <= k < 5
    ensures IsSkeletonRole(StandardRoles[k])
    ensures JointIndex(ToPlatform(StandardRoles[k]).value) == k
  {
    if k == 0 { assert StandardRoles[0] == WristRole; }
    else if k == 1 { assert StandardRoles[1] == FingerRole(Thumb, Metacarpal); }
    else if k == 2 { assert StandardRoles[2] == FingerRole(Thumb, ProximalPhalanx); }
    else if k == 3 { assert StandardRoles[3] == FingerRole(Thumb, DistalPhalanx); }
    else if k == 4 { assert StandardRoles[4] == FingerRole(Thumb, Tip); }
  }

  lemma StandardRolesIndexedIndex(k: nat)
    requires 5 <= k < 10
    ensures IsSkeletonRole(StandardRoles[k])
    ensures JointIndex(ToPlatform(StandardRoles[k]).value) == k
  {
    if k == 5 { assert StandardRoles[5] == FingerRole(Index, Metacarpal); }
    else if k == 6 { assert StandardRoles[6] == FingerRole(Index, ProximalPhalanx); }
    else if k == 7 { assert StandardRoles[7] == FingerRole(Index, IntermediatePhalanx); }
    else if k == 8 { assert StandardRoles[8] == FingerRole(Index, DistalPhalanx); }
    else if k == 9 { assert StandardRoles[9] == FingerRole(Index, Tip); }
  }

  lemma StandardRolesIndexedMiddle(k: nat)
    requires 10 <= k < 15
    ensures IsSkeletonRole(StandardRoles[k])
    ensures JointIndex(ToPlatform(StandardRoles[k]).value) == k
  {
    if k == 10 { assert StandardRoles[10] == FingerRole(Middle, Metacarpal); }
    else if k == 11 { assert StandardRoles[11] == FingerRole(Middle, ProximalPhalanx); }
    else if k == 12 { assert StandardRoles[12] == FingerRole(Middle, IntermediatePhalanx); }
    else if k == 13 { assert StandardRoles[13] == FingerRole(Middle, DistalPhalanx); }
    else if k == 14 { assert StandardRoles[14] == FingerRole(Middle, Tip); }
  }

  lemma StandardRolesIndexedRing(k: nat)
    requires 15 <= k < 20
    ensures IsSkeletonRole(StandardRoles[k])
    ensures JointIndex(ToPlatform(StandardRoles[k]).value) == k
  {
    if k == 15 { assert StandardRoles[15] == FingerRole(Ring, Metacarpal); }
    else if k == 16 { assert StandardRoles[16] == FingerRole(Ring, ProximalPhalanx); }
    else if k == 17 { assert StandardRoles[17] == FingerRole(Ring, IntermediatePhalanx); }
    else if k == 18 { assert StandardRoles[18] == FingerRole(Ring, DistalPhalanx); }
    else if k == 19 { assert StandardRoles[19] == FingerRole(Ring, Tip); }
  }

  lemma StandardRolesIndexedLittle(k: nat)
    requires 20 <= k < 25
    ensures IsSkeletonRole(StandardRoles[k])
    ensures JointIndex(ToPlatform(StandardRoles[k]).value) == k
  {
    if k == 20 { assert StandardRoles[20] == FingerRole(Little, Metacarpal); }
    else if k == 21 { assert StandardRoles[21] == FingerRole(Little, ProximalPhalanx); }
    else if k == 22 { assert StandardRoles[22] == FingerRole(Little, IntermediatePhalanx); }
    else if k == 23 { assert StandardRoles[23] == FingerRole(Little, DistalPhalanx); }
    else if k == 24 { assert StandardRoles[24] == FingerRole(Little, Tip); }
  }

  /** The skeleton has 25 joints per hand, the wrist, 4 thumb joints and 5
      joints for each other finger, with no role visited twice and every
      skeleton role visited. */
  lemma SkeletonShape()
    ensures |AllRoles()| == 25
    ensures forall k1, k2 :: 0 <= k1 < k2 < 25 ==> AllRoles()[k1] != AllRoles()[k2]
    ensures forall r :: IsSkeletonRole(r) ==> r in AllRoles()
  {
    AllRolesListed();
    forall k1, k2 | 0 <= k1 < k2 < 25
      ensures AllRoles()[k1] != AllRoles()[k2]
    {
      AllRolesFollowStandardOrder(k1);
      AllRolesFollowStandardOrder(k2);
    }
    forall r | IsSkeletonRole(r)
      ensures r in AllRoles()
    {
      var p := ToPlatform(r).value;
      FromPlatformInverse(p);
      ToPlatformInverse(r);
      var k := JointIndex(p);
      AllRolesFollowStandardOrder(k);
      var q := ToPlatform(AllRoles()[k]).value;
      JointIndexInjective(p, q);
      ToPlatformInverse(AllRoles()[k]);
    }
  }

  lemma JointIndexInjective(p: XrHandJoint, q: XrHandJoint)
    requires JointIndex(p) == JointIndex(q)
    ensures p == q
  {
  }
}
