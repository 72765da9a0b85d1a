/**
 * The keypoint codec: one holistic detection result (four independently
 * optional landmark sets) becomes one flat vector of coordinates.
 *
 * Every present set is flattened row-major, four values per point for the
 * pose (x, y, z, visibility) and three per point for the face and the two
 * hands (x, y, z); every absent set becomes a block of zeros of a fixed
 * width; the four blocks are concatenated as pose, face, left hand, right
 * hand. Coordinates are only copied, never computed on, so they are `real`.
 *
 * DecodeKeypoints is the inverse used to state what the layout means: on
 * detections with the detector's point counts, decoding an encoded vector
 * gives the detection back (with absent sets as all-zero points), and
 * encoding a decoded vector gives the vector back.
 */
module Keypoints {
  import opened Wrappers

  /** One landmark as the detector reports it. */
  datatype Landmark = Landmark(x: real, y: real, z: real, visibility: real)

  /** The detector's answer for one frame; each landmark set may be missing. */
  datatype DetectionResult = DetectionResult(
    pose: Option<seq<Landmark>>,
    face: Option<seq<Landmark>>,
    leftHand: Option<seq<Landmark>>,
    rightHand: Option<seq<Landmark>>)

  // Point counts of the holistic detector.
  const PosePoints: nat := 33
  const FacePoints: nat := 468
  const HandPoints: nat := 21

  // Widths of the zero blocks written for an absent set.
  const PoseWidth: nat := 132
  const FaceWidth: nat := 1404
  const HandWidth: nat := 63

  // Where each slot starts in a vector built from well-formed detections.
  const FaceOffset: nat := 132
  const LeftHandOffset: nat := 1536
  const RightHandOffset: nat := 1599
  const VectorLength: nat := 1662

  const ZeroLandmark := Landmark(0.0, 0.0, 0.0, 0.0)

  /** Every present set has exactly the detector's number of points. */
  predicate WellFormed(res: DetectionResult) {
    && (res.pose.Some? ==> |res.pose.value| == PosePoints)
    && (res.face.Some? ==> |res.face.value| == FacePoints)
    && (res.leftHand.Some? ==> |res.leftHand.value| == HandPoints)
    && (res.rightHand.Some? ==> |res.rightHand.value| == HandPoints)
  }

  predicate AllPresent(res: DetectionResult) {
    res.pose.Some? && res.face.Some? && res.leftHand.Some? && res.rightHand.Some?
  }

  /** The zero block written in place of an absent set. */
  function Zeros(n: nat): (r: seq<real>)
    ensures |r| == n && forall i :: 0 <= i < n ==> r[i] == 0.0
  {
    seq(n, _ => 0.0)
  }

  predicate AllZero(v: seq<real>) {
    forall i :: 0 <= i < |v| ==> v[i] == 0.0
  }

  function PoseRow(p: Landmark): seq<real> {
    [p.x, p.y, p.z, p.visibility]
  }

  function XyzRow(p: Landmark): seq<real> {
    [p.x, p.y, p.z]
  }

  /** r holds x, y, z, visibility of p from position `at` on. */
  predicate PoseRowAt(r: seq<real>, at: nat, p: Landmark) {
    at + 4 <= |r| && r[at] == p.x && r[at + 1] == p.y && r[at + 2] == p.z && r[at + 3] == p.visibility
  }

  /** r holds x, y, z of p from position `at` on. */
  predicate XyzRowAt(r: seq<real>, at: nat, p: Landmark) {
    at + 3 <= |r| && r[at] == p.x && r[at + 1] == p.y && r[at + 2] == p.z
  }

  /** Row-major flattening of pose landmarks: four values per point, point i at 4 * i. */
  function FlattenPose(pts: seq<Landmark>): (r: seq<real>)
    ensures |r| == 4 * |pts|
  {
    if pts == [] then [] else PoseRow(pts[0]) + FlattenPose(pts[1..])
  }

  /** Point i of flattened pose landmarks: its values in order from position 4 * i. */
  lemma {:induction false} FlattenPoseAt(pts: seq<Landmark>, i: nat)
    requires i < |pts|
    ensures PoseRowAt(FlattenPose(pts), 4 * i, pts[i])
  {
    if i > 0 {
      FlattenPoseAt(pts[1..], i - 1);
    }
  }

  /** Row-major flattening of face or hand landmarks: three values per point, point i at 3 * i. */
  function FlattenXyz(pts: seq<Landmark>): (r: seq<real>)
    ensures |r| == 3 * |pts|
  {
    if pts == [] then [] else XyzRow(pts[0]) + FlattenXyz(pts[1..])
  }

  /** Point i of flattened xyz landmarks: its values in order from position 3 * i. */
  lemma {:induction false} FlattenXyzAt(pts: seq<Landmark>, i: nat)
    requires i < |pts|
    ensures XyzRowAt(FlattenXyz(pts), 3 * i, pts[i])
  {
    if i > 0 {
      FlattenXyzAt(pts[1..], i - 1);
    }
  }

  /** The pose slot: the flattened points when present, 132 zeros when absent. */
  function PoseSlot(pose: Option<seq<Landmark>>): (r: seq<real>)
    ensures pose.None? ==> r == Zeros(PoseWidth)
    ensures pose.Some? ==> |r| == 4 * |pose.value|
  {
    match pose
    case Some(pts) => FlattenPose(pts)
    case None => Zeros(PoseWidth)
  }

  /** A face or hand slot: the flattened points when present, `width` zeros when absent. */
  function XyzSlot(lms: Option<seq<Landmark>>, width: nat): (r: seq<real>)
    ensures lms.None? ==> r == Zeros(width)
    ensures lms.Some? ==> |r| == 3 * |lms.value|
  {
    match lms
    case Some(pts) => FlattenXyz(pts)
    case None => Zeros(width)
  }

  /** The keypoint vector of one detection: pose, face, left hand, right hand. */
  function ExtractKeypoints(res: DetectionResult): (v: seq<real>)
    ensures |v| == |PoseSlot(res.pose)| + |XyzSlot(res.face, FaceWidth)|
                   + |XyzSlot(res.leftHand, HandWidth)| + |XyzSlot(res.rightHand, HandWidth)|
    ensures WellFormed(res) ==> |v| == VectorLength
  {
    PoseSlot(res.pose) + XyzSlot(res.face, FaceWidth)
      + XyzSlot(res.leftHand, HandWidth) + XyzSlot(res.rightHand, HandWidth)
  }

  // Offsets of the slots in ExtractKeypoints(res), whatever the point counts.
  function FaceStart(res: DetectionResult): nat {
    |PoseSlot(res.pose)|
  }

  function LeftHandStart(res: DetectionResult): nat {
    FaceStart(res) + |XyzSlot(res.face, FaceWidth)|
  }

  function RightHandStart(res: DetectionResult): nat {
    LeftHandStart(res) + |XyzSlot(res.leftHand, HandWidth)|
  }

  /** The four slots lie one after the other in the fixed order pose, face, left hand, right hand. */
  lemma {:induction false} SlotOrder(res: DetectionResult)
    ensures var v := ExtractKeypoints(res);
      && v[..FaceStart(res)] == PoseSlot(res.pose)
      && v[FaceStart(res)..LeftHandStart(res)] == XyzSlot(res.face, FaceWidth)
      && v[LeftHandStart(res)..RightHandStart(res)] == XyzSlot(res.leftHand, HandWidth)
      && v[RightHandStart(res)..] == XyzSlot(res.rightHand, HandWidth)
  {
    var p, f, l, r := PoseSlot(res.pose), XyzSlot(res.face, FaceWidth),
                      XyzSlot(res.leftHand, HandWidth), XyzSlot(res.rightHand, HandWidth);
    var v := ExtractKeypoints(res);
    assert v == ((p + f) + l) + r;
    assert v[..|p + f + l|] == p + f + l;
    assert (p + f + l)[..|p + f|] == p + f;
    assert (p + f)[|p|..] == f;
  }

  /** An absent set leaves a block of zeros of its fixed width at its slot. */
  lemma {:induction false} AbsentSlotIsZero(res: DetectionResult)
    ensures var v := ExtractKeypoints(res);
      && (res.pose.None? ==> FaceStart(res) == PoseWidth && AllZero(v[..PoseWidth]))
      && (res.face.None? ==> LeftHandStart(res) == FaceStart(res) + FaceWidth
                             && AllZero(v[FaceStart(res)..LeftHandStart(res)]))
      && (res.leftHand.None? ==> RightHandStart(res) == LeftHandStart(res) + HandWidth
                                 && AllZero(v[LeftHandStart(res)..RightHandStart(res)]))
      && (res.rightHand.None? ==> |v| == RightHandStart(res) + HandWidth
                                  && AllZero(v[RightHandStart(res)..]))
  {
    SlotOrder(res);
  }

  /** r appears in v from position lo on. */
  predicate Occurs(v: seq<real>, lo: nat, r: seq<real>) {
    lo + |r| <= |v| && forall j :: 0 <= j < |r| ==> v[lo + j] == r[j]
  }

  /** Point i of pts is found at lo + 4 * i in v, for every i. */
  predicate PoseRowsAt(v: seq<real>, lo: nat, pts: seq<Landmark>) {
    forall i :: 0 <= i < |pts| ==> PoseRowAt(v, lo + 4 * i, pts[i])
  }

  /** Point i of pts is found at lo + 3 * i in v, for every i. */
  predicate XyzRowsAt(v: seq<real>, lo: nat, pts: seq<Landmark>) {
    forall i :: 0 <= i < |pts| ==> XyzRowAt(v, lo + 3 * i, pts[i])
  }

  /** A present set is flattened row-major into its slot. */
  lemma {:induction false} PresentSlotIsRowMajor(res: DetectionResult)
    ensures var v := ExtractKeypoints(res);
      && (res.pose.Some? ==> PoseRowsAt(v, 0, res.pose.value))
      && (res.face.Some? ==> XyzRowsAt(v, FaceStart(res), res.face.value))
      && (res.leftHand.Some? ==> XyzRowsAt(v, LeftHandStart(res), res.leftHand.value))
      && (res.rightHand.Some? ==> XyzRowsAt(v, RightHandStart(res), res.rightHand.value))
  {
    var v := ExtractKeypoints(res);
    SlotsOccur(res);
    if res.pose.Some? {
      PoseRowsIn(v, 0, res.pose.value);
    }
    if res.face.Some? {
      XyzRowsIn(v, FaceStart(res), res.face.value);
    }
    if res.leftHand.Some? {
      XyzRowsIn(v, LeftHandStart(res), res.leftHand.value);
    }
    if res.rightHand.Some? {
      XyzRowsIn(v, RightHandStart(res), res.rightHand.value);
    }
  }

  /** Each slot appears in the vector at its offset. */
  lemma {:induction false} SlotsOccur(res: DetectionResult)
    ensures var v := ExtractKeypoints(res);
      && Occurs(v, 0, PoseSlot(res.pose))
      && Occurs(v, FaceStart(res), XyzSlot(res.face, FaceWidth))
      && Occurs(v, LeftHandStart(res), XyzSlot(res.leftHand, HandWidth))
      && Occurs(v, RightHandStart(res), XyzSlot(res.rightHand, HandWidth))
  {
    var v := ExtractKeypoints(res);
    SlotOrder(res);
    SliceOccurs(v, 0, FaceStart(res), PoseSlot(res.pose));
    SliceOccurs(v, FaceStart(res), LeftHandStart(res), XyzSlot(res.face, FaceWidth));
    SliceOccurs(v, LeftHandStart(res), RightHandStart(res), XyzSlot(res.leftHand, HandWidth));
    SliceOccurs(v, RightHandStart(res), |v|, XyzSlot(res.rightHand, HandWidth));
  }

  lemma {:induction false} SliceOccurs(v: seq<real>, lo: nat, hi: nat, r: seq<real>)
    requires lo <= hi <= |v| && v[lo..hi] == r
    ensures Occurs(v, lo, r)
  {
    forall j | 0 <= j < |r| ensures v[lo + j] == r[j] {
      assert v[lo..hi][j] == v[lo + j];
    }
  }

  /** Flattened pose points occurring in v from lo on put point i at lo + 4 * i. */
  lemma {:induction false} PoseRowsIn(v: seq<real>, lo: nat, pts: seq<Landmark>)
    requires Occurs(v, lo, FlattenPose(pts))
    ensures PoseRowsAt(v, lo, pts)
  {
    forall i | 0 <= i < |pts| ensures PoseRowAt(v, lo + 4 * i, pts[i]) {
      FlattenPoseAt(pts, i);
      PoseRowShift(v, lo, FlattenPose(pts), 4 * i, pts[i]);
    }
  }

  /** Flattened face or hand points occurring in v from lo on put point i at lo + 3 * i. */
  lemma {:induction false} XyzRowsIn(v: seq<real>, lo: nat, pts: seq<Landmark>)
    requires Occurs(v, lo, FlattenXyz(pts))
    ensures XyzRowsAt(v, lo, pts)
  {
    forall i | 0 <= i < |pts| ensures XyzRowAt(v, lo + 3 * i, pts[i]) {
      FlattenXyzAt(pts, i);
      XyzRowShift(v, lo, FlattenXyz(pts), 3 * i, pts[i]);
    }
  }

  /** A row found at `at` in r is found at lo + at in a vector where r occurs from lo on. */
  lemma {:induction false} PoseRowShift(v: seq<real>, lo: nat, r: seq<real>, at: nat, p: Landmark)
    requires Occurs(v, lo, r) && PoseRowAt(r, at, p)
    ensures PoseRowAt(v, lo + at, p)
  {
    assert v[lo + at] == r[at] && v[lo + (at + 1)] == r[at + 1];
    assert v[lo + (at + 2)] == r[at + 2] && v[lo + (at + 3)] == r[at + 3];
  }

  lemma {:induction false} XyzRowShift(v: seq<real>, lo: nat, r: seq<real>, at: nat, p: Landmark)
    requires Occurs(v, lo, r) && XyzRowAt(r, at, p)
    ensures XyzRowAt(v, lo + at, p)
  {
    assert v[lo + at] == r[at] && v[lo + (at + 1)] == r[at + 1] && v[lo + (at + 2)] == r[at + 2];
  }

  /**
   * With the detector's point counts, all sixteen present/absent combinations
   * give a vector of 1662 values whose slots start at 0, 132, 1536 and 1599.
   */
  lemma {:induction false} FixedLayout(res: DetectionResult)
    requires WellFormed(res)
    ensures var v := ExtractKeypoints(res);
      && |v| == VectorLength
      && v[..FaceOffset] == PoseSlot(res.pose)
      && v[FaceOffset..LeftHandOffset] == XyzSlot(res.face, FaceWidth)
      && v[LeftHandOffset..RightHandOffset] == XyzSlot(res.leftHand, HandWidth)
      && v[RightHandOffset..] == XyzSlot(res.rightHand, HandWidth)
  {
    SlotOrder(res);
  }

  // ----- The inverse: reading a keypoint vector back into landmarks -----

  function UnflattenPose(v: seq<real>): (pts: seq<Landmark>)
    requires |v| % 4 == 0
    ensures |pts| == |v| / 4
  {
    if v == [] then [] else [Landmark(v[0], v[1], v[2], v[3])] + UnflattenPose(v[4..])
  }

  /** Face and hand points carry no visibility in the vector; they come back with 0.0. */
  function UnflattenXyz(v: seq<real>): (pts: seq<Landmark>)
    requires |v| % 3 == 0
    ensures |pts| == |v| / 3
  {
    if v == [] then [] else [Landmark(v[0], v[1], v[2], 0.0)] + UnflattenXyz(v[3..])
  }

  /** Splits a vector of the fixed length into its four slots; any other length is refused. */
  function DecodeKeypoints(v: seq<real>): (r: Option<DetectionResult>)
    ensures r.Some? <==> |v| == VectorLength
    ensures r.Some? ==> WellFormed(r.value) && AllPresent(r.value)
  {
    if |v| != VectorLength then None
    else Some(DetectionResult(
      Some(UnflattenPose(v[..FaceOffset])),
      Some(UnflattenXyz(v[FaceOffset..LeftHandOffset])),
      Some(UnflattenXyz(v[LeftHandOffset..RightHandOffset])),
      Some(UnflattenXyz(v[RightHandOffset..]))))
  }

  function ZeroLandmarks(n: nat): (pts: seq<Landmark>)
    ensures |pts| == n
  {
    if n == 0 then [] else [ZeroLandmark] + ZeroLandmarks(n - 1)
  }

  function WithoutVisibility(p: Landmark): Landmark {
    Landmark(p.x, p.y, p.z, 0.0)
  }

  function DropVisibility(pts: seq<Landmark>): (r: seq<Landmark>)
    ensures |r| == |pts|
  {
    if pts == [] then [] else [WithoutVisibility(pts[0])] + DropVisibility(pts[1..])
  }

  function CanonicalXyz(lms: Option<seq<Landmark>>, n: nat): seq<Landmark> {
    match lms
    case Some(pts) => DropVisibility(pts)
    case None => ZeroLandmarks(n)
  }

  /**
   * What the vector keeps of a detection: every set present, an absent one
   * as all-zero points, face and hand visibility erased.
   */
  function Canonical(res: DetectionResult): DetectionResult {
    DetectionResult(
      Some(if res.pose.Some? then res.pose.value else ZeroLandmarks(PosePoints)),
      Some(CanonicalXyz(res.face, FacePoints)),
      Some(CanonicalXyz(res.leftHand, HandPoints)),
      Some(CanonicalXyz(res.rightHand, HandPoints)))
  }

  lemma {:induction false} UnflattenFlattenPose(pts: seq<Landmark>)
    ensures UnflattenPose(FlattenPose(pts)) == pts
  {
    if pts != [] {
      var v := FlattenPose(pts);
      assert v[4..] == FlattenPose(pts[1..]);
      UnflattenFlattenPose(pts[1..]);
    }
  }

  lemma {:induction false} UnflattenFlattenXyz(pts: seq<Landmark>)
    ensures UnflattenXyz(FlattenXyz(pts)) == DropVisibility(pts)
  {
    if pts != [] {
      var v := FlattenXyz(pts);
      assert v[3..] == FlattenXyz(pts[1..]);
      UnflattenFlattenXyz(pts[1..]);
    }
  }

  lemma {:induction false} FlattenUnflattenPose(v: seq<real>)
    requires |v| % 4 == 0
    ensures FlattenPose(UnflattenPose(v)) == v
  {
    if v != [] {
      var pts := UnflattenPose(v);
      assert pts[1..] == UnflattenPose(v[4..]);
      FlattenUnflattenPose(v[4..]);
      assert v == v[..4] + v[4..];
    }
  }

  lemma {:induction false} FlattenUnflattenXyz(v: seq<real>)
    requires |v| % 3 == 0
    ensures FlattenXyz(UnflattenXyz(v)) == v
  {
    if v != [] {
      var pts := UnflattenXyz(v);
      assert pts[1..] == UnflattenXyz(v[3..]);
      FlattenUnflattenXyz(v[3..]);
      assert v == v[..3] + v[3..];
    }
  }

  lemma {:induction false} UnflattenZerosPose(v: seq<real>)
    requires |v| % 4 == 0 && AllZero(v)
    ensures UnflattenPose(v) == ZeroLandmarks(|v| / 4)
  {
    if v != [] {
      UnflattenZerosPose(v[4..]);
    }
  }

  lemma {:induction false} UnflattenZerosXyz(v: seq<real>)
    requires |v| % 3 == 0 && AllZero(v)
    ensures UnflattenXyz(v) == ZeroLandmarks(|v| / 3)
  {
    if v != [] {
      UnflattenZerosXyz(v[3..]);
    }
  }

  lemma {:induction false} DecodeXyzSlot(lms: Option<seq<Landmark>>, n: nat, width: nat)
    requires width == 3 * n
    requires lms.Some? ==> |lms.value| == n
    ensures |XyzSlot(lms, width)| == width
    ensures UnflattenXyz(XyzSlot(lms, width)) == CanonicalXyz(lms, n)
  {
    match lms
    case Some(pts) => UnflattenFlattenXyz(pts);
    case None => UnflattenZerosXyz(Zeros(width));
  }

  /**
   * Decoding an encoded detection gives it back, up to what the vector does
   * not keep (absent sets, face and hand visibility).
   */
  lemma {:induction false} DecodeExtract(res: DetectionResult)
    requires WellFormed(res)
    ensures DecodeKeypoints(ExtractKeypoints(res)) == Some(Canonical(res))
  {
    FixedLayout(res);
    if res.pose.Some? {
      UnflattenFlattenPose(res.pose.value);
    } else {
      UnflattenZerosPose(Zeros(PoseWidth));
    }
    DecodeXyzSlot(res.face, FacePoints, FaceWidth);
    DecodeXyzSlot(res.leftHand, HandPoints, HandWidth);
    DecodeXyzSlot(res.rightHand, HandPoints, HandWidth);
  }

  /** Encoding a decoded vector gives the vector back: no value of the vector is lost. */
  lemma {:induction false} ExtractDecode(v: seq<real>)
    requires |v| == VectorLength
    ensures ExtractKeypoints(DecodeKeypoints(v).value) == v
  {
    FlattenUnflattenPose(v[..FaceOffset]);
    FlattenUnflattenXyz(v[FaceOffset..LeftHandOffset]);
    FlattenUnflattenXyz(v[LeftHandOffset..RightHandOffset]);
    FlattenUnflattenXyz(v[RightHandOffset..]);
    assert v == v[..FaceOffset] + v[FaceOffset..LeftHandOffset]
              + v[LeftHandOffset..RightHandOffset] + v[RightHandOffset..];
  }

  /**
   * The vector determines the canonical detection: two well-formed detections
   * with the same vector agree on every coordinate the vector keeps.
   */
  lemma {:induction false} ExtractDeterminesCanonical(a: DetectionResult, b: DetectionResult)
    requires WellFormed(a) && WellFormed(b)
    ensures ExtractKeypoints(a) == ExtractKeypoints(b) <==> Canonical(a) == Canonical(b)
  {
    DecodeExtract(a);
    DecodeExtract(b);
    if Canonical(a) == Canonical(b) {
      ExtractCanonical(a);
      ExtractCanonical(b);
    }
  }

  /**
   * Zero-fill makes an absent set indistinguishable from a present set of
   * all-zero points: a detection and its canonical form encode alike.
   */
  lemma {:induction false} ExtractCanonical(res: DetectionResult)
    requires WellFormed(res)
    ensures WellFormed(Canonical(res))
    ensures ExtractKeypoints(Canonical(res)) == ExtractKeypoints(res)
  {
    DecodeExtract(res);
    ExtractDecode(ExtractKeypoints(res));
  }

  /** The scenario of a frame where only the pose was found. */
  lemma {:induction false} OnlyPoseDetected(pts: seq<Landmark>)
    requires |pts| == PosePoints
    ensures var v := ExtractKeypoints(DetectionResult(Some(pts), None, None, None));
      && |v| == VectorLength
      && v[..FaceOffset] == FlattenPose(pts)
      && AllZero(v[FaceOffset..])
  {
    var res := DetectionResult(Some(pts), None, None, None);
    FixedLayout(res);
  }
}
