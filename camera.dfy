/** The camera of the pose head. Weak-perspective parameters (a scale and
    a 2D translation) are predicted; the scale sets the depth of the root,
    and every decoded (u, v, d) joint is then back-projected through a
    pinhole at its own depth 2.2 d + camDepth. Also the camera-space root and
    the root-relative re-centring used outside training. */
module Camera {
  import opened Vectors

  /** Side of the square network input, in pixels. */
  const InputSize: real := 256.0

  /** Metric extent of the depth bins and of the normalised xy plane. */
  const BoxSize: real := 2.2

  /** Guard added to the scaled camera scale before dividing by it. */
  const DepthEpsilon: real := 0.000000001

  /** The predicted camera parameters: a scale, from which the root depth is
      derived, and an image-plane translation. */
  datatype Cam = Cam(scale: real, transX: real, transY: real)

  /** The camera the head starts from; the regressed camera is an offset to it. */
  const InitCam: Cam := Cam(0.9, 0.0, 0.0)

  /** `deccam(xc) + init_cam`: the regressed offset applied to the initial camera. */
  function PredCamera(offset: Cam): (c: Cam)
    ensures c.scale - offset.scale == InitCam.scale
    ensures c.transX - offset.transX == InitCam.transX && c.transY - offset.transY == InitCam.transY
  {
    Cam(offset.scale + InitCam.scale, offset.transX + InitCam.transX, offset.transY + InitCam.transY)
  }

  /** Whether the depth of a camera scale is defined (its denominator is not zero). */
  predicate DepthDefined(scale: real)
  {
    InputSize * scale + DepthEpsilon != 0.0
  }

  /** `focal / (input_size * scale + 1e-9)`: the root depth implied by the camera scale. */
  function CamDepth(focal: real, scale: real): (r: real)
    requires DepthDefined(scale)
    ensures r * (InputSize * scale + DepthEpsilon) == focal
    ensures focal > 0.0 && scale > 0.0 ==> r > 0.0
  {
    focal / (InputSize * scale + DepthEpsilon)
  }

  /** Back-projection of one decoded joint: the depth is kept, and the
      normalised image coordinates are scaled by the metric depth of the
      joint, shifted by the camera translation and expressed in box units. */
  function JointToCamera(p: Vec3, focal: real, cam: Cam, camDepth: real): (q: Vec3)
    requires focal != 0.0
    ensures q.z == p.z
    ensures q.x * BoxSize + cam.transX == p.x * InputSize / focal * (p.z * BoxSize + camDepth)
    ensures q.y * BoxSize + cam.transY == p.y * InputSize / focal * (p.z * BoxSize + camDepth)
  {
    var depth := p.z * BoxSize + camDepth;
    Vec3((p.x * InputSize / focal * depth - cam.transX) / BoxSize,
         (p.y * InputSize / focal * depth - cam.transY) / BoxSize,
         p.z)
  }

  /** Every joint of the row back-projected with the same camera. */
  function RowToCamera(uvd: seq<Vec3>, focal: real, cam: Cam, camDepth: real): (r: seq<Vec3>)
    requires focal != 0.0
    ensures |r| == |uvd|
    ensures forall j :: 0 <= j < |uvd| ==> r[j] == JointToCamera(uvd[j], focal, cam, camDepth)
  {
    seq(|uvd|, j requires 0 <= j < |uvd| => JointToCamera(uvd[j], focal, cam, camDepth))
  }

  /** `camera_root`: the root joint scaled back to metres with the camera
      translation and depth added back. */
  function CameraRoot(root: Vec3, cam: Cam, camDepth: real): Vec3
  {
    Vec3(root.x * BoxSize + cam.transX, root.y * BoxSize + cam.transY, root.z * BoxSize + camDepth)
  }

  /** Pinhole back-projection of the normalised image coordinates (x, y)
      and depth bin z of a joint: the camera-space point at depth
      Z = 2.2 z + camDepth seen at (x, y) through the focal length over the
      256-pixel input. */
  function Pinhole(p: Vec3, focal: real, camDepth: real): Vec3
    requires focal != 0.0
  {
    var depth := BoxSize * p.z + camDepth;
    Vec3(p.x * InputSize / focal * depth, p.y * InputSize / focal * depth, depth)
  }

  /** The translation subtracted during back-projection and added back to
      the root cancel: the camera-space root is the pinhole back-projection
      of the root, whatever the camera translation. */
  lemma CameraRootPinhole(p: Vec3, focal: real, cam: Cam, camDepth: real)
    requires focal != 0.0
    ensures CameraRoot(JointToCamera(p, focal, cam, camDepth), cam, camDepth) == Pinhole(p, focal, camDepth)
  {
    var q := JointToCamera(p, focal, cam, camDepth);
    assert q.z * BoxSize + camDepth == BoxSize * p.z + camDepth;
  }

  /** Pinhole projection of a camera-space point at non-zero depth into the
      normalised image coordinates and depth bin the head predicts. */
  function Project(point: Vec3, focal: real, camDepth: real): (p: Vec3)
    requires point.z != 0.0
    ensures BoxSize * p.z + camDepth == point.z
  {
    Vec3(point.x * focal / (InputSize * point.z),
         point.y * focal / (InputSize * point.z),
         (point.z - camDepth) / BoxSize)
  }

  /** The camera-space root inverts the projection: projecting a point and
      back-projecting it as the root recovers the point, whatever the
      translation of the camera. */
  lemma CameraRootOfProjection(point: Vec3, focal: real, cam: Cam, camDepth: real)
    requires point.z != 0.0 && focal != 0.0
    ensures CameraRoot(JointToCamera(Project(point, focal, camDepth), focal, cam, camDepth), cam, camDepth) == point
  {
    var p := Project(point, focal, camDepth);
    CameraRootPinhole(p, focal, cam, camDepth);
    Unproject(point.x, point.z, focal, p.x);
    Unproject(point.y, point.z, focal, p.y);
  }

  lemma Unproject(a: real, depth: real, focal: real, u: real)
    requires depth != 0.0 && focal != 0.0 && u == a * focal / (InputSize * depth)
    ensures u * InputSize / focal * depth == a
  {
    assert u * (InputSize * depth) == a * focal;
    assert u * InputSize * depth == a * focal;
  }

  /** `xyz - xyz[:, [0]]`: every joint shifted by the same vector, the root's opposite. */
  function RootRelative(xyz: seq<Vec3>): (r: seq<Vec3>)
    requires |xyz| > 0
    ensures |r| == |xyz|
    ensures r[0] == Origin
    ensures forall i, j :: 0 <= i < |xyz| && 0 <= j < |xyz| ==> Sub(r[i], r[j]) == Sub(xyz[i], xyz[j])
  {
    seq(|xyz|, j requires 0 <= j < |xyz| => Sub(xyz[j], xyz[0]))
  }

  /** Re-centring twice changes nothing more: a root-relative row is its own re-centring. */
  lemma RootRelativeIdempotent(xyz: seq<Vec3>)
    requires |xyz| > 0
    ensures RootRelative(RootRelative(xyz)) == RootRelative(xyz)
  {
    var r := RootRelative(xyz);
    forall j | 0 <= j < |xyz|
      ensures RootRelative(r)[j] == r[j]
    {
      assert Sub(r[j], r[0]) == Sub(xyz[j], xyz[0]);
    }
  }
}
