/** `uvd_to_cam`: decoded (u, v, d) joints mapped to input-image pixels and a
    depth offset, through an inverse affine crop transform and a camera
    intrinsic matrix, scaled by the absolute depth of every joint, optionally
    made relative to a given root joint and expressed in units of the depth
    factor. Everything is per batch item. */
module UvdToCam {
  import opened Vectors
  import opened Outcome

  /** A 2x3 affine transform, by rows. */
  datatype Affine = Affine(row0: Vec3, row1: Vec3)

  /** A 3x3 matrix, by rows. */
  datatype Mat3 = Mat3(row0: Vec3, row1: Vec3, row2: Vec3)

  /** Heatmap-to-input resolution factor. */
  const Stride: real := 4.0

  /** `(c + 0.5) * dim * 4`: a normalised heatmap coordinate in input-image pixels. */
  function ToPixel(c: real, dim: nat): real
  {
    (c + 0.5) * (dim as real) * Stride
  }

  /** A coordinate decoded from heatmap column w of `dim` columns lands on
      pixel 4w of the input image. */
  lemma ToPixelOfColumn(w: nat, dim: nat)
    requires dim > 0
    ensures ToPixel((w as real) / (dim as real) - 0.5, dim) == Stride * (w as real)
  {
    var n := dim as real;
    assert (w as real) / n * n == w as real;
  }

  function Apply(m: Mat3, p: Vec3): Vec3
  {
    Vec3(Dot(m.row0, p), Dot(m.row1, p), Dot(m.row2, p))
  }

  function Divide(p: Vec3, c: real): Vec3
    requires c != 0.0
  {
    Vec3(p.x / c, p.y / c, p.z / c)
  }

  /** One joint: pixel coordinates through the affine transform and the
      intrinsics, times the absolute depth `d * depthFactor + root.z`, made
      relative to the root if asked, over the depth factor. */
  function JointToCam(p: Vec3, transInv: Affine, intrinsic: Mat3, root: Vec3, depthFactor: real,
                      relative: bool, widthDim: nat, heightDim: nat): (q: Vec3)
    requires depthFactor != 0.0
    ensures var absolute := p.z * depthFactor + root.z;
      var ray := Apply(intrinsic, Vec3(
        Dot(transInv.row0, Vec3(ToPixel(p.x, widthDim), ToPixel(p.y, heightDim), 1.0)),
        Dot(transInv.row1, Vec3(ToPixel(p.x, widthDim), ToPixel(p.y, heightDim), 1.0)),
        1.0));
      Scale(q, depthFactor) == (if relative then Sub(Scale(ray, absolute), root) else Scale(ray, absolute))
  {
    var homo := Vec3(ToPixel(p.x, widthDim), ToPixel(p.y, heightDim), 1.0);
    var ray := Apply(intrinsic, Vec3(Dot(transInv.row0, homo), Dot(transInv.row1, homo), 1.0));
    var xyz := Scale(ray, p.z * depthFactor + root.z);
    var shifted := if relative then Sub(xyz, root) else xyz;
    var q := Divide(shifted, depthFactor);
    UnDivide(shifted, depthFactor, q);
    q
  }

  lemma UnDivide(p: Vec3, c: real, q: Vec3)
    requires c != 0.0 && q == Divide(p, c)
    ensures Scale(q, c) == p
  {
  }

  /** `uvd_to_cam` on one batch item: a rank failure unless the joints form
      a rank-3 tensor, every joint mapped independently otherwise. */
  function UvdToCam(uvd: seq<Vec3>, ndim: nat, transInv: Affine, intrinsic: Mat3, root: Vec3,
                    depthFactor: real, relative: bool, widthDim: nat, heightDim: nat): (r: Result<seq<Vec3>>)
    requires depthFactor != 0.0
    ensures r.Err? <==> ndim != 3
    ensures r.Err? ==> r.error == AssertionFailed
    ensures r.Ok? ==> |r.value| == |uvd| && forall j :: 0 <= j < |uvd| ==>
      r.value[j] == JointToCam(uvd[j], transInv, intrinsic, root, depthFactor, relative, widthDim, heightDim)
  {
    if ndim != 3 then Err(AssertionFailed)
    else Ok(seq(|uvd|, j requires 0 <= j < |uvd| =>
      JointToCam(uvd[j], transInv, intrinsic, root, depthFactor, relative, widthDim, heightDim)))
  }

  /** The relative output is the absolute output shifted by the root over the depth factor. */
  lemma RelativeIsShiftedAbsolute(uvd: seq<Vec3>, ndim: nat, transInv: Affine, intrinsic: Mat3, root: Vec3,
                                  depthFactor: real, widthDim: nat, heightDim: nat)
    requires depthFactor != 0.0 && ndim == 3
    ensures var rel := UvdToCam(uvd, ndim, transInv, intrinsic, root, depthFactor, true, widthDim, heightDim);
      var abs := UvdToCam(uvd, ndim, transInv, intrinsic, root, depthFactor, false, widthDim, heightDim);
      rel.Ok? && abs.Ok? && |rel.value| == |abs.value| &&
      forall j :: 0 <= j < |uvd| ==> Add(rel.value[j], Divide(root, depthFactor)) == abs.value[j]
  {
    var rel := UvdToCam(uvd, ndim, transInv, intrinsic, root, depthFactor, true, widthDim, heightDim);
    var abs := UvdToCam(uvd, ndim, transInv, intrinsic, root, depthFactor, false, widthDim, heightDim);
    forall j | 0 <= j < |uvd|
      ensures Add(rel.value[j], Divide(root, depthFactor)) == abs.value[j]
    {
      var a, b := rel.value[j], abs.value[j];
      ShiftBack(a, b, root, depthFactor);
    }
  }

  lemma ShiftBack(rel: Vec3, abs: Vec3, root: Vec3, c: real)
    requires c != 0.0 && Scale(rel, c) == Sub(Scale(abs, c), root)
    ensures Add(rel, Divide(root, c)) == abs
  {
    var ray := Scale(abs, c);
    CancelFactor(rel.x, abs.x, root.x, ray.x, c);
    CancelFactor(rel.y, abs.y, root.y, ray.y, c);
    CancelFactor(rel.z, abs.z, root.z, ray.z, c);
  }

  lemma CancelFactor(rel: real, abs: real, root: real, ray: real, c: real)
    requires c != 0.0 && c * rel == ray - root && c * abs == ray
    ensures rel + root / c == abs
  {
    assert c * (rel + root / c) == c * rel + root;
  }

  /** With the usual intrinsic matrix, whose last row is (0, 0, 1), the
      root-relative depth of every joint is its predicted depth d, and the
      absolute depth is d plus the root's depth over the depth factor. */
  lemma DepthOfJoint(p: Vec3, transInv: Affine, intrinsic: Mat3, root: Vec3, depthFactor: real,
                     widthDim: nat, heightDim: nat)
    requires depthFactor != 0.0 && intrinsic.row2 == Vec3(0.0, 0.0, 1.0)
    ensures JointToCam(p, transInv, intrinsic, root, depthFactor, true, widthDim, heightDim).z == p.z
    ensures JointToCam(p, transInv, intrinsic, root, depthFactor, false, widthDim, heightDim).z ==
      p.z + root.z / depthFactor
  {
    var rel := JointToCam(p, transInv, intrinsic, root, depthFactor, true, widthDim, heightDim);
    var abs := JointToCam(p, transInv, intrinsic, root, depthFactor, false, widthDim, heightDim);
    FactorOut(rel.z, p.z, 0.0, depthFactor);
    FactorOut(abs.z, p.z, root.z, depthFactor);
  }

  lemma FactorOut(q: real, d: real, shift: real, c: real)
    requires c != 0.0 && c * q == d * c + shift
    ensures q == d + shift / c
  {
    assert c * (d + shift / c) == d * c + shift;
  }
}
