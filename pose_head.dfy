/** The geometric part of the pose head's forward pass for one batch item:
    heatmap normalisation and decoding, the camera and the back-projection of
    the decoded joints, root-relative re-centring outside training, and the
    optional flip test that mirrors the prediction for a flipped input and
    averages it with the prediction for the original input. The network
    layers that produce the heatmap logits and the regressed shape, twist and
    camera offsets are inputs here. */
module PoseHead {
  import opened Sums
  import opened Vectors
  import opened Outcome
  import opened Symmetry
  import opened Flip
  import opened Heatmap
  import opened Camera

  // ---------------------------------------------------------------------
  // Flip-test averaging
  // ---------------------------------------------------------------------

  /** `(p + q) / 2`, per component. */
  function Midpoint(p: Vec3, q: Vec3): Vec3
  {
    Vec3((p.x + q.x) / 2.0, (p.y + q.y) / 2.0, (p.z + q.z) / 2.0)
  }

  function MidTwist(s: Twist, t: Twist): Twist
  {
    Twist((s.cos + t.cos) / 2.0, (s.sin + t.sin) / 2.0)
  }

  function AverageJoints(a: seq<Vec3>, b: seq<Vec3>): (r: seq<Vec3>)
    requires |a| == |b|
    ensures |r| == |a| && forall j :: 0 <= j < |a| ==> r[j] == Midpoint(a[j], b[j])
  {
    seq(|a|, j requires 0 <= j < |a| => Midpoint(a[j], b[j]))
  }

  function AverageTwists(a: seq<Twist>, b: seq<Twist>): (r: seq<Twist>)
    requires |a| == |b|
    ensures |r| == |a| && forall j :: 0 <= j < |a| ==> r[j] == MidTwist(a[j], b[j])
  {
    seq(|a|, j requires 0 <= j < |a| => MidTwist(a[j], b[j]))
  }

  function AverageReals(a: seq<real>, b: seq<real>): (r: seq<real>)
    requires |a| == |b|
    ensures |r| == |a| && forall j :: 0 <= j < |a| ==> r[j] == (a[j] + b[j]) / 2.0
  {
    seq(|a|, j requires 0 <= j < |a| => (a[j] + b[j]) / 2.0)
  }

  /** Averaging a prediction with itself returns it. */
  lemma AverageSelf(a: seq<Vec3>, t: seq<Twist>, s: seq<real>)
    ensures AverageJoints(a, a) == a
    ensures AverageTwists(t, t) == t
    ensures AverageReals(s, s) == s
  {
  }

  /** The xyz flip is linear: flipping an average is averaging the flips. */
  lemma FlipXyzOfAverage(a: seq<Vec3>, b: seq<Vec3>)
    requires |a| == NumJoints && |b| == NumJoints
    ensures FlipXyzRow(AverageJoints(a, b)) == AverageJoints(FlipXyzRow(a), FlipXyzRow(b))
  {
    forall j | 0 <= j < NumJoints
      ensures FlipXyzRow(AverageJoints(a, b))[j] == AverageJoints(FlipXyzRow(a), FlipXyzRow(b))[j]
    {
      FlipXyzAt(AverageJoints(a, b), j);
      FlipXyzAt(a, j);
      FlipXyzAt(b, j);
    }
  }

  /** The twist flip is linear: flipping an average is averaging the flips. */
  lemma FlipPhiOfAverage(a: seq<Twist>, b: seq<Twist>)
    requires |a| == NumTwists && |b| == NumTwists
    ensures FlipPhiRow(AverageTwists(a, b)) == AverageTwists(FlipPhiRow(a), FlipPhiRow(b))
  {
    forall j | 0 <= j < NumTwists
      ensures FlipPhiRow(AverageTwists(a, b))[j] == AverageTwists(FlipPhiRow(a), FlipPhiRow(b))[j]
    {
      FlipPhiAt(AverageTwists(a, b), j);
      FlipPhiAt(a, j);
      FlipPhiAt(b, j);
    }
  }

  /** Flip test on a mirror-consistent prediction: if the prediction for the
      flipped input is the flip of the prediction for the original input,
      flipping it back and averaging returns the original prediction. */
  lemma FlipTestConsistent(orig: seq<Vec3>, origPhi: seq<Twist>)
    requires |orig| == NumJoints && |origPhi| == NumTwists
    ensures AverageJoints(FlipXyzRow(FlipXyzRow(orig)), orig) == orig
    ensures AverageTwists(FlipPhiRow(FlipPhiRow(origPhi)), origPhi) == origPhi
  {
    FlipXyzInvolutive(orig);
    FlipPhiInvolutive(origPhi);
    AverageSelf(orig, origPhi, []);
  }

  /** The root is in no pair, so the xyz flip keeps a root at the origin there. */
  lemma FlipKeepsRootAtOrigin(row: seq<Vec3>)
    requires |row| == NumJoints && row[0] == Origin
    ensures FlipXyzRow(row)[0] == Origin
  {
    assert !Listed(JointPairs29, 0) by {
      Pairs29IsPairing();
      forall i | 0 <= i < |JointPairs29|
        ensures JointPairs29[i].0 != 0 && JointPairs29[i].1 != 0
      {
      }
    }
  }

  // ---------------------------------------------------------------------
  // The forward pass for one batch item
  // ---------------------------------------------------------------------

  /** Construction-time settings of the head that the geometry depends on. */
  datatype HeadConfig = HeadConfig(
    normType: string,
    depthDim: nat, heightDim: nat, widthDim: nat,
    focalLength: real,
    isTrain: bool)

  /** What the fully-connected layers regress: a shape offset, 23 twists as
      46 flat values, and a camera offset. */
  datatype Regression = Regression(deltaShape: seq<real>, phi: seq<real>, camOffset: Cam)

  /** The prediction for the original input, supplied when predicting for
      its mirror image. Its leaf part is unused by the forward pass. */
  datatype FlipItem = FlipItem(xyz: seq<Vec3>, phi: seq<Twist>, shape: seq<real>)

  /** Number of joints of the body model's skeleton, the first joints of the
      29-joint prediction. */
  const NumBodyJoints: int := 24

  /** The outputs of the forward pass that do not need the body model:
      `xyz24` is the first 24 output joints at half scale. */
  datatype HeadOutput = HeadOutput(
    uvd: seq<Vec3>, maxvals: seq<real>,
    xyz: seq<Vec3>, xyz24: seq<Vec3>, phi: seq<Twist>,
    shape: seq<real>, deltaShape: seq<real>,
    cam: Cam, camRoot: Vec3)

  /** `pred_phi.reshape(batch, 23, 2)`: consecutive value pairs as twists. */
  function Twists(flat: seq<real>): (r: seq<Twist>)
    requires |flat| == 2 * NumTwists
    ensures |r| == NumTwists
    ensures forall k :: 0 <= k < NumTwists ==> r[k] == Twist(flat[2 * k], flat[2 * k + 1])
  {
    seq(NumTwists, k requires 0 <= k < NumTwists => Twist(flat[2 * k], flat[2 * k + 1]))
  }

  /** The twists written back as a flat row, cosine before sine. */
  function Flatten(phi: seq<Twist>): (r: seq<real>)
    ensures |r| == 2 * |phi|
  {
    if |phi| == 0 then [] else [phi[0].cos, phi[0].sin] + Flatten(phi[1..])
  }

  lemma {:induction false} FlattenAt(phi: seq<Twist>, k: nat)
    requires k < |phi|
    ensures Flatten(phi)[2 * k] == phi[k].cos && Flatten(phi)[2 * k + 1] == phi[k].sin
  {
    if k > 0 {
      FlattenAt(phi[1..], k - 1);
      assert Flatten(phi)[2 * k] == Flatten(phi[1..])[2 * (k - 1)];
      assert Flatten(phi)[2 * k + 1] == Flatten(phi[1..])[2 * (k - 1) + 1];
    }
  }

  /** Reading the 46 regressed values as twists loses nothing: writing the
      twists back gives the values. */
  lemma TwistsRoundTrip(flat: seq<real>)
    requires |flat| == 2 * NumTwists
    ensures Flatten(Twists(flat)) == flat
  {
    var phi := Twists(flat);
    forall i | 0 <= i < |flat|
      ensures Flatten(phi)[i] == flat[i]
    {
      var k := i / 2;
      FlattenAt(phi, k);
      assert i == 2 * k || i == 2 * k + 1;
    }
  }

  /** Every 23 twists are the reading of their own flat row. */
  lemma FlattenRoundTrip(phi: seq<Twist>)
    requires |phi| == NumTwists
    ensures Twists(Flatten(phi)) == phi
  {
    forall k | 0 <= k < NumTwists
      ensures Twists(Flatten(phi))[k] == phi[k]
    {
      FlattenAt(phi, k);
    }
  }

  /** `delta_shape + init_shape`. */
  function AddReals(a: seq<real>, b: seq<real>): (r: seq<real>)
    requires |a| == |b|
    ensures |r| == |a| && forall i :: 0 <= i < |a| ==> r[i] - b[i] == a[i]
  {
    seq(|a|, i requires 0 <= i < |a| => a[i] + b[i])
  }

  /** What the forward pass needs of its inputs beyond the normalisation
      type: 29 heatmaps whose softmax has the voxel count of a cube volume
      and non-zero mass, a usable focal length and camera scale, 46 twist
      values, a shape offset per shape parameter, and a flip item of the
      prediction's own sizes. */
  predicate WellFormed(cfg: HeadConfig, logits: seq<seq<real>>, softmax: seq<real> -> seq<real>,
                       reg: Regression, initShape: seq<real>, flipItem: Option<FlipItem>, flipOutput: bool)
  {
    |logits| == NumJoints &&
    CubeVolume(cfg.depthDim, cfg.heightDim, cfg.widthDim) &&
    (cfg.normType == "softmax" ==> forall j :: 0 <= j < |logits| ==>
      |softmax(logits[j])| == cfg.depthDim * (cfg.heightDim * cfg.widthDim) && Sum(softmax(logits[j])) != 0.0) &&
    cfg.focalLength != 0.0 &&
    DepthDefined(PredCamera(reg.camOffset).scale) &&
    |reg.phi| == 2 * NumTwists &&
    |reg.deltaShape| == |initShape| &&
    (flipOutput && flipItem.Some? ==>
      |flipItem.value.xyz| == NumJoints && |flipItem.value.phi| == NumTwists &&
      |flipItem.value.shape| == |initShape|)
  }

  /** Decoding of every joint's normalised heatmap. */
  function DecodeAll(heatmaps: seq<seq<real>>, cfg: HeadConfig): (r: seq<Decoded>)
    requires CubeVolume(cfg.depthDim, cfg.heightDim, cfg.widthDim)
    requires forall j :: 0 <= j < |heatmaps| ==>
      |heatmaps[j]| == cfg.depthDim * (cfg.heightDim * cfg.widthDim) && Sum(heatmaps[j]) != 0.0
    ensures |r| == |heatmaps|
    ensures forall j :: 0 <= j < |heatmaps| ==>
      r[j] == DecodeJoint(heatmaps[j], cfg.depthDim, cfg.heightDim, cfg.widthDim)
  {
    seq(|heatmaps|, j requires 0 <= j < |heatmaps| =>
      DecodeJoint(heatmaps[j], cfg.depthDim, cfg.heightDim, cfg.widthDim))
  }

  /** The back-projected joints, re-centred on the root outside training. */
  function CentredJoints(uvd: seq<Vec3>, cfg: HeadConfig, cam: Cam, camDepth: real): (r: seq<Vec3>)
    requires |uvd| == NumJoints && cfg.focalLength != 0.0
    ensures |r| == NumJoints
    ensures !cfg.isTrain ==> r[0] == Origin
  {
    var xyz := RowToCamera(uvd, cfg.focalLength, cam, camDepth);
    if cfg.isTrain then xyz else RootRelative(xyz)
  }

  /** The xyz part of the forward pass from the decoded joints on. */
  function CameraJoints(uvd: seq<Vec3>, cfg: HeadConfig, cam: Cam, camDepth: real,
                        flipItem: Option<FlipItem>, flipOutput: bool): (r: seq<Vec3>)
    requires |uvd| == NumJoints && cfg.focalLength != 0.0
    requires flipOutput && flipItem.Some? ==> |flipItem.value.xyz| == NumJoints
    ensures |r| == NumJoints
  {
    var centred := CentredJoints(uvd, cfg, cam, camDepth);
    var flipped := if flipOutput then FlipXyzRow(centred) else centred;
    if flipOutput && flipItem.Some? then AverageJoints(flipped, flipItem.value.xyz) else flipped
  }

  /** The forward pass of the head for one batch item, after the network
      layers: `NotImplemented` for an unknown normalisation, the decoded,
      back-projected, re-centred and flip-averaged prediction otherwise. */
  function Execute(cfg: HeadConfig, logits: seq<seq<real>>, softmax: seq<real> -> seq<real>,
                   reg: Regression, initShape: seq<real>, flipItem: Option<FlipItem>, flipOutput: bool)
    : (r: Result<HeadOutput>)
    requires WellFormed(cfg, logits, softmax, reg, initShape, flipItem, flipOutput)
    ensures r.Err? <==> cfg.normType != "softmax"
    ensures r.Err? ==> r.error == NotImplemented
    ensures r.Ok? ==>
      |r.value.uvd| == NumJoints && |r.value.maxvals| == NumJoints &&
      |r.value.xyz| == NumJoints && |r.value.phi| == NumTwists && |r.value.shape| == |initShape|
    ensures r.Ok? ==> |r.value.xyz24| == NumBodyJoints
  {
    match NormHeatmap(cfg.normType, logits, softmax)
    case Err(e) => Err(e)
    case Ok(heatmaps) =>
      var decoded := DecodeAll(heatmaps, cfg);
      var uvd := seq(NumJoints, j requires 0 <= j < NumJoints => decoded[j].uvd);
      var maxvals := seq(NumJoints, j requires 0 <= j < NumJoints => decoded[j].maxval);
      var cam := PredCamera(reg.camOffset);
      var camDepth := CamDepth(cfg.focalLength, cam.scale);
      var xyz := RowToCamera(uvd, cfg.focalLength, cam, camDepth);
      var camRoot := CameraRoot(xyz[0], cam, camDepth);
      var xyzOut := CameraJoints(uvd, cfg, cam, camDepth, flipItem, flipOutput);
      var xyz24 := seq(NumBodyJoints, j requires 0 <= j < NumBodyJoints => Scale(xyzOut[j], 0.5));
      var phi := Twists(reg.phi);
      var phiFlipped := if flipOutput then FlipPhiRow(phi) else phi;
      var shape := AddReals(reg.deltaShape, initShape);
      var averaged := flipOutput && flipItem.Some?;
      var phiOut := if averaged then AverageTwists(phiFlipped, flipItem.value.phi) else phiFlipped;
      var shapeOut := if averaged then AverageReals(shape, flipItem.value.shape) else shape;
      Ok(HeadOutput(uvd, maxvals, xyzOut, xyz24, phiOut, shapeOut, reg.deltaShape, cam, camRoot))
  }

  // ---------------------------------------------------------------------
  // Properties of the forward pass
  // ---------------------------------------------------------------------

  /** The camera-space root is the pinhole back-projection of the decoded
      root at depth 2.2 d + camDepth, with camDepth = f / (256 s + 1e-9)
      for the predicted camera scale s. */
  lemma ExecuteCameraRoot(cfg: HeadConfig, logits: seq<seq<real>>, softmax: seq<real> -> seq<real>,
                          reg: Regression, initShape: seq<real>, flipItem: Option<FlipItem>, flipOutput: bool)
    requires WellFormed(cfg, logits, softmax, reg, initShape, flipItem, flipOutput)
    requires cfg.normType == "softmax"
    ensures var out := Execute(cfg, logits, softmax, reg, initShape, flipItem, flipOutput).value;
      out.cam == PredCamera(reg.camOffset) &&
      out.camRoot == Pinhole(out.uvd[0], cfg.focalLength, CamDepth(cfg.focalLength, out.cam.scale))
  {
    var out := Execute(cfg, logits, softmax, reg, initShape, flipItem, flipOutput).value;
    ExecuteCamera(cfg, logits, softmax, reg, initShape, flipItem, flipOutput);
    CameraRootPinhole(out.uvd[0], cfg.focalLength, out.cam, CamDepth(cfg.focalLength, out.cam.scale));
  }

  /** The camera outputs as the forward pass binds them; the step of
      `ExecuteCameraRoot` before the cancellation of the translation. */
  lemma ExecuteCamera(cfg: HeadConfig, logits: seq<seq<real>>, softmax: seq<real> -> seq<real>,
                      reg: Regression, initShape: seq<real>, flipItem: Option<FlipItem>, flipOutput: bool)
    requires WellFormed(cfg, logits, softmax, reg, initShape, flipItem, flipOutput)
    requires cfg.normType == "softmax"
    ensures var out := Execute(cfg, logits, softmax, reg, initShape, flipItem, flipOutput).value;
      var camDepth := CamDepth(cfg.focalLength, out.cam.scale);
      out.cam == PredCamera(reg.camOffset) &&
      out.camRoot == CameraRoot(JointToCamera(out.uvd[0], cfg.focalLength, out.cam, camDepth), out.cam, camDepth)
  {
  }

  /** Outside training the root joint of the output is exactly the origin,
      unless the flip test averages it with a prediction whose root is not. */
  lemma ExecuteRootAtOrigin(cfg: HeadConfig, logits: seq<seq<real>>, softmax: seq<real> -> seq<real>,
                            reg: Regression, initShape: seq<real>, flipItem: Option<FlipItem>, flipOutput: bool)
    requires WellFormed(cfg, logits, softmax, reg, initShape, flipItem, flipOutput)
    requires cfg.normType == "softmax" && !cfg.isTrain
    requires flipOutput && flipItem.Some? ==> flipItem.value.xyz[0] == Origin
    ensures var out := Execute(cfg, logits, softmax, reg, initShape, flipItem, flipOutput).value;
      out.xyz[0] == Origin && out.xyz24[0] == Origin
  {
    var out := Execute(cfg, logits, softmax, reg, initShape, flipItem, flipOutput).value;
    var cam := PredCamera(reg.camOffset);
    var camDepth := CamDepth(cfg.focalLength, cam.scale);
    var centred := CentredJoints(out.uvd, cfg, cam, camDepth);
    if flipOutput {
      FlipKeepsRootAtOrigin(centred);
    }
    assert out.xyz24[0] == Scale(out.xyz[0], 0.5);
  }

  /** The 24-joint output is the body-model part of the 29 output joints at
      half scale: doubling it gives the first 24 output joints back. */
  lemma ExecuteBodyJoints(cfg: HeadConfig, logits: seq<seq<real>>, softmax: seq<real> -> seq<real>,
                          reg: Regression, initShape: seq<real>, flipItem: Option<FlipItem>, flipOutput: bool)
    requires WellFormed(cfg, logits, softmax, reg, initShape, flipItem, flipOutput)
    requires cfg.normType == "softmax"
    ensures var out := Execute(cfg, logits, softmax, reg, initShape, flipItem, flipOutput).value;
      forall j :: 0 <= j < NumBodyJoints ==> Scale(out.xyz24[j], 2.0) == out.xyz[j]
  {
    var out := Execute(cfg, logits, softmax, reg, initShape, flipItem, flipOutput).value;
    forall j | 0 <= j < NumBodyJoints
      ensures Scale(out.xyz24[j], 2.0) == out.xyz[j]
    {
      assert out.xyz24[j] == Scale(out.xyz[j], 0.5);
      DoubleHalf(out.xyz[j]);
    }
  }

  lemma DoubleHalf(p: Vec3)
    ensures Scale(Scale(p, 0.5), 2.0) == p
  {
  }

  /** The flip test on a mirror-consistent network. When the prediction for
      the mirrored input is, before it is flipped back, the mirror of the
      supplied prediction for the original input, the output joints, twists
      and shape are the supplied ones. */
  lemma ExecuteFlipTest(cfg: HeadConfig, logits: seq<seq<real>>, softmax: seq<real> -> seq<real>,
                        reg: Regression, initShape: seq<real>, item: FlipItem)
    requires WellFormed(cfg, logits, softmax, reg, initShape, Some(item), true)
    requires cfg.normType == "softmax"
    ensures var out := Execute(cfg, logits, softmax, reg, initShape, Some(item), true).value;
      var camDepth := CamDepth(cfg.focalLength, out.cam.scale);
      (CentredJoints(out.uvd, cfg, out.cam, camDepth) == FlipXyzRow(item.xyz) ==> out.xyz == item.xyz) &&
      (Twists(reg.phi) == FlipPhiRow(item.phi) ==> out.phi == item.phi) &&
      (AddReals(reg.deltaShape, initShape) == item.shape ==> out.shape == item.shape)
  {
    var out := Execute(cfg, logits, softmax, reg, initShape, Some(item), true).value;
    var camDepth := CamDepth(cfg.focalLength, out.cam.scale);
    var centred := CentredJoints(out.uvd, cfg, out.cam, camDepth);
    assert out.xyz == AverageJoints(FlipXyzRow(centred), item.xyz);
    assert out.phi == AverageTwists(FlipPhiRow(Twists(reg.phi)), item.phi);
    assert out.shape == AverageReals(AddReals(reg.deltaShape, initShape), item.shape);
    FlipTestConsistent(item.xyz, item.phi);
    AverageSelf([], [], item.shape);
  }

  /** Without averaging, the twist and shape outputs keep what was
      regressed: the twists, flipped back when the flip test is on, write
      back to the 46 regressed values, and the predicted shape exceeds the
      initial shape by exactly the output shape offset. */
  lemma ExecuteTwistsAndShape(cfg: HeadConfig, logits: seq<seq<real>>, softmax: seq<real> -> seq<real>,
                              reg: Regression, initShape: seq<real>, flipItem: Option<FlipItem>, flipOutput: bool)
    requires WellFormed(cfg, logits, softmax, reg, initShape, flipItem, flipOutput)
    requires cfg.normType == "softmax" && !(flipOutput && flipItem.Some?)
    ensures var out := Execute(cfg, logits, softmax, reg, initShape, flipItem, flipOutput).value;
      Flatten(if flipOutput then FlipPhiRow(out.phi) else out.phi) == reg.phi &&
      forall i :: 0 <= i < |initShape| ==> out.shape[i] - initShape[i] == out.deltaShape[i]
  {
    var phi := Twists(reg.phi);
    TwistsRoundTrip(reg.phi);
    FlipPhiInvolutive(phi);
  }

  /** Without the flip test, the depth of every output joint is its decoded
      depth, taken relative to the root's outside training. */
  lemma ExecuteKeepsDepth(cfg: HeadConfig, logits: seq<seq<real>>, softmax: seq<real> -> seq<real>,
                          reg: Regression, initShape: seq<real>, flipItem: Option<FlipItem>)
    requires WellFormed(cfg, logits, softmax, reg, initShape, flipItem, false)
    requires cfg.normType == "softmax"
    ensures var out := Execute(cfg, logits, softmax, reg, initShape, flipItem, false).value;
      forall j :: 0 <= j < NumJoints ==>
        out.xyz[j].z == if cfg.isTrain then out.uvd[j].z else out.uvd[j].z - out.uvd[0].z
  {
  }

  /** Outside training and without the flip test, the output keeps every
      difference between two back-projected joints. */
  lemma ExecuteKeepsDifferences(cfg: HeadConfig, logits: seq<seq<real>>, softmax: seq<real> -> seq<real>,
                                reg: Regression, initShape: seq<real>, flipItem: Option<FlipItem>)
    requires WellFormed(cfg, logits, softmax, reg, initShape, flipItem, false)
    requires cfg.normType == "softmax"
    ensures var out := Execute(cfg, logits, softmax, reg, initShape, flipItem, false).value;
      var xyz := RowToCamera(out.uvd, cfg.focalLength, out.cam, CamDepth(cfg.focalLength, out.cam.scale));
      forall i, j :: 0 <= i < NumJoints && 0 <= j < NumJoints ==>
        Sub(out.xyz[i], out.xyz[j]) == Sub(xyz[i], xyz[j])
  {
  }

  /** For non-negative heatmaps every decoded coordinate lies in
      [-0.5, 0.5 - 1/size] and every confidence is the peak of its
      normalised heatmap. */
  lemma ExecuteDecodes(cfg: HeadConfig, logits: seq<seq<real>>, softmax: seq<real> -> seq<real>,
                       reg: Regression, initShape: seq<real>, flipItem: Option<FlipItem>, flipOutput: bool)
    requires WellFormed(cfg, logits, softmax, reg, initShape, flipItem, flipOutput)
    requires cfg.normType == "softmax"
    requires forall j :: 0 <= j < |logits| ==> NonNegative(softmax(logits[j]))
    ensures var out := Execute(cfg, logits, softmax, reg, initShape, flipItem, flipOutput).value;
      var size := cfg.widthDim as real;
      forall j :: 0 <= j < NumJoints ==>
        -0.5 <= out.uvd[j].x <= 0.5 - 1.0 / size &&
        -0.5 <= out.uvd[j].y <= 0.5 - 1.0 / size &&
        -0.5 <= out.uvd[j].z <= 0.5 - 1.0 / size &&
        out.maxvals[j] in Renormalize(softmax(logits[j])) &&
        forall i :: 0 <= i < |softmax(logits[j])| ==> Renormalize(softmax(logits[j]))[i] <= out.maxvals[j]
  {
    var out := Execute(cfg, logits, softmax, reg, initShape, flipItem, flipOutput).value;
    forall j | 0 <= j < NumJoints
      ensures var p := out.uvd[j];
        -0.5 <= p.x <= 0.5 - 1.0 / (cfg.widthDim as real) &&
        -0.5 <= p.y <= 0.5 - 1.0 / (cfg.widthDim as real) &&
        -0.5 <= p.z <= 0.5 - 1.0 / (cfg.widthDim as real)
    {
      var row := softmax(logits[j]);
      SumNonNeg(row);
      DecodeBounds(row, cfg.depthDim, cfg.heightDim, cfg.widthDim);
    }
  }
}
