/** Horizontal-flip utilities of the pose head: mirror one component of every
    joint, then exchange the values of every left/right pair of joints.
    Each flip is an in-place method over a (batch, joints) tensor, proved
    against a function on one batch item's row of joints. */
module Flip {
  import opened Vectors
  import opened Symmetry

  // ---------------------------------------------------------------------
  // Specification: one batch item
  // ---------------------------------------------------------------------

  /** Tensor rank a flip accepts: (batch, 87) when flattened, (batch, 29, 3) otherwise. */
  function ExpectedRank(flatten: bool): nat
  {
    if flatten then 2 else 3
  }

  /** Mirrored heatmap u: a sign flip with `shift`, a reflection about
      -1/(2 widthDim) otherwise. */
  function MirrorU(u: real, shift: bool, widthDim: real): real
    requires widthDim != 0.0
  {
    if shift then -u else -1.0 / widthDim - u
  }

  /** Without `shift` the mirror is the reflection of the heatmap grid: the
      decoded coordinate of column w becomes that of column width - 1 - w. */
  lemma MirrorColumn(w: nat, width: nat)
    requires w < width
    ensures MirrorU((w as real) / (width as real) - 0.5, false, width as real) ==
      ((width - 1 - w) as real) / (width as real) - 0.5
  {
    var n := width as real;
    assert ((width - 1 - w) as real) / n == n / n - 1.0 / n - (w as real) / n;
  }

  /** Mirroring u twice in the same mode restores it. */
  lemma MirrorUInvolutive(u: real, shift: bool, widthDim: real)
    requires widthDim != 0.0
    ensures MirrorU(MirrorU(u, shift, widthDim), shift, widthDim) == u
  {
  }

  function MirrorUvd(p: Vec3, shift: bool, widthDim: real): Vec3
    requires widthDim != 0.0
  {
    p.(x := MirrorU(p.x, shift, widthDim))
  }

  /** The mirror image of a camera-space point: x negated, y and z kept. */
  function MirrorXyz(p: Vec3): Vec3
  {
    p.(x := -p.x)
  }

  function MirrorTwist(t: Twist): Twist
  {
    t.(sin := -t.sin)
  }

  function MirrorUvdAll(row: seq<Vec3>, shift: bool, widthDim: real): (r: seq<Vec3>)
    requires widthDim != 0.0
    ensures |r| == |row| && forall j :: 0 <= j < |row| ==> r[j] == MirrorUvd(row[j], shift, widthDim)
  {
    seq(|row|, j requires 0 <= j < |row| => MirrorUvd(row[j], shift, widthDim))
  }

  function MirrorXyzAll(row: seq<Vec3>): (r: seq<Vec3>)
    ensures |r| == |row| && forall j :: 0 <= j < |row| ==> r[j] == MirrorXyz(row[j])
  {
    seq(|row|, j requires 0 <= j < |row| => MirrorXyz(row[j]))
  }

  function MirrorTwistAll(row: seq<Twist>): (r: seq<Twist>)
    ensures |r| == |row| && forall j :: 0 <= j < |row| ==> r[j] == MirrorTwist(row[j])
  {
    seq(|row|, j requires 0 <= j < |row| => MirrorTwist(row[j]))
  }

  /** Every pair member is the other member's mate. */
  lemma MatesOfPairs(pairs: seq<(int, int)>)
    requires Disjoint(pairs)
    ensures forall i :: 0 <= i < |pairs| ==>
      Mate(pairs, pairs[i].0) == pairs[i].1 && Mate(pairs, pairs[i].1) == pairs[i].0
  {
    forall i | 0 <= i < |pairs|
      ensures Mate(pairs, pairs[i].0) == pairs[i].1 && Mate(pairs, pairs[i].1) == pairs[i].0
    {
      MateOfPair(pairs, i);
    }
  }

  /** The row after simultaneously exchanging the values of every pair. */
  function SwapPairs<T>(row: seq<T>, pairs: seq<(int, int)>): (r: seq<T>)
    requires IsPairing(pairs, |row|)
    ensures |r| == |row|
    ensures forall i :: 0 <= i < |pairs| ==>
      r[pairs[i].0] == row[pairs[i].1] && r[pairs[i].1] == row[pairs[i].0]
    ensures forall j :: 0 <= j < |row| && !Listed(pairs, j) ==> r[j] == row[j]
  {
    MatesOfPairs(pairs);
    seq(|row|, j requires 0 <= j < |row| => MateInRange(pairs, |row|, j); row[Mate(pairs, j)])
  }

  /** Exchanging the pairs twice restores the row. */
  lemma SwapPairsInvolutive<T>(row: seq<T>, pairs: seq<(int, int)>)
    requires IsPairing(pairs, |row|)
    ensures SwapPairs(SwapPairs(row, pairs), pairs) == row
  {
    var once := SwapPairs(row, pairs);
    var twice := SwapPairs(once, pairs);
    forall j | 0 <= j < |row|
      ensures twice[j] == row[j]
    {
      MateInRange(pairs, |row|, j);
      MateInRange(pairs, |row|, Mate(pairs, j));
      MateInvolutive(pairs, j);
    }
  }

  /** `flip_uvd_coord` on one batch item: u is mirrored, then the triples
      of every 29-joint pair are exchanged. */
  function FlipUvdRow(row: seq<Vec3>, shift: bool, widthDim: real): (r: seq<Vec3>)
    requires |row| == NumJoints && widthDim != 0.0
    ensures |r| == NumJoints
    ensures forall i :: 0 <= i < |JointPairs29| ==>
      var (a, b) := JointPairs29[i];
      r[a] == Vec3(MirrorU(row[b].x, shift, widthDim), row[b].y, row[b].z) &&
      r[b] == Vec3(MirrorU(row[a].x, shift, widthDim), row[a].y, row[a].z)
    ensures forall j :: 0 <= j < NumJoints && !Listed(JointPairs29, j) ==>
      r[j] == Vec3(MirrorU(row[j].x, shift, widthDim), row[j].y, row[j].z)
  {
    Pairs29IsPairing();
    SwapPairs(MirrorUvdAll(row, shift, widthDim), JointPairs29)
  }

  /** `flip_xyz_coord` on one batch item: x is negated, then the triples
      of every 29-joint pair are exchanged. */
  function FlipXyzRow(row: seq<Vec3>): (r: seq<Vec3>)
    requires |row| == NumJoints
    ensures |r| == NumJoints
    ensures forall i :: 0 <= i < |JointPairs29| ==>
      var (a, b) := JointPairs29[i];
      r[a] == MirrorXyz(row[b]) && r[b] == MirrorXyz(row[a])
    ensures forall j :: 0 <= j < NumJoints && !Listed(JointPairs29, j) ==> r[j] == MirrorXyz(row[j])
  {
    Pairs29IsPairing();
    SwapPairs(MirrorXyzAll(row), JointPairs29)
  }

  /** `flip_phi` on one batch item: every sine is negated, then the twists
      of joints a and b of every 24-joint pair (slots a-1 and b-1) are
      exchanged; every other slot keeps its cosine. */
  function FlipPhiRow(row: seq<Twist>): (r: seq<Twist>)
    requires |row| == NumTwists
    ensures |r| == NumTwists
    ensures forall i :: 0 <= i < |JointPairs24| ==>
      var (a, b) := JointPairs24[i];
      r[a - 1] == Twist(row[b - 1].cos, -row[b - 1].sin) &&
      r[b - 1] == Twist(row[a - 1].cos, -row[a - 1].sin)
    ensures forall j :: 0 <= j < NumTwists && !Listed(TwistPairs, j) ==>
      r[j] == Twist(row[j].cos, -row[j].sin)
  {
    TwistPairsIsPairing();
    TwistPairsLowered();
    SwapPairs(MirrorTwistAll(row), TwistPairs)
  }

  /** Joint j of a flipped uvd row is the mirrored joint its mate held. */
  lemma FlipUvdAt(row: seq<Vec3>, shift: bool, widthDim: real, j: int)
    requires |row| == NumJoints && widthDim != 0.0 && 0 <= j < NumJoints
    ensures 0 <= Mate(JointPairs29, j) < NumJoints
    ensures FlipUvdRow(row, shift, widthDim)[j] == MirrorUvd(row[Mate(JointPairs29, j)], shift, widthDim)
  {
    Pairs29IsPairing();
    MateInRange(JointPairs29, NumJoints, j);
  }

  /** Joint j of a flipped row is the mirrored joint its mate held. */
  lemma FlipXyzAt(row: seq<Vec3>, j: int)
    requires |row| == NumJoints && 0 <= j < NumJoints
    ensures 0 <= Mate(JointPairs29, j) < NumJoints
    ensures FlipXyzRow(row)[j] == MirrorXyz(row[Mate(JointPairs29, j)])
  {
    Pairs29IsPairing();
    MateInRange(JointPairs29, NumJoints, j);
  }

  /** Twist slot j of a flipped row is the mirrored twist its mate held. */
  lemma FlipPhiAt(row: seq<Twist>, j: int)
    requires |row| == NumTwists && 0 <= j < NumTwists
    ensures 0 <= Mate(TwistPairs, j) < NumTwists
    ensures FlipPhiRow(row)[j] == MirrorTwist(row[Mate(TwistPairs, j)])
  {
    TwistPairsIsPairing();
    MateInRange(TwistPairs, NumTwists, j);
  }

  /** Flipping uvd twice in the same mode restores the coordinates. */
  lemma FlipUvdInvolutive(row: seq<Vec3>, shift: bool, widthDim: real)
    requires |row| == NumJoints && widthDim != 0.0
    ensures FlipUvdRow(FlipUvdRow(row, shift, widthDim), shift, widthDim) == row
  {
    var once := FlipUvdRow(row, shift, widthDim);
    var twice := FlipUvdRow(once, shift, widthDim);
    forall j | 0 <= j < NumJoints
      ensures twice[j] == row[j]
    {
      FlipUvdAt(once, shift, widthDim, j);
      FlipUvdAt(row, shift, widthDim, Mate(JointPairs29, j));
      Pairs29IsPairing();
      MateInvolutive(JointPairs29, j);
      MirrorUInvolutive(row[j].x, shift, widthDim);
    }
  }

  /** Flipping xyz twice restores the coordinates. */
  lemma FlipXyzInvolutive(row: seq<Vec3>)
    requires |row| == NumJoints
    ensures FlipXyzRow(FlipXyzRow(row)) == row
  {
    Pairs29IsPairing();
    var twice := FlipXyzRow(FlipXyzRow(row));
    forall j | 0 <= j < NumJoints
      ensures twice[j] == row[j]
    {
      MateInRange(JointPairs29, NumJoints, j);
      MateInvolutive(JointPairs29, j);
    }
  }

  /** Flipping the twists twice restores them. */
  lemma FlipPhiInvolutive(row: seq<Twist>)
    requires |row| == NumTwists
    ensures FlipPhiRow(FlipPhiRow(row)) == row
  {
    TwistPairsIsPairing();
    var twice := FlipPhiRow(FlipPhiRow(row));
    forall j | 0 <= j < NumTwists
      ensures twice[j] == row[j]
    {
      MateInRange(TwistPairs, NumTwists, j);
      MateInvolutive(TwistPairs, j);
    }
  }

  // ---------------------------------------------------------------------
  // In-place flips over a (batch, joints) tensor
  // ---------------------------------------------------------------------

  /** Batch item b of a (batch, joints) tensor. */
  ghost function Row<T>(a: array2<T>, b: int): (r: seq<T>)
    requires 0 <= b < a.Length0
    reads a
    ensures |r| == a.Length1 && forall j :: 0 <= j < a.Length1 ==> r[j] == a[b, j]
  {
    seq(a.Length1, j requires 0 <= j < a.Length1 reads a => a[b, j])
  }

  /** `pred_jts[:, idx] = pred_jts[:, inv_idx]` for every pair of the table,
      in table order: each assignment gathers both values before writing. */
  method SwapPairsInPlace<T>(a: array2<T>, pairs: seq<(int, int)>)
    requires IsPairing(pairs, a.Length1)
    modifies a
    ensures forall b :: 0 <= b < a.Length0 ==> Row(a, b) == SwapPairs(old(Row(a, b)), pairs)
  {
    assert pairs[..0] == [];
    for k := 0 to |pairs|
      invariant forall j :: 0 <= j < a.Length1 ==> 0 <= Mate(pairs[..k], j) < a.Length1
      invariant forall b, j :: 0 <= b < a.Length0 && 0 <= j < a.Length1 ==>
        a[b, j] == old(a[b, Mate(pairs[..k], j)])
    {
      var (p, q) := pairs[k];
      LaterPairUnlisted(pairs, k);
      assert pairs[..k + 1] == pairs[..k] + [(p, q)];
      forall j | 0 <= j < a.Length1
        ensures Mate(pairs[..k + 1], j) ==
          if Listed(pairs[..k], j) then Mate(pairs[..k], j)
          else if j == p then q else if j == q then p else j
      {
        MateSnoc(pairs[..k], p, q, j);
      }
      forall b, j | 0 <= b < a.Length0 && 0 <= j < a.Length1 && (j == p || j == q) {
        a[b, j] := a[b, if j == p then q else p];
      }
    }
    assert pairs[..|pairs|] == pairs;
    forall b | 0 <= b < a.Length0
      ensures Row(a, b) == SwapPairs(old(Row(a, b)), pairs)
    {
      var before := old(Row(a, b));
      forall j | 0 <= j < a.Length1
        ensures Row(a, b)[j] == SwapPairs(before, pairs)[j]
      {
        MateInRange(pairs, a.Length1, j);
      }
    }
  }

  /** `flip_uvd_coord`: rejects a tensor of the wrong rank and leaves it
      untouched; otherwise flips every batch item in place. */
  method FlipUvdCoord(jts: array2<Vec3>, ndim: nat, shift: bool, flatten: bool, widthDim: nat)
      returns (ok: bool)
    requires jts.Length1 == NumJoints && widthDim > 0
    modifies jts
    ensures ok <==> ndim == ExpectedRank(flatten)
    ensures !ok ==> unchanged(jts)
    ensures ok ==> forall b :: 0 <= b < jts.Length0 ==>
      Row(jts, b) == FlipUvdRow(old(Row(jts, b)), shift, widthDim as real)
  {
    if ndim != ExpectedRank(flatten) {
      return false;
    }
    forall b, j | 0 <= b < jts.Length0 && 0 <= j < jts.Length1 {
      jts[b, j] := MirrorUvd(jts[b, j], shift, widthDim as real);
    }
    label Mirrored:
    Pairs29IsPairing();
    SwapPairsInPlace(jts, JointPairs29);
    forall b | 0 <= b < jts.Length0
      ensures Row(jts, b) == FlipUvdRow(old(Row(jts, b)), shift, widthDim as real)
    {
      assert old@Mirrored(Row(jts, b)) ==
        MirrorUvdAll(old(Row(jts, b)), shift, widthDim as real);
    }
    ok := true;
  }

  /** `flip_xyz_coord`: rejects a tensor of the wrong rank and leaves it
      untouched; otherwise flips every batch item in place. */
  method FlipXyzCoord(jts: array2<Vec3>, ndim: nat, flatten: bool) returns (ok: bool)
    requires jts.Length1 == NumJoints
    modifies jts
    ensures ok <==> ndim == ExpectedRank(flatten)
    ensures !ok ==> unchanged(jts)
    ensures ok ==> forall b :: 0 <= b < jts.Length0 ==> Row(jts, b) == FlipXyzRow(old(Row(jts, b)))
  {
    if ndim != ExpectedRank(flatten) {
      return false;
    }
    forall b, j | 0 <= b < jts.Length0 && 0 <= j < jts.Length1 {
      jts[b, j] := MirrorXyz(jts[b, j]);
    }
    label Mirrored:
    Pairs29IsPairing();
    SwapPairsInPlace(jts, JointPairs29);
    forall b | 0 <= b < jts.Length0
      ensures Row(jts, b) == FlipXyzRow(old(Row(jts, b)))
    {
      assert old@Mirrored(Row(jts, b)) ==
        MirrorXyzAll(old(Row(jts, b)));
    }
    ok := true;
  }

  /** `flip_phi`: flips the twists of every batch item in place. */
  method FlipPhi(phi: array2<Twist>)
    requires phi.Length1 == NumTwists
    modifies phi
    ensures forall b :: 0 <= b < phi.Length0 ==> Row(phi, b) == FlipPhiRow(old(Row(phi, b)))
  {
    forall b, j | 0 <= b < phi.Length0 && 0 <= j < phi.Length1 {
      phi[b, j] := MirrorTwist(phi[b, j]);
    }
    label Mirrored:
    TwistPairsIsPairing();
    SwapPairsInPlace(phi, TwistPairs);
    forall b | 0 <= b < phi.Length0
      ensures Row(phi, b) == FlipPhiRow(old(Row(phi, b)))
    {
      assert old@Mirrored(Row(phi, b)) ==
        MirrorTwistAll(old(Row(phi, b)));
    }
  }
}
