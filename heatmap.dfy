/** Heatmap decoding of the pose head: normalise each joint's flattened
    (depth, height, width) volume, take its peak as the confidence, reduce it
    to one marginal per axis and read off the expected index on each axis as
    a coordinate centred on 0. Everything here is per joint; the source does
    the same for every joint of every batch item at once. */
module Heatmap {
  import opened Sums
  import opened Vectors
  import opened Outcome

  /** `norm_heatmap`: the softmax over each joint's flattened volume, or a
      failure for any other normalisation type. The exponentials themselves
      are the parameter `softmax`. */
  function NormHeatmap(normType: string, logits: seq<seq<real>>, softmax: seq<real> -> seq<real>)
    : (r: Result<seq<seq<real>>>)
    ensures r.Err? <==> normType != "softmax"
    ensures r.Err? ==> r.error == NotImplemented
    ensures r.Ok? ==> (|r.value| == |logits| &&
      forall j :: 0 <= j < |logits| ==> r.value[j] == softmax(logits[j]))
  {
    if normType == "softmax" then
      Ok(seq(|logits|, j requires 0 <= j < |logits| => softmax(logits[j])))
    else
      Err(NotImplemented)
  }

  predicate NonNegative(s: seq<real>)
  {
    forall i :: 0 <= i < |s| ==> 0.0 <= s[i]
  }

  /** `out / out.sum(dim=2)`: the row rescaled to total mass 1, that is
      multiplied by the reciprocal of its mass. */
  function Renormalize(row: seq<real>): (r: seq<real>)
    requires Sum(row) != 0.0
    ensures |r| == |row|
    ensures Sum(r) == 1.0
    ensures NonNegative(row) ==> NonNegative(r)
  {
    var total := Sum(row);
    var inverse := Reciprocal(total);
    ReciprocalCancels(total);
    ScaledSum(row, total, inverse);
    ScaledNonNegative(row, total, inverse);
    Scaled(row, inverse)
  }

  /** Every entry of the row multiplied by c. */
  function Scaled(row: seq<real>, c: real): (r: seq<real>)
    ensures |r| == |row| && forall i :: 0 <= i < |row| ==> r[i] == c * row[i]
  {
    seq(|row|, i requires 0 <= i < |row| => c * row[i])
  }

  function Reciprocal(total: real): real
    requires total != 0.0
  {
    1.0 / total
  }

  lemma ReciprocalCancels(total: real)
    requires total != 0.0
    ensures Reciprocal(total) * total == 1.0
  {
  }

  /** Every renormalised entry times the mass of the row is the entry it
      came from: renormalising keeps the proportions of the row. The mass is
      passed as `total`, equal to the sum of the row. */
  lemma RenormalizeProportional(row: seq<real>, total: real)
    requires total == Sum(row) && total != 0.0
    ensures forall i :: 0 <= i < |row| ==> Renormalize(row)[i] * total == row[i]
  {
    var inverse := Reciprocal(total);
    ReciprocalCancels(total);
    ScaledUnscales(row, total, inverse);
  }

  /** A row that already has mass 1 is left as it is. */
  lemma RenormalizeUnitMass(row: seq<real>)
    requires Sum(row) == 1.0
    ensures Renormalize(row) == row
  {
    assert Reciprocal(Sum(row)) == 1.0;
    assert Scaled(row, 1.0) == row;
  }

  /** Renormalising forgets a common non-zero factor: multiplying every
      entry of the row by c before renormalising gives the same distribution. */
  lemma RenormalizeScaledRow(row: seq<real>, c: real)
    requires Sum(row) != 0.0 && c != 0.0
    ensures Sum(Scaled(row, c)) != 0.0
    ensures Renormalize(Scaled(row, c)) == Renormalize(row)
  {
    var scaled := Scaled(row, c);
    var total, scaledTotal := Sum(row), Sum(scaled);
    SumScale(row, scaled, c);
    NonZeroProduct(c, total, scaledTotal);
    var inverse, scaledInverse := Reciprocal(total), Reciprocal(scaledTotal);
    ReciprocalCancels(total);
    ReciprocalCancels(scaledTotal);
    CommonFactor(c, total, scaledTotal, inverse, scaledInverse);
    ScaledTwice(row, c, scaledInverse, inverse);
    assert Renormalize(scaled) == Scaled(scaled, scaledInverse);
    assert Renormalize(row) == Scaled(row, inverse);
  }

  /** Scaling by c and then by a is scaling by a c. */
  lemma ScaledTwice(row: seq<real>, c: real, a: real, b: real)
    requires a * c == b
    ensures Scaled(Scaled(row, c), a) == Scaled(row, b)
  {
    forall i | 0 <= i < |row|
      ensures Scaled(Scaled(row, c), a)[i] == Scaled(row, b)[i]
    {
      Reassociate(a, c, row[i], b);
    }
  }

  lemma NonZeroProduct(c: real, total: real, product: real)
    requires c != 0.0 && total != 0.0 && product == c * total
    ensures product != 0.0
  {
  }

  /** With s = c t, the reciprocal of s times c is the reciprocal of t. */
  lemma CommonFactor(c: real, total: real, scaledTotal: real, inverse: real, scaledInverse: real)
    requires total != 0.0 && scaledTotal == c * total
    requires inverse * total == 1.0 && scaledInverse * scaledTotal == 1.0
    ensures scaledInverse * c == inverse
  {
    assert (scaledInverse * c) * total == scaledInverse * scaledTotal;
    assert (scaledInverse * c - inverse) * total == 0.0;
  }

  lemma Reassociate(a: real, c: real, x: real, b: real)
    requires a * c == b
    ensures a * (c * x) == b * x
  {
    assert a * (c * x) == (a * c) * x;
  }

  lemma ScaledUnscales(row: seq<real>, total: real, inverse: real)
    requires inverse * total == 1.0
    ensures forall i :: 0 <= i < |row| ==> Scaled(row, inverse)[i] * total == row[i]
  {
    forall i | 0 <= i < |row|
      ensures Scaled(row, inverse)[i] * total == row[i]
    {
      Unscale(row[i], inverse, total, Scaled(row, inverse)[i]);
    }
  }

  lemma Unscale(a: real, inverse: real, total: real, q: real)
    requires inverse * total == 1.0 && q == inverse * a
    ensures q * total == a
  {
    assert q * total == (inverse * total) * a;
  }

  lemma ScaledSum(row: seq<real>, total: real, inverse: real)
    requires total == Sum(row) && inverse * total == 1.0
    ensures Sum(Scaled(row, inverse)) == 1.0
  {
    var r := Scaled(row, inverse);
    SumScale(row, r, inverse);
    UnitProduct(Sum(r), inverse, total);
  }

  lemma UnitProduct(s: real, inverse: real, total: real)
    requires s == inverse * total && inverse * total == 1.0
    ensures s == 1.0
  {
  }

  lemma ScaledNonNegative(row: seq<real>, total: real, inverse: real)
    requires total == Sum(row) && inverse * total == 1.0
    ensures NonNegative(row) ==> NonNegative(Scaled(row, inverse))
  {
    if NonNegative(row) {
      SumNonNeg(row);
      PositiveInverse(total, inverse);
      var r := Scaled(row, inverse);
      forall i | 0 <= i < |row|
        ensures 0.0 <= r[i]
      {
        ProductNonNegative(inverse, row[i], r[i]);
      }
    }
  }

  lemma PositiveInverse(total: real, inverse: real)
    requires 0.0 <= total && inverse * total == 1.0
    ensures 0.0 < inverse
  {
  }

  lemma ProductNonNegative(a: real, b: real, p: real)
    requires 0.0 <= a && 0.0 <= b && p == a * b
    ensures 0.0 <= p
  {
  }

  /** `jt.max(heatmaps, dim=2)`: the peak of the row. */
  function MaxVal(row: seq<real>): (m: real)
    requires |row| > 0
    ensures m in row
    ensures forall i :: 0 <= i < |row| ==> row[i] <= m
  {
    if |row| == 1 then row[0]
    else
      var rest := MaxVal(row[1..]);
      assert forall i :: 1 <= i < |row| ==> row[i] == row[1..][i - 1];
      if row[0] >= rest then row[0] else rest
  }

  /** A (depth, height, width) volume as nested rows. */
  predicate IsVolume(vol: seq<seq<seq<real>>>, depth: nat, height: nat, width: nat)
  {
    |vol| == depth && forall d :: 0 <= d < depth ==> |vol[d]| == height && IsRectangle(vol[d], width)
  }

  /** `reshape(..., depth, height, width)` of a flattened volume. */
  function Reshape(flat: seq<real>, depth: nat, height: nat, width: nat): (vol: seq<seq<seq<real>>>)
    requires |flat| == depth * (height * width)
    ensures IsVolume(vol, depth, height, width)
  {
    var planes := Chunks(flat, depth, height * width);
    seq(depth, d requires 0 <= d < depth => Chunks(planes[d], height, width))
  }

  /** The flat-index decomposition of the reshape: voxel (d, h, w) is flat
      entry d*H*W + h*W + w. */
  lemma ReshapeAt(flat: seq<real>, depth: nat, height: nat, width: nat, d: nat, h: nat, w: nat)
    requires |flat| == depth * (height * width) && d < depth && h < height && w < width
    ensures FlatIndex(height, width, d, h, w) < |flat|
    ensures Reshape(flat, depth, height, width)[d][h][w] == flat[FlatIndex(height, width, d, h, w)]
  {
    var planes := Chunks(flat, depth, height * width);
    FlatIndexBound(height, width, h, w);
    ChunksAt(planes[d], height, width, h, w);
    ChunksAt(flat, depth, height * width, d, h * width + w);
  }

  /** Position of voxel (d, h, w) in the flattened (depth, height, width) volume. */
  function FlatIndex(height: nat, width: nat, d: nat, h: nat, w: nat): nat
  {
    d * (height * width) + h * width + w
  }

  lemma FlatIndexBound(height: nat, width: nat, h: nat, w: nat)
    requires h < height && w < width
    ensures h * width + w < height * width
  {
    ChunkBound(h, height, width);
  }

  /** `heatmaps.sum(dim=(3, 4))`: the mass of every depth slice. */
  function MarginalZ(vol: seq<seq<seq<real>>>): (m: seq<real>)
    ensures |m| == |vol|
  {
    seq(|vol|, d requires 0 <= d < |vol| => Sum(RowSums(vol[d])))
  }

  /** `heatmaps.sum(dim=(2, 4))`: the mass of every image row. */
  function MarginalY(vol: seq<seq<seq<real>>>, depth: nat, height: nat, width: nat): (m: seq<real>)
    requires IsVolume(vol, depth, height, width)
    ensures |m| == height
  {
    ColumnSums(seq(depth, d requires 0 <= d < depth => RowSums(vol[d])), height)
  }

  /** `heatmaps.sum(dim=(2, 3))`: the mass of every image column. */
  function MarginalX(vol: seq<seq<seq<real>>>, depth: nat, height: nat, width: nat): (m: seq<real>)
    requires IsVolume(vol, depth, height, width)
    ensures |m| == width
  {
    ColumnSums(seq(depth, d requires 0 <= d < depth => ColumnSums(vol[d], width)), width)
  }

  /** The whole mass of a volume. */
  function Mass(vol: seq<seq<seq<real>>>): real
  {
    Sum(MarginalZ(vol))
  }

  /** Reshaping keeps the mass of the flattened row. */
  lemma ReshapeKeepsMass(flat: seq<real>, depth: nat, height: nat, width: nat)
    requires |flat| == depth * (height * width)
    ensures Mass(Reshape(flat, depth, height, width)) == Sum(flat)
  {
    var planes := Chunks(flat, depth, height * width);
    var vol := Reshape(flat, depth, height, width);
    forall d | 0 <= d < depth
      ensures MarginalZ(vol)[d] == RowSums(planes)[d]
    {
      assert vol[d] == Chunks(planes[d], height, width);
      SumChunks(planes[d], height, width);
    }
    assert MarginalZ(vol) == RowSums(planes);
    SumChunks(flat, depth, height * width);
  }

  /** Every marginal carries the whole mass of the volume. */
  lemma MarginalsKeepMass(vol: seq<seq<seq<real>>>, depth: nat, height: nat, width: nat)
    requires IsVolume(vol, depth, height, width)
    ensures Sum(MarginalY(vol, depth, height, width)) == Mass(vol)
    ensures Sum(MarginalX(vol, depth, height, width)) == Mass(vol)
  {
    var rows := seq(depth, d requires 0 <= d < depth => RowSums(vol[d]));
    SumExchange(rows, height);
    assert RowSums(rows) == MarginalZ(vol);
    var cols := seq(depth, d requires 0 <= d < depth => ColumnSums(vol[d], width));
    SumExchange(cols, width);
    forall d | 0 <= d < depth
      ensures RowSums(cols)[d] == MarginalZ(vol)[d]
    {
      SumExchange(vol[d], width);
    }
    assert RowSums(cols) == MarginalZ(vol);
  }

  /** `(hm * arange(n)).sum()`: the expected index under a marginal, with the
      index range given by its length n. */
  function Expected(m: seq<real>, n: nat): real
    requires |m| == n
  {
    Sum(Weighted(m))
  }

  /** `hm * arange(n)`: every mass weighted by its index. */
  function Weighted(m: seq<real>): (w: seq<real>)
    ensures |w| == |m| && forall i :: 0 <= i < |m| ==> w[i] == m[i] * (i as real)
  {
    seq(|m|, i requires 0 <= i < |m| => m[i] * (i as real))
  }

  lemma WeightBound(p: real, i: nat, n: nat, weight: real, top: real)
    requires 0.0 <= p && i < n
    requires weight == p * (i as real) && top == ((n as real) - 1.0) * p
    ensures weight <= top
  {
    var gap := (n as real) - 1.0 - (i as real);
    assert 0.0 <= gap * p;
    assert ((n as real) - 1.0) * p == (i as real) * p + gap * p;
  }

  /** The expected index of a distribution over [0, n) lies in [0, n - 1]. */
  lemma ExpectedBounds(m: seq<real>, n: nat)
    requires |m| == n && NonNegative(m) && Sum(m) == 1.0
    ensures 0.0 <= Expected(m, n) <= (n as real) - 1.0
  {
    ExpectedNonNegative(m, n);
    ExpectedAtMostTop(m, n);
  }

  lemma ExpectedNonNegative(m: seq<real>, n: nat)
    requires |m| == n && NonNegative(m)
    ensures 0.0 <= Expected(m, n)
  {
    var weighted := Weighted(m);
    forall i | 0 <= i < n
      ensures 0.0 <= weighted[i]
    {
      WeightNonNegative(m[i], i as real, weighted[i]);
    }
    SumNonNeg(weighted);
  }

  lemma WeightNonNegative(p: real, x: real, weight: real)
    requires 0.0 <= p && 0.0 <= x && weight == p * x
    ensures 0.0 <= weight
  {
  }

  lemma ExpectedAtMostTop(m: seq<real>, n: nat)
    requires |m| == n && NonNegative(m) && Sum(m) == 1.0
    ensures Expected(m, n) <= (n as real) - 1.0
  {
    var c := (n as real) - 1.0;
    WeightedBelowTop(m, c);
    SumMono(Weighted(m), Scaled(m, c));
    ScaledUnitMass(m, c);
  }

  lemma WeightedBelowTop(m: seq<real>, c: real)
    requires NonNegative(m) && c == (|m| as real) - 1.0
    ensures forall i :: 0 <= i < |m| ==> Weighted(m)[i] <= Scaled(m, c)[i]
  {
    var weighted, top := Weighted(m), Scaled(m, c);
    forall i | 0 <= i < |m|
      ensures weighted[i] <= top[i]
    {
      WeightBound(m[i], i, |m|, weighted[i], top[i]);
    }
  }

  lemma ScaledUnitMass(m: seq<real>, c: real)
    requires Sum(m) == 1.0
    ensures Sum(Scaled(m, c)) == c
  {
    SumScale(m, Scaled(m, c), c);
  }

  /** The normalised coordinate `E / size - 0.5`, with the index range of
      length `rangeLen` (the source builds one range, of the width). */
  function Coord(m: seq<real>, rangeLen: nat, size: nat): real
    requires |m| == rangeLen && size > 0
  {
    Expected(m, rangeLen) / (size as real) - 0.5
  }

  datatype Decoded = Decoded(uvd: Vec3, maxval: real)

  /** Voxel-count conditions of the decoder: every axis is non-empty, and the
      single index range of the width's length multiplies all three marginals. */
  predicate CubeVolume(depth: nat, height: nat, width: nat)
  {
    width > 0 && height == width && depth == width
  }

  /** Decoding of one joint's softmaxed row: renormalise it, take its peak as
      the confidence, reshape it into a volume and read each axis's
      coordinate off that axis's marginal. */
  function DecodeJoint(row: seq<real>, depth: nat, height: nat, width: nat): (r: Decoded)
    requires CubeVolume(depth, height, width)
    requires |row| == depth * (height * width) && Sum(row) != 0.0
    ensures r.maxval in Renormalize(row)
    ensures forall i :: 0 <= i < |row| ==> Renormalize(row)[i] <= r.maxval
  {
    var hm := Renormalize(row);
    var vol := Reshape(hm, depth, height, width);
    Decoded(
      Vec3(Coord(MarginalX(vol, depth, height, width), width, width),
           Coord(MarginalY(vol, depth, height, width), width, height),
           Coord(MarginalZ(vol), width, depth)),
      MaxVal(hm))
  }

  /** Decoding depends on the proportions of the row only: a row scaled by a
      non-zero factor decodes to the same joint and confidence. */
  lemma DecodeScaledRow(row: seq<real>, c: real, depth: nat, height: nat, width: nat)
    requires CubeVolume(depth, height, width)
    requires |row| == depth * (height * width) && Sum(row) != 0.0 && c != 0.0
    ensures Sum(Scaled(row, c)) != 0.0
    ensures DecodeJoint(Scaled(row, c), depth, height, width) == DecodeJoint(row, depth, height, width)
  {
    RenormalizeScaledRow(row, c);
  }

  /** The three marginals of the renormalised volume are distributions. */
  lemma DecodedMarginalsSumToOne(row: seq<real>, depth: nat, height: nat, width: nat)
    requires |row| == depth * (height * width) && Sum(row) != 0.0
    ensures var vol := Reshape(Renormalize(row), depth, height, width);
      Sum(MarginalX(vol, depth, height, width)) == 1.0 &&
      Sum(MarginalY(vol, depth, height, width)) == 1.0 &&
      Sum(MarginalZ(vol)) == 1.0
  {
    var vol := Reshape(Renormalize(row), depth, height, width);
    ReshapeKeepsMass(Renormalize(row), depth, height, width);
    MarginalsKeepMass(vol, depth, height, width);
  }

  predicate NonNegativeVolume(vol: seq<seq<seq<real>>>)
  {
    forall d, h, w :: 0 <= d < |vol| && 0 <= h < |vol[d]| && 0 <= w < |vol[d][h]| ==> 0.0 <= vol[d][h][w]
  }

  lemma ReshapeNonNegative(flat: seq<real>, depth: nat, height: nat, width: nat)
    requires |flat| == depth * (height * width) && NonNegative(flat)
    ensures NonNegativeVolume(Reshape(flat, depth, height, width))
  {
    var vol := Reshape(flat, depth, height, width);
    forall d, h, w | 0 <= d < |vol| && 0 <= h < |vol[d]| && 0 <= w < |vol[d][h]|
      ensures 0.0 <= vol[d][h][w]
    {
      ReshapeAt(flat, depth, height, width, d, h, w);
    }
  }

  lemma MarginalsNonNegative(vol: seq<seq<seq<real>>>, depth: nat, height: nat, width: nat)
    requires IsVolume(vol, depth, height, width) && NonNegativeVolume(vol)
    ensures NonNegative(MarginalX(vol, depth, height, width))
    ensures NonNegative(MarginalY(vol, depth, height, width))
    ensures NonNegative(MarginalZ(vol))
  {
    var rows := seq(depth, d requires 0 <= d < depth => RowSums(vol[d]));
    var cols := seq(depth, d requires 0 <= d < depth => ColumnSums(vol[d], width));
    forall d | 0 <= d < depth
      ensures NonNegative(rows[d]) && NonNegative(cols[d]) && 0.0 <= Sum(rows[d])
    {
      forall h | 0 <= h < height ensures 0.0 <= rows[d][h] {
        SumNonNeg(vol[d][h]);
      }
      forall w | 0 <= w < width ensures 0.0 <= cols[d][w] {
        SumNonNeg(Column(vol[d], width, w));
      }
      SumNonNeg(rows[d]);
    }
    forall d | 0 <= d < depth ensures 0.0 <= MarginalZ(vol)[d] {
      assert rows[d] == RowSums(vol[d]);
      assert MarginalZ(vol)[d] == Sum(rows[d]);
    }
    forall h | 0 <= h < height ensures 0.0 <= MarginalY(vol, depth, height, width)[h] {
      SumNonNeg(Column(rows, height, h));
    }
    forall w | 0 <= w < width ensures 0.0 <= MarginalX(vol, depth, height, width)[w] {
      SumNonNeg(Column(cols, width, w));
    }
  }

  /** A normalised coordinate of a distribution over [0, size) lies in
      [-0.5, 0.5 - 1/size]. */
  lemma CoordBounds(m: seq<real>, size: nat)
    requires |m| == size && size > 0 && NonNegative(m) && Sum(m) == 1.0
    ensures -0.5 <= Coord(m, size, size) <= 0.5 - 1.0 / (size as real)
  {
    ExpectedBounds(m, size);
    RatioBounds(Expected(m, size), size as real);
  }

  lemma RatioBounds(e: real, n: real)
    requires n >= 1.0 && 0.0 <= e <= n - 1.0
    ensures 0.0 <= e / n <= 1.0 - 1.0 / n
  {
    var q, t := e / n, 1.0 / n;
    assert q * n == e && t * n == 1.0;
    assert (1.0 - t - q) * n == n - 1.0 - e;
    NonNegativeFactor(q, n);
    NonNegativeFactor(1.0 - t - q, n);
  }

  lemma NonNegativeFactor(a: real, n: real)
    requires n > 0.0 && a * n >= 0.0
    ensures a >= 0.0
  {
  }

  /** For a non-negative row with positive mass every decoded coordinate lies
      in [-0.5, 0.5 - 1/size]. */
  lemma DecodeBounds(row: seq<real>, depth: nat, height: nat, width: nat)
    requires CubeVolume(depth, height, width)
    requires |row| == depth * (height * width) && NonNegative(row) && Sum(row) > 0.0
    ensures var p := DecodeJoint(row, depth, height, width).uvd;
      -0.5 <= p.x <= 0.5 - 1.0 / (width as real) &&
      -0.5 <= p.y <= 0.5 - 1.0 / (height as real) &&
      -0.5 <= p.z <= 0.5 - 1.0 / (depth as real)
  {
    var hm := Renormalize(row);
    var vol := Reshape(hm, depth, height, width);
    DecodedMarginalsSumToOne(row, depth, height, width);
    ReshapeNonNegative(hm, depth, height, width);
    MarginalsNonNegative(vol, depth, height, width);
    CoordBounds(MarginalX(vol, depth, height, width), width);
    CoordBounds(MarginalY(vol, depth, height, width), height);
    CoordBounds(MarginalZ(vol), depth);
  }

  /** A row with all of its mass 1 at index k. */
  function Indicator(n: nat, k: nat): (r: seq<real>)
    ensures |r| == n
    ensures forall i :: 0 <= i < n ==> r[i] == if i == k then 1.0 else 0.0
    ensures k < n ==> Sum(r) == 1.0 && NonNegative(r)
  {
    var r := seq(n, i requires 0 <= i < n => if i == k then 1.0 else 0.0);
    if k < n then SumSingle(r, k); r else r
  }

  /** The expected index of a point mass is its index. */
  lemma ExpectedIndicator(n: nat, k: nat)
    requires k < n
    ensures Expected(Indicator(n, k), n) == k as real
  {
    var m := Indicator(n, k);
    var weighted := Weighted(m);
    SumSingle(weighted, k);
  }

  /** The peak of a point mass is 1. */
  lemma MaxValIndicator(n: nat, k: nat)
    requires k < n
    ensures MaxVal(Indicator(n, k)) == 1.0
  {
    var m := Indicator(n, k);
    assert m[k] <= MaxVal(m);
    var i :| 0 <= i < n && m[i] == MaxVal(m);
  }

  /** A flat index of the reshape names exactly one voxel. */
  lemma FlatIndexInjective(height: nat, width: nat, d: nat, h: nat, w: nat, d': nat, h': nat, w': nat)
    requires h < height && w < width && h' < height && w' < width
    requires FlatIndex(height, width, d, h, w) == FlatIndex(height, width, d', h', w')
    ensures d == d' && h == h' && w == w'
  {
    var plane := height * width;
    var r, r' := h * width + w, h' * width + w';
    FlatIndexBound(height, width, h, w);
    FlatIndexBound(height, width, h', w');
    assert d * plane + r == d' * plane + r';
    DigitUnique(d, r, d', r', plane);
    DigitUnique(h, w, h', w', width);
  }

  lemma DigitUnique(q: nat, r: nat, q': nat, r': nat, base: nat)
    requires r < base && r' < base && q * base + r == q' * base + r'
    ensures q == q' && r == r'
  {
    if q < q' {
      ChunkBound(q, q', base);
    } else if q' < q {
      ChunkBound(q', q, base);
    }
  }

  /** A volume with mass 1 at voxel (d, h, w) and nothing elsewhere. */
  predicate IsPointVolume(vol: seq<seq<seq<real>>>, depth: nat, height: nat, width: nat, d: nat, h: nat, w: nat)
  {
    IsVolume(vol, depth, height, width) &&
    forall d', h', w' :: 0 <= d' < depth && 0 <= h' < height && 0 <= w' < width ==>
      vol[d'][h'][w'] == if d' == d && h' == h && w' == w then 1.0 else 0.0
  }

  /** Reshaping a flat point mass gives a point mass at the voxel its index decomposes into. */
  lemma ReshapeIndicator(depth: nat, height: nat, width: nat, d: nat, h: nat, w: nat)
    requires d < depth && h < height && w < width
    ensures FlatIndex(height, width, d, h, w) < depth * (height * width)
    ensures var flat := Indicator(depth * (height * width), FlatIndex(height, width, d, h, w));
      IsPointVolume(Reshape(flat, depth, height, width), depth, height, width, d, h, w)
  {
    var flat := Indicator(depth * (height * width), FlatIndex(height, width, d, h, w));
    ReshapeAt(flat, depth, height, width, d, h, w);
    var vol := Reshape(flat, depth, height, width);
    forall d', h', w' | 0 <= d' < depth && 0 <= h' < height && 0 <= w' < width
      ensures vol[d'][h'][w'] == if d' == d && h' == h && w' == w then 1.0 else 0.0
    {
      ReshapeIndicatorAt(depth, height, width, d, h, w, d', h', w');
    }
  }

  lemma ReshapeIndicatorAt(depth: nat, height: nat, width: nat, d: nat, h: nat, w: nat, d': nat, h': nat, w': nat)
    requires d < depth && h < height && w < width && d' < depth && h' < height && w' < width
    requires FlatIndex(height, width, d, h, w) < depth * (height * width)
    ensures var flat := Indicator(depth * (height * width), FlatIndex(height, width, d, h, w));
      Reshape(flat, depth, height, width)[d'][h'][w'] == if d' == d && h' == h && w' == w then 1.0 else 0.0
  {
    var flat := Indicator(depth * (height * width), FlatIndex(height, width, d, h, w));
    ReshapeAt(flat, depth, height, width, d', h', w');
    if FlatIndex(height, width, d, h, w) == FlatIndex(height, width, d', h', w') {
      FlatIndexInjective(height, width, d, h, w, d', h', w');
    }
  }

  /** The depth marginal of a point volume is the point mass at its depth. */
  lemma PointMarginalZ(vol: seq<seq<seq<real>>>, depth: nat, height: nat, width: nat, d: nat, h: nat, w: nat)
    requires d < depth && h < height && w < width
    requires IsPointVolume(vol, depth, height, width, d, h, w)
    ensures MarginalZ(vol) == Indicator(depth, d)
  {
    forall d' | 0 <= d' < depth
      ensures MarginalZ(vol)[d'] == Indicator(depth, d)[d']
    {
      var rows := RowSums(vol[d']);
      forall h' | 0 <= h' < height
        ensures rows[h'] == if d' == d && h' == h then 1.0 else 0.0
      {
        if d' == d && h' == h {
          SumSingle(vol[d'][h'], w);
        } else {
          SumZero(vol[d'][h']);
        }
      }
      if d' == d {
        SumSingle(rows, h);
      } else {
        SumZero(rows);
      }
    }
  }

  /** The height marginal of a point volume is the point mass at its row. */
  lemma PointMarginalY(vol: seq<seq<seq<real>>>, depth: nat, height: nat, width: nat, d: nat, h: nat, w: nat)
    requires d < depth && h < height && w < width
    requires IsPointVolume(vol, depth, height, width, d, h, w)
    ensures MarginalY(vol, depth, height, width) == Indicator(height, h)
  {
    var rows := seq(depth, d' requires 0 <= d' < depth => RowSums(vol[d']));
    forall d', h' | 0 <= d' < depth && 0 <= h' < height
      ensures rows[d'][h'] == if d' == d && h' == h then 1.0 else 0.0
    {
      if d' == d && h' == h {
        SumSingle(vol[d'][h'], w);
      } else {
        SumZero(vol[d'][h']);
      }
    }
    forall h' | 0 <= h' < height
      ensures MarginalY(vol, depth, height, width)[h'] == Indicator(height, h)[h']
    {
      if h' == h {
        SumSingle(Column(rows, height, h'), d);
      } else {
        SumZero(Column(rows, height, h'));
      }
    }
  }

  /** The width marginal of a point volume is the point mass at its column. */
  lemma PointMarginalX(vol: seq<seq<seq<real>>>, depth: nat, height: nat, width: nat, d: nat, h: nat, w: nat)
    requires d < depth && h < height && w < width
    requires IsPointVolume(vol, depth, height, width, d, h, w)
    ensures MarginalX(vol, depth, height, width) == Indicator(width, w)
  {
    var cols := seq(depth, d' requires 0 <= d' < depth => ColumnSums(vol[d'], width));
    forall d', w' | 0 <= d' < depth && 0 <= w' < width
      ensures cols[d'][w'] == if d' == d && w' == w then 1.0 else 0.0
    {
      if d' == d && w' == w {
        SumSingle(Column(vol[d'], width, w'), h);
      } else {
        SumZero(Column(vol[d'], width, w'));
      }
    }
    forall w' | 0 <= w' < width
      ensures MarginalX(vol, depth, height, width)[w'] == Indicator(width, w)[w']
    {
      if w' == w {
        SumSingle(Column(cols, width, w'), d);
      } else {
        SumZero(Column(cols, width, w'));
      }
    }
  }

  /** A row whose whole mass sits at the flat index of voxel (d, h, w)
      decodes to (w/W - 0.5, h/H - 0.5, d/D - 0.5) with confidence 1. */
  lemma DecodePointMass(depth: nat, height: nat, width: nat, d: nat, h: nat, w: nat)
    requires CubeVolume(depth, height, width) && d < depth && h < height && w < width
    ensures FlatIndex(height, width, d, h, w) < depth * (height * width)
    ensures var row := Indicator(depth * (height * width), FlatIndex(height, width, d, h, w));
      DecodeJoint(row, depth, height, width) ==
        Decoded(Vec3((w as real) / (width as real) - 0.5,
                     (h as real) / (height as real) - 0.5,
                     (d as real) / (depth as real) - 0.5), 1.0)
  {
    var row := Indicator(depth * (height * width), FlatIndex(height, width, d, h, w));
    ReshapeIndicator(depth, height, width, d, h, w);
    RenormalizeUnitMass(row);
    MaxValIndicator(depth * (height * width), FlatIndex(height, width, d, h, w));
    var vol := Reshape(row, depth, height, width);
    PointMarginalX(vol, depth, height, width, d, h, w);
    PointMarginalY(vol, depth, height, width, d, h, w);
    PointMarginalZ(vol, depth, height, width, d, h, w);
    ExpectedIndicator(width, w);
    ExpectedIndicator(height, h);
    ExpectedIndicator(depth, d);
  }
}
