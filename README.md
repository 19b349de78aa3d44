# Geometry of the SMPL-camera 3D pose head

This project models the index-level geometry of the 3D pose head in
`alphapose/models/simple3dposeSMPLWithCam.py` and proves properties of the model.
The head turns per-joint heatmap logits and a few regressed offsets into:

- decoded (u, v, d) joints and per-joint confidences;
- metric camera-space joints and the camera-space root;
- 23 twist angles and body-shape coefficients;
- optionally, the average of a prediction for a mirrored input with the prediction for the original input (the flip test).

The model has these modules:

- `Symmetry` holds the left/right joint tables.
  - It proves that each table pairs distinct joints, each at most once.
  - It defines the permutation `Mate` that a table's swaps perform.
- `Flip` models the three flip utilities.
  - `flip_uvd_coord`, `flip_xyz_coord` and `flip_phi` are in-place methods over a (batch, joints) `array2`.
  - Each method is proved against a function on one batch item's row.
  - Those functions are proved to be involutions.
- `Heatmap` models decoding.
  - `norm_heatmap` is a dispatch on the normalisation type.
  - Each row is renormalised to mass 1 and its peak is taken as the confidence.
  - The flat index `d*H*W + h*W + w` is reshaped into a (D, H, W) volume.
  - The volume is reduced to three marginals, and each expected index becomes a coordinate centred on 0.
- `Camera` models the camera.
  - The head predicts weak-perspective parameters: a scale and a 2D translation. The scale sets the root depth.
  - Each decoded joint is then back-projected through a pinhole at its own depth, 2.2 d + camDepth.
  - `PredCamera` adds the regressed offset to the initial camera. `RowToCamera` back-projects every joint with one camera.
  - The module also covers the camera-space root.
  - It also covers the root-relative re-centring used outside training.
  - `Project` is an independent pinhole projection. The camera root is proved to invert it.
- `UvdToCam` models `uvd_to_cam`: an affine crop transform and an intrinsic matrix, scaled by the absolute depth of each joint.
- `PoseHead` models one batch item of `execute` from the heatmap logits to the outputs that do not need the body model.
  - Those outputs are the decoded joints, the confidences, the camera and camera root, the 29 camera-space joints and their first 24 at half scale, the twists, the shape and the shape offset.
  - `DecodeAll` decodes every joint's heatmap. `Twists` reads the 46 regressed values as 23 (cos, sin) pairs. `AddReals` adds the shape offset to the initial shape.
  - For the flip test, `AverageJoints`, `AverageTwists` and `AverageReals` take the mean of two predictions entry by entry.
  - These definitions are what the lemmas below are about.
  - Its lemmas connect the outputs to the decoding and camera parts.
- `Sums`, `Vectors` and `Outcome` hold sums over sequences, 3-vectors and twists, and the `Result`/`Option` wrappers.

Arithmetic is over `real`, and integers are unbounded.

## Model

| member | source | states |
|---|---|---|
| Symmetry.Pairs29IsPairing | alphapose/models/simple3dposeSMPLWithCam.py:62 | The 29-joint table pairs distinct joints below 29, and no joint occurs in two pairs. |
| Symmetry.Pairs24IsPairing | alphapose/models/simple3dposeSMPLWithCam.py:61 | The 24-joint table pairs distinct joints in [1, 23] (never the root), and no joint occurs in two pairs. |
| Symmetry.TwistPairsLowered | alphapose/models/simple3dposeSMPLWithCam.py:173-176 | The twist-slot table is the 24-joint table with both members of every pair lowered by one, pair by pair. |
| Symmetry.TwistPairsIsPairing | alphapose/models/simple3dposeSMPLWithCam.py:173-176 | The lowered indices are distinct slots in [0, 22], each used at most once. |
| Symmetry.MateInvolutive | alphapose/models/simple3dposeSMPLWithCam.py:144-148 | On a table of disjoint pairs, the joint-to-mate map is its own inverse. |
| Flip.MirrorColumn | alphapose/models/simple3dposeSMPLWithCam.py:143 | Without shift, −1/width − u maps the coordinate decoded from heatmap column w to the one decoded from column width−1−w. |
| Flip.MirrorUInvolutive | alphapose/models/simple3dposeSMPLWithCam.py:140-143 | Rewriting u twice in the same mode, −u or −1/width − u, restores it. |
| Flip.SwapPairs | alphapose/models/simple3dposeSMPLWithCam.py:144-148 | After the simultaneous exchange, position a holds the old b and b holds the old a for every pair. Unlisted positions keep their value. |
| Flip.SwapPairsInvolutive | alphapose/models/simple3dposeSMPLWithCam.py:144-148 | Exchanging the pairs twice restores the row. |
| Flip.FlipUvdRow | alphapose/models/simple3dposeSMPLWithCam.py:140-148 | For every 29-joint pair (a, b), output a is input b with u mirrored, and vice versa. Every unpaired joint keeps v and d and has u mirrored. |
| Flip.FlipXyzRow | alphapose/models/simple3dposeSMPLWithCam.py:161-166 | For every pair (a, b), output a is input b with x negated, and vice versa. Every unpaired joint only has x negated. |
| Flip.FlipPhiRow | alphapose/models/simple3dposeSMPLWithCam.py:172-177 | For every 24-joint pair (a, b), slot a−1 gets slot b−1's cosine and negated sine, and vice versa. Every other slot keeps its cosine and has its sine negated. |
| Flip.FlipUvdInvolutive | alphapose/models/simple3dposeSMPLWithCam.py:140-148 | Flipping uvd twice in the same mode returns the original joints. |
| Flip.FlipXyzInvolutive | alphapose/models/simple3dposeSMPLWithCam.py:161-166 | Flipping xyz twice returns the original joints. |
| Flip.FlipPhiInvolutive | alphapose/models/simple3dposeSMPLWithCam.py:172-177 | Flipping the twists twice returns the original twists. |
| Flip.SwapPairsInPlace | alphapose/models/simple3dposeSMPLWithCam.py:144-148 | The pair-by-pair in-place gathers and writes leave every batch row equal to the simultaneous exchange of the old row. |
| Flip.FlipUvdCoord | alphapose/models/simple3dposeSMPLWithCam.py:132-151 | Rank 2 when flattened and 3 otherwise is accepted, and nothing else is. A rejected tensor is unchanged. An accepted one has every batch row flipped as FlipUvdRow says. |
| Flip.FlipXyzCoord | alphapose/models/simple3dposeSMPLWithCam.py:153-169 | The same rank check. An accepted tensor has every batch row flipped as FlipXyzRow says. |
| Flip.FlipPhi | alphapose/models/simple3dposeSMPLWithCam.py:171-178 | Every batch row of twists is flipped as FlipPhiRow says. |
| Heatmap.NormHeatmap | alphapose/models/simple3dposeSMPLWithCam.py:14-21 | The result is a not-implemented error exactly when the type is not "softmax". Otherwise it is the softmax of every joint's flattened row. |
| Heatmap.Renormalize | alphapose/models/simple3dposeSMPLWithCam.py:188 | The renormalised row has the same length and mass 1, and it is non-negative when the input is. |
| Heatmap.RenormalizeProportional | alphapose/models/simple3dposeSMPLWithCam.py:188 | Every renormalised entry times the row's sum is the original entry. |
| Heatmap.RenormalizeUnitMass | alphapose/models/simple3dposeSMPLWithCam.py:188 | A row whose mass is already 1 is unchanged. |
| Heatmap.RenormalizeScaledRow | alphapose/models/simple3dposeSMPLWithCam.py:188 | Multiplying every entry of a row by a non-zero factor does not change its renormalisation. |
| Heatmap.MaxVal | alphapose/models/simple3dposeSMPLWithCam.py:189 | The confidence is an entry of the row and is at least every entry. |
| Heatmap.ReshapeAt | alphapose/models/simple3dposeSMPLWithCam.py:190 | Voxel (d, h, w) of the reshaped volume is flat entry d·H·W + h·W + w, and that index is in range. |
| Heatmap.FlatIndexInjective | alphapose/models/simple3dposeSMPLWithCam.py:190 | Distinct voxels have distinct flat indices. |
| Heatmap.ReshapeKeepsMass | alphapose/models/simple3dposeSMPLWithCam.py:190 | Reshaping keeps the total mass. |
| Heatmap.MarginalsKeepMass | alphapose/models/simple3dposeSMPLWithCam.py:191-193 | The x and y marginals have the mass of the volume. |
| Heatmap.DecodeScaledRow | alphapose/models/simple3dposeSMPLWithCam.py:188-204 | A row scaled by a non-zero factor decodes to the same coordinates and confidence. |
| Heatmap.DecodedMarginalsSumToOne | alphapose/models/simple3dposeSMPLWithCam.py:188-193 | All three marginals of the renormalised volume sum to 1. |
| Heatmap.MarginalsNonNegative | alphapose/models/simple3dposeSMPLWithCam.py:191-193 | The marginals of a non-negative volume are non-negative. |
| Heatmap.ExpectedBounds | alphapose/models/simple3dposeSMPLWithCam.py:194-200 | The expected index of a distribution over [0, n) lies in [0, n−1]. |
| Heatmap.ExpectedIndicator | alphapose/models/simple3dposeSMPLWithCam.py:194-200 | The expected index of a point mass at k is k. |
| Heatmap.CoordBounds | alphapose/models/simple3dposeSMPLWithCam.py:194-203 | The coordinate E/size − 0.5 of a distribution lies in [−0.5, 0.5 − 1/size]. |
| Heatmap.DecodeJoint | alphapose/models/simple3dposeSMPLWithCam.py:188-204 | The decoded confidence is an entry of the renormalised row and is at least every entry. |
| Heatmap.DecodeBounds | alphapose/models/simple3dposeSMPLWithCam.py:188-204 | For a non-negative row with positive mass, every decoded coordinate lies in [−0.5, 0.5 − 1/size]. |
| Heatmap.DecodePointMass | alphapose/models/simple3dposeSMPLWithCam.py:188-204 | All mass at voxel (d, h, w) decodes to (w/W − 0.5, h/H − 0.5, d/D − 0.5) with confidence 1. |
| Camera.CamDepth | alphapose/models/simple3dposeSMPLWithCam.py:220 | camDepth · (256 s + 1e−9) equals the focal length, and camDepth is positive for positive focal length and scale. |
| Camera.JointToCamera | alphapose/models/simple3dposeSMPLWithCam.py:221-224 | A back-projected joint keeps its depth bin. Its xy in box units, scaled by 2.2 and shifted back by the translation, is uv·256/f·(2.2 d + camDepth). |
| Camera.CameraRootPinhole | alphapose/models/simple3dposeSMPLWithCam.py:223-227 | The translation subtracted and re-added cancels. The camera root is the pinhole back-projection (u·256/f·Z, v·256/f·Z, Z) of the root, with Z = 2.2 d + camDepth. |
| Camera.CameraRootOfProjection | alphapose/models/simple3dposeSMPLWithCam.py:223-227 | Projecting a camera-space point and back-projecting it as the root recovers the point, whatever the translation. |
| Camera.RootRelative | alphapose/models/simple3dposeSMPLWithCam.py:228-229 | After re-centring, joint 0 is exactly the origin and every pairwise difference is preserved. |
| Camera.RootRelativeIdempotent | alphapose/models/simple3dposeSMPLWithCam.py:228-229 | Re-centring an already re-centred row changes nothing. |
| UvdToCam.ToPixelOfColumn | alphapose/models/simple3dposeSMPLWithCam.py:115-116 | The coordinate decoded from heatmap column w maps to input pixel 4w. |
| UvdToCam.JointToCam | alphapose/models/simple3dposeSMPLWithCam.py:115-129 | The output times the depth factor is the intrinsic ray through the affine-mapped pixel, scaled by the absolute depth d·factor + root.z. With the relative flag, the root is subtracted. |
| UvdToCam.UvdToCam | alphapose/models/simple3dposeSMPLWithCam.py:111-130 | The result is an assertion failure exactly when the joints are not rank 3. Otherwise every joint is mapped independently. |
| UvdToCam.RelativeIsShiftedAbsolute | alphapose/models/simple3dposeSMPLWithCam.py:127-129 | Every relative output plus root/depth_factor is the absolute output. |
| UvdToCam.DepthOfJoint | alphapose/models/simple3dposeSMPLWithCam.py:117-129 | With intrinsic last row (0, 0, 1), the relative depth is d and the absolute depth is d + root.z/depth_factor. |
| PoseHead.AverageSelf | alphapose/models/simple3dposeSMPLWithCam.py:233-243 | Averaging a prediction with itself returns it. |
| PoseHead.FlipXyzOfAverage | alphapose/models/simple3dposeSMPLWithCam.py:234-236 | The xyz flip is linear: flipping an average is averaging the flips. |
| PoseHead.FlipPhiOfAverage | alphapose/models/simple3dposeSMPLWithCam.py:239-242 | The twist flip is linear in the same sense. |
| PoseHead.FlipTestConsistent | alphapose/models/simple3dposeSMPLWithCam.py:233-243 | If the prediction for the mirrored input is the flip of the original one, flipping it back and averaging returns the original joints and twists. |
| PoseHead.FlipKeepsRootAtOrigin | alphapose/models/simple3dposeSMPLWithCam.py:228-234 | The root is in no pair, so the xyz flip keeps a root at the origin there. |
| PoseHead.TwistsRoundTrip | alphapose/models/simple3dposeSMPLWithCam.py:238 | Reading the 46 regressed values as 23 twists and writing them back, cosine before sine, gives the values. |
| PoseHead.FlattenRoundTrip | alphapose/models/simple3dposeSMPLWithCam.py:238 | Any 23 twists are the reading of their own flat row. |
| PoseHead.Execute | alphapose/models/simple3dposeSMPLWithCam.py:185-243 | The forward pass fails with not-implemented exactly when the normalisation is not "softmax". Otherwise it returns 29 joints, 29 confidences, 29 camera-space joints, 24 body joints, 23 twists and a full shape. |
| PoseHead.ExecuteBodyJoints | alphapose/models/simple3dposeSMPLWithCam.py:249 | The 24-joint output doubled is the first 24 output camera-space joints. |
| PoseHead.ExecuteFlipTest | alphapose/models/simple3dposeSMPLWithCam.py:228-243 | With the flip test and a supplied prediction, consider the case where the network's prediction for the mirrored input is the mirror of the supplied one. Then the output joints are the supplied joints, the output twists are the supplied twists and the output shape is the supplied shape. Each of the three cases is checked separately. |
| PoseHead.ExecuteTwistsAndShape | alphapose/models/simple3dposeSMPLWithCam.py:214-240 | Without averaging, the output twists, flipped back if the flip test is on, write back to the regressed values. The predicted shape minus the initial shape is the output shape offset. |
| PoseHead.ExecuteCameraRoot | alphapose/models/simple3dposeSMPLWithCam.py:217-227 | The output camera is the regressed offset plus the initial camera (0.9, 0, 0). The output camera root is the pinhole back-projection of the decoded root at depth 2.2 d + f/(256 s + 1e−9). |
| PoseHead.ExecuteRootAtOrigin | alphapose/models/simple3dposeSMPLWithCam.py:228-249 | Outside training, output joint 0 is exactly the origin, and so is the first of the 24 body joints. With the flip test, this needs the supplied prediction's root to be the origin as well. |
| PoseHead.ExecuteKeepsDepth | alphapose/models/simple3dposeSMPLWithCam.py:221-229 | Without the flip test, every output depth is the decoded depth, relative to the root's outside training. |
| PoseHead.ExecuteKeepsDifferences | alphapose/models/simple3dposeSMPLWithCam.py:228-229 | Without the flip test, the output keeps every difference between two back-projected joints. |
| PoseHead.ExecuteDecodes | alphapose/models/simple3dposeSMPLWithCam.py:188-204 | For non-negative softmax rows, every decoded coordinate lies in [−0.5, 0.5 − 1/size]. Every confidence is the peak of its renormalised row. |

## Left out

- The backbone, deconvolution head, fully-connected layers, dropout, weight initialisation and pretrained loading are neural-network layers and library calls. Their outputs are inputs to the model: the heatmap logits, the shape offset, the 46 twist values and the camera offset.
- The softmax exponentials are floating-point transcendental maths. `softmax` is a function parameter, and the decode lemmas assume its rows are non-negative where they need it.
- `SMPL_layer.hybrik` and `forward_gt_theta` are not modelled. The body model's code is not part of this model.
- The outputs that need the body model are not modelled: the vertices, the structural 24 joints, the 17 joints, the rotation matrices and `transl`. The 24 joints taken from the prediction itself are modelled.
- Loading the regressor and mean shape with `np.load` is file I/O. The initial shape is a parameter.
- The NaN assertions of `uvd_to_cam` have no counterpart over reals. Every statement is over reals, not 32-bit floats, so rounding is not modelled.
- Zero denominators are excluded by preconditions, because a float division would give inf or NaN:
  - the focal length;
  - 256·scale + 1e−9;
  - the depth factor;
  - the heatmap mass.
- The reshape between the flat (batch, 87) tensor and the (batch, 29, 3) tensor in the flip utilities is not modelled. The methods work on the joint view, and the tensor's rank is a parameter.
- The decoder requires depth = height = width. The source multiplies all three marginals by one range of the width's length, and other sizes fail to broadcast or broadcast a length-1 axis. That failure is not modelled.
- Everything except the flip methods is per batch item. The source applies the same computation to every item at once.
- `leaf_pairs` (line 63) is not used by any modelled operation, and the leaf part of the flip item is ignored by the forward pass, so neither is modelled.
- The `gt_uvd` and `gt_uvd_weight` arguments of `execute` are unused by the modelled steps.
- The training flag is a field of the head configuration rather than module state.
- Aliasing between the returned tensors and the inputs (the flips return the tensor they modified) is not modelled. The flip methods change their array and return only the rank verdict.
- test/detector_st.py is I/O plumbing (image capture, detector calls, queues) and is not part of this model.
