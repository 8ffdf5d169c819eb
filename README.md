# Fit to Cylinder: a Dafny model

This project models the fit-to-cylinder scene node of MatterControl
(`FitToCylinderObject3D`). The node wraps an item together with a hidden
bounds marker. It stretches the item's height to a requested size about the
centre of the item's box. The marker is rescaled and moved onto the item's
centre only when no side of `boundsSize` is zero, and `Create` leaves
`boundsSize.X` and `.Y` at zero, so a node made by `Create` never moves its
marker (`MarkerNeverRescaled`). The node memoises its own bounding box under
three keys, and it reacts to change notifications by rebuilding, resetting
the memo, or forwarding.

The project has four modules:

- `Geometry` (geometry.dfy) covers points and matrices:
  - the matrices the node builds: scales, translations, their products and
    `ApplyAtPosition`. Each is a diagonal homogeneous 4x4 matrix,
    `Matrix(scale, offset, w)`, in the source's row-vector convention;
  - axis-aligned boxes and the box of a transformed box;
  - laws about both: composition, box shape under a transform, and scaling
    about a point.
- `Invalidation` (invalidation.dfy) covers the change notification. It
  holds the decision table of `OnInvalidate` as a function, and proves which
  notifications start a rebuild and which only reset the memo.
- `Centering` (centering.dfy) covers the XY centring transforms:
  - `GetCenteringTransformExpandedToRadius` and
    `GetCenteringTransformVisualCenter`;
  - the radial-extent loop `MaxXyDistFromCenter`, as a method with a loop
    invariant, proved against a running-maximum function.
- `FitToCylinder` (fit_to_cylinder.dfy) covers the node itself:
  - a class whose fields are the node's state: its matrix, its children,
    `boundsSize`, the four memo fields, the properties and the rebuild-lock
    depth;
  - methods for `Create`, `GetAxisAlignedBoundingBox`, `OnInvalidate`,
    `Rebuild`, `AdjustChildSize` and `UpdateBoundsItem`, and `ItemChange`,
    which replaces the item and handles the resulting notification;
  - a soundness predicate on the memo (`MemoSound`): whenever the keys match
    a query, the stored box is the true box;
  - specification functions on the children (`AdjustedChildren`,
    `UpdatedChildren`, `RebuiltChildren`) and lemmas about them.

Children are values: `Child(matrix, visible, content)`. `content` is the box
of the child's own subtree in the child's frame. The framework's
`base.GetAxisAlignedBoundingBox(m)` is not part of this model. It is modelled
as the union of the visible children, each placed by its own matrix and then
by `m`. The notifications sent to the parent and the calls of the base
handler are recorded in ghost logs. A ghost counter records how often the
memo recomputes.

Three facts about the code shape the model:

- `UpdateBoundsItem` computes both centring transforms into locals that are
  never read (FitToCylinderObject3D.cs:355-362). So the item's X and Y
  extent never changes; only its height is fitted (`ItemFitMatrixFits`).
- The divisions at lines 220, 274, 325 and 348-350 are unguarded. The model
  puts their non-zero divisors in `requires`: the radii of lines 220 and 274
  in those of `ExpandedToRadius` and `VisualCenter`, and the sizes of lines
  325 and 348-350 in `RebuildDefined` (through `CanRebuild`).
- The visual-centre radius is measured from the centre of the moved
  outline's bounds (lines 270-272), not from the weighted centre the
  transform scales about (`VisualRadiusAsWrittenFromBounds`; see Findings).

## Model

| member | source | states |
|---|---|---|
| Invalidation.Dispatch | MatterControlLib/DesignTools/Operations/FitToCylinderObject3D.cs:153-173 | A rebuild happens exactly for an outside Children/Matrix/Mesh change while unlocked, or for this node's own Properties change. The memo key is reset exactly when one of the four flags is present and no rebuild happens. The node's own Matrix notification and outside changes while locked never start a rebuild. Other flags are only forwarded. |
| Geometry.TransformBoundsShape | MatterControlLib/DesignTools/Operations/FitToCylinderObject3D.cs:340-341 | The box of a transformed box is a valid box. Its sides are the old sides times the magnitude of the scale, and its centre is the transformed old centre. |
| Geometry.TransformBoundsMultiply | MatterControlLib/DesignTools/Operations/FitToCylinderObject3D.cs:137 | Bounding a box under a product of matrices is bounding it under each factor in turn. |
| Geometry.ScaleAtPositionForm | MatterControlLib/DesignTools/Operations/FitToCylinderObject3D.cs:332 | `ApplyAtPosition(Identity, c, CreateScale(s))`, with the three products multiplied out, is the scaling by `s` about `c`. |
| Geometry.ScalingAboutMaps | MatterControlLib/DesignTools/Operations/FitToCylinderObject3D.cs:332 | Scaling about `c` sends every point `p` to `c + s * (p - c)`. |
| Geometry.ScalingAboutCenter | MatterControlLib/DesignTools/Operations/FitToCylinderObject3D.cs:332 | Scaling a box about its own centre keeps the centre and multiplies each side by the magnitude of its factor. |
| Centering.CenteringTransformMaps | MatterControlLib/DesignTools/Operations/FitToCylinderObject3D.cs:218-223 | `centering * scalling` maps a point to its XY offset from the centre times the scale, and leaves Z unchanged. |
| Centering.CenteringScalesDistance | MatterControlLib/DesignTools/Operations/FitToCylinderObject3D.cs:274-279 | A point at squared distance `d` from the centre lands at squared distance `(goal/r)^2 * d` from the Z axis. Inside the measured radius means inside the goal radius, and on it means on the goal circle. |
| Centering.ExpandedToRadiusFits | MatterControlLib/DesignTools/Operations/FitToCylinderObject3D.cs:215-223 | The enclosing circle's centre goes to the axis and its radius to `radius`. Points inside the circle land inside the goal circle, points on it land on it, and Z is untouched. |
| Centering.MaxXyDistSqIsMaximum | MatterControlLib/DesignTools/Operations/FitToCylinderObject3D.cs:284-296 | The running maximum is at least the floor 0.000001 and at least every vertex's squared distance. It is the floor or one of those distances. |
| Centering.MaxXyDistFromCenter | MatterControlLib/DesignTools/Operations/FitToCylinderObject3D.cs:282-314 | It takes the centre of the vertices' bounds, as both overloads do, and the loop computes the running maximum from it. The result is bounded below by the floor and by every squared distance from that centre, and it is attained. |
| Centering.MaxXyDistSqShift | MatterControlLib/DesignTools/Operations/FitToCylinderObject3D.cs:270-272 | Moving the outline and the point it is measured from by the same vector does not change the measured radius. |
| Centering.TranslatedBoundsCenter | MatterControlLib/DesignTools/Operations/FitToCylinderObject3D.cs:270-272 | Moving an outline moves the centre of its bounds by the same vector. |
| Centering.MovedRadiusFromOrigin | MatterControlLib/DesignTools/Operations/FitToCylinderObject3D.cs:270-272 | Measuring the moved outline from the origin is the same as measuring the outline from the weighted centre. |
| Centering.VisualRadiusAsWrittenFromBounds | MatterControlLib/DesignTools/Operations/FitToCylinderObject3D.cs:268-272 | For every non-empty outline and every weighted centre, the radius as written is the outline's radius about the centre of its own bounds: the weighted centre does not enter it. |
| Centering.VisualRadiusAsWrittenTooSmall | MatterControlLib/DesignTools/Operations/FitToCylinderObject3D.cs:268-279 | As written, the triangle (0,0), (3,0), (0,3) with weighted centre (1,1) measures squared radius 4.5 instead of 5. Its vertex (3,0) then lands outside the goal radius, at about 1.054 times it. |
| Centering.VisualCenterFitsGoal | MatterControlLib/DesignTools/Operations/FitToCylinderObject3D.cs:268-279 | With the radius measured from the weighted centre, every outline vertex lands within the goal radius. |
| FitToCylinder.ChildrenBoundsValid | MatterControlLib/DesignTools/Operations/FitToCylinderObject3D.cs:137 | The union box of valid children is valid. |
| FitToCylinder.ContributionNests | MatterControlLib/DesignTools/Operations/FitToCylinderObject3D.cs:137 | A visible child's box under `child.Matrix * m` is its own box bounded under `m`. |
| FitToCylinder.ChildrenBoundsContain | MatterControlLib/DesignTools/Operations/FitToCylinderObject3D.cs:137 | Every visible child's box lies inside the union box. |
| FitToCylinder.MarkerInRecomputedBounds | MatterControlLib/DesignTools/Operations/FitToCylinderObject3D.cs:134-139 | While the memo recomputes with the marker shown, the marker's box is part of the result. |
| FitToCylinder.ItemFitMatrixIsApplyAtPosition | MatterControlLib/DesignTools/Operations/FitToCylinderObject3D.cs:321-332 | The fitted item matrix is exactly `ApplyAtPosition` of the item scale about the box centre, starting from the identity. |
| FitToCylinder.ItemFitMatrixFits | MatterControlLib/DesignTools/Operations/FitToCylinderObject3D.cs:322-332 | The fitted item keeps its centre and its X and Y extent, with X/Y scale 1. Its height becomes abs(SizeZ) when StretchZ is on and is unchanged otherwise. |
| FitToCylinder.ScaleAtCenter | MatterControlLib/DesignTools/Operations/FitToCylinderObject3D.cs:322-332 | The source's steps (scale vector, `Math.Min` of X and Y, `ApplyAtPosition`) yield the fitted item matrix. |
| FitToCylinder.MarkerFitMatrixIsSourceSteps | MatterControlLib/DesignTools/Operations/FitToCylinderObject3D.cs:347-352 | Multiplying the marker's matrix by the rescale and then by the re-centring translation gives the closed-form marker matrix. |
| FitToCylinder.MarkerFitMatrixFits | MatterControlLib/DesignTools/Operations/FitToCylinderObject3D.cs:347-352 | After the update, the marker's box has size abs(boundsSize) on each axis and is centred on the target (the item's centre). |
| FitToCylinder.MarkerNeverRescaled | MatterControlLib/DesignTools/Operations/FitToCylinderObject3D.cs:343 | With boundsSize.X zero, as `Create` leaves it, the marker is never changed. |
| FitToCylinder.UpdateSettles | MatterControlLib/DesignTools/Operations/FitToCylinderObject3D.cs:343-352 | With a non-negative boundsSize, one update makes the rescale condition false, so a second update changes nothing. |
| FitToCylinder.RebuildIdempotent | MatterControlLib/DesignTools/Operations/FitToCylinderObject3D.cs:185-190 | A second rebuild with nothing changed leaves the children exactly as the first left them, still valid and still rebuildable. It keeps the child count. |
| FitToCylinder.ResetForcesMiss | MatterControlLib/DesignTools/Operations/FitToCylinderObject3D.cs:130-132 | Resetting either key to `new Matrix4X4()` makes the hit test fail for every matrix of the affine form. That covers the node-matrix key (the corrected line 171) and the requested-matrix key (`Rebuild`, line 189). |
| FitToCylinder.StaleWhenItemGrows | MatterControlLib/DesignTools/Operations/FitToCylinderObject3D.cs:126-149 | If a new item reaches outside the old box of the children, the box of the children changes. So a memo still holding the old box is stale. |
| FitToCylinder.FitToCylinderObject3D.constructor | MatterControlLib/DesignTools/Operations/FitToCylinderObject3D.cs:56-79 | A new node has no children, the identity matrix, the property defaults (StretchZ on, AlternateCentering off) and the memo keys at `new Matrix4X4()`. Its memo is sound: whenever the keys match a query, the stored box is the true box. |
| FitToCylinder.FitToCylinderObject3D.Wrap | MatterControlLib/DesignTools/Operations/FitToCylinderObject3D.cs:85-107 | Before its rebuild, `Create` holds the lock, the item wrapper and the hidden cube marker. Diameter is set to the given diagonal, and SizeZ and boundsSize.Z to the item's height. |
| FitToCylinder.FitToCylinderObject3D.Create | MatterControlLib/DesignTools/Operations/FitToCylinderObject3D.cs:83-114 | The new node is valid and unlocked. Its children are the rebuilt item and marker, and Diameter and SizeZ are set from the item box. After exactly one recomputation the memo holds the box of the children with the marker shown for the identity query, and it is sound. |
| FitToCylinder.FitToCylinderObject3D.GetAxisAlignedBoundingBox | MatterControlLib/DesignTools/Operations/FitToCylinderObject3D.cs:126-149 | Without two children it returns the plain union box and changes nothing. On a hit it returns the stored box and changes nothing. On a miss it returns the union with the marker shown, leaves the marker hidden and records the keys, so an immediate repeat is a hit with the same box. With a sound memo the result is always the true box, and the memo stays sound. |
| FitToCylinder.FitToCylinderObject3D.Rebuild | MatterControlLib/DesignTools/Operations/FitToCylinderObject3D.cs:178-196 | The children become `RebuiltChildren` of the old ones, and the lock depth is restored. With two children the memo recomputes once and then holds the box with the marker shown under the node's own matrix. The parent is sent one Matrix notification from this node. |
| FitToCylinder.FitToCylinderObject3D.AdjustChildSize | MatterControlLib/DesignTools/Operations/FitToCylinderObject3D.cs:316-334 | Nothing changes without children. Otherwise child 0's matrix becomes the fitted item matrix, whatever it was before. |
| FitToCylinder.FitToCylinderObject3D.UpdateBoundsItem | MatterControlLib/DesignTools/Operations/FitToCylinderObject3D.cs:336-364 | The marker's matrix changes exactly under the condition of lines 343-345, and then becomes the closed-form marker matrix. Nothing else changes. |
| FitToCylinder.FitToCylinderObject3D.OnInvalidate | MatterControlLib/DesignTools/Operations/FitToCylinderObject3D.cs:151-176 | It follows `Dispatch`, with the corrected reset key `new Matrix4X4()` at line 171. A rebuild behaves as `Rebuild`. A reset makes every later query miss and changes nothing else. Forwarding changes nothing. After a rebuild or a reset the memo is sound, and a sound memo stays sound. The base handler runs twice in the reset branch and once otherwise. |
| FitToCylinder.FitToCylinderObject3D.HandleInvalidate | MatterControlLib/DesignTools/Operations/FitToCylinderObject3D.cs:151-176 | The body of `OnInvalidate` with the reset value of line 171 as a parameter: the branch `Dispatch` picks, its effect on the memo and the children, and the base-handler calls. |
| FitToCylinder.FitToCylinderObject3D.ItemChange | MatterControlLib/DesignTools/Operations/FitToCylinderObject3D.cs:151-176 | After this node replaces its item and handles the resulting Children notification with the corrected reset, the memo is sound and the next query returns the box of the new children. |
| FitToCylinder.FitToCylinderObject3D.ItemChangeAsWritten | MatterControlLib/DesignTools/Operations/FitToCylinderObject3D.cs:171 | With line 171 as written and a node whose Matrix is the identity, the next query after the item is replaced returns the old children's box. That box is wrong whenever the new item reaches outside it. |

## Left out

- `DrawEditor` (lines 116-124) only renders, so it is not modelled.
- FitToCylinder.FitToCylinderObject3D.Rebuild: does not model the `CenterAndHeightMantainer` scopes, which restore the centre and height of the wrapped item (line 88, in `Create`) and of the node (line 183), because that framework code is not part of this model. The item's and the node's matrices are unchanged by them in the model.
- FitToCylinder.FitToCylinderObject3D.Rebuild: the memo is filled for the node's own `Matrix`, because the no-argument `GetAxisAlignedBoundingBox()` of line 190 is modelled as the query with the node's `Matrix`. The framework's `base.GetAxisAlignedBoundingBox(m)` is modelled as placing each child by `child.Matrix * m` only. The framework's `Object3D` is not part of this model, so that convention is assumed, not derived.
- FitToCylinder.FitToCylinderObject3D.OnInvalidate: uses the corrected reset value `new Matrix4X4()` at line 171, not the `Matrix4X4.Identity` written there. The value as written is modelled by `HandleInvalidate` with `ResetKeyAsWritten`, and its effect is shown by `ItemChangeAsWritten` (see Findings).
- FitToCylinder.FitToCylinderObject3D.ItemChange: assumes that the framework raises a Children notification from this node when its children are modified. That framework code is not part of this model.
- The `Children.Add` calls of `Create` (lines 100-102) and the writes of a child's Matrix and Visible inside the rebuild lock (lines 136, 138, 321, 332, 347 and 351) may raise notifications that reach `OnInvalidate` while locked. `Dispatch` sends those to the reset-and-forward branch. The model does not deliver them, so the resets and base-handler calls they cause are not modelled.
- FitToCylinder.FitToCylinderObject3D.Wrap: ensures an empty `baseLog`, and so does `Create`. Under the convention assumed for `ItemChange`, each `Children.Add` of lines 100-102 would raise a notification that `Dispatch` sends to the reset branch, which calls the base handler twice. Those calls are not recorded, since the notifications are not delivered (next line).
- FitToCylinder.FitToCylinderObject3D.GetAxisAlignedBoundingBox: the marker's own `RebuildLock` (line 134) is not modelled, since marker locks are not observable in this model.
- The two centring transforms computed into discarded locals by `UpdateBoundsItem` (lines 355-362) are modelled as the pure functions `Centering.ExpandedToRadius` and `Centering.VisualCenter`. They are not evaluated inside `UpdateBoundsItem`, because they change no state.
- `SmallestEnclosingCircle.MakeCircle`, `OrthographicZProjection.GetClipperPolygons`, winding-direction filtering, `GetWeightedCenter`, `VisibleMeshes` and `WorldMatrix` are library code outside this model. Their results (the circle, the weighted centre, the outline vertices) are parameters. `PlatonicSolids.CreateCube()` (line 95) is library code too; the model takes it to be the unit cube about the origin (`UnitCube`).
- Centering.MaxXyDistFromCenter: returns the squared maximum distance, not its `Math.Sqrt`. Real square roots are not available here, so the callers take the measured radius as a parameter whose square is that value.
- FitToCylinder.FitToCylinderObject3D.Create: takes the diagonal, the `Math.Sqrt` of line 104, as a parameter whose square is the sum of the squared X and Y sizes.
- Doubles are modelled as mathematical reals. IEEE rounding and the infinities of the unguarded divisions are not modelled; non-zero divisors are preconditions instead.
- Matrices are diagonal (scale and translate only). Rotations never arise in this node's own computations, and a rotated child's box is not modelled.
- Children are values, not shared objects, so aliasing of the wrapped item with other scene nodes is not modelled.
- `async` and `await` are modelled as synchronous calls. The change notifications to the parent and the calls of the base handler are recorded in ghost logs rather than delivered.
- The property setters (Diameter, SizeZ, StretchZ, AlternateCentering) are plain field writes and have no members of their own.
- The integer (`IntPoint`) scaling of the Clipper polygons is not modelled; outlines are sequences of real points.
- The command vertices of a vertex source (move, close, stop) are not modelled. Every vertex of an outline is a point that counts in `MaxXyDistFromCenter` and in the bounds.

## Findings

| source | as written | input that shows it | evidently intended | confidence | as-written member | corrected member |
|---|---|---|---|---|---|---|
| MatterControlLib/DesignTools/Operations/FitToCylinderObject3D.cs:171 | The memo's node-matrix key is reset to `Matrix4X4.Identity`. | A node whose Matrix is the identity, queried with `m`, then given a new item that reaches outside the old box. The Children notification resets the key to the identity, which still matches, so the next query with `m` returns the old box. | Reset to a value no real node matrix has, as `Rebuild` does with `new Matrix4X4()` at line 189, so that the next query recomputes. | not executed; medium | FitToCylinder.FitToCylinderObject3D.ItemChangeAsWritten | FitToCylinder.FitToCylinderObject3D.ItemChange |
| MatterControlLib/DesignTools/Operations/FitToCylinderObject3D.cs:270-272 | The outline is moved so the weighted centre is at the origin, but `MaxXyDistFromCenter` measures from the centre of the moved outline's bounds. | The triangle (0,0), (3,0), (0,3) with weighted centre (1,1) measures squared radius 4.5 instead of 5. Its vertex (3,0) then lands at about 1.054 times the goal radius. | Measure from the weighted centre the transform scales about, so every vertex lands within the goal radius. | not executed; medium (the result is currently discarded at line 357) | Centering.VisualRadiusAsWrittenTooSmall | Centering.VisualCenterFitsGoal |
