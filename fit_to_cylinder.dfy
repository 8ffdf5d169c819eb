/** The fit-to-cylinder scene node: its bounding-box memo, its reaction to
    change notifications, and the rebuild that stretches the wrapped item to
    the requested height and, when no side of `boundsSize` is zero, rescales
    the bounds marker and moves it onto the item's centre. */
module FitToCylinder {
  import opened Geometry
  import Invalidation

  datatype Option<T> = None | Some(value: T)

  /** A direct child of the fit node. `content` is the box of the child's own
      subtree in the child's frame; `matrix` places the child in the fit
      node's frame. Child 0 wraps the item to fit (ItemWithTransform), the
      last child is the bounds marker (FitBounds). */
  datatype Child = Child(matrix: Matrix, visible: bool, content: Bounds)

  /** The marker's mesh, PlatonicSolids.CreateCube(): a unit cube about the origin. */
  const UnitCube: Bounds := Box(Vec3(-0.5, -0.5, -0.5), Vec3(0.5, 0.5, 0.5))

  predicate ChildrenValid(children: seq<Child>)
  {
    forall i :: 0 <= i < |children| ==> children[i].matrix.w == 1.0 && ValidBounds(children[i].content)
  }

  /** child.GetAxisAlignedBoundingBox(): the child's subtree placed by its own
      matrix, whether or not the child is visible. */
  function OwnBounds(c: Child): Bounds
  {
    TransformBounds(c.matrix, c.content)
  }

  /** What one child adds to its parent's box under `m`. */
  function Contribution(c: Child, m: Matrix): Bounds
  {
    if c.visible then TransformBounds(Multiply(c.matrix, m), c.content) else Empty
  }

  /** A visible child adds the box of its own placed subtree, taken again
      under `m`: placing by the product child.Matrix * m in one step is the
      same as placing by each factor in turn. */
  lemma ContributionNests(c: Child, m: Matrix)
    requires c.visible && c.matrix.w == 1.0 && ValidBounds(c.content)
    ensures Contribution(c, m) == TransformBounds(m, OwnBounds(c))
  {
    TransformBoundsMultiply(c.matrix, m, c.content);
  }

  /** base.GetAxisAlignedBoundingBox(m): the union of the visible children,
      each placed by its own matrix and then by `m`. */
  function ChildrenBounds(children: seq<Child>, m: Matrix): Bounds
  {
    if |children| == 0 then Empty else Union(Contribution(children[0], m), ChildrenBounds(children[1..], m))
  }

  lemma {:induction false} ChildrenBoundsValid(children: seq<Child>, m: Matrix)
    requires ChildrenValid(children)
    ensures ValidBounds(ChildrenBounds(children, m))
  {
    if |children| > 0 {
      ChildrenBoundsValid(children[1..], m);
      if children[0].content.Box? {
        TransformBoundsShape(Multiply(children[0].matrix, m), children[0].content);
      }
      UnionContains(Contribution(children[0], m), ChildrenBounds(children[1..], m));
    }
  }

  lemma WithinTransitive(a: Bounds, b: Bounds, c: Bounds)
    requires Within(a, b) && Within(b, c)
    ensures Within(a, c)
  {
  }

  /** Every visible child lies inside the box of its parent. */
  lemma {:induction false} ChildrenBoundsContain(children: seq<Child>, m: Matrix, i: nat)
    requires ChildrenValid(children) && i < |children|
    ensures Within(Contribution(children[i], m), ChildrenBounds(children, m))
  {
    var first := Contribution(children[0], m);
    if children[0].content.Box? {
      TransformBoundsShape(Multiply(children[0].matrix, m), children[0].content);
    }
    ChildrenBoundsValid(children[1..], m);
    UnionContains(first, ChildrenBounds(children[1..], m));
    if i > 0 {
      ChildrenBoundsContain(children[1..], m, i - 1);
      assert children[1..][i - 1] == children[i];
      WithinTransitive(Contribution(children[i], m), ChildrenBounds(children[1..], m), ChildrenBounds(children, m));
    }
  }

  function ShowMarker(children: seq<Child>): seq<Child>
    requires |children| == 2
  {
    children[1 := children[1].(visible := true)]
  }

  function HideMarker(children: seq<Child>): seq<Child>
    requires |children| == 2
  {
    children[1 := children[1].(visible := false)]
  }

  /** While the memo recomputes, the marker's own box is part of the result. */
  lemma MarkerInRecomputedBounds(children: seq<Child>, m: Matrix)
    requires ChildrenValid(children) && |children| == 2
    ensures Within(TransformBounds(Multiply(children[1].matrix, m), children[1].content),
                   ChildrenBounds(ShowMarker(children), m))
  {
    ChildrenBoundsContain(ShowMarker(children), m, 1);
  }

  // ---- AdjustChildSize ----

  /** The scale AdjustChildSize applies: Z stretched to SizeZ when StretchZ
      is on, X and Y the smaller of two ones. */
  function ItemScale(aabb: Bounds, stretchZ: bool, sizeZ: real): Vec3
    requires aabb.Box? && (stretchZ ==> Size(aabb).z != 0.0)
  {
    var z := if stretchZ then sizeZ / Size(aabb).z else 1.0;
    var minXy := Min(1.0, 1.0);
    Vec3(minXy, minXy, z)
  }

  /** The wrapped item's matrix after AdjustChildSize: the item scale
      applied about the centre of the item's untransformed box. */
  function ItemFitMatrix(aabb: Bounds, stretchZ: bool, sizeZ: real): Matrix
    requires aabb.Box? && (stretchZ ==> Size(aabb).z != 0.0)
  {
    ScalingAbout(Center(aabb), ItemScale(aabb, stretchZ, sizeZ))
  }

  /** ItemFitMatrix is what lines 321-332 compute: ApplyAtPosition of the
      scale on the identity matrix. */
  lemma ItemFitMatrixIsApplyAtPosition(aabb: Bounds, stretchZ: bool, sizeZ: real)
    requires aabb.Box? && (stretchZ ==> Size(aabb).z != 0.0)
    ensures ApplyAtPosition(Identity, Center(aabb), CreateScale(ItemScale(aabb, stretchZ, sizeZ)))
            == ItemFitMatrix(aabb, stretchZ, sizeZ)
  {
    ScaleAtPositionForm(Center(aabb), ItemScale(aabb, stretchZ, sizeZ));
  }

  lemma AbsRatio(g: real, r: real)
    requires r > 0.0
    ensures Abs(g / r) * r == Abs(g)
  {
    if g < 0.0 {
      assert g / r < 0.0;
    }
  }

  lemma MulOne(a: real)
    ensures Abs(1.0) * a == a
  {
  }

  /** The Z side after the stretch: |SizeZ| when stretching, else unchanged. */
  lemma FittedHeight(stretchZ: bool, k: real, r: real, g: real)
    requires r >= 0.0
    requires stretchZ ==> r != 0.0 && k == g / r
    requires !stretchZ ==> k == 1.0
    ensures Abs(k) * r == (if stretchZ then Abs(g) else r)
  {
    if stretchZ {
      AbsRatio(g, r);
    }
  }

  /** The fitted item keeps its centre and its X and Y extent, and its
      height becomes |SizeZ| when StretchZ is on. */
  lemma ItemFitMatrixFits(aabb: Bounds, stretchZ: bool, sizeZ: real)
    requires aabb.Box? && ValidBounds(aabb) && (stretchZ ==> Size(aabb).z != 0.0)
    ensures ItemFitMatrix(aabb, stretchZ, sizeZ).w == 1.0
    ensures ItemFitMatrix(aabb, stretchZ, sizeZ).scale.x == 1.0
    ensures ItemFitMatrix(aabb, stretchZ, sizeZ).scale.y == 1.0
    ensures var b := TransformBounds(ItemFitMatrix(aabb, stretchZ, sizeZ), aabb);
            b.Box? && ValidBounds(b) && Center(b) == Center(aabb)
            && Size(b).x == Size(aabb).x && Size(b).y == Size(aabb).y
            && Size(b).z == (if stretchZ then Abs(sizeZ) else Size(aabb).z)
  {
    var s := ItemScale(aabb, stretchZ, sizeZ);
    FittedHeight(stretchZ, s.z, Size(aabb).z, sizeZ);
    ScalingAboutCenter(aabb, s);
    MulOne(Size(aabb).x);
    MulOne(Size(aabb).y);
  }

  /** AdjustChildSize on the children: nothing without children, else child
      0 gets the fitted matrix, whatever its matrix was before. */
  function AdjustedChildren(children: seq<Child>, stretchZ: bool, sizeZ: real): seq<Child>
    requires |children| > 0 ==> children[0].content.Box? && (stretchZ ==> Size(children[0].content).z != 0.0)
  {
    if |children| > 0 then
      children[0 := children[0].(matrix := ItemFitMatrix(children[0].content, stretchZ, sizeZ))]
    else
      children
  }

  /** The body of AdjustChildSize after the reset to the identity: build
      the scale, then ApplyAtPosition about the box centre. */
  method ScaleAtCenter(aabb: Bounds, stretchZ: bool, sizeZ: real) returns (fitted: Matrix)
    requires aabb.Box? && (stretchZ ==> Size(aabb).z != 0.0)
    ensures fitted == ItemFitMatrix(aabb, stretchZ, sizeZ)
  {
    var scale := One3;
    if stretchZ {
      scale := scale.(z := sizeZ / Size(aabb).z);
    }
    var minXy := Min(scale.x, scale.y);
    scale := scale.(x := minXy, y := minXy);
    fitted := ApplyAtPosition(Identity, Center(aabb), CreateScale(scale));
    ItemFitMatrixIsApplyAtPosition(aabb, stretchZ, sizeZ);
  }

  // ---- UpdateBoundsItem ----

  predicate NonZero(v: Vec3) { v.x != 0.0 && v.y != 0.0 && v.z != 0.0 }

  /** The divisions of lines 347-350 are defined: whenever the marker could
      be rescaled, both boxes exist and the marker's box has no zero side. */
  predicate UpdateDefined(children: seq<Child>, boundsSize: Vec3)
  {
    |children| == 2 && NonZero(boundsSize) ==>
      children[0].content.Box? && children[1].content.Box? && NonZero(Size(OwnBounds(children[1])))
  }

  /** The condition of lines 343-345. */
  predicate MarkerNeedsUpdate(children: seq<Child>, boundsSize: Vec3)
    requires UpdateDefined(children, boundsSize)
  {
    |children| == 2 && NonZero(boundsSize)
    && (Size(OwnBounds(children[1])) != boundsSize
        || Center(OwnBounds(children[1])) != Center(OwnBounds(children[0])))
  }

  /** The factors of line 347: boundsSize over the marker's current size. */
  function Rescale(fitSize: Vec3, boundsSize: Vec3): Vec3
    requires NonZero(fitSize)
  {
    Vec3(boundsSize.x / fitSize.x, boundsSize.y / fitSize.y, boundsSize.z / fitSize.z)
  }

  /** The marker's matrix after lines 347-352: its scale multiplied by the
      rescale factors, its offset chosen so that the centre of its mesh
      lands on `target`. */
  function MarkerFitMatrix(marker: Child, target: Vec3, boundsSize: Vec3): Matrix
    requires marker.content.Box? && NonZero(Size(OwnBounds(marker)))
  {
    var scale := Times(marker.matrix.scale, Rescale(Size(OwnBounds(marker)), boundsSize));
    Matrix(scale, Sub(target, Times(Center(marker.content), scale)), 1.0)
  }

  /** Scale by k, then translate so that the box's centre is `target`. */
  lemma RescaleThenRecentre(m: Matrix, content: Bounds, k: Vec3, target: Vec3)
    requires m.w == 1.0 && content.Box? && ValidBounds(content)
    ensures var scaled := Multiply(m, CreateScale(k));
            Multiply(scaled, CreateTranslation(Sub(target, Center(TransformBounds(scaled, content)))))
            == Matrix(Times(m.scale, k), Sub(target, Times(Center(content), Times(m.scale, k))), 1.0)
  {
    MultiplyScale(m, k);
    var scaled := Multiply(m, CreateScale(k));
    assert scaled == Matrix(Times(m.scale, k), Times(m.offset, k), 1.0);
    TransformBoundsShape(scaled, content);
    var d := Sub(target, Center(TransformBounds(scaled, content)));
    MultiplyTranslation(scaled, d);
    var c := Center(content);
    assert Add(scaled.offset, d) == Sub(target, Times(c, scaled.scale));
  }

  /** MarkerFitMatrix is what lines 347-352 compute, for a marker whose
      matrix has the affine form. */
  lemma MarkerFitMatrixIsSourceSteps(marker: Child, target: Vec3, boundsSize: Vec3)
    requires marker.matrix.w == 1.0 && marker.content.Box? && ValidBounds(marker.content)
    requires NonZero(Size(OwnBounds(marker)))
    ensures var scaled := Multiply(marker.matrix, CreateScale(Rescale(Size(OwnBounds(marker)), boundsSize)));
            Multiply(scaled, CreateTranslation(Sub(target, Center(TransformBounds(scaled, marker.content)))))
            == MarkerFitMatrix(marker, target, boundsSize)
  {
    RescaleThenRecentre(marker.matrix, marker.content, Rescale(Size(OwnBounds(marker)), boundsSize), target);
  }

  lemma AbsProduct(a: real, b: real)
    ensures Abs(a * b) == Abs(a) * Abs(b)
  {
    if a < 0.0 && b < 0.0 {
      assert a * b > 0.0;
    } else if a < 0.0 && b > 0.0 {
      assert a * b < 0.0;
    } else if a > 0.0 && b < 0.0 {
      assert a * b < 0.0;
    } else if a >= 0.0 && b >= 0.0 {
      ProductNonNegative(a, b);
    }
  }

  /** One side of the rescaled marker: a side of length f = |s| * c scaled
      by s * (g / f) has length |g|. */
  lemma RescaledSide(s: real, c: real, f: real, g: real)
    requires c >= 0.0 && f == Abs(s) * c && f != 0.0
    ensures Abs(s * (g / f)) * c == Abs(g)
  {
    ProductNonNegative(Abs(s), c);
    AbsProduct(s, g / f);
    assert Abs(s * (g / f)) * c == Abs(g / f) * (Abs(s) * c);
    AbsRatio(g, f);
  }

  /** A matrix with scale S whose offset puts the centre of `content` on
      `target` gives a box centred on `target` with sides |S| times the
      content's. */
  lemma RecentredBox(scale: Vec3, target: Vec3, content: Bounds)
    requires content.Box? && ValidBounds(content)
    ensures var b := TransformBounds(Matrix(scale, Sub(target, Times(Center(content), scale)), 1.0), content);
            b.Box? && ValidBounds(b) && Center(b) == target && Size(b) == Times(AbsVec(scale), Size(content))
  {
    TransformBoundsShape(Matrix(scale, Sub(target, Times(Center(content), scale)), 1.0), content);
  }

  /** After the update the marker's box has the size |boundsSize| and the
      centre `target`. */
  lemma MarkerFitMatrixFits(marker: Child, target: Vec3, boundsSize: Vec3)
    requires marker.content.Box? && ValidBounds(marker.content)
    requires NonZero(Size(OwnBounds(marker)))
    ensures MarkerFitMatrix(marker, target, boundsSize).w == 1.0
    ensures var b := TransformBounds(MarkerFitMatrix(marker, target, boundsSize), marker.content);
            b.Box? && ValidBounds(b) && Size(b) == AbsVec(boundsSize) && Center(b) == target
  {
    var ms := marker.matrix.scale;
    var c := Size(marker.content);
    TransformBoundsShape(marker.matrix, marker.content);
    var f := Size(OwnBounds(marker));
    var scale := Times(ms, Rescale(f, boundsSize));
    RecentredBox(scale, target, marker.content);
    RescaledSize(ms, c, f, boundsSize);
  }

  /** RescaledSide on each axis. */
  lemma RescaledSize(ms: Vec3, c: Vec3, f: Vec3, boundsSize: Vec3)
    requires c.x >= 0.0 && c.y >= 0.0 && c.z >= 0.0
    requires f == Times(AbsVec(ms), c) && NonZero(f)
    ensures Times(AbsVec(Times(ms, Rescale(f, boundsSize))), c) == AbsVec(boundsSize)
  {
    RescaledSide(ms.x, c.x, f.x, boundsSize.x);
    RescaledSide(ms.y, c.y, f.y, boundsSize.y);
    RescaledSide(ms.z, c.z, f.z, boundsSize.z);
  }

  /** UpdateBoundsItem on the children (its centring transforms are
      discarded and change nothing). */
  function UpdatedChildren(children: seq<Child>, boundsSize: Vec3): seq<Child>
    requires UpdateDefined(children, boundsSize)
  {
    if MarkerNeedsUpdate(children, boundsSize) then
      children[1 := children[1].(matrix := MarkerFitMatrix(children[1], Center(OwnBounds(children[0])), boundsSize))]
    else
      children
  }

  /** Create sets only boundsSize.Z, so the marker is never rescaled. */
  lemma MarkerNeverRescaled(children: seq<Child>, boundsSize: Vec3)
    requires boundsSize.x == 0.0
    ensures UpdateDefined(children, boundsSize)
    ensures UpdatedChildren(children, boundsSize) == children
  {
  }

  /** With a non-negative boundsSize one update settles the marker: the
      condition of lines 343-345 is false afterwards. */
  lemma UpdateSettles(children: seq<Child>, boundsSize: Vec3)
    requires ChildrenValid(children) && UpdateDefined(children, boundsSize)
    requires boundsSize.x >= 0.0 && boundsSize.y >= 0.0 && boundsSize.z >= 0.0
    ensures ChildrenValid(UpdatedChildren(children, boundsSize))
    ensures UpdateDefined(UpdatedChildren(children, boundsSize), boundsSize)
    ensures !MarkerNeedsUpdate(UpdatedChildren(children, boundsSize), boundsSize)
  {
    if MarkerNeedsUpdate(children, boundsSize) {
      var target := Center(OwnBounds(children[0]));
      MarkerFitMatrixFits(children[1], target, boundsSize);
      var u := UpdatedChildren(children, boundsSize);
      assert u[0] == children[0];
      assert Size(OwnBounds(u[1])) == boundsSize;
    }
  }

  // ---- Rebuild ----

  /** Everything Rebuild divides by is non-zero. */
  predicate RebuildDefined(children: seq<Child>, stretchZ: bool, sizeZ: real, boundsSize: Vec3)
  {
    (|children| > 0 ==> children[0].content.Box? && (stretchZ ==> Size(children[0].content).z != 0.0))
    && UpdateDefined(children, boundsSize)
  }

  /** The children after Rebuild: AdjustChildSize, UpdateBoundsItem, and the
      memo query that leaves the marker hidden. */
  function RebuiltChildren(children: seq<Child>, stretchZ: bool, sizeZ: real, boundsSize: Vec3): seq<Child>
    requires RebuildDefined(children, stretchZ, sizeZ, boundsSize)
  {
    var adjusted := AdjustedChildren(children, stretchZ, sizeZ);
    var updated := UpdatedChildren(adjusted, boundsSize);
    if |updated| == 2 then HideMarker(updated) else updated
  }

  /** Rebuild does not drift: a second rebuild with nothing changed leaves
      the children exactly as the first left them. */
  lemma RebuildIdempotent(children: seq<Child>, stretchZ: bool, sizeZ: real, boundsSize: Vec3)
    requires ChildrenValid(children) && RebuildDefined(children, stretchZ, sizeZ, boundsSize)
    requires boundsSize.x >= 0.0 && boundsSize.y >= 0.0 && boundsSize.z >= 0.0
    ensures ChildrenValid(RebuiltChildren(children, stretchZ, sizeZ, boundsSize))
    ensures RebuildDefined(RebuiltChildren(children, stretchZ, sizeZ, boundsSize), stretchZ, sizeZ, boundsSize)
    ensures RebuiltChildren(RebuiltChildren(children, stretchZ, sizeZ, boundsSize), stretchZ, sizeZ, boundsSize)
            == RebuiltChildren(children, stretchZ, sizeZ, boundsSize)
    ensures |RebuiltChildren(children, stretchZ, sizeZ, boundsSize)| == |children|
  {
    var adjusted := AdjustedChildren(children, stretchZ, sizeZ);
    if |children| > 0 {
      ItemFitMatrixFits(children[0].content, stretchZ, sizeZ);
    }
    assert ChildrenValid(adjusted);
    UpdateSettles(adjusted, boundsSize);
    var updated := UpdatedChildren(adjusted, boundsSize);
    var once := RebuiltChildren(children, stretchZ, sizeZ, boundsSize);
    assert AdjustedChildren(once, stretchZ, sizeZ) == once;
    if |updated| == 2 {
      assert OwnBounds(once[1]) == OwnBounds(updated[1]);
      assert !MarkerNeedsUpdate(once, boundsSize);
      assert HideMarker(once) == once;
    }
  }

  /** Line 171 as written: the node-matrix key is reset to the identity. */
  const ResetKeyAsWritten: Matrix := Identity
  /** The reset the model uses: `new Matrix4X4()`, as Rebuild does at line 189. */
  const ResetKey: Matrix := Default

  /** The memo's hit test of lines 130-132, negated. */
  predicate CacheHit(cacheRequested: Matrix, cacheThis: Matrix, cacheBounds: Vec3,
                     requested: Matrix, nodeMatrix: Matrix, boundsSize: Vec3)
  {
    cacheRequested == requested && cacheThis == nodeMatrix && cacheBounds == boundsSize
  }

  /** Either reset forces the next query to recompute: OnInvalidate's
      (corrected) reset of the node-matrix key for every node matrix of the
      affine form, and Rebuild's reset of the requested-matrix key for every
      requested matrix of that form. */
  lemma ResetForcesMiss(cacheKey: Matrix, cacheBounds: Vec3, requested: Matrix, nodeMatrix: Matrix, boundsSize: Vec3)
    ensures nodeMatrix.w == 1.0 ==> !CacheHit(cacheKey, ResetKey, cacheBounds, requested, nodeMatrix, boundsSize)
    ensures requested.w == 1.0 ==> !CacheHit(ResetKey, cacheKey, cacheBounds, requested, nodeMatrix, boundsSize)
  {
  }

  /** If the new item reaches outside the old box, the box of the children
      changes: a memo still holding the old box is stale. */
  lemma StaleWhenItemGrows(children: seq<Child>, c: Child, m: Matrix)
    requires ChildrenValid(children) && |children| == 2
    requires c.visible && c.matrix.w == 1.0 && ValidBounds(c.content)
    requires !Within(Contribution(c, m), ChildrenBounds(ShowMarker(children), m))
    ensures ChildrenBounds(ShowMarker(children[0 := c]), m) != ChildrenBounds(ShowMarker(children), m)
  {
    var changed := ShowMarker(children[0 := c]);
    assert ChildrenValid(changed);
    assert changed[0] == c;
    ChildrenBoundsContain(changed, m, 0);
  }

  class FitToCylinderObject3D {
    /** This node's own transform. */
    var matrix: Matrix
    var children: seq<Child>
    /** Parent != null. */
    var hasParent: bool
    /** RebuildLock() nesting depth; RebuildLocked is depth > 0. */
    var rebuildLocks: nat
    var boundsSize: Vec3
    var cacheAabb: Option<Bounds>   // None is the initial null
    var cacheBounds: Vec3
    var cacheRequestedMatrix: Matrix
    var cacheThisMatrix: Matrix
    var alternateCentering: bool
    var diameter: real
    var sizeZ: real
    var stretchZ: bool
    /** How often the memo recomputed (an instrumentation counter). */
    ghost var recomputations: nat
    /** The notifications sent with Parent.Invalidate. */
    ghost var parentLog: seq<Invalidation.InvalidateArgs>
    /** The calls of base.OnInvalidate. */
    ghost var baseLog: seq<Invalidation.InvalidateArgs>

    ghost predicate Valid()
      reads this`matrix, this`children
    {
      matrix.w == 1.0 && ChildrenValid(children)
    }

    ghost predicate CanRebuild()
      reads this`children, this`stretchZ, this`sizeZ, this`boundsSize
    {
      RebuildDefined(children, stretchZ, sizeZ, boundsSize)
    }

    predicate KeysMatch(m: Matrix)
      reads this`cacheRequestedMatrix, this`cacheThisMatrix, this`cacheBounds, this`matrix, this`boundsSize
    {
      CacheHit(cacheRequestedMatrix, cacheThisMatrix, cacheBounds, m, matrix, boundsSize)
    }

    predicate RebuildLocked()
      reads this`rebuildLocks
    {
      rebuildLocks > 0
    }

    /** The memo is sound: whenever its keys match the last requested matrix,
        the stored box is the box of the current children with the marker
        shown. (A query with any other matrix misses.) */
    ghost predicate MemoSound()
      reads this`children, this`cacheAabb, this`cacheRequestedMatrix, this`cacheThisMatrix,
            this`cacheBounds, this`matrix, this`boundsSize
    {
      |children| == 2 && KeysMatch(cacheRequestedMatrix) ==>
        cacheAabb == Some(ChildrenBounds(ShowMarker(children), cacheRequestedMatrix))
    }

    /** `new FitToCylinderObject3D()`: no children, the property defaults. */
    constructor ()
      ensures Valid()
      ensures matrix == Identity && children == [] && !hasParent && rebuildLocks == 0
      ensures boundsSize == Zero3 && cacheAabb == None && cacheBounds == Zero3
      ensures cacheRequestedMatrix == Default && cacheThisMatrix == Default
      ensures !alternateCentering && diameter == 0.0 && sizeZ == 0.0 && stretchZ
      ensures recomputations == 0 && parentLog == [] && baseLog == []
      ensures MemoSound()
    {
      matrix := Identity;
      children := [];
      hasParent := false;
      rebuildLocks := 0;
      boundsSize := Zero3;
      cacheAabb := None;
      cacheBounds := Zero3;
      cacheRequestedMatrix := Default;
      cacheThisMatrix := Default;
      alternateCentering := false;
      diameter := 0.0;
      sizeZ := 0.0;
      stretchZ := true;
      recomputations := 0;
      parentLog := [];
      baseLog := [];
    }

    /** Create: wrap the item (whose box is `itemBox`) and a hidden marker,
        set Diameter to the XY diagonal of the box and the height to its Z
        size, and rebuild. `diagonal` is the value of Math.Sqrt at line 104. */
    static method Create(itemBox: Bounds, diagonal: real) returns (fit: FitToCylinderObject3D)
      requires itemBox.Box? && ValidBounds(itemBox) && Size(itemBox).z != 0.0
      requires diagonal >= 0.0
      requires diagonal * diagonal == Size(itemBox).x * Size(itemBox).x + Size(itemBox).y * Size(itemBox).y
      ensures fresh(fit) && fit.Valid() && fit.CanRebuild()
      ensures fit.matrix == Identity && !fit.hasParent && fit.rebuildLocks == 0
      ensures fit.diameter == diagonal && fit.sizeZ == Size(itemBox).z && fit.stretchZ && !fit.alternateCentering
      ensures fit.boundsSize == Vec3(0.0, 0.0, Size(itemBox).z)
      ensures fit.children == RebuiltChildren([Child(Identity, true, itemBox), Child(Identity, false, UnitCube)],
                                              true, Size(itemBox).z, fit.boundsSize)
      ensures fit.parentLog == [] && fit.baseLog == [] && fit.recomputations == 1
      ensures fit.KeysMatch(Identity)
      ensures fit.cacheAabb == Some(ChildrenBounds(ShowMarker(fit.children), Identity))
      ensures fit.MemoSound()
    {
      fit := Wrap(itemBox, diagonal);
      RebuildIdempotent(fit.children, fit.stretchZ, fit.sizeZ, fit.boundsSize);
      fit.Rebuild();
      fit.rebuildLocks := fit.rebuildLocks - 1;
    }

    /** The part of Create before its Rebuild: a new node, locked, holding
        the item and the hidden marker, with the diameter and height set. */
    static method Wrap(itemBox: Bounds, diagonal: real) returns (fit: FitToCylinderObject3D)
      requires itemBox.Box? && ValidBounds(itemBox) && Size(itemBox).z != 0.0
      ensures fresh(fit) && fit.Valid() && fit.CanRebuild()
      ensures fit.children == [Child(Identity, true, itemBox), Child(Identity, false, UnitCube)]
      ensures fit.matrix == Identity && !fit.hasParent && fit.rebuildLocks == 1
      ensures fit.diameter == diagonal && fit.sizeZ == Size(itemBox).z && fit.stretchZ && !fit.alternateCentering
      ensures fit.boundsSize == Vec3(0.0, 0.0, Size(itemBox).z)
      ensures fit.parentLog == [] && fit.baseLog == [] && fit.recomputations == 0
    {
      fit := new FitToCylinderObject3D();
      fit.rebuildLocks := fit.rebuildLocks + 1;
      var bounds := Child(Identity, false, UnitCube);
      var scaleItem := Child(Identity, true, itemBox);
      fit.children := fit.children + [scaleItem];
      fit.children := fit.children + [bounds];
      fit.diameter := diagonal;
      fit.boundsSize := fit.boundsSize.(z := Size(itemBox).z);
      fit.sizeZ := Size(itemBox).z;
    }

    /** GetAxisAlignedBoundingBox(matrix): with exactly two children, the box
        is memoised under (matrix, Matrix, boundsSize) and recomputed with the
        marker briefly visible; otherwise the plain base box. */
    method GetAxisAlignedBoundingBox(m: Matrix) returns (box: Option<Bounds>)
      requires Valid()
      modifies this`children, this`cacheAabb, this`cacheRequestedMatrix, this`cacheThisMatrix,
               this`cacheBounds, this`recomputations
      ensures Valid()
      ensures |old(children)| != 2 ==> box == Some(ChildrenBounds(children, m)) && unchanged(this)
      ensures |old(children)| == 2 && old(KeysMatch(m)) ==> box == old(cacheAabb) && unchanged(this)
      ensures |old(children)| == 2 && !old(KeysMatch(m)) ==>
                box == Some(ChildrenBounds(ShowMarker(old(children)), m))
                && children == HideMarker(old(children))
                && recomputations == old(recomputations) + 1
      // so an immediate repeat of the same query is a hit with the same box
      ensures |children| == 2 ==> KeysMatch(m) && cacheAabb == box
      // a sound memo answers with the true box, and stays sound; a miss makes it sound
      ensures old(MemoSound()) && |old(children)| == 2 ==> box == Some(ChildrenBounds(ShowMarker(old(children)), m))
      ensures old(MemoSound()) || !old(KeysMatch(m)) ==> MemoSound()
    {
      if |children| == 2 {
        if cacheRequestedMatrix != m || cacheThisMatrix != matrix || cacheBounds != boundsSize {
          children := children[1 := children[1].(visible := true)];
          cacheAabb := Some(ChildrenBounds(children, m));
          children := children[1 := children[1].(visible := false)];
          cacheRequestedMatrix := m;
          cacheThisMatrix := matrix;
          cacheBounds := boundsSize;
          recomputations := recomputations + 1;
        }
        box := cacheAabb;
      } else {
        box := Some(ChildrenBounds(children, m));
      }
    }

    /** What Rebuild leaves behind, relative to the state it started from. */
    twostate predicate RebuiltFromOld()
      reads this
    {
      old(RebuildDefined(children, stretchZ, sizeZ, boundsSize))
      && rebuildLocks == old(rebuildLocks)
      && children == old(RebuiltChildren(children, stretchZ, sizeZ, boundsSize))
      && (|children| == 2 ==>
            KeysMatch(matrix) && cacheAabb == Some(ChildrenBounds(ShowMarker(children), matrix))
            && recomputations == old(recomputations) + 1)
      && (|children| != 2 ==>
            cacheRequestedMatrix == Default && cacheThisMatrix == old(cacheThisMatrix)
            && cacheBounds == old(cacheBounds) && cacheAabb == old(cacheAabb)
            && recomputations == old(recomputations))
      && parentLog == old(parentLog)
                      + (if hasParent then [Invalidation.InvalidateArgs(this, {Invalidation.Matrix})] else [])
    }

    /** Rebuild: fit the item, update the marker, reset the requested-matrix
        key and re-query the box under the lock, then tell the parent that
        this node's matrix changed. */
    method Rebuild()
      requires Valid() && CanRebuild()
      modifies this`children, this`cacheAabb, this`cacheRequestedMatrix, this`cacheThisMatrix, this`cacheBounds,
               this`recomputations, this`rebuildLocks, this`parentLog
      ensures Valid() && RebuiltFromOld()
    {
      rebuildLocks := rebuildLocks + 1;
      AdjustChildSize();
      UpdateBoundsItem();
      cacheRequestedMatrix := Default;
      ghost var updated := children;
      var after := GetAxisAlignedBoundingBox(matrix);
      if |children| == 2 {
        assert ShowMarker(children) == ShowMarker(updated);
      }
      rebuildLocks := rebuildLocks - 1;
      if hasParent {
        parentLog := parentLog + [Invalidation.InvalidateArgs(this, {Invalidation.Matrix})];
      }
    }

    /** AdjustChildSize: reset the wrapped item to the identity, then scale
        it about the centre of its untransformed box. */
    method AdjustChildSize()
      requires Valid()
      requires |children| > 0 ==> children[0].content.Box? && (stretchZ ==> Size(children[0].content).z != 0.0)
      modifies this`children
      ensures Valid()
      ensures children == AdjustedChildren(old(children), stretchZ, sizeZ)
    {
      if |children| > 0 {
        var aabb := children[0].content;
        children := children[0 := children[0].(matrix := Identity)];
        var fitted := ScaleAtCenter(aabb, stretchZ, sizeZ);
        children := children[0 := children[0].(matrix := fitted)];
      }
    }

    /** UpdateBoundsItem: with two children and a boundsSize without zero
        sides, rescale and move the marker when its size or centre is off.
        The centring transforms of lines 355-362 are computed into locals
        that are never read; see Centering.ExpandedToRadius and
        Centering.VisualCenter. */
    method UpdateBoundsItem()
      requires Valid() && UpdateDefined(children, boundsSize)
      modifies this`children
      ensures Valid()
      ensures children == UpdatedChildren(old(children), boundsSize)
    {
      if |children| == 2 {
        var transformAabb := OwnBounds(children[0]);
        var fitAabb := OwnBounds(children[1]);
        if boundsSize.x != 0.0 && boundsSize.y != 0.0 && boundsSize.z != 0.0 {
          var fitSize := Size(fitAabb);
          if fitSize != boundsSize || Center(fitAabb) != Center(transformAabb) {
            var marker := children[1];
            MarkerFitMatrixIsSourceSteps(marker, Center(transformAabb), boundsSize);
            marker := marker.(matrix := Multiply(marker.matrix, CreateScale(
              Vec3(boundsSize.x / fitSize.x, boundsSize.y / fitSize.y, boundsSize.z / fitSize.z))));
            marker := marker.(matrix := Multiply(marker.matrix, CreateTranslation(
              Sub(Center(transformAabb), Center(OwnBounds(marker))))));
            children := children[1 := marker];
          }
        }
      }
    }

    /** What OnInvalidate leaves behind, with the value line 171 writes into
        the node-matrix key as the parameter `resetKey`. */
    twostate predicate Responded(args: Invalidation.InvalidateArgs, resetKey: Matrix)
      reads this
    {
      var response := Invalidation.Dispatch(args.flags, args.source == this, old(RebuildLocked()));
      rebuildLocks == old(rebuildLocks)
      && baseLog == old(baseLog) + (if response == Invalidation.ResetCacheAndForward then [args, args] else [args])
      && (response == Invalidation.Rebuild ==> RebuiltFromOld())
      && (response == Invalidation.ResetCacheAndForward ==>
            cacheThisMatrix == resetKey
            && children == old(children) && cacheAabb == old(cacheAabb)
            && cacheRequestedMatrix == old(cacheRequestedMatrix) && cacheBounds == old(cacheBounds)
            && parentLog == old(parentLog) && recomputations == old(recomputations))
      && (response == Invalidation.Forward ==>
            children == old(children) && cacheAabb == old(cacheAabb)
            && cacheRequestedMatrix == old(cacheRequestedMatrix) && cacheThisMatrix == old(cacheThisMatrix)
            && cacheBounds == old(cacheBounds) && parentLog == old(parentLog)
            && recomputations == old(recomputations))
    }

    /** The body of OnInvalidate, with the reset value of line 171 as a
        parameter: act on the decision table, then always call the base
        handler (so it runs twice in the reset branch). */
    method HandleInvalidate(args: Invalidation.InvalidateArgs, resetKey: Matrix)
      requires Valid()
      requires Invalidation.Dispatch(args.flags, args.source == this, RebuildLocked()) == Invalidation.Rebuild
               ==> CanRebuild()
      modifies this`children, this`cacheAabb, this`cacheRequestedMatrix, this`cacheThisMatrix, this`cacheBounds,
               this`recomputations, this`rebuildLocks, this`parentLog, this`baseLog
      ensures Valid() && Responded(args, resetKey)
    {
      var response := Invalidation.Dispatch(args.flags, args.source == this, RebuildLocked());
      if response == Invalidation.Rebuild {
        Rebuild();
      } else if response == Invalidation.ResetCacheAndForward {
        cacheThisMatrix := resetKey;
        baseLog := baseLog + [args];
      }
      baseLog := baseLog + [args];
    }

    /** OnInvalidate, with the corrected reset value ResetKey (line 171
        writes the identity; see ItemChangeAsWritten). Every watched
        notification leaves the memo sound, whatever changed before it. */
    method OnInvalidate(args: Invalidation.InvalidateArgs)
      requires Valid()
      requires Invalidation.Dispatch(args.flags, args.source == this, RebuildLocked()) == Invalidation.Rebuild
               ==> CanRebuild()
      modifies this`children, this`cacheAabb, this`cacheRequestedMatrix, this`cacheThisMatrix, this`cacheBounds,
               this`recomputations, this`rebuildLocks, this`parentLog, this`baseLog
      ensures Valid() && Responded(args, ResetKey)
      ensures var response := Invalidation.Dispatch(args.flags, args.source == this, old(RebuildLocked()));
              (response == Invalidation.ResetCacheAndForward ==> forall m :: !KeysMatch(m))
              && (response != Invalidation.Forward ==> MemoSound())
      ensures old(MemoSound()) ==> MemoSound()
    {
      HandleInvalidate(args, ResetKey);
      forall m | true
        ensures !CacheHit(cacheRequestedMatrix, ResetKey, cacheBounds, m, matrix, boundsSize)
      {
        ResetForcesMiss(cacheRequestedMatrix, cacheBounds, m, matrix, boundsSize);
      }
    }

    /** This node replaces its item (child 0) by `c`, which raises a Children
        notification from this node; OnInvalidate answers it with the reset
        branch, and the next query returns the box of the new children. */
    method ItemChange(c: Child, m: Matrix) returns (box: Option<Bounds>)
      requires Valid() && |children| == 2 && c.matrix.w == 1.0 && ValidBounds(c.content)
      modifies this`children, this`cacheAabb, this`cacheRequestedMatrix, this`cacheThisMatrix, this`cacheBounds,
               this`recomputations, this`rebuildLocks, this`parentLog, this`baseLog
      ensures Valid() && MemoSound()
      ensures children == HideMarker(old(children)[0 := c])
      ensures box == Some(ChildrenBounds(ShowMarker(old(children)[0 := c]), m))
    {
      children := children[0 := c];
      OnInvalidate(Invalidation.InvalidateArgs(this, {Invalidation.Children}));
      box := GetAxisAlignedBoundingBox(m);
    }

    /** ItemChange with line 171 as written: for a node whose Matrix is the
        identity, the reset leaves the last query's keys matching, so the
        query returns the box of the old children; it differs from the true
        box whenever the new item reaches outside the old box. */
    method ItemChangeAsWritten(c: Child, m: Matrix) returns (box: Option<Bounds>)
      requires Valid() && |children| == 2 && c.matrix.w == 1.0 && ValidBounds(c.content)
      requires matrix == Identity && KeysMatch(m) && MemoSound()
      modifies this`children, this`cacheAabb, this`cacheRequestedMatrix, this`cacheThisMatrix, this`cacheBounds,
               this`recomputations, this`rebuildLocks, this`parentLog, this`baseLog
      ensures children == old(children)[0 := c]
      ensures box == Some(ChildrenBounds(ShowMarker(old(children)), m))
      ensures c.visible && !Within(Contribution(c, m), ChildrenBounds(ShowMarker(old(children)), m))
              ==> box != Some(ChildrenBounds(ShowMarker(children), m))
    {
      ghost var stale := ChildrenBounds(ShowMarker(children), m);
      children := children[0 := c];
      HandleInvalidate(Invalidation.InvalidateArgs(this, {Invalidation.Children}), ResetKeyAsWritten);
      box := GetAxisAlignedBoundingBox(m);
      if c.visible && !Within(Contribution(c, m), stale) {
        StaleWhenItemGrows(old(children), c, m);
      }
    }
  }
}
