/** Points, the scale-and-translate matrices the fit node builds, and
    axis-aligned bounding boxes, with the laws the fit relies on. */
module Geometry {

  datatype Vec2 = Vec2(x: real, y: real)
  datatype Vec3 = Vec3(x: real, y: real, z: real)

  const Zero3: Vec3 := Vec3(0.0, 0.0, 0.0)
  const One3: Vec3 := Vec3(1.0, 1.0, 1.0)

  function Add(a: Vec3, b: Vec3): Vec3 { Vec3(a.x + b.x, a.y + b.y, a.z + b.z) }
  function Sub(a: Vec3, b: Vec3): Vec3 { Vec3(a.x - b.x, a.y - b.y, a.z - b.z) }
  function Neg(a: Vec3): Vec3 { Vec3(-a.x, -a.y, -a.z) }
  /** Component-wise product. */
  function Times(a: Vec3, b: Vec3): Vec3 { Vec3(a.x * b.x, a.y * b.y, a.z * b.z) }
  function Scaled(k: real, a: Vec3): Vec3 { Vec3(k * a.x, k * a.y, k * a.z) }

  function Abs(r: real): real { if r < 0.0 then -r else r }
  function AbsVec(a: Vec3): Vec3 { Vec3(Abs(a.x), Abs(a.y), Abs(a.z)) }
  function Min(a: real, b: real): real { if a <= b then a else b }
  function Max(a: real, b: real): real { if a <= b then b else a }

  /** A 4x4 matrix of the shape
        | sx  0  0  0 |
        |  0 sy  0  0 |
        |  0  0 sz  0 |
        | tx ty tz  w |
      in the row-vector convention of the source: a point p becomes p * M,
      and A * B applies A first, then B. Scales and translations have w = 1;
      the all-zero matrix `new Matrix4X4()` has w = 0. */
  datatype Matrix = Matrix(scale: Vec3, offset: Vec3, w: real)

  const Identity: Matrix := Matrix(One3, Zero3, 1.0)
  /** The value of `new Matrix4X4()`: every entry zero. */
  const Default: Matrix := Matrix(Zero3, Zero3, 0.0)

  function CreateTranslation(v: Vec3): Matrix { Matrix(One3, v, 1.0) }
  function CreateScale(v: Vec3): Matrix { Matrix(v, Zero3, 1.0) }

  /** The matrix product a * b. */
  function Multiply(a: Matrix, b: Matrix): Matrix
  {
    Matrix(Times(a.scale, b.scale), Add(Times(a.offset, b.scale), Scaled(a.w, b.offset)), a.w * b.w)
  }

  /** Vector3.Transform: the point p * m (the w column is not divided out). */
  function Transform(p: Vec3, m: Matrix): Vec3 { Add(Times(p, m.scale), m.offset) }

  /** Object3DExtensions.ApplyAtPosition: move `position` to the origin,
      apply `t`, move back. */
  function ApplyAtPosition(m: Matrix, position: Vec3, t: Matrix): Matrix
  {
    Multiply(Multiply(Multiply(m, CreateTranslation(Neg(position))), t), CreateTranslation(position))
  }

  /** With a in the affine form (w = 1), the product drops a's w. */
  lemma MultiplyAffine(a: Matrix, b: Matrix)
    requires a.w == 1.0
    ensures Multiply(a, b) == Matrix(Times(a.scale, b.scale), Add(Times(a.offset, b.scale), b.offset), b.w)
  {
  }

  lemma MultiplyTranslation(a: Matrix, v: Vec3)
    requires a.w == 1.0
    ensures Multiply(a, CreateTranslation(v)) == Matrix(a.scale, Add(a.offset, v), 1.0)
  {
  }

  lemma MultiplyScale(a: Matrix, s: Vec3)
    ensures Multiply(a, CreateScale(s)) == Matrix(Times(a.scale, s), Times(a.offset, s), a.w)
  {
  }

  /** The matrix that scales by s about the point c: p |-> c + s * (p - c). */
  function ScalingAbout(c: Vec3, s: Vec3): Matrix
  {
    Matrix(s, Sub(c, Times(c, s)), 1.0)
  }

  /** ApplyAtPosition(Identity, c, CreateScale(s)), the three products
      multiplied out, is the scaling about c. */
  lemma ScaleAtPositionForm(c: Vec3, s: Vec3)
    ensures ApplyAtPosition(Identity, c, CreateScale(s)) == ScalingAbout(c, s)
  {
    ScaleAtPositionSteps(c, s);
    NegTimes(c, s);
  }

  lemma NegTimes(c: Vec3, s: Vec3)
    ensures Add(Times(Neg(c), s), c) == Sub(c, Times(c, s))
  {
  }

  lemma ScaleAtPositionSteps(c: Vec3, s: Vec3)
    ensures ApplyAtPosition(Identity, c, CreateScale(s)) == Matrix(s, Add(Times(Neg(c), s), c), 1.0)
  {
    MultiplyTranslation(Identity, Neg(c));
    var moved := Multiply(Identity, CreateTranslation(Neg(c)));
    assert moved == Matrix(One3, Neg(c), 1.0);
    MultiplyScale(moved, s);
    var scaled := Multiply(moved, CreateScale(s));
    assert scaled == Matrix(s, Times(Neg(c), s), 1.0);
    MultiplyTranslation(scaled, c);
  }

  /** Scaling about a point keeps that point fixed and scales every offset
      from it. */
  lemma ScalingAboutMaps(c: Vec3, s: Vec3, p: Vec3)
    ensures Transform(p, ScalingAbout(c, s)) == Add(c, Times(s, Sub(p, c)))
  {
    ScaleAbout(p.x, c.x, s.x);
    ScaleAbout(p.y, c.y, s.y);
    ScaleAbout(p.z, c.z, s.z);
  }

  lemma ScaleAbout(p: real, c: real, s: real)
    ensures p * s + (c - c * s) == c + s * (p - c)
  {
  }

  /** AxisAlignedBoundingBox: `Empty` is the box of nothing. */
  datatype Bounds = Empty | Box(lo: Vec3, hi: Vec3)

  predicate ValidBounds(b: Bounds)
  {
    b.Box? ==> b.lo.x <= b.hi.x && b.lo.y <= b.hi.y && b.lo.z <= b.hi.z
  }

  function Size(b: Bounds): Vec3
    requires b.Box?
  {
    Sub(b.hi, b.lo)
  }

  function Center(b: Bounds): Vec3
    requires b.Box?
  {
    Scaled(0.5, Add(b.lo, b.hi))
  }

  /** The `+` of two boxes: the smallest box holding both. */
  function Union(a: Bounds, b: Bounds): Bounds
  {
    match a
    case Empty => b
    case Box(alo, ahi) =>
      match b
      case Empty => a
      case Box(blo, bhi) =>
        Box(Vec3(Min(alo.x, blo.x), Min(alo.y, blo.y), Min(alo.z, blo.z)),
            Vec3(Max(ahi.x, bhi.x), Max(ahi.y, bhi.y), Max(ahi.z, bhi.z)))
  }

  /** a lies inside b. */
  predicate Within(a: Bounds, b: Bounds)
  {
    a.Empty? ||
    (b.Box? && b.lo.x <= a.lo.x && b.lo.y <= a.lo.y && b.lo.z <= a.lo.z
            && a.hi.x <= b.hi.x && a.hi.y <= b.hi.y && a.hi.z <= b.hi.z)
  }

  lemma UnionContains(a: Bounds, b: Bounds)
    requires ValidBounds(a) && ValidBounds(b)
    ensures ValidBounds(Union(a, b))
    ensures Within(a, Union(a, b)) && Within(b, Union(a, b))
  {
  }

  /** The image of the interval [lo, hi] on one axis under x * s + t. */
  function ImageLo(s: real, t: real, lo: real, hi: real): real { if s >= 0.0 then s * lo + t else s * hi + t }
  function ImageHi(s: real, t: real, lo: real, hi: real): real { if s >= 0.0 then s * hi + t else s * lo + t }

  /** The box of the eight transformed corners of b. */
  function TransformBounds(m: Matrix, b: Bounds): Bounds
  {
    match b
    case Empty => Empty
    case Box(lo, hi) =>
      Box(Vec3(ImageLo(m.scale.x, m.offset.x, lo.x, hi.x),
               ImageLo(m.scale.y, m.offset.y, lo.y, hi.y),
               ImageLo(m.scale.z, m.offset.z, lo.z, hi.z)),
          Vec3(ImageHi(m.scale.x, m.offset.x, lo.x, hi.x),
               ImageHi(m.scale.y, m.offset.y, lo.y, hi.y),
               ImageHi(m.scale.z, m.offset.z, lo.z, hi.z)))
  }

  lemma ImageShape(s: real, t: real, lo: real, hi: real)
    requires lo <= hi
    ensures ImageLo(s, t, lo, hi) <= ImageHi(s, t, lo, hi)
    ensures ImageHi(s, t, lo, hi) - ImageLo(s, t, lo, hi) == Abs(s) * (hi - lo)
    ensures 0.5 * (ImageLo(s, t, lo, hi) + ImageHi(s, t, lo, hi)) == (0.5 * (lo + hi)) * s + t
  {
    if s >= 0.0 {
      ProductNonNegative(s, hi - lo);
      assert s * hi - s * lo == s * (hi - lo);
    } else {
      ProductNonNegative(-s, hi - lo);
      assert s * lo - s * hi == -s * (hi - lo);
    }
  }

  lemma ProductNonNegative(a: real, b: real)
    requires a >= 0.0 && b >= 0.0
    ensures a * b >= 0.0
  {
  }

  /** A transformed box is a box whose size is the old size times |scale|
      and whose centre is the transformed old centre. */
  lemma TransformBoundsShape(m: Matrix, b: Bounds)
    requires ValidBounds(b) && b.Box?
    ensures TransformBounds(m, b).Box? && ValidBounds(TransformBounds(m, b))
    ensures Size(TransformBounds(m, b)) == Times(AbsVec(m.scale), Size(b))
    ensures Center(TransformBounds(m, b)) == Transform(Center(b), m)
  {
    ImageShape(m.scale.x, m.offset.x, b.lo.x, b.hi.x);
    ImageShape(m.scale.y, m.offset.y, b.lo.y, b.hi.y);
    ImageShape(m.scale.z, m.offset.z, b.lo.z, b.hi.z);
  }

  lemma ImageCompose(sa: real, ta: real, sb: real, tb: real, s: real, t: real, lo: real, hi: real)
    requires lo <= hi && s == sa * sb && t == ta * sb + tb
    ensures ImageLo(s, t, lo, hi) == ImageLo(sb, tb, ImageLo(sa, ta, lo, hi), ImageHi(sa, ta, lo, hi))
    ensures ImageHi(s, t, lo, hi) == ImageHi(sb, tb, ImageLo(sa, ta, lo, hi), ImageHi(sa, ta, lo, hi))
  {
    if sa == 0.0 || sb == 0.0 {
    } else if sa > 0.0 && sb > 0.0 {
      assert sa * sb > 0.0;
    } else if sa > 0.0 {
      assert sa * sb < 0.0;
    } else if sb > 0.0 {
      assert sa * sb < 0.0;
    } else {
      assert sa * sb > 0.0;
    }
  }

  /** Bounding a box under a product is bounding it under each factor in turn. */
  lemma TransformBoundsMultiply(a: Matrix, b: Matrix, box: Bounds)
    requires a.w == 1.0 && ValidBounds(box)
    ensures TransformBounds(Multiply(a, b), box) == TransformBounds(b, TransformBounds(a, box))
  {
    if box.Box? {
      MultiplyAffine(a, b);
      var m := Multiply(a, b);
      var inner := TransformBounds(a, box);
      var lhs := TransformBounds(m, box);
      var rhs := TransformBounds(b, inner);
      ImageCompose(a.scale.x, a.offset.x, b.scale.x, b.offset.x, m.scale.x, m.offset.x, box.lo.x, box.hi.x);
      ImageCompose(a.scale.y, a.offset.y, b.scale.y, b.offset.y, m.scale.y, m.offset.y, box.lo.y, box.hi.y);
      ImageCompose(a.scale.z, a.offset.z, b.scale.z, b.offset.z, m.scale.z, m.offset.z, box.lo.z, box.hi.z);
      assert lhs.lo.x == rhs.lo.x && lhs.hi.x == rhs.hi.x;
      assert lhs.lo.y == rhs.lo.y && lhs.hi.y == rhs.hi.y;
      assert lhs.lo.z == rhs.lo.z && lhs.hi.z == rhs.hi.z;
    }
  }

  /** Scaling a box about its own centre keeps the centre and multiplies
      each side by the magnitude of its scale factor. */
  lemma ScalingAboutCenter(box: Bounds, s: Vec3)
    requires box.Box? && ValidBounds(box)
    ensures var b := TransformBounds(ScalingAbout(Center(box), s), box);
            b.Box? && ValidBounds(b) && Center(b) == Center(box) && Size(b) == Times(AbsVec(s), Size(box))
  {
    var c := Center(box);
    ScalingAboutMaps(c, s, c);
    assert Times(s, Sub(c, c)) == Zero3;
    TransformBoundsShape(ScalingAbout(c, s), box);
  }
}
