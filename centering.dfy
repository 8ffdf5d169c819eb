/** The centring transforms of FitToCylinderObject3D
    (GetCenteringTransformExpandedToRadius, GetCenteringTransformVisualCenter)
    and the radial-extent helper MaxXyDistFromCenter. */
module Centering {
  import opened Geometry

  /** SmallestEnclosingCircle.MakeCircle's result. */
  datatype Circle = Circle(center: Vec2, radius: real)

  /** The squared distance of p from c in the XY plane. */
  function DistSq(p: Vec2, c: Vec2): real
  {
    (p.x - c.x) * (p.x - c.x) + (p.y - c.y) * (p.y - c.y)
  }

  /** The squared distance of p from the Z axis. */
  function XyNormSq(p: Vec3): real { p.x * p.x + p.y * p.y }

  function Lift(p: Vec2): Vec3 { Vec3(p.x, p.y, 0.0) }

  /** `centering * scalling`: translate by (-center.x, -center.y, 0), then
      scale X and Y by `scale` and Z by 1. */
  function CenteringTransform(center: Vec2, scale: real): Matrix
  {
    Multiply(CreateTranslation(Vec3(-center.x, -center.y, 0.0)), CreateScale(Vec3(scale, scale, 1.0)))
  }

  /** GetCenteringTransformExpandedToRadius, given the enclosing circle of the
      projected vertices: the circle's centre goes to the origin and its radius
      to `radius`. The source divides by circle.Radius unguarded. */
  function ExpandedToRadius(circle: Circle, radius: real): Matrix
    requires circle.radius != 0.0
  {
    CenteringTransform(circle.center, radius / circle.radius)
  }

  /** GetCenteringTransformVisualCenter, given the weighted centre of the
      outer outlines and the measured radius (the square root of what
      MaxXyDistFromCenter measures). The source divides by it unguarded. */
  function VisualCenter(center: Vec2, measured: real, goalRadius: real): Matrix
    requires measured != 0.0
  {
    CenteringTransform(center, goalRadius / measured)
  }

  lemma ProductFactors(d: real, k: real, e: real)
    ensures (d * k) * (d * k) + (e * k) * (e * k) == (k * k) * (d * d + e * e)
  {
  }

  lemma ShiftScale(p: real, c: real, k: real)
    ensures p * k + (-c) * k == (p - c) * k
  {
  }

  /** The centring transform moves a point to its offset from the centre,
      scaled in X and Y, and leaves Z alone. */
  lemma CenteringTransformMaps(center: Vec2, k: real, p: Vec3)
    ensures CenteringTransform(center, k).w == 1.0
    ensures Transform(p, CenteringTransform(center, k)) == Vec3((p.x - center.x) * k, (p.y - center.y) * k, p.z)
  {
    var t := CreateTranslation(Vec3(-center.x, -center.y, 0.0));
    MultiplyScale(t, Vec3(k, k, 1.0));
    var m := CenteringTransform(center, k);
    assert m.scale.x == 1.0 * k && m.scale.y == 1.0 * k && m.scale.z == 1.0;
    assert m.offset.x == (-center.x) * k && m.offset.y == (-center.y) * k && m.offset.z == 0.0;
    ShiftScale(p.x, center.x, k);
    ShiftScale(p.y, center.y, k);
  }

  lemma RatioSquared(g: real, r: real)
    requires r != 0.0
    ensures ((g / r) * (g / r)) * (r * r) == g * g
  {
    var k := g / r;
    assert k * r == g;
    assert (k * k) * (r * r) == (k * r) * (k * r);
  }

  lemma SquareNonNegative(k: real)
    ensures k * k >= 0.0
  {
    if k < 0.0 {
      ProductNonNegative(-k, -k);
    }
  }

  lemma ScaleMonotone(a: real, x: real, y: real)
    requires a >= 0.0 && x <= y
    ensures a * x <= a * y
  {
    ProductNonNegative(a, y - x);
  }

  /** A point at squared distance d from the centre lands at squared distance
      (goal / r)^2 * d from the Z axis: inside the measured circle means
      inside the goal radius, on it means on the goal circle. */
  lemma CenteringScalesDistance(center: Vec2, r: real, goal: real, p: Vec3)
    requires r != 0.0
    ensures var q := Transform(p, CenteringTransform(center, goal / r));
            var d := DistSq(Vec2(p.x, p.y), center);
            q.z == p.z
            && XyNormSq(q) == ((goal / r) * (goal / r)) * d
            && (d <= r * r ==> XyNormSq(q) <= goal * goal)
            && (d == r * r ==> XyNormSq(q) == goal * goal)
  {
    var k := goal / r;
    CenteringTransformMaps(center, k, p);
    var d := DistSq(Vec2(p.x, p.y), center);
    ProductFactors(p.x - center.x, k, p.y - center.y);
    RatioSquared(goal, r);
    SquareNonNegative(k);
    if d <= r * r {
      ScaleMonotone(k * k, d, r * r);
    }
  }

  /** The enclosing circle goes onto the goal circle about the Z axis, every
      point inside it inside that circle, and Z is untouched. */
  lemma ExpandedToRadiusFits(circle: Circle, radius: real, p: Vec3)
    requires circle.radius != 0.0
    ensures Transform(p, ExpandedToRadius(circle, radius))
            == Vec3((p.x - circle.center.x) * (radius / circle.radius),
                    (p.y - circle.center.y) * (radius / circle.radius), p.z)
    ensures DistSq(Vec2(p.x, p.y), circle.center) <= circle.radius * circle.radius
            ==> XyNormSq(Transform(p, ExpandedToRadius(circle, radius))) <= radius * radius
    ensures DistSq(Vec2(p.x, p.y), circle.center) == circle.radius * circle.radius
            ==> XyNormSq(Transform(p, ExpandedToRadius(circle, radius))) == radius * radius
  {
    CenteringTransformMaps(circle.center, radius / circle.radius, p);
    CenteringScalesDistance(circle.center, circle.radius, radius, p);
  }

  /** The floor MaxXyDistFromCenter starts from. */
  const MinDistSq: real := 0.000001

  /** The running maximum of MaxXyDistFromCenter after visiting `points` in
      order: the floor, raised by every larger squared distance. */
  function MaxXyDistSq(points: seq<Vec2>, center: Vec2): real
  {
    if |points| == 0 then MinDistSq
    else
      var sofar := MaxXyDistSq(points[..|points| - 1], center);
      var d := DistSq(points[|points| - 1], center);
      if d > sofar then d else sofar
  }

  /** The running maximum is the largest of the floor and every squared
      distance, and it is one of them. */
  lemma {:induction false} MaxXyDistSqIsMaximum(points: seq<Vec2>, center: Vec2)
    ensures MaxXyDistSq(points, center) >= MinDistSq
    ensures forall i :: 0 <= i < |points| ==> DistSq(points[i], center) <= MaxXyDistSq(points, center)
    ensures MaxXyDistSq(points, center) == MinDistSq
            || exists i :: 0 <= i < |points| && MaxXyDistSq(points, center) == DistSq(points[i], center)
  {
    if |points| > 0 {
      var init := points[..|points| - 1];
      MaxXyDistSqIsMaximum(init, center);
      assert forall i :: 0 <= i < |init| ==> init[i] == points[i];
      if MaxXyDistSq(points, center) != MinDistSq && MaxXyDistSq(points, center) == MaxXyDistSq(init, center) {
        var i :| 0 <= i < |init| && MaxXyDistSq(init, center) == DistSq(init[i], center);
        assert MaxXyDistSq(points, center) == DistSq(points[i], center);
      }
    }
  }

  /** The centre both overloads measure from: the centre of the bounds of
      the vertices (for a mesh, the X and Y of its box's centre, which is the
      same). Without vertices nothing is measured, so any centre will do. */
  function MeasureCenter(points: seq<Vec2>): Vec2
  {
    if |points| == 0 then Vec2(0.0, 0.0) else BoundsCenter(points)
  }

  /** MaxXyDistFromCenter (both overloads): take the centre of the bounds,
      then loop over the vertices. The result is the squared radius. */
  method MaxXyDistFromCenter(points: seq<Vec2>) returns (maxDistSqrd: real)
    ensures maxDistSqrd == MaxXyDistSq(points, MeasureCenter(points))
    ensures maxDistSqrd >= MinDistSq
    ensures forall i :: 0 <= i < |points| ==> DistSq(points[i], BoundsCenter(points)) <= maxDistSqrd
    ensures maxDistSqrd == MinDistSq
            || exists i :: 0 <= i < |points| && maxDistSqrd == DistSq(points[i], BoundsCenter(points))
  {
    maxDistSqrd := MinDistSq;
    var center := if |points| == 0 then Vec2(0.0, 0.0) else BoundsCenter(points);
    for i := 0 to |points|
      invariant maxDistSqrd == MaxXyDistSq(points[..i], center)
    {
      var position := points[i];
      var distSqrd := DistSq(position, center);
      if distSqrd > maxDistSqrd {
        maxDistSqrd := distSqrd;
      }
      assert points[..i + 1][..i] == points[..i];
    }
    assert points[..|points|] == points;
    MaxXyDistSqIsMaximum(points, center);
  }

  /** VertexSourceApplyTransform by a translation. */
  function Translated(points: seq<Vec2>, d: Vec2): seq<Vec2>
  {
    seq(|points|, i requires 0 <= i < |points| => Vec2(points[i].x + d.x, points[i].y + d.y))
  }

  function MinX(points: seq<Vec2>): real requires |points| > 0
  {
    if |points| == 1 then points[0].x else Min(points[0].x, MinX(points[1..]))
  }
  function MaxX(points: seq<Vec2>): real requires |points| > 0
  {
    if |points| == 1 then points[0].x else Max(points[0].x, MaxX(points[1..]))
  }
  function MinY(points: seq<Vec2>): real requires |points| > 0
  {
    if |points| == 1 then points[0].y else Min(points[0].y, MinY(points[1..]))
  }
  function MaxY(points: seq<Vec2>): real requires |points| > 0
  {
    if |points| == 1 then points[0].y else Max(points[0].y, MaxY(points[1..]))
  }

  /** GetBounds().Center of a vertex source with these vertices. */
  function BoundsCenter(points: seq<Vec2>): Vec2
    requires |points| > 0
  {
    Vec2(0.5 * (MinX(points) + MaxX(points)), 0.5 * (MinY(points) + MaxY(points)))
  }

  /** Lines 270-272 as written: the outline is moved so that the weighted
      centre is at the origin, and MaxXyDistFromCenter then measures from the
      centre of the moved outline's bounds, not from the origin. */
  function VisualRadiusSqAsWritten(outline: seq<Vec2>, center: Vec2): real
    requires |outline| > 0
  {
    var moved := Translated(outline, Vec2(-center.x, -center.y));
    MaxXyDistSq(moved, BoundsCenter(moved))
  }

  /** The radius the visual-centre transform needs: measured from the weighted
      centre it scales about. */
  function VisualRadiusSq(outline: seq<Vec2>, center: Vec2): real
  {
    MaxXyDistSq(outline, center)
  }

  lemma DistSqShift(p: Vec2, q: Vec2, d: Vec2)
    ensures DistSq(Vec2(p.x + d.x, p.y + d.y), Vec2(q.x + d.x, q.y + d.y)) == DistSq(p, q)
  {
    assert (p.x + d.x) - (q.x + d.x) == p.x - q.x;
    assert (p.y + d.y) - (q.y + d.y) == p.y - q.y;
  }

  /** Moving the outline and the point measured from by the same vector does
      not change the running maximum. */
  lemma {:induction false} MaxXyDistSqShift(points: seq<Vec2>, q: Vec2, d: Vec2)
    ensures MaxXyDistSq(Translated(points, d), Vec2(q.x + d.x, q.y + d.y)) == MaxXyDistSq(points, q)
  {
    if |points| > 0 {
      var init := points[..|points| - 1];
      var moved := Translated(points, d);
      MaxXyDistSqShift(init, q, d);
      assert moved[..|moved| - 1] == Translated(init, d);
      DistSqShift(points[|points| - 1], q, d);
    }
  }

  /** Measuring the moved outline from the origin is measuring the outline
      from the weighted centre. */
  lemma {:induction false} MovedRadiusFromOrigin(outline: seq<Vec2>, center: Vec2)
    ensures MaxXyDistSq(Translated(outline, Vec2(-center.x, -center.y)), Vec2(0.0, 0.0)) == VisualRadiusSq(outline, center)
  {
    var d := Vec2(-center.x, -center.y);
    MaxXyDistSqShift(outline, center, d);
    assert Vec2(center.x + d.x, center.y + d.y) == Vec2(0.0, 0.0);
  }

  /** The bounds of a moved outline are the moved bounds. */
  lemma {:induction false} TranslatedExtremes(points: seq<Vec2>, d: Vec2)
    requires |points| > 0
    ensures MinX(Translated(points, d)) == MinX(points) + d.x
    ensures MaxX(Translated(points, d)) == MaxX(points) + d.x
    ensures MinY(Translated(points, d)) == MinY(points) + d.y
    ensures MaxY(Translated(points, d)) == MaxY(points) + d.y
  {
    if |points| > 1 {
      TranslatedExtremes(points[1..], d);
      assert Translated(points, d)[1..] == Translated(points[1..], d);
    }
  }

  /** Moving a vertex source moves the centre of its bounds by the same vector. */
  lemma {:induction false} TranslatedBoundsCenter(points: seq<Vec2>, d: Vec2)
    requires |points| > 0
    ensures BoundsCenter(Translated(points, d)) == Vec2(BoundsCenter(points).x + d.x, BoundsCenter(points).y + d.y)
  {
    TranslatedExtremes(points, d);
  }

  /** As written, the visual-centre radius is the outline's radius about the
      centre of its own bounds: the weighted centre does not enter it. */
  lemma {:induction false} VisualRadiusAsWrittenFromBounds(outline: seq<Vec2>, center: Vec2)
    requires |outline| > 0
    ensures VisualRadiusSqAsWritten(outline, center) == MaxXyDistSq(outline, BoundsCenter(outline))
  {
    var d := Vec2(-center.x, -center.y);
    var moved := Translated(outline, d);
    var bc := BoundsCenter(outline);
    assert BoundsCenter(moved) == Vec2(bc.x + d.x, bc.y + d.y) by {
      TranslatedBoundsCenter(outline, d);
    }
    assert MaxXyDistSq(moved, Vec2(bc.x + d.x, bc.y + d.y)) == MaxXyDistSq(outline, bc) by {
      MaxXyDistSqShift(outline, bc, d);
    }
  }

  /** A right triangle whose area centroid, the weighted centre of its
      outline, is (1, 1), while the centre of its bounds is (1.5, 1.5). */
  const Triangle: seq<Vec2> := [Vec2(0.0, 0.0), Vec2(3.0, 0.0), Vec2(0.0, 3.0)]
  const TriangleCentroid: Vec2 := Vec2(1.0, 1.0)

  /** With the radius measured as written, a vertex lands outside the goal
      radius: the triangle is measured with squared radius 4.5 instead of 5,
      and its vertex (3, 0) lands at squared distance 5/4.5 times the squared
      goal radius (about 1.054 times the goal radius). */
  lemma VisualRadiusAsWrittenTooSmall(r: real, goal: real)
    requires r > 0.0 && r * r == 4.5 && goal != 0.0
    ensures VisualRadiusSqAsWritten(Triangle, TriangleCentroid) == r * r
    ensures VisualRadiusSq(Triangle, TriangleCentroid) == 5.0
    ensures XyNormSq(Transform(Vec3(3.0, 0.0, 0.0), VisualCenter(TriangleCentroid, r, goal))) > goal * goal
  {
    TriangleAsWritten();
    TriangleIntended();
    FarVertexOutside(r, goal);
  }

  lemma TriangleAsWritten()
    ensures VisualRadiusSqAsWritten(Triangle, TriangleCentroid) == 4.5
  {
    VisualRadiusAsWrittenFromBounds(Triangle, TriangleCentroid);
    assert Triangle[1..] == [Vec2(3.0, 0.0), Vec2(0.0, 3.0)];
    assert Triangle[1..][1..] == [Vec2(0.0, 3.0)];
    var c := BoundsCenter(Triangle);
    assert c == Vec2(1.5, 1.5);
    assert Triangle[..2] == [Vec2(0.0, 0.0), Vec2(3.0, 0.0)];
    assert Triangle[..2][..1] == [Vec2(0.0, 0.0)];
    assert Triangle[..2][..1][..0] == [];
    assert MaxXyDistSq(Triangle[..2][..1], c) == 4.5;
    assert MaxXyDistSq(Triangle[..2], c) == 4.5;
  }

  lemma TriangleIntended()
    ensures VisualRadiusSq(Triangle, TriangleCentroid) == 5.0
  {
    var c := TriangleCentroid;
    assert Triangle[..2] == [Vec2(0.0, 0.0), Vec2(3.0, 0.0)];
    assert Triangle[..2][..1] == [Vec2(0.0, 0.0)];
    assert Triangle[..2][..1][..0] == [];
    assert MaxXyDistSq(Triangle[..2][..1], c) == 2.0;
    assert MaxXyDistSq(Triangle[..2], c) == 5.0;
  }

  /** Scaled by goal / r with r * r = 4.5, the vertex (3, 0), at squared
      distance 5 from the centroid, lands outside the goal circle. */
  lemma FarVertexOutside(r: real, goal: real)
    requires r > 0.0 && r * r == 4.5 && goal != 0.0
    ensures XyNormSq(Transform(Vec3(3.0, 0.0, 0.0), VisualCenter(TriangleCentroid, r, goal))) > goal * goal
  {
    var p := Vec3(3.0, 0.0, 0.0);
    CenteringScalesDistance(TriangleCentroid, r, goal, p);
    assert DistSq(Vec2(p.x, p.y), TriangleCentroid) == 5.0;
    var k2 := (goal / r) * (goal / r);
    RatioSquared(goal, r);
    assert k2 * 4.5 == goal * goal;
    assert goal * goal > 0.0;
    assert k2 > 0.0;
  }

  /** With the radius measured from the weighted centre, every outline vertex
      lands within the goal radius. */
  lemma VisualCenterFitsGoal(outline: seq<Vec2>, center: Vec2, measured: real, goal: real)
    requires measured > 0.0 && measured * measured == VisualRadiusSq(outline, center)
    ensures forall i :: 0 <= i < |outline| ==>
              XyNormSq(Transform(Lift(outline[i]), VisualCenter(center, measured, goal))) <= goal * goal
  {
    MaxXyDistSqIsMaximum(outline, center);
    forall i | 0 <= i < |outline|
      ensures XyNormSq(Transform(Lift(outline[i]), VisualCenter(center, measured, goal))) <= goal * goal
    {
      CenteringScalesDistance(center, measured, goal, Lift(outline[i]));
    }
  }
}
