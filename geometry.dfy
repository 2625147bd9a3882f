/** Collision tests of `DinoGame.Entity`: axis-aligned boxes and circles.
    A circle is described like a box (x, y is its top-left corner) and its
    width is its diameter; its height plays no part in any test. */
module Geometry {

  /** `Entity.CollisionShape` */
  datatype Shape = Box | Circle

  /** What an entity exposes to the collision tests: `get_collisionShape`,
      `get_x`, `get_y`, `get_w` and `get_h`. */
  datatype Bounds = Bounds(shape: Shape, x: real, y: real, w: real, h: real) {
    function Right(): real { x + w }
    function Bottom(): real { y + h }
    /** Every entity of the game has a positive width and height. */
    predicate NonNegative() { w >= 0.0 && h >= 0.0 }
    /** Centre of a circle (width is its diameter). */
    function CentreX(): real { x + w / 2.0 }
    function CentreY(): real { y + w / 2.0 }
    function Radius(): real { w / 2.0 }
  }

  function Sq(a: real): real { a * a }

  /** `norm2(dx, dy) < r`, that is `sqrt(dx^2 + dy^2) < r`, over the reals
      and without the square root: a square root is never negative, so the
      comparison fails for every r <= 0, and for r > 0 it is the comparison
      of the squares (lemma NormBelowMatchesRoot). */
  predicate NormBelow(dx: real, dy: real, r: real) {
    0.0 < r && Sq(dx) + Sq(dy) < Sq(r)
  }

  lemma SqStrictMono(a: real, b: real)
    requires 0.0 <= a < b
    ensures Sq(a) < Sq(b)
  {
    var d, e := b - a, b + a;
    assert Sq(b) - Sq(a) == d * e;
    assert d * e >= d * d > 0.0;
  }

  lemma SqMonoInverse(a: real, b: real)
    requires 0.0 <= b && Sq(a) < Sq(b) && 0.0 <= a
    ensures a < b
  {
    assert Sq(b) - Sq(a) == (b - a) * (b + a);
  }

  /** For any non-negative square root s of dx^2 + dy^2, NormBelow is `s < r`. */
  lemma NormBelowMatchesRoot(dx: real, dy: real, r: real, s: real)
    requires 0.0 <= s && Sq(s) == Sq(dx) + Sq(dy)
    ensures NormBelow(dx, dy, r) <==> s < r
  {
    if s < r {
      SqStrictMono(s, r);
    }
    if NormBelow(dx, dy, r) {
      SqMonoInverse(s, r);
    }
  }

  /** Closed intervals [lo1, hi1] and [lo2, hi2] share a point. */
  predicate ClosedOverlap(lo1: real, hi1: real, lo2: real, hi2: real) {
    lo1 <= hi2 && lo2 <= hi1
  }

  /** `Entity.boxBoxCollide`: each axis intersects unless the first box lies
      wholly before or wholly after the second; touching edges count as a hit. */
  function BoxBoxCollide(b1: Bounds, b2: Bounds): (hit: bool)
    ensures b1.NonNegative() && b2.NonNegative() ==>
      (hit <==> (ClosedOverlap(b1.x, b1.Right(), b2.x, b2.Right()) &&
                 ClosedOverlap(b1.y, b1.Bottom(), b2.y, b2.Bottom())))
  {
    var xIntersect := !((b1.x < b2.x && b1.Right() < b2.x) || (b1.x > b2.Right() && b1.Right() > b2.Right()));
    var yIntersect := !((b1.y < b2.y && b1.Bottom() < b2.y) || (b1.y > b2.Bottom() && b1.Bottom() > b2.Bottom()));
    xIntersect && yIntersect
  }

  /** Distance from v to the interval [lo, hi]. */
  function Gap(v: real, lo: real, hi: real): (d: real)
    requires lo <= hi
    ensures d >= 0.0
    ensures d == 0.0 <==> lo <= v <= hi
  {
    if v < lo then lo - v else if v > hi then v - hi else 0.0
  }

  /** No point of [lo, hi] is closer to v than Gap says. */
  lemma GapIsNearest(v: real, lo: real, hi: real, p: real)
    requires lo <= p <= hi
    ensures Sq(Gap(v, lo, hi)) <= Sq(v - p)
  {
    var g := Gap(v, lo, hi);
    if v < lo {
      assert 0.0 <= g <= p - v;
      if g < p - v { SqStrictMono(g, p - v); }
      assert Sq(v - p) == Sq(p - v);
    } else if v > hi {
      assert 0.0 <= g <= v - p;
      if g < v - p { SqStrictMono(g, v - p); }
    }
  }

  /** Squared distance from the point (cx, cy) to the closed box b. */
  function BoxDist2(cx: real, cy: real, b: Bounds): real
    requires b.NonNegative()
  {
    Sq(Gap(cx, b.x, b.Right())) + Sq(Gap(cy, b.y, b.Bottom()))
  }

  /** `Entity.circleBoxCollide`: the centre lies in the box stretched by the
      radius horizontally or vertically (open slabs), or within the radius of
      one of the four corners. */
  function CircleBoxCollide(c: Bounds, b: Bounds): (hit: bool)
    ensures c.w >= 0.0 && b.x < c.CentreX() < b.Right() && b.y < c.CentreY() < b.Bottom() ==> hit
  {
    var r := c.Radius();
    var xc := c.CentreX();
    var yc := c.CentreY();
    var inHorizontalBox := xc > b.x - r && xc < b.Right() + r && yc > b.y && yc < b.Bottom();
    var inVerticalBox := yc > b.y - r && yc < b.Bottom() + r && xc > b.x && xc < b.Right();
    var inCornerCircles :=
      NormBelow(xc - b.x, yc - b.y, r) ||
      NormBelow(xc - b.Right(), yc - b.y, r) ||
      NormBelow(xc - b.x, yc - b.Bottom(), r) ||
      NormBelow(xc - b.Right(), yc - b.Bottom(), r);
    inCornerCircles || inHorizontalBox || inVerticalBox
  }

  /** A hit is never reported for a circle of positive diameter whose centre
      is at least the radius away from every point of the box. */
  lemma CircleBoxSound(c: Bounds, b: Bounds)
    requires c.w > 0.0 && b.NonNegative()
    ensures CircleBoxCollide(c, b) ==> BoxDist2(c.CentreX(), c.CentreY(), b) < Sq(c.Radius())
  {
    var r := c.Radius();
    var xc := c.CentreX();
    var yc := c.CentreY();
    var gx := Gap(xc, b.x, b.Right());
    var gy := Gap(yc, b.y, b.Bottom());
    if xc > b.x - r && xc < b.Right() + r && yc > b.y && yc < b.Bottom() {
      assert gy == 0.0 && 0.0 <= gx < r;
      SqStrictMono(gx, r);
    } else if yc > b.y - r && yc < b.Bottom() + r && xc > b.x && xc < b.Right() {
      assert gx == 0.0 && 0.0 <= gy < r;
      SqStrictMono(gy, r);
    } else if NormBelow(xc - b.x, yc - b.y, r) {
      GapIsNearest(xc, b.x, b.Right(), b.x);
      GapIsNearest(yc, b.y, b.Bottom(), b.y);
    } else if NormBelow(xc - b.Right(), yc - b.y, r) {
      GapIsNearest(xc, b.x, b.Right(), b.Right());
      GapIsNearest(yc, b.y, b.Bottom(), b.y);
    } else if NormBelow(xc - b.x, yc - b.Bottom(), r) {
      GapIsNearest(xc, b.x, b.Right(), b.x);
      GapIsNearest(yc, b.y, b.Bottom(), b.Bottom());
    } else if NormBelow(xc - b.Right(), yc - b.Bottom(), r) {
      GapIsNearest(xc, b.x, b.Right(), b.Right());
      GapIsNearest(yc, b.y, b.Bottom(), b.Bottom());
    }
  }

  /** Every circle of positive diameter that comes closer to the box than
      its radius is reported as a hit. */
  lemma CircleBoxComplete(c: Bounds, b: Bounds)
    requires c.w > 0.0 && b.NonNegative()
    ensures BoxDist2(c.CentreX(), c.CentreY(), b) < Sq(c.Radius()) ==> CircleBoxCollide(c, b)
  {
    var r := c.Radius();
    var xc := c.CentreX();
    var yc := c.CentreY();
    var gx := Gap(xc, b.x, b.Right());
    var gy := Gap(yc, b.y, b.Bottom());
    if Sq(gx) + Sq(gy) < Sq(r) {
      assert Sq(gx) >= 0.0 && Sq(gy) >= 0.0;
      SqMonoInverse(gx, r);
      SqMonoInverse(gy, r);
      // the corner of the box nearest to the centre
      var px := if xc <= b.x then b.x else b.Right();
      var py := if yc <= b.y then b.y else b.Bottom();
      if b.x < xc < b.Right() {
        assert yc > b.y - r && yc < b.Bottom() + r;
      } else if b.y < yc < b.Bottom() {
        assert xc > b.x - r && xc < b.Right() + r;
      } else {
        assert Sq(xc - px) == Sq(gx);
        assert Sq(yc - py) == Sq(gy);
        assert NormBelow(xc - px, yc - py, r);
      }
    }
  }

  /** `Entity.circleCircleCollide`: the centres are closer than the sum of
      the radii (touching circles do not collide). */
  function CircleCircleCollide(c1: Bounds, c2: Bounds): (hit: bool)
    ensures hit ==> c1.Radius() + c2.Radius() > 0.0
    ensures c1.CentreX() == c2.CentreX() && c1.CentreY() == c2.CentreY() ==>
      (hit <==> c1.Radius() + c2.Radius() > 0.0)
  {
    var separation := (c1.w + c2.w) / 2.0;
    assert separation > 0.0 ==> Sq(0.0) < Sq(separation) by {
      if separation > 0.0 { SqStrictMono(0.0, separation); }
    }
    NormBelow(c2.CentreX() - c1.CentreX(), c2.CentreY() - c1.CentreY(), separation)
  }

  /** For any non-negative d with d² the squared distance between the
      centres, two circles collide exactly when d is below the sum of the radii. */
  lemma CircleCircleByDistance(c1: Bounds, c2: Bounds, d: real)
    requires 0.0 <= d && Sq(d) == Sq(c2.CentreX() - c1.CentreX()) + Sq(c2.CentreY() - c1.CentreY())
    ensures CircleCircleCollide(c1, c2) <==> d < c1.Radius() + c2.Radius()
  {
    NormBelowMatchesRoot(c2.CentreX() - c1.CentreX(), c2.CentreY() - c1.CentreY(), (c1.w + c2.w) / 2.0, d);
  }

  /** `Entity.collide`: dispatch on the pair of shapes; a box against a
      circle is always tested as the circle against the box. */
  function Collide(a: Bounds, b: Bounds): (hit: bool)
    ensures a.shape == Circle && b.shape == Box ==> hit == CircleBoxCollide(a, b)
    ensures a.shape == Box && b.shape == Circle ==> hit == CircleBoxCollide(b, a)
    ensures a.shape == Circle && b.shape == Circle ==> hit == CircleCircleCollide(a, b)
    ensures a.shape == Box && b.shape == Box && a.NonNegative() && b.NonNegative() ==>
      (hit <==> ClosedOverlap(a.x, a.Right(), b.x, b.Right()) && ClosedOverlap(a.y, a.Bottom(), b.y, b.Bottom()))
  {
    match (a.shape, b.shape)
    case (Box, Box) => BoxBoxCollide(a, b)
    case (Box, Circle) => CircleBoxCollide(b, a)
    case (Circle, Box) => CircleBoxCollide(a, b)
    case (Circle, Circle) => CircleCircleCollide(a, b)
  }

  /** Box against box does not depend on the order of the boxes. */
  lemma BoxBoxSymmetric(b1: Bounds, b2: Bounds)
    requires b1.NonNegative() && b2.NonNegative()
    ensures BoxBoxCollide(b1, b2) == BoxBoxCollide(b2, b1)
  {
  }

  /** Circle against circle does not depend on the order of the circles. */
  lemma CircleCircleSymmetric(c1: Bounds, c2: Bounds)
    ensures CircleCircleCollide(c1, c2) == CircleCircleCollide(c2, c1)
  {
    var dx, dy := c2.CentreX() - c1.CentreX(), c2.CentreY() - c1.CentreY();
    assert Sq(-dx) == Sq(dx) && Sq(-dy) == Sq(dy);
  }

  /** `a.collide(b) == b.collide(a)` for every pair of shapes, provided the
      boxes involved in a box-box test have no negative side. */
  lemma CollideSymmetric(a: Bounds, b: Bounds)
    requires a.shape == Box && b.shape == Box ==> a.NonNegative() && b.NonNegative()
    ensures Collide(a, b) == Collide(b, a)
  {
    match (a.shape, b.shape)
    case (Box, Box) => BoxBoxSymmetric(a, b);
    case (Circle, Circle) => CircleCircleSymmetric(a, b);
    case (Box, Circle) =>
    case (Circle, Box) =>
  }
}
