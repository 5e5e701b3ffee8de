/** The clamp part of `DistanceToPictureSurface`: how far a point, already
    expressed in the frame's own axes, lies outside the frame's box. The
    distance is kept squared, so no square root is needed. */
module SurfaceDistance {
  import opened Pictures
  import Grabbing

  function Abs(v: real): (a: real)
    ensures a >= 0.0 && (a == v || a == -v)
  {
    if v < 0.0 then -v else v
  }

  /** How far a coordinate lies beyond the half extent on its axis. */
  function AxisGap(v: real, halfExtent: real): (g: real)
    ensures g >= 0.0
    ensures g == 0.0 <==> -halfExtent <= v <= halfExtent
    ensures g > 0.0 ==> g + halfExtent == Abs(v)
  {
    if Abs(v) - halfExtent > 0.0 then Abs(v) - halfExtent else 0.0
  }

  /** The point lies inside the frame's box or on its surface. */
  predicate InsideBox(local: Vector3, fp: FramedPicture)
  {
    && -fp.width / 2.0 <= local.x <= fp.width / 2.0
    && -fp.height / 2.0 <= local.y <= fp.height / 2.0
    && -fp.thickness / 2.0 <= local.z <= fp.thickness / 2.0
  }

  /** Multiplication of reals, named so that the solver keeps products of a
      value with itself as terms of their own. */
  function Mul(a: real, b: real): real
  {
    a * b
  }

  lemma MulPositive(a: real, b: real)
    requires a > 0.0 && b > 0.0
    ensures Mul(a, b) > 0.0
  {
  }

  lemma MulMonotone(a: real, b: real, c: real)
    requires 0.0 <= a <= b && c >= 0.0
    ensures Mul(a, c) <= Mul(b, c)
    ensures a < b && c > 0.0 ==> Mul(a, c) < Mul(b, c)
  {
    assert Mul(b, c) - Mul(a, c) == Mul(b - a, c);
    if a < b && c > 0.0 {
      MulPositive(b - a, c);
    }
  }

  /** For non-negative gaps, the sum of their squares is never negative, and
      it is positive exactly when one of the gaps is. */
  lemma SumOfSquaresSign(dx: real, dy: real, dz: real)
    requires dx >= 0.0 && dy >= 0.0 && dz >= 0.0
    ensures Mul(dx, dx) + Mul(dy, dy) + Mul(dz, dz) >= 0.0
    ensures Mul(dx, dx) + Mul(dy, dy) + Mul(dz, dz) > 0.0 <==> dx > 0.0 || dy > 0.0 || dz > 0.0
  {
    MulMonotone(0.0, dx, dx);
    MulMonotone(0.0, dy, dy);
    MulMonotone(0.0, dz, dz);
  }

  /** The square of the distance from the point to the box (the value
      `DistanceToPictureSurface` takes the square root of). */
  function SquaredSurfaceDistance(local: Vector3, fp: FramedPicture): real
  {
    var dx := AxisGap(local.x, fp.width / 2.0);
    var dy := AxisGap(local.y, fp.height / 2.0);
    var dz := AxisGap(local.z, fp.thickness / 2.0);
    if dx == 0.0 && dy == 0.0 && dz == 0.0 then 0.0
    else Mul(dx, dx) + Mul(dy, dy) + Mul(dz, dz)
  }

  /** The squared distance is never negative, and it is positive exactly for
      points outside the box: inside it or on its surface it is zero. */
  lemma SurfaceDistanceZeroExactlyInside(local: Vector3, fp: FramedPicture)
    ensures SquaredSurfaceDistance(local, fp) >= 0.0
    ensures SquaredSurfaceDistance(local, fp) > 0.0 <==> !InsideBox(local, fp)
  {
    var dx := AxisGap(local.x, fp.width / 2.0);
    var dy := AxisGap(local.y, fp.height / 2.0);
    var dz := AxisGap(local.z, fp.thickness / 2.0);
    SumOfSquaresSign(dx, dy, dz);
  }

  /** The hand holds the picture when its distance to the surface is below
      `HoldDistance`, which is the same as comparing squares. */
  predicate WithinReach(local: Vector3, fp: FramedPicture)
  {
    SquaredSurfaceDistance(local, fp) < Mul(Grabbing.HoldDistance, Grabbing.HoldDistance)
  }

  /** For the distance `d` (the square root of the squared distance), the
      hold test `d < HoldDistance` and `WithinReach` agree. */
  lemma WithinReachIffDistanceBelow(local: Vector3, fp: FramedPicture, d: real)
    requires d >= 0.0 && Mul(d, d) == SquaredSurfaceDistance(local, fp)
    ensures WithinReach(local, fp) <==> d < Grabbing.HoldDistance
  {
    var h := Grabbing.HoldDistance;
    assert Mul(d, h) == Mul(h, d);
    if d < h {
      MulMonotone(d, h, d);
      MulMonotone(d, h, h);
    } else {
      MulMonotone(h, d, h);
      MulMonotone(h, d, d);
    }
  }

  /** A hand touching or inside the box is always within reach. */
  lemma InsideIsWithinReach(local: Vector3, fp: FramedPicture)
    requires InsideBox(local, fp)
    ensures WithinReach(local, fp)
  {
    SurfaceDistanceZeroExactlyInside(local, fp);
  }
}
