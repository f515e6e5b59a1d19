/** Value types shared by the surface kernel: points and vectors in space and
    in a patch's parameter plane, bounding volumes, segments, and the error
    kinds the kernel throws.  Coordinates are real numbers; the point and
    vector library the kernel builds on is not part of this model, so only the
    exact arithmetic it supplies is written out here. */
module Geometry {

  datatype Point3D = Point3D(x: real, y: real, z: real)

  datatype Vector3D = Vector3D(i: real, j: real, k: real)

  /** A position (u, v) in the parameter plane of a patch. */
  datatype PointSurf = PointSurf(u: real, v: real)

  /** An axis-aligned box. */
  datatype OrthoVol = OrthoVol(minX: real, maxX: real, minY: real, maxY: real, minZ: real, maxZ: real)

  /** A closed interval [lower, upper]. */
  datatype Range = Range(lower: real, upper: real)

  predicate InRange(r: Range, t: real) {
    r.lower <= t <= r.upper
  }

  /** A straight segment between two points. */
  datatype LineSeg = LineSeg(end1: Point3D, end2: Point3D)

  /** The errors the kernel throws, with the values each one carries. */
  datatype Error =
    | SurfaceInputError(count: int)
    | ParameterRangeErrorDos(parA: real, parB: real)
    | ParameterRangeErrorUno(par: real)
    | EdgeOverflowError(dupeEndA: Point3D, dupeEndB: Point3D)
    | CoincidentPointsError(dupePt: Point3D)
    | TriangleError(trianglePt: Point3D)

  datatype Result<+T> = Ok(value: T) | Err(error: Error)

  datatype Option<+T> = None | Some(value: T)

  type NonNegReal = r: real | r >= 0.0

  /** The vector from `a` to `b`. */
  function Built(a: Point3D, b: Point3D): Vector3D {
    Vector3D(b.x - a.x, b.y - a.y, b.z - a.z)
  }

  function Cross(a: Vector3D, b: Vector3D): Vector3D {
    Vector3D(Mul(a.j, b.k) - Mul(a.k, b.j), Mul(a.k, b.i) - Mul(a.i, b.k), Mul(a.i, b.j) - Mul(a.j, b.i))
  }

  function DotProduct(a: Vector3D, b: Vector3D): real {
    a.i * b.i + a.j * b.j + a.k * b.k
  }

  function Abs(x: real): real {
    if x < 0.0 then -x else x
  }

  function Scale(a: Vector3D, s: real): Vector3D {
    Vector3D(a.i * s, a.j * s, a.k * s)
  }

  function Offset(p: Point3D, jump: Vector3D): Point3D {
    Point3D(p.x + jump.i, p.y + jump.j, p.z + jump.k)
  }

  /** Product of two reals, kept behind a function so that the solver treats
      squares as products of two factors. */
  function Mul(x: real, y: real): real {
    x * y
  }

  lemma ProductPositive(x: real, y: real)
    requires x > 0.0 && y > 0.0
    ensures Mul(x, y) > 0.0
  {
  }

  /** A square is never negative and is zero only at zero. */
  lemma SquareSign(x: real)
    ensures Mul(x, x) >= 0.0
    ensures x != 0.0 ==> Mul(x, x) > 0.0
  {
    if x > 0.0 {
      ProductPositive(x, x);
    } else if x < 0.0 {
      ProductPositive(-x, -x);
      assert Mul(x, x) == Mul(-x, -x);
    } else {
      assert Mul(x, x) == 0.0;
    }
  }

  /** Squared distance.  Distance itself needs a square root; since the root
      is monotone, comparing squared distances orders pairs of points exactly
      as comparing distances does. */
  function SqDist(a: Point3D, b: Point3D): (r: real)
    ensures r >= 0.0
    ensures r == 0.0 <==> a == b
  {
    var d := Built(a, b);
    SquareSign(d.i);
    SquareSign(d.j);
    SquareSign(d.k);
    Mul(d.i, d.i) + Mul(d.j, d.j) + Mul(d.k, d.k)
  }

  /** Three pairwise distinct points (exact equality). */
  predicate IsThreeUnique(alpha: Point3D, beta: Point3D, gamma: Point3D) {
    alpha != beta && beta != gamma && alpha != gamma
  }

  /** Three points on one line: the edge directions from `alpha` are parallel. */
  predicate IsThreeLinear(alpha: Point3D, beta: Point3D, gamma: Point3D) {
    Cross(Built(alpha, beta), Built(alpha, gamma)) == Vector3D(0.0, 0.0, 0.0)
  }

  function Min3(a: real, b: real, c: real): (r: real)
    ensures r <= a && r <= b && r <= c
    ensures r == a || r == b || r == c
  {
    if a <= b && a <= c then a else if b <= c then b else c
  }

  function Max3(a: real, b: real, c: real): (r: real)
    ensures r >= a && r >= b && r >= c
    ensures r == a || r == b || r == c
  {
    if a >= b && a >= c then a else if b >= c then b else c
  }

  /** Least element of a non-empty sequence. */
  function SeqMin(s: seq<real>): (r: real)
    requires |s| > 0
    ensures forall i :: 0 <= i < |s| ==> r <= s[i]
    ensures exists i :: 0 <= i < |s| && r == s[i]
  {
    if |s| == 1 then s[0]
    else
      var m := SeqMin(s[1..]);
      assert forall i :: 1 <= i < |s| ==> s[i] == s[1..][i - 1];
      if s[0] <= m then s[0] else m
  }

  /** Greatest element of a non-empty sequence. */
  function SeqMax(s: seq<real>): (r: real)
    requires |s| > 0
    ensures forall i :: 0 <= i < |s| ==> r >= s[i]
    ensures exists i :: 0 <= i < |s| && r == s[i]
  {
    if |s| == 1 then s[0]
    else
      var m := SeqMax(s[1..]);
      assert forall i :: 1 <= i < |s| ==> s[i] == s[1..][i - 1];
      if s[0] >= m then s[0] else m
  }

  /** A box is well formed when every lower bound is at most its upper bound. */
  predicate Ordered(box: OrthoVol) {
    box.minX <= box.maxX && box.minY <= box.maxY && box.minZ <= box.maxZ
  }

  predicate Contains(box: OrthoVol, p: Point3D) {
    box.minX <= p.x <= box.maxX && box.minY <= p.y <= box.maxY && box.minZ <= p.z <= box.maxZ
  }

  /** Round half away from zero, as the standard `round` does: the nearest
      integer, and on a tie the one farther from zero. */
  function RoundHalfAway(x: real): (n: int)
    ensures x >= 0.0 ==> x - 0.5 < n as real <= x + 0.5
    ensures x < 0.0 ==> x - 0.5 <= n as real < x + 0.5
  {
    if x >= 0.0 then (x + 0.5).Floor else -((-x + 0.5).Floor)
  }

  /** Rounding commutes with negation. */
  lemma RoundHalfAwayOdd(x: real)
    ensures RoundHalfAway(-x) == -RoundHalfAway(x)
  {
    if x == 0.0 {
      assert -x == 0.0;
    }
  }
}
