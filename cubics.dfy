/** Cubic polynomials in one parameter, held as four-lane vectors with the
    coefficients in descending powers, the way the patch and the curve on it
    store them. */
module Cubics {

  /** A four-lane vector (x, y, z, w). */
  datatype Quad = Quad(x: real, y: real, z: real, w: real)

  function Dot(a: Quad, b: Quad): real {
    a.x * b.x + a.y * b.y + a.z * b.z + a.w * b.w
  }

  /** Lane `i` of `q`. */
  function Lane(q: Quad, i: nat): real
    requires i < 4
  {
    if i == 0 then q.x else if i == 1 then q.y else if i == 2 then q.z else q.w
  }

  /** (t³, t², t, 1). */
  function Powers(t: real): Quad {
    Quad(t * t * t, t * t, t, 1.0)
  }

  /** (3t², 2t, 1, 0): the lane-wise derivative of `Powers`. */
  function Slopes(t: real): Quad {
    Quad(3.0 * t * t, 2.0 * t, 1.0, 0.0)
  }

  /** q.x·t³ + q.y·t² + q.z·t + q.w. */
  function Cubic(q: Quad, t: real): real {
    Dot(q, Powers(t))
  }

  /** 3·q.x·t² + 2·q.y·t + q.z. */
  function Slope(q: Quad, t: real): real {
    Dot(q, Slopes(t))
  }

  /** The coefficient of h² when the cubic is expanded about t. */
  function Bend(q: Quad, t: real): real {
    3.0 * q.x * t + q.y
  }

  /** What multiplies h² in the change of a cubic over a step h from t. */
  function Rest(q: Quad, t: real, h: real): real {
    Bend(q, t) + h * q.x
  }

  /** Exact expansion of a cubic about t: the change over a step h is
      h·Slope + h²·Bend + h³·q.x.  Since the remainder is a polynomial in h
      with a factor h², `Slope` is the derivative of `Cubic`. */
  lemma CubicShift(q: Quad, t: real, h: real)
    ensures Cubic(q, t + h) == Cubic(q, t) + h * Slope(q, t) + h * h * Bend(q, t) + h * h * h * q.x
  {
    assert (t + h) * (t + h) == t * t + 2.0 * t * h + h * h;
    assert (t + h) * (t + h) * (t + h) == t * t * t + 3.0 * t * t * h + 3.0 * t * h * h + h * h * h;
  }

  /** The same expansion grouped as value + slope·h + rest·h². */
  lemma CubicStep(q: Quad, t: real, h: real)
    ensures Cubic(q, t + h) == Cubic(q, t) + Slope(q, t) * h + Rest(q, t, h) * (h * h)
  {
    CubicShift(q, t, h);
    Regroup(Cubic(q, t + h), Cubic(q, t), Slope(q, t), Bend(q, t), q.x, Rest(q, t, h), h);
  }

  /** value + h·slope + h²·bend + h³·lead, with rest = bend + h·lead. */
  lemma Regroup(after: real, before: real, slope: real, bend: real, lead: real, rest: real, h: real)
    requires after == before + h * slope + h * h * bend + h * h * h * lead
    requires rest == bend + h * lead
    ensures after == before + slope * h + rest * (h * h)
  {
  }
}
