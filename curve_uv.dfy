/** A cubic curve in the parameter plane of a patch: u(t) and v(t) are cubics
    in t, accepted on a range of t that starts out as [0, 1].  `split` turns
    the curve into a chain of points on the patch that stays within a given
    crown of the true curve. */
module CurvesUV {
  import opened Geometry
  import opened Cubics
  import VectorsUV
  import Bicubics

  // ----- the Hermite form -----

  /** Coefficients, highest power first, of the cubic with value `p0` and
      slope `s0` at t = 0 and value `p1` and slope `s1` at t = 1. */
  function HermiteCoeffs(p0: real, s0: real, p1: real, s1: real): Quad {
    Quad(2.0 * p0 + s0 - 2.0 * p1 + s1, -3.0 * p0 - 2.0 * s0 + 3.0 * p1 - s1, s0, p0)
  }

  /** The Hermite cubic meets its end values and end slopes. */
  lemma HermiteEnds(p0: real, s0: real, p1: real, s1: real)
    ensures Cubic(HermiteCoeffs(p0, s0, p1, s1), 0.0) == p0
    ensures Cubic(HermiteCoeffs(p0, s0, p1, s1), 1.0) == p1
    ensures Slope(HermiteCoeffs(p0, s0, p1, s1), 0.0) == s0
    ensures Slope(HermiteCoeffs(p0, s0, p1, s1), 1.0) == s1
  {
    var q := HermiteCoeffs(p0, s0, p1, s1);
    assert Cubic(q, 1.0) == q.x + q.y + q.z + q.w;
    assert Slope(q, 1.0) == 3.0 * q.x + 2.0 * q.y + q.z;
  }

  /** A cubic written out term by term, with t² and t³ computed first. */
  lemma CubicTerms(a: real, b: real, c: real, d: real, t: real, t2: real, t3: real, value: real)
    requires t2 == t * t && t3 == t * t * t
    requires value == a * t3 + b * t2 + c * t + d
    ensures Cubic(Quad(a, b, c, d), t) == value
  {
  }

  // ----- the accepted range of t -----

  /** The shape every range of a curve has: it starts at 0 and ends inside
      the unit interval. */
  predicate UnitStart(r: Range) {
    r.lower == 0.0 && 0.0 <= r.upper <= 1.0
  }

  /** `changeUpperBound`, as written: a new upper bound up to 1 and above the
      current lower bound gives the range [0, freshUpper]. */
  function UpperBoundChanged(r: Range, freshUpper: real): (res: Result<Range>)
    ensures res.Ok? <==> freshUpper <= 1.0 && freshUpper > r.lower
    ensures res.Err? ==> res.error == ParameterRangeErrorUno(freshUpper)
    ensures UnitStart(r) && res.Ok? ==>
      UnitStart(res.value) && forall t :: InRange(res.value, t) <==> 0.0 <= t <= freshUpper
  {
    if freshUpper <= 1.0 && freshUpper > r.lower then Ok(Range(0.0, freshUpper))
    else Err(ParameterRangeErrorUno(freshUpper))
  }

  /** `changeLowerBound`, as written: a new lower bound from 0 and below the
      current upper bound gives the range [0, freshLower]; the value given as
      the lower bound becomes the upper bound. */
  function LowerBoundChanged(r: Range, freshLower: real): (res: Result<Range>)
    ensures res.Ok? <==> freshLower >= 0.0 && freshLower < r.upper
    ensures res.Err? ==> res.error == ParameterRangeErrorUno(freshLower)
    ensures UnitStart(r) && res.Ok? ==>
      UnitStart(res.value) && forall t :: InRange(res.value, t) <==> 0.0 <= t <= freshLower
  {
    if freshLower >= 0.0 && freshLower < r.upper then Ok(Range(0.0, freshLower))
    else Err(ParameterRangeErrorUno(freshLower))
  }

  /** On the full range, asking for the lower bound 0.5 as written keeps
      t = 0.25, below the requested bound, and refuses t = 0.75, above it. */
  lemma LowerBoundAsWritten()
    ensures LowerBoundChanged(Range(0.0, 1.0), 0.5) == Ok(Range(0.0, 0.5))
    ensures InRange(LowerBoundChanged(Range(0.0, 1.0), 0.5).value, 0.25)
    ensures !InRange(LowerBoundChanged(Range(0.0, 1.0), 0.5).value, 0.75)
  {
  }

  /** `changeLowerBound` as its name and guard intend: the same guard, and the
      range [freshLower, upper]. */
  function LowerBoundRaised(r: Range, freshLower: real): (res: Result<Range>)
    ensures res.Ok? <==> freshLower >= 0.0 && freshLower < r.upper
    ensures res.Err? ==> res.error == ParameterRangeErrorUno(freshLower)
    ensures res.Ok? ==> forall t :: InRange(res.value, t) <==> freshLower <= t <= r.upper
  {
    if freshLower >= 0.0 && freshLower < r.upper then Ok(Range(freshLower, r.upper))
    else Err(ParameterRangeErrorUno(freshLower))
  }

  /** `changeUpperBound` keeping the lower bound, which the intended
      `changeLowerBound` makes necessary: the range [lower, freshUpper]. */
  function UpperBoundMoved(r: Range, freshUpper: real): (res: Result<Range>)
    ensures res.Ok? <==> freshUpper <= 1.0 && freshUpper > r.lower
    ensures res.Err? ==> res.error == ParameterRangeErrorUno(freshUpper)
    ensures res.Ok? ==> forall t :: InRange(res.value, t) <==> r.lower <= t <= freshUpper
  {
    if freshUpper <= 1.0 && freshUpper > r.lower then Ok(Range(r.lower, freshUpper))
    else Err(ParameterRangeErrorUno(freshUpper))
  }

  /** With the intended bounds, both changes narrow the accepted range from
      their own side, stay inside the unit interval, and commute. */
  lemma IntendedBoundsCompose(r: Range, freshLower: real, freshUpper: real)
    requires 0.0 <= r.lower <= r.upper <= 1.0
    requires r.lower <= freshLower < freshUpper <= r.upper
    ensures LowerBoundRaised(r, freshLower).Ok?
    ensures UpperBoundMoved(LowerBoundRaised(r, freshLower).value, freshUpper) == Ok(Range(freshLower, freshUpper))
    ensures UpperBoundMoved(r, freshUpper).Ok?
    ensures LowerBoundRaised(UpperBoundMoved(r, freshUpper).value, freshLower) == Ok(Range(freshLower, freshUpper))
  {
  }

  // ----- split -----

  /** The surface points `split` samples: t = i·step for i = 0 … 200, mapped
      through the curve's cubics and then onto the surface. */
  function Samples(u: Quad, v: Quad, surf: Bicubics.Bicubic, step: real,
                   surfAt: (Bicubics.Bicubic, PointSurf) -> Point3D): (r: seq<Point3D>)
    ensures |r| == 201
    ensures forall i :: 0 <= i < 201 ==> r[i] == surfAt(surf, PointSurf(Cubic(u, i as real * step), Cubic(v, i as real * step)))
  {
    seq(201, i requires 0 <= i < 201 => SampleAt(u, v, surf, step, surfAt, i))
  }

  function SampleAt(u: Quad, v: Quad, surf: Bicubics.Bicubic, step: real,
                    surfAt: (Bicubics.Bicubic, PointSurf) -> Point3D, i: int): Point3D
  {
    surfAt(surf, PointSurf(Cubic(u, i as real * step), Cubic(v, i as real * step)))
  }

  /** Every sample parameter t = i·step lies in a range that starts at 0, so
      none of the `pointAt` calls behind the samples throws. */
  lemma SamplesInRange(r: Range, i: nat)
    requires UnitStart(r) && i <= 200
    ensures InRange(r, i as real * ((r.upper - r.lower) / 200.0))
  {
    var step := (r.upper - r.lower) / 200.0;
    var k := i as real;
    assert step >= 0.0 && 200.0 * step == r.upper;
    assert (200.0 - k) * step >= 0.0;
    assert (200.0 - k) * step == 200.0 * step - k * step;
    assert k * step >= 0.0;
  }

  /** The segment from the first to the last point, and the distance of each
      point from it. */
  function Seps(dots: seq<Point3D>, sep: (LineSeg, Point3D) -> NonNegReal): (r: seq<real>)
    requires |dots| > 0
    ensures |r| == |dots|
    ensures forall k :: 0 <= k < |dots| ==> r[k] == sep(LineSeg(dots[0], dots[|dots| - 1]), dots[k]) as real
  {
    var bar := LineSeg(dots[0], dots[|dots| - 1]);
    seq(|dots|, k requires 0 <= k < |dots| => sep(bar, dots[k]) as real)
  }

  /** `crownCalcs`: the greatest distance of any of the points from the
      segment joining the first and the last (see `CrownIsGreatest`). */
  function CrownCalcs(dots: seq<Point3D>, sep: (LineSeg, Point3D) -> NonNegReal): real
    requires |dots| > 0
  {
    SeqMax(Seps(dots, sep))
  }

  /** The crown bounds the distance of every point from the chord, is the
      distance of one of them, and is never negative. */
  lemma CrownIsGreatest(dots: seq<Point3D>, sep: (LineSeg, Point3D) -> NonNegReal)
    requires |dots| > 0
    ensures CrownCalcs(dots, sep) >= 0.0
    ensures forall k :: 0 <= k < |dots| ==> sep(LineSeg(dots[0], dots[|dots| - 1]), dots[k]) as real <= CrownCalcs(dots, sep)
    ensures exists k :: 0 <= k < |dots| && CrownCalcs(dots, sep) == sep(LineSeg(dots[0], dots[|dots| - 1]), dots[k]) as real
  {
    var seps := Seps(dots, sep);
    assert seps[0] >= 0.0;
    var k :| 0 <= k < |seps| && SeqMax(seps) == seps[k];
  }

  /** The crown of the window dots[from] … dots[to]. */
  function CrownOver(dots: seq<Point3D>, sep: (LineSeg, Point3D) -> NonNegReal, from: int, to: int): real
    requires 0 <= from < to < |dots|
  {
    CrownCalcs(dots[from..to + 1], sep)
  }

  /** Where the window that follows the i-th committed point starts: one
      past that point, or at the first sample. */
  function Start(picks: seq<int>, i: int): int
    requires 0 <= i <= |picks|
  {
    if i == 0 then 0 else picks[i - 1] + 1
  }

  /** Committed sample indices: strictly increasing and strictly inside the
      sample list. */
  predicate Interior(picks: seq<int>) {
    (forall i :: 0 <= i < |picks| ==> 1 <= picks[i] <= 199)
    && (forall i, j :: 0 <= i < j < |picks| ==> picks[i] < picks[j])
  }

  /** Each committed sample closes the first window from its start whose
      crown exceeds the allowance: every shorter window of at least three
      points from that start is within it. */
  predicate Justified(dots: seq<Point3D>, sep: (LineSeg, Point3D) -> NonNegReal, allowableCrown: real, picks: seq<int>)
    requires |dots| == 201 && Interior(picks)
  {
    forall i {:trigger Closes(dots, sep, allowableCrown, Start(picks, i), picks[i])} ::
      0 <= i < |picks| ==> Closes(dots, sep, allowableCrown, Start(picks, i), picks[i])
  }

  /** The window from `start` overflows first when it reaches pick + 1. */
  predicate Closes(dots: seq<Point3D>, sep: (LineSeg, Point3D) -> NonNegReal, allowableCrown: real, start: int, pick: int)
    requires 0 <= start && pick < |dots| - 1
  {
    start + 1 <= pick
    && CrownOver(dots, sep, start, pick + 1) > allowableCrown
    && forall t :: start + 2 <= t <= pick ==> CrownOver(dots, sep, start, t) <= allowableCrown
  }

  /** After the last committed sample every window up to the last sample is
      within the allowance. */
  predicate QuietTail(dots: seq<Point3D>, sep: (LineSeg, Point3D) -> NonNegReal, allowableCrown: real, picks: seq<int>)
    requires |dots| == 201 && Interior(picks)
  {
    forall t :: Start(picks, |picks|) + 2 <= t <= 200 ==> CrownOver(dots, sep, Start(picks, |picks|), t) <= allowableCrown
  }

  lemma StartOfLonger(picks: seq<int>, p: int, i: int)
    requires 0 <= i <= |picks|
    ensures Start(picks + [p], i) == Start(picks, i)
  {
  }

  class CubicUV {
    var au: real
    var bu: real
    var cu: real
    var du: real

    var av: real
    var bv: real
    var cv: real
    var dv: real

    /** The accepted values of t. */
    var range: Range

    /** The surface that holds the curve. */
    var residentSurf: Bicubics.Bicubic

    /** The range starts at 0 and ends inside [0, 1]. */
    ghost predicate Valid()
      reads this
    {
      UnitStart(range)
    }

    /** The cubic in t that gives u, highest power first. */
    function UCoeffs(): Quad
      reads this
    {
      Quad(au, bu, cu, du)
    }

    /** The cubic in t that gives v, highest power first. */
    function VCoeffs(): Quad
      reads this
    {
      Quad(av, bv, cv, dv)
    }

    /** The curve at t, with no range check. */
    function Trace(t: real): PointSurf
      reads this
    {
      PointSurf(Cubic(UCoeffs(), t), Cubic(VCoeffs(), t))
    }

    /** The derivative of the curve at t. */
    function Velocity(t: real): VectorsUV.VectorSurf
      reads this
    {
      VectorsUV.VectorSurf(Slope(UCoeffs(), t), Slope(VCoeffs(), t))
    }

    /** The direct constructor. */
    constructor (au: real, bu: real, cu: real, du: real, av: real, bv: real, cv: real, dv: real, surf: Bicubics.Bicubic)
      ensures Valid()
      ensures UCoeffs() == Quad(au, bu, cu, du) && VCoeffs() == Quad(av, bv, cv, dv)
      ensures range == Range(0.0, 1.0) && residentSurf == surf
    {
      this.au, this.bu, this.cu, this.du := au, bu, cu, du;
      this.av, this.bv, this.cv, this.dv := av, bv, cv, dv;
      range := Range(0.0, 1.0);
      residentSurf := surf;
    }

    /** Build from end points and end slopes: the curve starts at ptA heading
        along slopeA and ends at ptB heading along slopeB. */
    constructor FromEnds(ptA: PointSurf, slopeA: VectorsUV.VectorSurf, ptB: PointSurf, slopeB: VectorsUV.VectorSurf,
                         surf: Bicubics.Bicubic)
      ensures Valid()
      ensures UCoeffs() == HermiteCoeffs(ptA.u, slopeA.i, ptB.u, slopeB.i)
      ensures VCoeffs() == HermiteCoeffs(ptA.v, slopeA.j, ptB.v, slopeB.j)
      ensures range == Range(0.0, 1.0) && residentSurf == surf
      ensures PointAt(0.0) == Ok(ptA) && PointAt(1.0) == Ok(ptB)
      ensures Velocity(0.0) == slopeA && Velocity(1.0) == slopeB
    {
      au := 2.0 * ptA.u + slopeA.i - 2.0 * ptB.u + slopeB.i;
      bu := -3.0 * ptA.u - 2.0 * slopeA.i + 3.0 * ptB.u - slopeB.i;
      cu := slopeA.i;
      du := ptA.u;

      av := 2.0 * ptA.v + slopeA.j - 2.0 * ptB.v + slopeB.j;
      bv := -3.0 * ptA.v - 2.0 * slopeA.j + 3.0 * ptB.v - slopeB.j;
      cv := slopeA.j;
      dv := ptA.v;

      range := Range(0.0, 1.0);
      residentSurf := surf;
      new;
      HermiteEnds(ptA.u, slopeA.i, ptB.u, slopeB.i);
      HermiteEnds(ptA.v, slopeA.j, ptB.v, slopeB.j);
    }

    /** `pointAt`: the curve at t, or the range error for a t outside the
        range. */
    function PointAt(t: real): (r: Result<PointSurf>)
      reads this
      ensures r.Ok? <==> InRange(range, t)
      ensures r.Ok? ==> r.value == Trace(t)
      ensures r.Err? ==> r.error == ParameterRangeErrorUno(t)
    {
      if !InRange(range, t) then Err(ParameterRangeErrorUno(t))
      else
        var t2 := t * t;
        var t3 := t * t * t;
        var u := au * t3 + bu * t2 + cu * t + du;
        var v := av * t3 + bv * t2 + cv * t + dv;
        CubicTerms(au, bu, cu, du, t, t2, t3, u);
        CubicTerms(av, bv, cv, dv, t, t2, t3, v);
        Ok(PointSurf(u, v))
    }

    /** `changeUpperBound`. */
    method ChangeUpperBound(freshUpper: real) returns (failure: Option<Error>)
      modifies this
      ensures failure.None? ==> UpperBoundChanged(old(range), freshUpper) == Ok(range)
      ensures failure.Some? ==>
        UpperBoundChanged(old(range), freshUpper) == Err(failure.value) && range == old(range)
      ensures UCoeffs() == old(UCoeffs()) && VCoeffs() == old(VCoeffs()) && residentSurf == old(residentSurf)
      ensures old(Valid()) ==> Valid()
    {
      if !(freshUpper <= 1.0 && freshUpper > range.lower) {
        return Some(ParameterRangeErrorUno(freshUpper));
      }
      range := Range(0.0, freshUpper);
      failure := None;
    }

    /** `changeLowerBound`, as written (see `LowerBoundAsWritten`). */
    method ChangeLowerBound(freshLower: real) returns (failure: Option<Error>)
      modifies this
      ensures failure.None? ==> LowerBoundChanged(old(range), freshLower) == Ok(range)
      ensures failure.Some? ==>
        LowerBoundChanged(old(range), freshLower) == Err(failure.value) && range == old(range)
      ensures UCoeffs() == old(UCoeffs()) && VCoeffs() == old(VCoeffs()) && residentSurf == old(residentSurf)
      ensures old(Valid()) ==> Valid()
    {
      if !(freshLower >= 0.0 && freshLower < range.upper) {
        return Some(ParameterRangeErrorUno(freshLower));
      }
      range := Range(0.0, freshLower);
      failure := None;
    }

    /** The surface points `split` samples along the curve. */
    function Dots(surfAt: (Bicubics.Bicubic, PointSurf) -> Point3D): (r: seq<Point3D>)
      reads this
      ensures |r| == 201
    {
      Samples(UCoeffs(), VCoeffs(), residentSurf, (range.upper - range.lower) / 200.0, surfAt)
    }

    /** The parameter of sample i: the range cut into 200 equal steps. */
    function SampleParam(i: int): real
      reads this
    {
      i as real * ((range.upper - range.lower) / 200.0)
    }

    /** Every sample is the surface image of an accepted `pointAt`, so none
        of the 201 calls throws; the first sample is the image of the start
        of the range and the last the image of its end. */
    lemma DotsFollowCurve(surfAt: (Bicubics.Bicubic, PointSurf) -> Point3D)
      requires Valid()
      ensures forall i :: 0 <= i <= 200 ==> PointAt(SampleParam(i)).Ok?
      ensures forall i :: 0 <= i <= 200 ==> Dots(surfAt)[i] == surfAt(residentSurf, PointAt(SampleParam(i)).value)
      ensures Dots(surfAt)[0] == surfAt(residentSurf, PointAt(range.lower).value)
      ensures Dots(surfAt)[200] == surfAt(residentSurf, PointAt(range.upper).value)
    {
      forall i | 0 <= i <= 200
        ensures PointAt(SampleParam(i)).Ok?
        ensures Dots(surfAt)[i] == surfAt(residentSurf, PointAt(SampleParam(i)).value)
      {
        SamplesInRange(range, i);
      }
      assert SampleParam(0) == range.lower;
      assert SampleParam(200) == range.upper;
    }

    /** `split`: the surface point at the start of the range, then the
        sample that closes each window whose crown exceeds the allowance,
        then the surface point at the end of the range unless it repeats
        the point before it.  `surfAt` is the surface's `pointAt(spot:)` and
        `sep` the distance of a point from a segment; `picks` names the
        committed samples. */
    method Split(allowableCrown: real, surfAt: (Bicubics.Bicubic, PointSurf) -> Point3D,
                 sep: (LineSeg, Point3D) -> NonNegReal) returns (pips: seq<Point3D>, ghost picks: seq<int>)
      requires Valid()
      ensures Interior(picks)
      ensures Justified(Dots(surfAt), sep, allowableCrown, picks)
      ensures QuietTail(Dots(surfAt), sep, allowableCrown, picks)
      ensures |pips| == |picks| + 1 || |pips| == |picks| + 2
      ensures pips[0] == surfAt(residentSurf, Trace(range.lower))
      ensures forall i :: 0 <= i < |picks| ==> pips[i + 1] == Dots(surfAt)[picks[i]]
      ensures |pips| == |picks| + 2 <==> pips[|picks|] != surfAt(residentSurf, Trace(range.upper))
      ensures |pips| == |picks| + 2 ==> pips[|picks| + 1] == surfAt(residentSurf, Trace(range.upper))
    {
      var low := range.lower;
      var high := range.upper;
      var curvePoint := PointAt(low).value;
      var chosen;
      chosen, picks := Thin(Dots(surfAt), sep, allowableCrown);
      pips := [surfAt(residentSurf, curvePoint)] + chosen;

      curvePoint := PointAt(high).value;
      var caboose := surfAt(residentSurf, curvePoint);
      if pips[|pips| - 1] != caboose {
        pips := pips + [caboose];
      }
    }
  }

  /** The window loop of `split`: grow the window dots[head] … dots[tail]
      one sample at a time and, when its crown exceeds the allowance, commit
      the sample before its end and start the next window one past it. */
  method Thin(dots: seq<Point3D>, sep: (LineSeg, Point3D) -> NonNegReal, allowableCrown: real)
    returns (chosen: seq<Point3D>, ghost picks: seq<int>)
    requires |dots| == 201
    ensures Interior(picks)
    ensures Justified(dots, sep, allowableCrown, picks)
    ensures QuietTail(dots, sep, allowableCrown, picks)
    ensures |chosen| == |picks|
    ensures forall i :: 0 <= i < |picks| ==> chosen[i] == dots[picks[i]]
  {
    chosen, picks := [], [];
    var head := 0;
    var tail := 2;
    while tail < 201
      invariant 0 <= head && head + 2 <= tail <= 202
      invariant Interior(picks)
      invariant head == Start(picks, |picks|)
      invariant |picks| > 0 ==> picks[|picks| - 1] < head
      invariant Justified(dots, sep, allowableCrown, picks)
      invariant Calm(dots, sep, allowableCrown, head, tail)
      invariant |chosen| == |picks|
      invariant forall i :: 0 <= i < |picks| ==> chosen[i] == dots[picks[i]]
      decreases 201 - tail
    {
      var hops := dots[head..tail + 1];
      var foundCrown := CrownCalcs(hops, sep);
      assert foundCrown == CrownOver(dots, sep, head, tail);
      if foundCrown > allowableCrown {
        Commit(dots, sep, allowableCrown, picks, head, tail);
        chosen := chosen + [hops[|hops| - 2]];
        picks := picks + [tail - 1];
        head := tail;
        tail := tail + 1;
      } else {
        Widen(dots, sep, allowableCrown, head, tail);
      }
      tail := tail + 1;
    }
  }

  /** Every window from `head` that ends before `tail` (and at a sample) is
      within the allowance. */
  predicate Calm(dots: seq<Point3D>, sep: (LineSeg, Point3D) -> NonNegReal, allowableCrown: real, head: int, tail: int)
    requires |dots| == 201 && 0 <= head
  {
    forall t :: head + 2 <= t < tail && t <= 200 ==> CrownOver(dots, sep, head, t) <= allowableCrown
  }

  lemma Widen(dots: seq<Point3D>, sep: (LineSeg, Point3D) -> NonNegReal, allowableCrown: real, head: int, tail: int)
    requires |dots| == 201 && 0 <= head && head + 2 <= tail <= 200
    requires Calm(dots, sep, allowableCrown, head, tail)
    requires CrownOver(dots, sep, head, tail) <= allowableCrown
    ensures Calm(dots, sep, allowableCrown, head, tail + 1)
  {
  }

  /** Committing sample tail − 1 after the window head … tail overflowed. */
  lemma Commit(dots: seq<Point3D>, sep: (LineSeg, Point3D) -> NonNegReal, allowableCrown: real,
               picks: seq<int>, head: int, tail: int)
    requires |dots| == 201 && Interior(picks) && 0 <= head && head + 2 <= tail <= 200
    requires head == Start(picks, |picks|)
    requires |picks| > 0 ==> picks[|picks| - 1] < head
    requires Justified(dots, sep, allowableCrown, picks)
    requires Calm(dots, sep, allowableCrown, head, tail)
    requires CrownOver(dots, sep, head, tail) > allowableCrown
    ensures Interior(picks + [tail - 1])
    ensures Justified(dots, sep, allowableCrown, picks + [tail - 1])
  {
    InteriorExtend(picks, tail - 1);
    assert Closes(dots, sep, allowableCrown, head, tail - 1);
    JustifiedExtend(dots, sep, allowableCrown, picks, tail - 1);
  }

  lemma InteriorExtend(picks: seq<int>, p: int)
    requires Interior(picks) && 1 <= p <= 199
    requires |picks| > 0 ==> picks[|picks| - 1] < p
    ensures Interior(picks + [p])
  {
    var longer := picks + [p];
    forall i, j | 0 <= i < j < |longer| ensures longer[i] < longer[j] {
      if j == |picks| {
        assert longer[i] == picks[i] && picks[i] <= picks[|picks| - 1];
      } else {
        assert longer[i] == picks[i] && longer[j] == picks[j];
      }
    }
  }

  lemma JustifiedExtend(dots: seq<Point3D>, sep: (LineSeg, Point3D) -> NonNegReal, allowableCrown: real,
                        picks: seq<int>, p: int)
    requires |dots| == 201 && Interior(picks) && Interior(picks + [p]) && p <= 199
    requires Justified(dots, sep, allowableCrown, picks)
    requires Closes(dots, sep, allowableCrown, Start(picks, |picks|), p)
    ensures Justified(dots, sep, allowableCrown, picks + [p])
  {
    var longer := picks + [p];
    forall i | 0 <= i < |longer|
      ensures Closes(dots, sep, allowableCrown, Start(longer, i), longer[i])
    {
      StartOfLonger(picks, p, i);
      if i < |picks| {
        assert longer[i] == picks[i];
        assert Closes(dots, sep, allowableCrown, Start(picks, i), picks[i]);
      }
    }
  }
}
