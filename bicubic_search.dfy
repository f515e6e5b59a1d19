/** The operations built on a finished patch: the bounding box from a grid of
    samples, the walk that pierces the patch with a line, the sign-change
    search for a fillet tangency, and the isoparametric wire frame. */
module BicubicSearches {
  import opened Geometry
  import opened Bicubics

  // ----- getExtent -----

  /** The g-th grid parameter, g·(1/15). */
  function Grid(g: nat): real {
    g as real * (1.0 / 15.0)
  }

  lemma GridInUnit(g: nat)
    requires g <= 15
    ensures 0.0 <= Grid(g) <= 1.0
  {
  }

  lemma GridIs(g: nat, step: real)
    requires step == 1.0 / 15.0
    ensures g as real * step == Grid(g)
  {
  }

  /** Sample i of the extent: the corner at (0, 0) first, then the 15×15 grid
      row by row, u outer and v inner, both starting at 1/15. */
  function Sample(b: Bicubic, i: nat): Point3D
    requires i <= 225
  {
    if i == 0 then Eval(b, 0.0, 0.0)
    else Eval(b, Grid((i - 1) / 15 + 1), Grid((i - 1) % 15 + 1))
  }

  /** Where grid point (g, w) sits among the samples. */
  lemma SampleAt(b: Bicubic, g: nat, w: nat)
    requires 1 <= g <= 15 && 1 <= w <= 15
    ensures 1 + 15 * (g - 1) + (w - 1) <= 225
    ensures Sample(b, 1 + 15 * (g - 1) + (w - 1)) == Eval(b, Grid(g), Grid(w))
  {
    var i := 15 * (g - 1) + (w - 1);
    assert i / 15 == g - 1 && i % 15 == w - 1;
  }

  /** Every sample the extent is taken over. */
  function Bucket(b: Bicubic): (s: seq<Point3D>)
    ensures |s| == 226
  {
    seq(226, i requires 0 <= i <= 225 => Sample(b, i))
  }

  /** The smallest box around a non-empty set of points: per axis the least
      and the greatest coordinate. */
  function Hull(pts: seq<Point3D>): (box: OrthoVol)
    requires |pts| > 0
    ensures Ordered(box)
    ensures forall i :: 0 <= i < |pts| ==> Contains(box, pts[i])
    ensures exists i :: 0 <= i < |pts| && box.minX == pts[i].x
    ensures exists i :: 0 <= i < |pts| && box.maxX == pts[i].x
    ensures exists i :: 0 <= i < |pts| && box.minY == pts[i].y
    ensures exists i :: 0 <= i < |pts| && box.maxY == pts[i].y
    ensures exists i :: 0 <= i < |pts| && box.minZ == pts[i].z
    ensures exists i :: 0 <= i < |pts| && box.maxZ == pts[i].z
  {
    var xs, ys, zs := Xs(pts), Ys(pts), Zs(pts);
    assert xs[0] == pts[0].x && ys[0] == pts[0].y && zs[0] == pts[0].z;
    OrthoVol(SeqMin(xs), SeqMax(xs), SeqMin(ys), SeqMax(ys), SeqMin(zs), SeqMax(zs))
  }

  /** The box `getExtent` answers. */
  function Extent(b: Bicubic): OrthoVol {
    Hull(Bucket(b))
  }

  /** The extent holds the corner and the whole 15×15 grid. */
  lemma ExtentCovers(b: Bicubic)
    ensures Ordered(Extent(b))
    ensures Contains(Extent(b), Eval(b, 0.0, 0.0))
    ensures forall g: nat, w: nat :: 1 <= g <= 15 && 1 <= w <= 15 ==>
              Contains(Extent(b), Eval(b, Grid(g), Grid(w)))
  {
    var s := Bucket(b);
    assert s[0] == Eval(b, 0.0, 0.0);
    forall g: nat, w: nat | 1 <= g <= 15 && 1 <= w <= 15
      ensures Contains(Extent(b), Eval(b, Grid(g), Grid(w)))
    {
      SampleAt(b, g, w);
      assert s[1 + 15 * (g - 1) + (w - 1)] == Eval(b, Grid(g), Grid(w));
    }
  }

  /** `getExtent`: every sample lies on the patch proper, so each evaluation
      succeeds; the box bounds are the extreme coordinates of the samples. */
  method GetExtent(b: Bicubic) returns (box: OrthoVol)
    ensures box == Extent(b)
  {
    var step := 1.0 / 15.0;
    var bucket: seq<Point3D> := [];
    var corner := PointAt(b, 0.0, 0.0);
    bucket := bucket + [corner.value];
    for g := 1 to 15 + 1
      invariant |bucket| == 1 + 15 * (g - 1)
      invariant forall i :: 0 <= i < |bucket| ==> bucket[i] == Sample(b, i)
    {
      var iso := g as real * step;
      GridIs(g, step);
      GridInUnit(g);
      for w := 1 to 15 + 1
        invariant |bucket| == 1 + 15 * (g - 1) + (w - 1)
        invariant forall i :: 0 <= i < |bucket| ==> bucket[i] == Sample(b, i)
      {
        GridIs(w, step);
        GridInUnit(w);
        var pip := PointAt(b, iso, w as real * step);
        SampleAt(b, g, w);
        bucket := bucket + [pip.value];
      }
    }
    assert bucket == Bucket(b);
    box := Hull(bucket);
  }

  // ----- intersectSurfLine -----

  /** What the walk needs from the point and vector library, which is not
      part of this model: the foot of the perpendicular from a point to the
      line of interest, a vector's length, the unit vector along a vector,
      and the point tolerance. */
  datatype Probe = Probe(drop: Point3D -> Point3D, length: Vector3D -> real,
                         unit: Vector3D -> Vector3D, epsilon: real)

  /** `errorToLine`: the vector from the patch point at (u, v) to the nearest
      point of the line. */
  function ErrorToLine(b: Bicubic, probe: Probe, u: real, v: real): Vector3D
    requires InPatch(u, v)
  {
    var approx := PointAt(b, u, v).value;
    Built(approx, probe.drop(approx))
  }

  /** A step of `size` along one partial.  A zero-length partial yields no
      step. */
  function Ratio(err: real, size: real): real {
    if size == 0.0 then 0.0 else err / size
  }

  /** The decision one pass of the walk makes. */
  datatype Aim = Hit | AlongU(step: real) | AlongV(step: real)

  /** Close enough to the line, or else a step along whichever unit partial
      the miss projects onto more strongly (v on a tie). */
  function AimAt(b: Bicubic, probe: Probe, u: real, v: real): Aim
    requires InPatch(u, v)
  {
    var error := ErrorToLine(b, probe, u, v);
    if probe.length(error) < probe.epsilon then Hit
    else
      var dirU := PartU(b, u, v);
      var errorU := DotProduct(error, probe.unit(dirU));
      var dirV := PartV(b, u, v);
      var errorV := DotProduct(error, probe.unit(dirV));
      if Abs(errorU) > Abs(errorV) then AlongU(Ratio(errorU, probe.length(dirU)))
      else AlongV(Ratio(errorV, probe.length(dirV)))
  }

  /** The decision as a map over the parameter plane.  The walk asks only
      at pairs on the patch; elsewhere the answer is never used. */
  function Decide(b: Bicubic, probe: Probe): (real, real) -> Aim {
    (u: real, v: real) => if InPatch(u, v) then AimAt(b, probe, u, v) else Hit
  }

  /** Every parameter pair the walk visits from (u, v) when `g` of its 25
      passes are done: it ends when `decide` reports a hit, when a step
      leaves the unit square (that pair ends the trail), or after the last
      pass. */
  function Walk(decide: (real, real) -> Aim, u: real, v: real, g: nat): (trail: seq<PointSurf>)
    requires g <= 25
    ensures 1 <= |trail| && trail[0] == PointSurf(u, v)
    decreases 25 - g
  {
    if g == 25 then [PointSurf(u, v)]
    else match decide(u, v)
      case Hit => [PointSurf(u, v)]
      case AlongU(h) =>
        if !InPatch(u + h, v) then [PointSurf(u, v), PointSurf(u + h, v)]
        else [PointSurf(u, v)] + Walk(decide, u + h, v, g + 1)
      case AlongV(h) =>
        if !InPatch(u, v + h) then [PointSurf(u, v), PointSurf(u, v + h)]
        else [PointSurf(u, v)] + Walk(decide, u, v + h, g + 1)
  }

  predicate OnPatchBeforeLast(trail: seq<PointSurf>) {
    forall i :: 0 <= i < |trail| - 1 ==> InPatch(trail[i].u, trail[i].v)
  }

  predicate OneAxisSteps(trail: seq<PointSurf>) {
    forall i :: 0 <= i < |trail| - 1 ==> trail[i].u == trail[i + 1].u || trail[i].v == trail[i + 1].v
  }

  lemma OnPatchCons(p: PointSurf, trail: seq<PointSurf>)
    requires InPatch(p.u, p.v) && OnPatchBeforeLast(trail)
    ensures OnPatchBeforeLast([p] + trail)
  {
  }

  lemma OneAxisCons(p: PointSurf, trail: seq<PointSurf>)
    requires |trail| > 0 && (p.u == trail[0].u || p.v == trail[0].v)
    requires OneAxisSteps(trail)
    ensures OneAxisSteps([p] + trail)
  {
    var whole := [p] + trail;
    forall i | 0 <= i < |whole| - 1
      ensures whole[i].u == whole[i + 1].u || whole[i].v == whole[i + 1].v
    {
      if i > 0 {
        assert whole[i] == trail[i - 1] && whole[i + 1] == trail[i];
      }
    }
  }

  /** At most one step per remaining pass. */
  lemma {:induction false} WalkLength(decide: (real, real) -> Aim, u: real, v: real, g: nat)
    requires g <= 25
    ensures |Walk(decide, u, v, g)| + g <= 26
    decreases 25 - g
  {
    var p := PointSurf(u, v);
    if g < 25 {
      match decide(u, v)
      case Hit =>
        assert Walk(decide, u, v, g) == [p];
      case AlongU(h) =>
        if InPatch(u + h, v) {
          var rest := Walk(decide, u + h, v, g + 1);
          WalkLength(decide, u + h, v, g + 1);
          assert Walk(decide, u, v, g) == [p] + rest;
        } else {
          assert Walk(decide, u, v, g) == [p, PointSurf(u + h, v)];
        }
      case AlongV(h) =>
        if InPatch(u, v + h) {
          var rest := Walk(decide, u, v + h, g + 1);
          WalkLength(decide, u, v + h, g + 1);
          assert Walk(decide, u, v, g) == [p] + rest;
        } else {
          assert Walk(decide, u, v, g) == [p, PointSurf(u, v + h)];
        }
    } else {
      assert Walk(decide, u, v, g) == [p];
    }
  }


  /** From a start on the patch, every pair of the trail but the last lies
      on the patch. */
  lemma {:induction false} WalkOnPatch(decide: (real, real) -> Aim, u: real, v: real, g: nat)
    requires InPatch(u, v) && g <= 25
    ensures OnPatchBeforeLast(Walk(decide, u, v, g))
    decreases 25 - g
  {
    var p := PointSurf(u, v);
    if g < 25 {
      match decide(u, v)
      case Hit =>
        assert Walk(decide, u, v, g) == [p];
      case AlongU(h) =>
        if InPatch(u + h, v) {
          var rest := Walk(decide, u + h, v, g + 1);
          WalkOnPatch(decide, u + h, v, g + 1);
          OnPatchCons(p, rest);
          assert Walk(decide, u, v, g) == [p] + rest;
        } else {
          assert Walk(decide, u, v, g) == [p, PointSurf(u + h, v)];
        }
      case AlongV(h) =>
        if InPatch(u, v + h) {
          var rest := Walk(decide, u, v + h, g + 1);
          WalkOnPatch(decide, u, v + h, g + 1);
          OnPatchCons(p, rest);
          assert Walk(decide, u, v, g) == [p] + rest;
        } else {
          assert Walk(decide, u, v, g) == [p, PointSurf(u, v + h)];
        }
    } else {
      assert Walk(decide, u, v, g) == [p];
    }
  }


  /** Each step moves one parameter only. */
  lemma {:induction false} WalkOneAxis(decide: (real, real) -> Aim, u: real, v: real, g: nat)
    requires g <= 25
    ensures OneAxisSteps(Walk(decide, u, v, g))
    decreases 25 - g
  {
    var p := PointSurf(u, v);
    if g < 25 {
      match decide(u, v)
      case Hit =>
        assert Walk(decide, u, v, g) == [p];
      case AlongU(h) =>
        if InPatch(u + h, v) {
          var rest := Walk(decide, u + h, v, g + 1);
          WalkOneAxis(decide, u + h, v, g + 1);
          OneAxisCons(p, rest);
          assert Walk(decide, u, v, g) == [p] + rest;
        } else {
          assert Walk(decide, u, v, g) == [p, PointSurf(u + h, v)];
        }
      case AlongV(h) =>
        if InPatch(u, v + h) {
          var rest := Walk(decide, u, v + h, g + 1);
          WalkOneAxis(decide, u, v + h, g + 1);
          OneAxisCons(p, rest);
          assert Walk(decide, u, v, g) == [p] + rest;
        } else {
          assert Walk(decide, u, v, g) == [p, PointSurf(u, v + h)];
        }
    } else {
      assert Walk(decide, u, v, g) == [p];
    }
  }


  /** Where the walk from (u, v) ends, `g` passes being done: the pair it
      settles on, or the range error for the first step off the patch. */
  function Landing(decide: (real, real) -> Aim, u: real, v: real, g: nat): Result<PointSurf>
    requires g <= 25
    decreases 25 - g
  {
    if g == 25 then Ok(PointSurf(u, v))
    else match decide(u, v)
      case Hit => Ok(PointSurf(u, v))
      case AlongU(h) =>
        if !InPatch(u + h, v) then Err(ParameterRangeErrorDos(u + h, v))
        else Landing(decide, u + h, v, g + 1)
      case AlongV(h) =>
        if !InPatch(u, v + h) then Err(ParameterRangeErrorDos(u, v + h))
        else Landing(decide, u, v + h, g + 1)
  }

  /** The outcome a walk ending at `p` reports. */
  function Settle(p: PointSurf): Result<PointSurf> {
    if InPatch(p.u, p.v) then Ok(p) else Err(ParameterRangeErrorDos(p.u, p.v))
  }

  function Last<T>(s: seq<T>): T
    requires |s| > 0
  {
    s[|s| - 1]
  }

  lemma LastOfCons<T>(x: T, s: seq<T>)
    requires |s| > 0
    ensures Last([x] + s) == Last(s)
  {
  }

  /** From a start on the patch, the landing is the last pair of the trail:
      the answer when it lies on the patch, and the pair the range error
      names otherwise. */
  lemma {:induction false} LandingEndsWalk(decide: (real, real) -> Aim, u: real, v: real, g: nat)
    requires InPatch(u, v) && g <= 25
    ensures Landing(decide, u, v, g) == Settle(Last(Walk(decide, u, v, g)))
    decreases 25 - g
  {
    var p := PointSurf(u, v);
    if g < 25 {
      match decide(u, v)
      case Hit =>
        assert Walk(decide, u, v, g) == [p];
      case AlongU(h) =>
        if InPatch(u + h, v) {
          var rest := Walk(decide, u + h, v, g + 1);
          LandingEndsWalk(decide, u + h, v, g + 1);
          LastOfCons(p, rest);
          assert Walk(decide, u, v, g) == [p] + rest;
        } else {
          assert Walk(decide, u, v, g) == [p, PointSurf(u + h, v)];
        }
      case AlongV(h) =>
        if InPatch(u, v + h) {
          var rest := Walk(decide, u, v + h, g + 1);
          LandingEndsWalk(decide, u, v + h, g + 1);
          LastOfCons(p, rest);
          assert Walk(decide, u, v, g) == [p] + rest;
        } else {
          assert Walk(decide, u, v, g) == [p, PointSurf(u, v + h)];
        }
    } else {
      assert Walk(decide, u, v, g) == [p];
    }
  }


  /** The pierce point and its parameters. */
  datatype Pierce = Pierce(spot: Point3D, param1: real, param2: real)

  /** `intersectSurfLine`: the patch point where the walk from (0, 0) lands,
      or the range error it stops on. */
  function Intersect(b: Bicubic, probe: Probe): Result<Pierce> {
    match Landing(Decide(b, probe), 0.0, 0.0, 0)
    case Ok(p) => Ok(Pierce(Eval(b, p.u, p.v), p.u, p.v))
    case Err(e) => Err(e)
  }

  /** A normal return is the last pair of a trail of at most 25 steps; the
      pair lies on the patch and the point is the patch point there. */
  lemma IntersectOnPatch(b: Bicubic, probe: Probe)
    requires Intersect(b, probe).Ok?
    ensures var trail := Walk(Decide(b, probe), 0.0, 0.0, 0);
      var p := Intersect(b, probe).value;
      && |trail| <= 26
      && Last(trail) == PointSurf(p.param1, p.param2)
      && InPatch(p.param1, p.param2)
      && PointAt(b, p.param1, p.param2) == Ok(p.spot)
  {
    WalkLength(Decide(b, probe), 0.0, 0.0, 0);
    LandingEndsWalk(Decide(b, probe), 0.0, 0.0, 0);
  }

  /** A failure names the last pair of the trail, which is off the patch and
      one step from the pair before it, which is on the patch. */
  lemma IntersectRangeError(b: Bicubic, probe: Probe)
    requires Intersect(b, probe).Err?
    ensures var trail := Walk(Decide(b, probe), 0.0, 0.0, 0);
      && |trail| >= 2
      && Intersect(b, probe).error == ParameterRangeErrorDos(Last(trail).u, Last(trail).v)
      && !InPatch(Last(trail).u, Last(trail).v)
      && InPatch(trail[|trail| - 2].u, trail[|trail| - 2].v)
  {
    var trail := Walk(Decide(b, probe), 0.0, 0.0, 0);
    LandingEndsWalk(Decide(b, probe), 0.0, 0.0, 0);
    WalkOnPatch(Decide(b, probe), 0.0, 0.0, 0);
    assert trail[0] == PointSurf(0.0, 0.0);
  }

  /** The repeat-while loop of `intersectSurfLine`, asking `decide` at
      each pair it reaches; its first pass always runs, so a while loop on
      the pass count is the same loop.  After a step the parameter it did
      not move is still in range, so checking both is checking the moved
      one. */
  method Descend(decide: (real, real) -> Aim) returns (r: Result<PointSurf>)
    ensures r == Landing(decide, 0.0, 0.0, 0)
    ensures r.Ok? ==> InPatch(r.value.u, r.value.v)
  {
    var approxU, approxV := 0.0, 0.0;
    var g := 0;
    while g < 25
      invariant InPatch(approxU, approxV) && g <= 25
      invariant Landing(decide, 0.0, 0.0, 0) == Landing(decide, approxU, approxV, g)
      decreases 25 - g
    {
      var aim := decide(approxU, approxV);
      ghost var rest := Landing(decide, approxU, approxV, g);
      if aim.Hit? {
        break;
      } else if aim.AlongU? {
        approxU := approxU + aim.step;
      } else {
        approxV := approxV + aim.step;
      }
      if approxU < 0.0 || approxU > 1.0 || approxV < 0.0 || approxV > 1.0 {
        assert rest == Err(ParameterRangeErrorDos(approxU, approxV));
        return Err(ParameterRangeErrorDos(approxU, approxV));
      }
      assert rest == Landing(decide, approxU, approxV, g + 1);
      g := g + 1;
    }
    r := Ok(PointSurf(approxU, approxV));
  }

  /** `intersectSurfLine`: the walk from (0, 0) with the miss, the partials
      and the choice between them made by `AimAt`, then the patch point at
      the pair it lands on. */
  method IntersectSurfLine(b: Bicubic, probe: Probe) returns (r: Result<Pierce>)
    ensures r == Intersect(b, probe)
  {
    var landing := Descend(Decide(b, probe));
    match landing
    case Err(e) =>
      r := Err(e);
    case Ok(p) =>
      var pierce := PointAt(b, p.u, p.v);
      r := Ok(Pierce(pierce.value, p.u, p.v));
  }

  // ----- crossingFillet -----

  /** What `offsetNormalInter` reports for one trial parameter: the point on
      the patch, the distance that is compared with the radius, and the
      fillet centre. */
  datatype Tangency = Tangency(spot: Point3D, dist: real, filletCtr: Point3D)

  /** The answer of `crossingFillet`: the narrower range if a crossing was
      found, the error there, and three points. */
  datatype Crossing = Crossing(egnar: Option<Range>, error: real, surfTan: Point3D,
                               filletCtr: Point3D, uprightTan: Point3D)

  /** The g-th of the eight equal hops across the span. */
  function Hop(span: Range, g: nat): real {
    span.lower + g as real * ((span.upper - span.lower) / 8.0)
  }

  /** The objective at hop g has the opposite sign to the one at the start
      of the span. */
  predicate Flips(merit: real -> Tangency, rad: real, span: Range, g: nat) {
    Opposite(merit(Hop(span, g)).dist - rad, merit(span.lower).dist - rad)
  }

  /** Two values of opposite strict sign: their product is negative. */
  predicate Opposite(a: real, b: real) {
    a * b < 0.0
  }

  /** The first hop from g on where the objective flips, or 9 if none of the
      hops up to 8 does. */
  function FirstFlip(merit: real -> Tangency, rad: real, span: Range, g: nat): (k: nat)
    requires 1 <= g <= 9
    ensures g <= k <= 9
    ensures k < 9 ==> Flips(merit, rad, span, k)
    ensures forall j :: g <= j < k ==> !Flips(merit, rad, span, j)
    decreases 9 - g
  {
    if g == 9 then 9
    else if Flips(merit, rad, span, g) then g
    else FirstFlip(merit, rad, span, g + 1)
  }

  /** `crossingFillet` with the tangency search `offsetNormalInter` as
      `merit`: the hop interval ending at the first flip, or no range with
      the placeholder error 5.0 and three origins. */
  function Fillet(merit: real -> Tangency, rad: real, sideways: Vector3D, span: Range): Crossing {
    var k := FirstFlip(merit, rad, span, 1);
    if k == 9 then
      var origin := Point3D(0.0, 0.0, 0.0);
      Crossing(None, 5.0, origin, origin, origin)
    else
      var m := merit(Hop(span, k));
      Crossing(Some(Range(Hop(span, k - 1), Hop(span, k))), m.dist - rad, m.spot, m.filletCtr,
               Offset(m.filletCtr, Scale(sideways, -rad)))
  }

  /** The hops climb from the lower bound to the upper one in steps of an
      eighth of the span. */
  lemma HopWithin(span: Range, g: nat)
    requires span.lower <= span.upper && g <= 8
    ensures span.lower <= Hop(span, g) <= span.upper
    ensures g >= 1 ==> Hop(span, g) - Hop(span, g - 1) == (span.upper - span.lower) / 8.0
  {
    var step := (span.upper - span.lower) / 8.0;
    assert step >= 0.0 && 8.0 * step == span.upper - span.lower;
    assert (8.0 - g as real) * step >= 0.0;
  }

  /** A range is returned exactly when some hop flips; otherwise the error
      is the placeholder 5.0. */
  lemma FilletFlipIff(merit: real -> Tangency, rad: real, sideways: Vector3D, span: Range)
    ensures Fillet(merit, rad, sideways, span).egnar.Some? <==>
              exists g :: 1 <= g <= 8 && Flips(merit, rad, span, g)
    ensures Fillet(merit, rad, sideways, span).egnar.None? ==>
              Fillet(merit, rad, sideways, span).error == 5.0
  {
    var k := FirstFlip(merit, rad, span, 1);
    if k < 9 {
      assert Flips(merit, rad, span, k);
    }
  }

  /** The range returned is the hop interval ending at the first flip (the
      hop `FirstFlip` finds, before which no hop flips): one eighth of the
      span, inside it, and the error is the objective at its upper end. */
  lemma FilletBracket(merit: real -> Tangency, rad: real, sideways: Vector3D, span: Range)
    requires span.lower <= span.upper
    requires Fillet(merit, rad, sideways, span).egnar.Some?
    ensures 1 <= FirstFlip(merit, rad, span, 1) <= 8
    ensures Fillet(merit, rad, sideways, span).egnar.value ==
              Range(Hop(span, FirstFlip(merit, rad, span, 1) - 1), Hop(span, FirstFlip(merit, rad, span, 1)))
    ensures Fillet(merit, rad, sideways, span).error == merit(Hop(span, FirstFlip(merit, rad, span, 1))).dist - rad
    ensures span.lower <= Fillet(merit, rad, sideways, span).egnar.value.lower
    ensures Fillet(merit, rad, sideways, span).egnar.value.upper <= span.upper
    ensures Fillet(merit, rad, sideways, span).egnar.value.upper - Fillet(merit, rad, sideways, span).egnar.value.lower
              == (span.upper - span.lower) / 8.0
  {
    var k := FirstFlip(merit, rad, span, 1);
    HopWithin(span, k - 1);
    HopWithin(span, k);
  }

  /** One hop of the search. */
  lemma FlipStep(merit: real -> Tangency, rad: real, span: Range, g: nat)
    requires 1 <= g <= 8
    ensures FirstFlip(merit, rad, span, g) ==
              if Flips(merit, rad, span, g) then g else FirstFlip(merit, rad, span, g + 1)
  {
  }

  /** The answer when the first flip is at hop k, or when there is none. */
  lemma FilletAt(merit: real -> Tangency, rad: real, sideways: Vector3D, span: Range, k: nat)
    requires 1 <= k <= 9 && FirstFlip(merit, rad, span, 1) == k
    ensures k == 9 ==>
              Fillet(merit, rad, sideways, span) ==
              Crossing(None, 5.0, Point3D(0.0, 0.0, 0.0), Point3D(0.0, 0.0, 0.0), Point3D(0.0, 0.0, 0.0))
    ensures k < 9 ==>
              Fillet(merit, rad, sideways, span) ==
                Crossing(Some(Range(Hop(span, k - 1), Hop(span, k))), merit(Hop(span, k)).dist - rad,
                         merit(Hop(span, k)).spot, merit(Hop(span, k)).filletCtr,
                         Offset(merit(Hop(span, k)).filletCtr, Scale(sideways, -rad)))
  {
  }

  lemma HopIs(span: Range, g: nat, parStep: real)
    requires parStep == (span.upper - span.lower) / 8.0
    ensures span.lower + g as real * parStep == Hop(span, g)
  {
  }

  lemma OppositeIs(a: real, b: real, product: real)
    requires product == a * b
    ensures product < 0.0 <==> Opposite(a, b)
  {
  }

  /** The loop of `crossingFillet`, returning at the first flip. */
  method CrossingFillet(merit: real -> Tangency, filletRad: real, sideways: Vector3D, span: Range)
    returns (r: Crossing)
    ensures r == Fillet(merit, filletRad, sideways, span)
  {
    var parStep := (span.upper - span.lower) / 8.0;
    var refTuple := merit(span.lower);
    var refValue := refTuple.dist - filletRad;
    var previousHop := span.lower;
    var meritSpot := Point3D(0.0, 0.0, 0.0);
    for g := 1 to 9
      invariant previousHop == Hop(span, g - 1)
      invariant FirstFlip(merit, filletRad, span, 1) == FirstFlip(merit, filletRad, span, g)
    {
      var freshHop := span.lower + g as real * parStep;
      HopIs(span, g, parStep);
      var tangency := merit(freshHop);
      assert tangency == merit(Hop(span, g));
      var myObjective := tangency.dist - filletRad;
      var flipIndicator := myObjective * refValue;
      FlipStep(merit, filletRad, span, g);
      OppositeIs(myObjective, refValue, flipIndicator);
      if flipIndicator < 0.0 {
        FilletAt(merit, filletRad, sideways, span, g);
        var upTan := Offset(tangency.filletCtr, Scale(sideways, -filletRad));
        return Crossing(Some(Range(previousHop, freshHop)), myObjective, tangency.spot, tangency.filletCtr, upTan);
      } else {
        previousHop := freshHop;
      }
    }
    FilletAt(merit, filletRad, sideways, span, 9);
    r := Crossing(None, 5.0, meritSpot, meritSpot, meritSpot);
  }

  // ----- stripes -----

  /** The g-th of the 21 sample parameters along a wire, g·0.05. */
  function Tick(g: nat): real {
    g as real * 0.05
  }

  /** The parameter of band `band` of `count`, band·(1/count). */
  function Band(count: int, band: nat): real
    requires count >= 1
  {
    band as real * (1.0 / count as real)
  }

  lemma TickInUnit(g: nat)
    requires g <= 20
    ensures 0.0 <= Tick(g) <= 1.0
  {
  }

  lemma BandInUnit(count: int, band: nat)
    requires count >= 1 && band <= count
    ensures 0.0 <= Band(count, band) <= 1.0
  {
    var step := 1.0 / count as real;
    assert step * count as real == 1.0;
    assert band as real * step <= count as real * step;
  }

  lemma BandIs(count: int, band: nat, stepV: real)
    requires count >= 1 && stepV == 1.0 / count as real
    ensures band as real * stepV == Band(count, band)
  {
  }

  /** Wire i: forty per band, the first twenty joining samples along u at the
      band's value of v, the next twenty joining samples along v at the
      band's value of u. */
  function Stroke(panel: Bicubic, count: int, i: nat): LineSeg
    requires count >= 1
  {
    var v := Band(count, i / 40);
    var r := i % 40;
    if r < 20 then LineSeg(Eval(panel, Tick(r), v), Eval(panel, Tick(r + 1), v))
    else LineSeg(Eval(panel, v, Tick(r - 20)), Eval(panel, v, Tick(r - 19)))
  }

  /** Every wire of `stripes`. */
  function Strokes(panel: Bicubic, count: int): (s: seq<LineSeg>)
    requires count >= 1
    ensures |s| == 40 * (count + 1)
  {
    seq(40 * (count + 1), i requires 0 <= i < 40 * (count + 1) => Stroke(panel, count, i))
  }

  /** Where wire r of band `band` sits. */
  lemma StrokeAt(panel: Bicubic, count: int, band: nat, r: nat)
    requires count >= 1 && band <= count && r < 40
    ensures 40 * band + r < 40 * (count + 1)
    ensures var v := Band(count, band);
      Stroke(panel, count, 40 * band + r) ==
        if r < 20 then LineSeg(Eval(panel, Tick(r), v), Eval(panel, Tick(r + 1), v))
        else LineSeg(Eval(panel, v, Tick(r - 20)), Eval(panel, v, Tick(r - 19)))
  {
    assert (40 * band + r) / 40 == band && (40 * band + r) % 40 == r;
  }

  /** Within each run of twenty, each wire starts where the one before it
      ends, so every run is one connected isoparametric polyline. */
  lemma StrokesChain(panel: Bicubic, count: int, band: nat, r: nat)
    requires count >= 1 && band <= count && r < 39 && r != 19
    ensures Strokes(panel, count)[40 * band + r].end2 == Strokes(panel, count)[40 * band + r + 1].end1
  {
    StrokeAt(panel, count, band, r);
    StrokeAt(panel, count, band, r + 1);
  }

  /** Every end of every wire is a patch point at parameters on the patch. */
  lemma StrokesOnPatch(panel: Bicubic, count: int, i: nat)
    requires count >= 1 && i < 40 * (count + 1)
    ensures exists u: real, v: real :: InPatch(u, v) && Strokes(panel, count)[i].end1 == Eval(panel, u, v)
    ensures exists u: real, v: real :: InPatch(u, v) && Strokes(panel, count)[i].end2 == Eval(panel, u, v)
  {
    var band, r := i / 40, i % 40;
    var v := Band(count, band);
    assert i == 40 * band + r;
    StrokeAt(panel, count, band, r);
    BandInUnit(count, band);
    var w := Strokes(panel, count)[i];
    if r < 20 {
      TickInUnit(r);
      TickInUnit(r + 1);
      assert InPatch(Tick(r), v) && w.end1 == Eval(panel, Tick(r), v);
      assert InPatch(Tick(r + 1), v) && w.end2 == Eval(panel, Tick(r + 1), v);
    } else {
      TickInUnit(r - 20);
      TickInUnit(r - 19);
      assert InPatch(v, Tick(r - 20)) && w.end1 == Eval(panel, v, Tick(r - 20));
      assert InPatch(v, Tick(r - 19)) && w.end2 == Eval(panel, v, Tick(r - 19));
    }
  }

  /** `stripes`: for each of the count + 1 bands, a wire between successive
      samples along u and then along v; the point carried between the two
      passes never starts a wire, since the first sample of a pass adds
      none. */
  method Stripes(panel: Bicubic, count: int) returns (strokes: seq<LineSeg>)
    requires count >= 1
    ensures strokes == Strokes(panel, count)
  {
    strokes := [];
    var priorPt := Point3D(0.0, 0.0, 0.0);
    var stepV := 1.0 / count as real;
    for band := 0 to count + 1
      invariant |strokes| == 40 * band
      invariant forall i :: 0 <= i < |strokes| ==> strokes[i] == Stroke(panel, count, i)
    {
      var v := band as real * stepV;
      BandIs(count, band, stepV);
      BandInUnit(count, band);
      for g := 0 to 21
        invariant |strokes| == 40 * band + (if g == 0 then 0 else g - 1)
        invariant g > 0 ==> priorPt == Eval(panel, Tick(g - 1), v)
        invariant forall i :: 0 <= i < |strokes| ==> strokes[i] == Stroke(panel, count, i)
      {
        var p := g as real * 0.05;
        TickInUnit(g);
        assert p == Tick(g);
        var currentPt := PointAt(panel, p, v).value;
        if g > 0 {
          StrokeAt(panel, count, band, g - 1);
          strokes := strokes + [LineSeg(priorPt, currentPt)];
        }
        priorPt := currentPt;
      }
      for g := 0 to 21
        invariant |strokes| == 40 * band + 20 + (if g == 0 then 0 else g - 1)
        invariant g > 0 ==> priorPt == Eval(panel, v, Tick(g - 1))
        invariant forall i :: 0 <= i < |strokes| ==> strokes[i] == Stroke(panel, count, i)
      {
        var p := g as real * 0.05;
        TickInUnit(g);
        assert p == Tick(g);
        var currentPt := PointAt(panel, v, p).value;
        if g > 0 {
          StrokeAt(panel, count, band, 20 + g - 1);
          strokes := strokes + [LineSeg(priorPt, currentPt)];
        }
        priorPt := currentPt;
      }
    }
  }
}
