/** A bicubic patch: one 4×4 coefficient matrix per coordinate, the points
    and partial derivatives it yields, the design matrix its constructor
    solves, and the sampling, intersection and fillet searches built on it.
    The patch is never changed after construction, so it is a value here. */
module Bicubics {
  import opened Geometry
  import opened Cubics

  /** One coordinate's coefficients as the four rows supplied, row i holding
      the coefficients of u^(3−i)·v³, u^(3−i)·v², u^(3−i)·v and u^(3−i). */
  datatype Coeffs = Coeffs(r0: Quad, r1: Quad, r2: Quad, r3: Quad)

  datatype Bicubic = Bicubic(qx: Coeffs, qy: Coeffs, qz: Coeffs)

  /** The sixteen coefficients a solve returns, one per monomial. */
  type Solution = c: seq<real> | |c| == 16
    witness [0.0, 0.0, 0.0, 0.0, 0.0, 0.0, 0.0, 0.0, 0.0, 0.0, 0.0, 0.0, 0.0, 0.0, 0.0, 0.0]

  function Row(c: Coeffs, i: nat): Quad
    requires i < 4
  {
    if i == 0 then c.r0 else if i == 1 then c.r1 else if i == 2 then c.r2 else c.r3
  }

  /** The row vector s times the transposed matrix: lane j is Σᵢ s[i]·rowᵢ[j]. */
  function RowTimes(s: Quad, c: Coeffs): Quad {
    Quad(s.x * c.r0.x + s.y * c.r1.x + s.z * c.r2.x + s.w * c.r3.x,
         s.x * c.r0.y + s.y * c.r1.y + s.z * c.r2.y + s.w * c.r3.y,
         s.x * c.r0.z + s.y * c.r1.z + s.z * c.r2.z + s.w * c.r3.z,
         s.x * c.r0.w + s.y * c.r1.w + s.z * c.r2.w + s.w * c.r3.w)
  }

  /** One coordinate at (u, v): Σᵢⱼ u^(3−i)·rowᵢ[j]·v^(3−j). */
  function Axis(c: Coeffs, u: real, v: real): real {
    Dot(RowTimes(Powers(u), c), Powers(v))
  }

  /** The patch polynomial, with no range check. */
  function Eval(b: Bicubic, u: real, v: real): Point3D {
    Point3D(Axis(b.qx, u, v), Axis(b.qy, u, v), Axis(b.qz, u, v))
  }

  predicate InPatch(u: real, v: real) {
    0.0 <= u <= 1.0 && 0.0 <= v <= 1.0
  }

  /** `pointAt`: the patch point, for parameters in the unit square only. */
  function PointAt(b: Bicubic, u: real, v: real): (r: Result<Point3D>)
    ensures r.Ok? <==> InPatch(u, v)
    ensures r.Err? ==> r.error == ParameterRangeErrorDos(u, v)
    ensures r.Ok? ==> r.value == Eval(b, u, v)
  {
    if !InPatch(u, v) then Err(ParameterRangeErrorDos(u, v))
    else Ok(Eval(b, u, v))
  }

  /** `altPointAt`: the same products taken in the other order, with no
      range check. */
  function AltPointAt(b: Bicubic, u: real, v: real): Point3D {
    Point3D(Dot(RowTimes(Powers(v), b.qx), Powers(u)),
            Dot(RowTimes(Powers(v), b.qy), Powers(u)),
            Dot(RowTimes(Powers(v), b.qz), Powers(u)))
  }

  /** One coordinate of `partU`: (3u², 2u, 1) times the first three rows,
      then dotted with (v³, v², v, 1). */
  function PartUAxis(c: Coeffs, u: real, v: real): real {
    var s := (3.0 * u * u, 2.0 * u, 1.0);
    var middle := Quad(s.0 * c.r0.x + s.1 * c.r1.x + s.2 * c.r2.x,
                       s.0 * c.r0.y + s.1 * c.r1.y + s.2 * c.r2.y,
                       s.0 * c.r0.z + s.1 * c.r1.z + s.2 * c.r2.z,
                       s.0 * c.r0.w + s.1 * c.r1.w + s.2 * c.r2.w);
    Dot(middle, Powers(v))
  }

  /** One coordinate of `partV`: (u³, u², u, 1) times the first three lanes
      of the rows, then dotted with (3v², 2v, 1). */
  function PartVAxis(c: Coeffs, u: real, v: real): real {
    var middle := RowTimes(Powers(u), c);
    var t := (3.0 * v * v, 2.0 * v, 1.0);
    middle.x * t.0 + middle.y * t.1 + middle.z * t.2
  }

  function PartU(b: Bicubic, u: real, v: real): Vector3D {
    Vector3D(PartUAxis(b.qx, u, v), PartUAxis(b.qy, u, v), PartUAxis(b.qz, u, v))
  }

  function PartV(b: Bicubic, u: real, v: real): Vector3D {
    Vector3D(PartVAxis(b.qx, u, v), PartVAxis(b.qy, u, v), PartVAxis(b.qz, u, v))
  }

  // ----- the partial derivatives -----

  /** The matrix times the column t: lane i is rowᵢ dotted with t. */
  function TimesCol(c: Coeffs, t: Quad): Quad {
    Quad(Dot(c.r0, t), Dot(c.r1, t), Dot(c.r2, t), Dot(c.r3, t))
  }

  /** The sixteen-term identity behind `Bilinear`, on plain numbers. */
  lemma SumOfSixteen(s0: real, s1: real, s2: real, s3: real, t0: real, t1: real, t2: real, t3: real,
                     r00: real, r01: real, r02: real, r03: real, r10: real, r11: real, r12: real, r13: real,
                     r20: real, r21: real, r22: real, r23: real, r30: real, r31: real, r32: real, r33: real)
    ensures (s0 * r00 + s1 * r10 + s2 * r20 + s3 * r30) * t0 + (s0 * r01 + s1 * r11 + s2 * r21 + s3 * r31) * t1
          + (s0 * r02 + s1 * r12 + s2 * r22 + s3 * r32) * t2 + (s0 * r03 + s1 * r13 + s2 * r23 + s3 * r33) * t3
         == s0 * (r00 * t0 + r01 * t1 + r02 * t2 + r03 * t3) + s1 * (r10 * t0 + r11 * t1 + r12 * t2 + r13 * t3)
          + s2 * (r20 * t0 + r21 * t1 + r22 * t2 + r23 * t3) + s3 * (r30 * t0 + r31 * t1 + r32 * t2 + r33 * t3)
  {
  }

  /** (s·C)·t == s·(C·t): the order in which the two products are taken does
      not matter. */
  lemma Bilinear(s: Quad, c: Coeffs, t: Quad)
    ensures Dot(RowTimes(s, c), t) == Dot(s, TimesCol(c, t))
  {
    calc {
      Dot(RowTimes(s, c), t);
      (s.x * c.r0.x + s.y * c.r1.x + s.z * c.r2.x + s.w * c.r3.x) * t.x
      + (s.x * c.r0.y + s.y * c.r1.y + s.z * c.r2.y + s.w * c.r3.y) * t.y
      + (s.x * c.r0.z + s.y * c.r1.z + s.z * c.r2.z + s.w * c.r3.z) * t.z
      + (s.x * c.r0.w + s.y * c.r1.w + s.z * c.r2.w + s.w * c.r3.w) * t.w;
      { SumOfSixteen(s.x, s.y, s.z, s.w, t.x, t.y, t.z, t.w,
                     c.r0.x, c.r0.y, c.r0.z, c.r0.w, c.r1.x, c.r1.y, c.r1.z, c.r1.w,
                     c.r2.x, c.r2.y, c.r2.z, c.r2.w, c.r3.x, c.r3.y, c.r3.z, c.r3.w); }
      s.x * (c.r0.x * t.x + c.r0.y * t.y + c.r0.z * t.z + c.r0.w * t.w)
      + s.y * (c.r1.x * t.x + c.r1.y * t.y + c.r1.z * t.z + c.r1.w * t.w)
      + s.z * (c.r2.x * t.x + c.r2.y * t.y + c.r2.z * t.z + c.r2.w * t.w)
      + s.w * (c.r3.x * t.x + c.r3.y * t.y + c.r3.z * t.z + c.r3.w * t.w);
      Dot(s, TimesCol(c, t));
    }
  }

  lemma DotCommutes(a: Quad, b: Quad)
    ensures Dot(a, b) == Dot(b, a)
  {
  }

  /** The coordinate as a cubic in u: lane i is rowᵢ taken as a cubic in v. */
  function Across(c: Coeffs, v: real): Quad {
    TimesCol(c, Powers(v))
  }

  /** `partU` takes (3u², 2u, 1) through the first three rows only, which is
      (3u², 2u, 1, 0) through all four. */
  lemma PartUAxisFull(c: Coeffs, u: real, v: real)
    ensures PartUAxis(c, u, v) == Dot(RowTimes(Slopes(u), c), Powers(v))
  {
  }

  /** Read as a cubic in u, the coordinate has `partU` as its slope. */
  lemma AxisAcross(c: Coeffs, u: real, v: real)
    ensures Axis(c, u, v) == Cubic(Across(c, v), u)
    ensures PartUAxis(c, u, v) == Slope(Across(c, v), u)
  {
    Bilinear(Powers(u), c, Powers(v));
    DotCommutes(Powers(u), Across(c, v));
    PartUAxisFull(c, u, v);
    Bilinear(Slopes(u), c, Powers(v));
    DotCommutes(Slopes(u), Across(c, v));
  }

  /** Carries a step equation over to equal quantities; stated on plain
      numbers so that no product has to be rewritten. */
  lemma Transfer(a1: real, a0: real, p: real, r: real, c1: real, c0: real, s: real, rr: real, h: real)
    requires a1 == c1 && a0 == c0 && p == s && r == rr
    requires c1 == c0 + s * h + rr * (h * h)
    ensures a1 == a0 + p * h + r * (h * h)
  {
  }

  /** The h² remainder of a step h in u, for one coordinate. */
  function RemainderUAxis(c: Coeffs, u: real, v: real, h: real): real {
    Rest(Across(c, v), u, h)
  }

  /** The h² remainder of a step h in v, for one coordinate. */
  function RemainderVAxis(c: Coeffs, u: real, v: real, h: real): real {
    Rest(RowTimes(Powers(u), c), v, h)
  }

  /** `partU` is the exact u-derivative of one coordinate: a step h in u
      changes it by partU·h plus a remainder times h². */
  lemma AxisShiftU(c: Coeffs, u: real, v: real, h: real)
    ensures Axis(c, u + h, v) == Axis(c, u, v) + PartUAxis(c, u, v) * h + RemainderUAxis(c, u, v, h) * (h * h)
  {
    var q := Across(c, v);
    AxisAcross(c, u, v);
    AxisAcross(c, u + h, v);
    CubicStep(q, u, h);
    Transfer(Axis(c, u + h, v), Axis(c, u, v), PartUAxis(c, u, v), RemainderUAxis(c, u, v, h),
             Cubic(q, u + h), Cubic(q, u), Slope(q, u), Rest(q, u, h), h);
  }

  /** `partV` takes the first three lanes of the row product against
      (3v², 2v, 1): the slope in v of the coordinate read as a cubic in v. */
  lemma PartVAxisSlope(c: Coeffs, u: real, v: real)
    ensures PartVAxis(c, u, v) == Slope(RowTimes(Powers(u), c), v)
  {
  }

  /** `partV` is the exact v-derivative of one coordinate. */
  lemma AxisShiftV(c: Coeffs, u: real, v: real, h: real)
    ensures Axis(c, u, v + h) == Axis(c, u, v) + PartVAxis(c, u, v) * h + RemainderVAxis(c, u, v, h) * (h * h)
  {
    var q := RowTimes(Powers(u), c);
    PartVAxisSlope(c, u, v);
    CubicStep(q, v, h);
    Transfer(Axis(c, u, v + h), Axis(c, u, v), PartVAxis(c, u, v), RemainderVAxis(c, u, v, h),
             Cubic(q, v + h), Cubic(q, v), Slope(q, v), Rest(q, v, h), h);
  }

  // ----- altPointAt -----

  function TransposeCoeffs(c: Coeffs): Coeffs {
    Coeffs(Quad(c.r0.x, c.r1.x, c.r2.x, c.r3.x),
           Quad(c.r0.y, c.r1.y, c.r2.y, c.r3.y),
           Quad(c.r0.z, c.r1.z, c.r2.z, c.r3.z),
           Quad(c.r0.w, c.r1.w, c.r2.w, c.r3.w))
  }

  function Transpose(b: Bicubic): Bicubic {
    Bicubic(TransposeCoeffs(b.qx), TransposeCoeffs(b.qy), TransposeCoeffs(b.qz))
  }

  /** A row vector times the matrix is the transposed matrix times it. */
  lemma TransposeTimesCol(c: Coeffs, t: Quad)
    ensures TimesCol(TransposeCoeffs(c), t) == RowTimes(t, c)
  {
  }

  lemma AxisTranspose(c: Coeffs, u: real, v: real)
    ensures Dot(RowTimes(Powers(v), c), Powers(u)) == Axis(TransposeCoeffs(c), u, v)
  {
    Bilinear(Powers(u), TransposeCoeffs(c), Powers(v));
    TransposeTimesCol(c, Powers(v));
    DotCommutes(Powers(u), RowTimes(Powers(v), c));
  }

  /** `altPointAt(u, v)` is the patch polynomial at (v, u), which is the
      transposed patch at (u, v); where (v, u) is in range it is what
      `pointAt(v, u)` returns. */
  lemma AltPointAtSwaps(b: Bicubic, u: real, v: real)
    ensures AltPointAt(b, u, v) == Eval(Transpose(b), u, v)
    ensures InPatch(v, u) ==> PointAt(b, v, u) == Ok(AltPointAt(b, u, v))
  {
    AxisTranspose(b.qx, u, v);
    AxisTranspose(b.qy, u, v);
    AxisTranspose(b.qz, u, v);
  }

  // ----- the constructor -----

  /** Monomial k of the design at (s, t): s^(3 − k/4)·t^(3 − k%4), one
      branch per loop of the source, so k = 0 is s³t³ and k = 15 is 1. */
  function Monomial(k: nat, p: PointSurf): real
    requires k < 16
  {
    var s, t := Powers(p.u), Powers(p.v);
    match k
    case 0 => s.x * t.x   case 1 => s.x * t.y   case 2 => s.x * t.z   case 3 => s.x * t.w
    case 4 => s.y * t.x   case 5 => s.y * t.y   case 6 => s.y * t.z   case 7 => s.y * t.w
    case 8 => s.z * t.x   case 9 => s.z * t.y   case 10 => s.z * t.z  case 11 => s.z * t.w
    case 12 => s.w * t.x  case 13 => s.w * t.y  case 14 => s.w * t.z  case _ => s.w * t.w
  }

  /** The 16×16 design matrix, column by column: entry 16·k + g is
      monomial k at the parameters of point g. */
  function Design(params: seq<PointSurf>): (d: seq<real>)
    requires |params| == 16
    ensures |d| == 256
  {
    seq(256, i requires 0 <= i < 256 => Monomial(i / 16, params[i % 16]))
  }

  /** Where each monomial lands in the design: block k, column g. */
  lemma DesignLayout(params: seq<PointSurf>, k: nat, g: nat)
    requires |params| == 16 && k < 16 && g < 16
    ensures Design(params)[16 * k + g] == Monomial(k, params[g])
  {
    assert (16 * k + g) / 16 == k && (16 * k + g) % 16 == g;
  }

  /** `genParamCol`: the design matrix, laid out column by column for the
      solver.  The source's sixteen loops, one per monomial, are the outer
      loop here. */
  method GenParamCol(params: seq<PointSurf>) returns (paramCol: seq<real>)
    requires |params| == 16
    ensures paramCol == Design(params)
  {
    paramCol := [];
    for k := 0 to 16
      invariant |paramCol| == 16 * k
      invariant forall i :: 0 <= i < |paramCol| ==> paramCol[i] == Monomial(i / 16, params[i % 16])
    {
      for g := 0 to 16
        invariant |paramCol| == 16 * k + g
        invariant forall i :: 0 <= i < |paramCol| ==> paramCol[i] == Monomial(i / 16, params[i % 16])
      {
        assert (16 * k + g) / 16 == k && (16 * k + g) % 16 == g;
        paramCol := paramCol + [Monomial(k, params[g])];
      }
    }
  }

  /** The solver's sixteen outputs as four rows of four. */
  function CoeffsOf(c: Solution): Coeffs {
    Coeffs(Quad(c[0], c[1], c[2], c[3]), Quad(c[4], c[5], c[6], c[7]),
           Quad(c[8], c[9], c[10], c[11]), Quad(c[12], c[13], c[14], c[15]))
  }

  function Xs(pts: seq<Point3D>): (r: seq<real>)
    ensures |r| == |pts| && forall i :: 0 <= i < |pts| ==> r[i] == pts[i].x
  {
    seq(|pts|, i requires 0 <= i < |pts| => pts[i].x)
  }

  function Ys(pts: seq<Point3D>): (r: seq<real>)
    ensures |r| == |pts| && forall i :: 0 <= i < |pts| ==> r[i] == pts[i].y
  {
    seq(|pts|, i requires 0 <= i < |pts| => pts[i].y)
  }

  function Zs(pts: seq<Point3D>): (r: seq<real>)
    ensures |r| == |pts| && forall i :: 0 <= i < |pts| ==> r[i] == pts[i].z
  {
    seq(|pts|, i requires 0 <= i < |pts| => pts[i].z)
  }

  /** The patch fitted through 16 points: each coordinate's coefficients are
      what `solve` returns for the design and that coordinate's values. */
  function Fit(params: seq<PointSurf>, actual: seq<Point3D>, solve: (seq<real>, seq<real>) -> Solution): Bicubic
    requires |params| == 16 && |actual| == 16
  {
    var d := Design(params);
    Bicubic(CoeffsOf(solve(d, Xs(actual))), CoeffsOf(solve(d, Ys(actual))), CoeffsOf(solve(d, Zs(actual))))
  }

  /** `init(params:actual:)`: both inputs must hold exactly 16 entries, else
      the error carries the smaller count; the linear solve is a parameter. */
  method Init(params: seq<PointSurf>, actual: seq<Point3D>, solve: (seq<real>, seq<real>) -> Solution) returns (r: Result<Bicubic>)
    ensures r.Err? <==> !(|params| == 16 && |actual| == 16)
    ensures r.Err? ==> r.error == SurfaceInputError(if |params| < |actual| then |params| else |actual|)
    ensures r.Ok? ==> r.value == Fit(params, actual, solve)
  {
    if !(|params| == 16 && |actual| == 16) {
      return Err(SurfaceInputError(if |params| < |actual| then |params| else |actual|));
    }
    var xCollect, yCollect, zCollect := [], [], [];
    for g := 0 to 16
      invariant xCollect == Xs(actual[..g]) && yCollect == Ys(actual[..g]) && zCollect == Zs(actual[..g])
    {
      var pip := actual[g];
      xCollect, yCollect, zCollect := xCollect + [pip.x], yCollect + [pip.y], zCollect + [pip.z];
    }
    assert actual[..16] == actual;
    var paramM := GenParamCol(params);
    var qx := CoeffsOf(solve(paramM, xCollect));
    var qy := CoeffsOf(solve(paramM, yCollect));
    var qz := CoeffsOf(solve(paramM, zCollect));
    r := Ok(Bicubic(qx, qy, qz));
  }

  /** Row g of the design, read as the solver reads it, times `c`. */
  function DesignRow(d: seq<real>, g: nat, c: Solution): real
    requires |d| == 256 && g < 16
  {
    d[g] * c[0] + d[16 + g] * c[1] + d[32 + g] * c[2] + d[48 + g] * c[3]
    + d[64 + g] * c[4] + d[80 + g] * c[5] + d[96 + g] * c[6] + d[112 + g] * c[7]
    + d[128 + g] * c[8] + d[144 + g] * c[9] + d[160 + g] * c[10] + d[176 + g] * c[11]
    + d[192 + g] * c[12] + d[208 + g] * c[13] + d[224 + g] * c[14] + d[240 + g] * c[15]
  }

  /** `c` solves the square system with design `d` and right-hand side `rhs`. */
  predicate Solves(d: seq<real>, rhs: seq<real>, c: Solution)
    requires |d| == 256 && |rhs| == 16
  {
    forall g :: 0 <= g < 16 ==> DesignRow(d, g, c) == rhs[g]
  }

  /** Column g of the design, entry 16·k + g, is monomial k at the point
      whose powers are s and t. */
  predicate ColumnIs(d: seq<real>, g: nat, s: Quad, t: Quad)
    requires |d| == 256 && g < 16
  {
    d[g] == s.x * t.x && d[16 + g] == s.x * t.y && d[32 + g] == s.x * t.z && d[48 + g] == s.x * t.w &&
    d[64 + g] == s.y * t.x && d[80 + g] == s.y * t.y && d[96 + g] == s.y * t.z && d[112 + g] == s.y * t.w &&
    d[128 + g] == s.z * t.x && d[144 + g] == s.z * t.y && d[160 + g] == s.z * t.z && d[176 + g] == s.z * t.w &&
    d[192 + g] == s.w * t.x && d[208 + g] == s.w * t.y && d[224 + g] == s.w * t.z && d[240 + g] == s.w * t.w
  }

  lemma DesignColumn(params: seq<PointSurf>, g: nat)
    requires |params| == 16 && g < 16
    ensures ColumnIs(Design(params), g, Powers(params[g].u), Powers(params[g].v))
  {
    DesignLayout(params, 0, g);
    DesignLayout(params, 1, g);
    DesignLayout(params, 2, g);
    DesignLayout(params, 3, g);
    DesignLayout(params, 4, g);
    DesignLayout(params, 5, g);
    DesignLayout(params, 6, g);
    DesignLayout(params, 7, g);
    DesignLayout(params, 8, g);
    DesignLayout(params, 9, g);
    DesignLayout(params, 10, g);
    DesignLayout(params, 11, g);
    DesignLayout(params, 12, g);
    DesignLayout(params, 13, g);
    DesignLayout(params, 14, g);
    DesignLayout(params, 15, g);
  }

  /** The sixteen-term regrouping behind `RowSum`, on plain numbers. */
  lemma RowRegroup(d0: real, d1: real, d2: real, d3: real, d4: real, d5: real, d6: real, d7: real,
                   d8: real, d9: real, d10: real, d11: real, d12: real, d13: real, d14: real,
                   d15: real, c0: real, c1: real, c2: real, c3: real, c4: real, c5: real, c6: real,
                   c7: real, c8: real, c9: real, c10: real, c11: real, c12: real, c13: real, c14: real,
                   c15: real, s0: real, s1: real, s2: real, s3: real, t0: real, t1: real, t2: real,
                   t3: real)
    requires d0 == s0 * t0 && d1 == s0 * t1 && d2 == s0 * t2 && d3 == s0 * t3
    requires d4 == s1 * t0 && d5 == s1 * t1 && d6 == s1 * t2 && d7 == s1 * t3
    requires d8 == s2 * t0 && d9 == s2 * t1 && d10 == s2 * t2 && d11 == s2 * t3
    requires d12 == s3 * t0 && d13 == s3 * t1 && d14 == s3 * t2 && d15 == s3 * t3
    ensures d0 * c0 + d1 * c1 + d2 * c2 + d3 * c3
          + d4 * c4 + d5 * c5 + d6 * c6 + d7 * c7
          + d8 * c8 + d9 * c9 + d10 * c10 + d11 * c11
          + d12 * c12 + d13 * c13 + d14 * c14 + d15 * c15
         == s0 * (c0 * t0 + c1 * t1 + c2 * t2 + c3 * t3)
          + s1 * (c4 * t0 + c5 * t1 + c6 * t2 + c7 * t3)
          + s2 * (c8 * t0 + c9 * t1 + c10 * t2 + c11 * t3)
          + s3 * (c12 * t0 + c13 * t1 + c14 * t2 + c15 * t3)
  {
  }

  /** The solution's rows times a column, lane by lane. */
  lemma TimesColOf(c: Solution, t: Quad)
    ensures TimesCol(CoeffsOf(c), t)
         == Quad(c[0] * t.x + c[1] * t.y + c[2] * t.z + c[3] * t.w, c[4] * t.x + c[5] * t.y + c[6] * t.z + c[7] * t.w,
                 c[8] * t.x + c[9] * t.y + c[10] * t.z + c[11] * t.w, c[12] * t.x + c[13] * t.y + c[14] * t.z + c[15] * t.w)
  {
  }

  /** `Dot` against a vector given lane by lane. */
  lemma DotOf(s: Quad, q: Quad, a0: real, a1: real, a2: real, a3: real)
    requires q == Quad(a0, a1, a2, a3)
    ensures Dot(s, q) == s.x * a0 + s.y * a1 + s.z * a2 + s.w * a3
  {
  }

  /** s times the rows of a solution times t, written out. */
  lemma SolutionDot(s: Quad, c: Solution, t: Quad)
    ensures Dot(s, TimesCol(CoeffsOf(c), t))
         == s.x * (c[0] * t.x + c[1] * t.y + c[2] * t.z + c[3] * t.w) + s.y * (c[4] * t.x + c[5] * t.y + c[6] * t.z + c[7] * t.w)
          + s.z * (c[8] * t.x + c[9] * t.y + c[10] * t.z + c[11] * t.w) + s.w * (c[12] * t.x + c[13] * t.y + c[14] * t.z + c[15] * t.w)
  {
    TimesColOf(c, t);
    DotOf(s, TimesCol(CoeffsOf(c), t), c[0] * t.x + c[1] * t.y + c[2] * t.z + c[3] * t.w,
          c[4] * t.x + c[5] * t.y + c[6] * t.z + c[7] * t.w, c[8] * t.x + c[9] * t.y + c[10] * t.z + c[11] * t.w,
          c[12] * t.x + c[13] * t.y + c[14] * t.z + c[15] * t.w);
  }

  /** A design row with that column layout, times a solution, regrouped by
      the lanes of s. */
  lemma RowRegrouped(d: seq<real>, g: nat, c: Solution, s: Quad, t: Quad)
    requires |d| == 256 && g < 16 && ColumnIs(d, g, s, t)
    ensures DesignRow(d, g, c)
         == s.x * (c[0] * t.x + c[1] * t.y + c[2] * t.z + c[3] * t.w) + s.y * (c[4] * t.x + c[5] * t.y + c[6] * t.z + c[7] * t.w)
          + s.z * (c[8] * t.x + c[9] * t.y + c[10] * t.z + c[11] * t.w) + s.w * (c[12] * t.x + c[13] * t.y + c[14] * t.z + c[15] * t.w)
  {
    RowRegroup(d[g], d[16 + g], d[32 + g], d[48 + g], d[64 + g], d[80 + g], d[96 + g], d[112 + g],
               d[128 + g], d[144 + g], d[160 + g], d[176 + g], d[192 + g], d[208 + g], d[224 + g], d[240 + g],
               c[0], c[1], c[2], c[3], c[4], c[5], c[6], c[7], c[8], c[9], c[10], c[11], c[12], c[13], c[14], c[15],
               s.x, s.y, s.z, s.w, t.x, t.y, t.z, t.w);
  }

  /** A design row with that column layout, times a solution, is the row
      vector s times the coefficient rows times the column t. */
  lemma RowSum(d: seq<real>, g: nat, c: Solution, s: Quad, t: Quad)
    requires |d| == 256 && g < 16 && ColumnIs(d, g, s, t)
    ensures DesignRow(d, g, c) == Dot(s, TimesCol(CoeffsOf(c), t))
  {
    RowRegrouped(d, g, c, s, t);
    SolutionDot(s, c, t);
  }

  /** Row g of the design times a solution is the patch coordinate at the
      parameters of point g. */
  lemma AxisIsDesignRow(params: seq<PointSurf>, g: nat, c: Solution)
    requires |params| == 16 && g < 16
    ensures Axis(CoeffsOf(c), params[g].u, params[g].v) == DesignRow(Design(params), g, c)
  {
    var s, t := Powers(params[g].u), Powers(params[g].v);
    DesignColumn(params, g);
    RowSum(Design(params), g, c, s, t);
    Bilinear(s, CoeffsOf(c), t);
  }

  /** When each solve does solve its system, the fitted patch passes through
      every input point at that point's parameters. */
  lemma FitInterpolates(params: seq<PointSurf>, actual: seq<Point3D>, solve: (seq<real>, seq<real>) -> Solution, g: nat)
    requires |params| == 16 && |actual| == 16 && g < 16
    requires Solves(Design(params), Xs(actual), solve(Design(params), Xs(actual)))
    requires Solves(Design(params), Ys(actual), solve(Design(params), Ys(actual)))
    requires Solves(Design(params), Zs(actual), solve(Design(params), Zs(actual)))
    ensures Eval(Fit(params, actual, solve), params[g].u, params[g].v) == actual[g]
  {
    var d := Design(params);
    AxisIsDesignRow(params, g, solve(d, Xs(actual)));
    AxisIsDesignRow(params, g, solve(d, Ys(actual)));
    AxisIsDesignRow(params, g, solve(d, Zs(actual)));
  }
}
