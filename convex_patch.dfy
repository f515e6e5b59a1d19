/** The patch the unit tests build, and the corner points and edge partials
    they expect of it. */
module ConvexPatch {
  import opened Geometry
  import opened Cubics
  import opened Bicubics

  /** A surface with a fixed corner layout and non-zero partials along both
      edges at the origin, one coordinate at a time. */
  function Convex(): Bicubic {
    Bicubic(ConvexX(), ConvexY(), ConvexZ())
  }

  function ConvexX(): Coeffs {
    Coeffs(Quad(0.0, 0.0, 0.0, 0.0), Quad(0.0, 0.0, 0.0, 0.0),
           Quad(0.0, 0.0, 0.0, 4.0), Quad(0.0, 0.0, 0.0, -1.5))
  }

  function ConvexY(): Coeffs {
    Coeffs(Quad(0.0, 0.0, 0.0, 0.0), Quad(0.0, 0.0, 0.0, 0.0),
           Quad(0.0, 0.0, 0.0, 0.0), Quad(0.0, 0.0, 3.5, -1.75))
  }

  function ConvexZ(): Coeffs {
    Coeffs(Quad(0.0, 0.0, 0.0, 0.0), Quad(0.0, 0.0, 0.0, 2.5),
           Quad(0.0, 0.0, 0.0, -0.8), Quad(0.0, 2.2, -1.0, 0.95))
  }

  /** One coordinate at the corners, read off the coefficients. */
  lemma AxisAtCorners(c: Coeffs)
    ensures Axis(c, 0.0, 0.0) == c.r3.w
    ensures Axis(c, 0.0, 1.0) == c.r3.x + c.r3.y + c.r3.z + c.r3.w
    ensures Axis(c, 1.0, 0.0) == c.r0.w + c.r1.w + c.r2.w + c.r3.w
    ensures Axis(c, 1.0, 1.0) == (c.r0.x + c.r0.y + c.r0.z + c.r0.w) + (c.r1.x + c.r1.y + c.r1.z + c.r1.w)
                                + (c.r2.x + c.r2.y + c.r2.z + c.r2.w) + (c.r3.x + c.r3.y + c.r3.z + c.r3.w)
  {
  }

  /** One coordinate of the partials at the ends of the edge v = 0, with the
      parameters passed in rather than written as literals. */
  lemma PartialsAtEdge(c: Coeffs, one: real, zero: real)
    requires one == 1.0 && zero == 0.0
    ensures PartUAxis(c, zero, zero) == c.r2.w
    ensures PartUAxis(c, one, zero) == c.r0.w + c.r0.w + c.r0.w + c.r1.w + c.r1.w + c.r2.w
    ensures PartVAxis(c, zero, zero) == c.r3.z
  {
  }

  // Each expected value is its own lemma: one literal goal per proof keeps
  // the unfolding of the patch polynomial small.

  /** The test patch at the corner (0, 0). */
  lemma ConvexCornerOrigin()
    ensures PointAt(Convex(), 0.0, 0.0) == Ok(Point3D(-1.5, -1.75, 0.95))
  {
    AxisAtCorners(ConvexX());
    AxisAtCorners(ConvexY());
    AxisAtCorners(ConvexZ());
  }

  /** The test patch at the corner (0, 1). */
  lemma ConvexCornerV()
    ensures PointAt(Convex(), 0.0, 1.0) == Ok(Point3D(-1.5, 1.75, 2.15))
  {
    AxisAtCorners(ConvexX());
    AxisAtCorners(ConvexY());
    AxisAtCorners(ConvexZ());
  }

  /** The test patch at the corner (1, 0). */
  lemma ConvexCornerU()
    ensures PointAt(Convex(), 1.0, 0.0) == Ok(Point3D(2.5, -1.75, 2.65))
  {
    AxisAtCorners(ConvexX());
    AxisAtCorners(ConvexY());
    AxisAtCorners(ConvexZ());
  }

  /** The test patch at the corner (1, 1). */
  lemma ConvexCornerFar()
    ensures PointAt(Convex(), 1.0, 1.0) == Ok(Point3D(2.5, 1.75, 3.85))
  {
    AxisAtCorners(ConvexX());
    AxisAtCorners(ConvexY());
    AxisAtCorners(ConvexZ());
  }

  /** The u-partial of the test patch at the origin. */
  lemma ConvexPartUOrigin()
    ensures PartU(Convex(), 0.0, 0.0) == Vector3D(4.0, 0.0, -0.8)
  {
    PartialsAtEdge(ConvexX(), 1.0, 0.0);
    PartialsAtEdge(ConvexY(), 1.0, 0.0);
    PartialsAtEdge(ConvexZ(), 1.0, 0.0);
  }

  /** The u-partial of the test patch at the corner (1, 0). */
  lemma ConvexPartUEnd()
    ensures PartU(Convex(), 1.0, 0.0) == Vector3D(4.0, 0.0, 4.2)
  {
    PartialsAtEdge(ConvexX(), 1.0, 0.0);
    PartialsAtEdge(ConvexY(), 1.0, 0.0);
    PartialsAtEdge(ConvexZ(), 1.0, 0.0);
  }

  /** The v-partial of the test patch at the origin. */
  lemma ConvexPartVOrigin()
    ensures PartV(Convex(), 0.0, 0.0) == Vector3D(0.0, 3.5, -1.0)
  {
    PartialsAtEdge(ConvexX(), 1.0, 0.0);
    PartialsAtEdge(ConvexY(), 1.0, 0.0);
    PartialsAtEdge(ConvexZ(), 1.0, 0.0);
  }
}
