/** Triangles whose three vertices are distinct and not on one line, as the
    facet constructor guarantees. */
module Facets {
  import opened Geometry

  /** Three vertices, in the order that fixes the normal.  The source keeps
      them private, so every facet in use came out of `MakeFacet` or an
      operation that keeps `ValidFacet`. */
  datatype Facet = Facet(vertA: Point3D, vertB: Point3D, vertC: Point3D)

  /** What the facet constructor checks: three distinct points, not collinear. */
  predicate ValidFacet(t: Facet) {
    IsThreeUnique(t.vertA, t.vertB, t.vertC) && !IsThreeLinear(t.vertA, t.vertB, t.vertC)
  }


  /** The throwing constructor: duplicate vertices are reported first, with the
      second vertex; collinear vertices next, again with the second vertex. */
  function MakeFacet(ptA: Point3D, ptB: Point3D, ptC: Point3D): (r: Result<Facet>)
    ensures r.Ok? <==> ValidFacet(Facet(ptA, ptB, ptC))
    ensures r.Ok? ==> ValidFacet(r.value)
    ensures r.Ok? ==> r.value.vertA == ptA && r.value.vertB == ptB && r.value.vertC == ptC
    ensures !IsThreeUnique(ptA, ptB, ptC) ==> r == Err(CoincidentPointsError(ptB))
    ensures IsThreeUnique(ptA, ptB, ptC) && IsThreeLinear(ptA, ptB, ptC) ==> r == Err(TriangleError(ptB))
  {
    if !IsThreeUnique(ptA, ptB, ptC) then Err(CoincidentPointsError(ptB))
    else if IsThreeLinear(ptA, ptB, ptC) then Err(TriangleError(ptB))
    else Ok(Facet(ptA, ptB, ptC))
  }

  /** Rebuilding a facet from its own vertices gives it back unchanged. */
  lemma MakeFacetOfFacet(f: Facet)
    requires ValidFacet(f)
    ensures MakeFacet(f.vertA, f.vertB, f.vertC) == Ok(f)
  {
  }

  /** Swapping the two edge directions from the first vertex negates their
      cross product, so collinearity does not depend on their order. */
  lemma CrossAntisymmetric(a: Vector3D, b: Vector3D)
    ensures Cross(b, a) == Vector3D(-Cross(a, b).i, -Cross(a, b).j, -Cross(a, b).k)
  {
  }

  lemma LinearSwap(alpha: Point3D, beta: Point3D, gamma: Point3D)
    ensures IsThreeLinear(alpha, beta, gamma) <==> IsThreeLinear(alpha, gamma, beta)
  {
    CrossAntisymmetric(Built(alpha, beta), Built(alpha, gamma));
  }

  /** In-place `reverse`: B and C trade places, A stays, and the result is
      again a valid facet (the opposite normal). */
  function Reverse(f: Facet): (r: Facet)
    ensures r.vertA == f.vertA && r.vertB == f.vertC && r.vertC == f.vertB
    ensures ValidFacet(r) <==> ValidFacet(f)
  {
    LinearSwap(f.vertA, f.vertB, f.vertC);
    Facet(f.vertA, f.vertC, f.vertB)
  }

  lemma ReverseTwice(f: Facet)
    ensures Reverse(Reverse(f)) == f
  {
  }

  /** `dupeMove`: each vertex goes through the transform, in order, and the
      constructor's checks are applied again to the moved points. */
  function DupeMove(f: Facet, xirtam: Point3D -> Point3D): (r: Result<Facet>)
    ensures r.Ok? <==> ValidFacet(Facet(xirtam(f.vertA), xirtam(f.vertB), xirtam(f.vertC)))
    ensures r.Ok? ==> r.value == Facet(xirtam(f.vertA), xirtam(f.vertB), xirtam(f.vertC))
    ensures r.Err? ==> r == MakeFacet(xirtam(f.vertA), xirtam(f.vertB), xirtam(f.vertC))
  {
    MakeFacet(xirtam(f.vertA), xirtam(f.vertB), xirtam(f.vertC))
  }

  /** Moving by the identity gives the same facet back. */
  lemma DupeMoveIdentity(f: Facet)
    requires ValidFacet(f)
    ensures DupeMove(f, p => p) == Ok(f)
  {
    MakeFacetOfFacet(f);
  }

  /** The axis-aligned bounding box of a facet. */
  function GetExtent(tricorner: Facet): (box: OrthoVol)
    ensures Ordered(box)
    ensures Contains(box, tricorner.vertA) && Contains(box, tricorner.vertB) && Contains(box, tricorner.vertC)
    ensures box.minX in {tricorner.vertA.x, tricorner.vertB.x, tricorner.vertC.x}
    ensures box.maxX in {tricorner.vertA.x, tricorner.vertB.x, tricorner.vertC.x}
    ensures box.minY in {tricorner.vertA.y, tricorner.vertB.y, tricorner.vertC.y}
    ensures box.maxY in {tricorner.vertA.y, tricorner.vertB.y, tricorner.vertC.y}
    ensures box.minZ in {tricorner.vertA.z, tricorner.vertB.z, tricorner.vertC.z}
    ensures box.maxZ in {tricorner.vertA.z, tricorner.vertB.z, tricorner.vertC.z}
  {
    var a, b, c := tricorner.vertA, tricorner.vertB, tricorner.vertC;
    OrthoVol(Min3(a.x, b.x, c.x), Max3(a.x, b.x, c.x),
             Min3(a.y, b.y, c.y), Max3(a.y, b.y, c.y),
             Min3(a.z, b.z, c.z), Max3(a.z, b.z, c.z))
  }

  /** Any box that holds the three vertices also holds the facet's extent:
      the extent is the smallest such box. */
  lemma GetExtentTightest(tricorner: Facet, other: OrthoVol)
    requires Contains(other, tricorner.vertA) && Contains(other, tricorner.vertB) && Contains(other, tricorner.vertC)
    ensures other.minX <= GetExtent(tricorner).minX && GetExtent(tricorner).maxX <= other.maxX
    ensures other.minY <= GetExtent(tricorner).minY && GetExtent(tricorner).maxY <= other.maxY
    ensures other.minZ <= GetExtent(tricorner).minZ && GetExtent(tricorner).maxZ <= other.maxZ
  {
  }

  /** Lexicographic order on points.  It only serves to give every
      unordered pair of points one way of being written down. */
  predicate PointLe(a: Point3D, b: Point3D) {
    a.x < b.x || (a.x == b.x && (a.y < b.y || (a.y == b.y && a.z <= b.z)))
  }

  /** The unordered pair of end points that names an edge, written with the
      lesser point first. */
  datatype EdgeKey = EdgeKey(lo: Point3D, hi: Point3D)

  function PairKey(a: Point3D, b: Point3D): (k: EdgeKey)
    ensures (k.lo == a && k.hi == b) || (k.lo == b && k.hi == a)
    ensures PointLe(k.lo, k.hi)
  {
    if PointLe(a, b) then EdgeKey(a, b) else EdgeKey(b, a)
  }

  /** The key does not depend on the orientation. */
  lemma PairKeySymmetric(a: Point3D, b: Point3D)
    ensures PairKey(a, b) == PairKey(b, a)
  {
  }

  /** Equal keys name the same two points, in one of the two orientations. */
  lemma PairKeyCases(a: Point3D, b: Point3D, c: Point3D, d: Point3D)
    ensures PairKey(a, b) == PairKey(c, d) <==> (a == c && b == d) || (a == d && b == c)
  {
    PairKeySymmetric(c, d);
  }

  /** `p` is one end of the edge `k`. */
  predicate Touches(k: EdgeKey, p: Point3D) {
    p == k.lo || p == k.hi
  }

  /** The three edges of a facet: A-B, B-C and C-A. */
  function EdgeKeys(f: Facet): set<EdgeKey> {
    {PairKey(f.vertA, f.vertB), PairKey(f.vertB, f.vertC), PairKey(f.vertC, f.vertA)}
  }

  /** A facet has three different edges, each joining two different points. */
  lemma EdgeKeysDistinct(f: Facet)
    requires ValidFacet(f)
    ensures PairKey(f.vertA, f.vertB) != PairKey(f.vertB, f.vertC)
    ensures PairKey(f.vertB, f.vertC) != PairKey(f.vertC, f.vertA)
    ensures PairKey(f.vertC, f.vertA) != PairKey(f.vertA, f.vertB)
    ensures |EdgeKeys(f)| == 3
    ensures forall k :: k in EdgeKeys(f) ==> k.lo != k.hi
  {
    var a, b, c := f.vertA, f.vertB, f.vertC;
    assert !Touches(PairKey(a, b), c);
    assert !Touches(PairKey(b, c), a);
    assert !Touches(PairKey(c, a), b);
  }
}
