/** The record a mesh keeps for one undirected edge: its two end points and
    the (at most two) facets that own it. */
module EdgeShares {
  import opened Geometry
  import opened Facets

  datatype EdgeShare = EdgeShare(commonA: Point3D, commonB: Point3D, ref1: Option<Facet>, ref2: Option<Facet>)

  /** Grid spacing of the mesh's point quantiser (`Mesh.Epsilon`, millimetres). */
  const MeshEpsilon: real := 0.010

  /** The unordered pair of end points that names the record. */
  function Key(e: EdgeShare): EdgeKey {
    PairKey(e.commonA, e.commonB)
  }

  /** The owners in the order they were added. */
  function Owners(e: EdgeShare): seq<Facet> {
    (if e.ref1.Some? then [e.ref1.value] else []) + (if e.ref2.Some? then [e.ref2.value] else [])
  }

  /** `addMate` is the only way to fill the owner slots and it fills `ref1`
      first, so a second owner never appears without a first. */
  predicate WellFormed(e: EdgeShare) {
    e.ref2.Some? ==> e.ref1.Some?
  }

  /** A fresh record, with no owners. */
  function NewEdgeShare(ptA: Point3D, ptB: Point3D): (r: EdgeShare)
    ensures WellFormed(r) && Owners(r) == []
    ensures Key(r) == PairKey(ptA, ptB) && r.commonA == ptA && r.commonB == ptB
  {
    EdgeShare(ptA, ptB, None, None)
  }

  /** `addMate`, as a map from the old record to the new one: it refuses a
      third owner, reporting the record's own end points, and otherwise
      appends the owner. */
  function AddMate(e: EdgeShare, wilson: Facet): (r: Result<EdgeShare>)
    ensures r.Ok? <==> e.ref2.None?
    ensures r.Err? ==> r.error == EdgeOverflowError(e.commonA, e.commonB)
    ensures WellFormed(e) ==> (r.Ok? <==> |Owners(e)| < 2)
    ensures WellFormed(e) && r.Ok? ==> WellFormed(r.value) && Owners(r.value) == Owners(e) + [wilson]
    ensures r.Ok? ==> r.value.commonA == e.commonA && r.value.commonB == e.commonB
    ensures r.Ok? ==> r.value.ref1.Some?
  {
    if e.ref2.Some? then Err(EdgeOverflowError(e.commonA, e.commonB))
    else if e.ref1.Some? then Ok(e.(ref2 := Some(wilson)))
    else Ok(e.(ref1 := Some(wilson)))
  }

  /** Two calls fill the record; the third is refused and nothing else changes. */
  lemma {:induction false} ThirdMateOverflows(ptA: Point3D, ptB: Point3D, f1: Facet, f2: Facet, f3: Facet)
    ensures AddMate(NewEdgeShare(ptA, ptB), f1).Ok?
    ensures AddMate(AddMate(NewEdgeShare(ptA, ptB), f1).value, f2).Ok?
    ensures AddMate(AddMate(AddMate(NewEdgeShare(ptA, ptB), f1).value, f2).value, f3)
         == Err(EdgeOverflowError(ptA, ptB))
    ensures Owners(AddMate(AddMate(NewEdgeShare(ptA, ptB), f1).value, f2).value) == [f1, f2]
  {
    var e0 := NewEdgeShare(ptA, ptB);
    var e1 := AddMate(e0, f1).value;
    var e2 := AddMate(e1, f2).value;
    assert Owners(e1) == [f1];
    assert Owners(e2) == [f1, f2];
  }

  /** One coordinate on the grid of spacing `MeshEpsilon`. */
  function Quantise(c: real): int {
    RoundHalfAway(c / MeshEpsilon)
  }

  /** `hashValue`: the sum of the hashes of the six quantised coordinates,
      with `intHash` the hash of an integer.  The sum is unbounded here; the
      64-bit width and its traps are not modelled. */
  function Hash(e: EdgeShare, intHash: int -> int): int {
    intHash(Quantise(e.commonA.x)) + intHash(Quantise(e.commonA.y)) + intHash(Quantise(e.commonA.z))
      + intHash(Quantise(e.commonB.x)) + intHash(Quantise(e.commonB.y)) + intHash(Quantise(e.commonB.z))
  }

  /** Reversing the record's orientation keeps its hash. */
  lemma HashSwap(e: EdgeShare, intHash: int -> int)
    ensures Hash(e.(commonA := e.commonB, commonB := e.commonA), intHash) == Hash(e, intHash)
  {
  }

  /** Records naming the same undirected edge hash alike, whatever their
      orientation and owners. */
  lemma HashOfKey(e1: EdgeShare, e2: EdgeShare, intHash: int -> int)
    requires Key(e1) == Key(e2)
    ensures Hash(e1, intHash) == Hash(e2, intHash)
  {
    PairKeyCases(e1.commonA, e1.commonB, e2.commonA, e2.commonB);
  }

  /** `==`: end points pairwise within `eps` in one of the two orientations,
      under the library's distance `dist`.  Owners are not compared. */
  predicate Same(lhs: EdgeShare, rhs: EdgeShare, dist: (Point3D, Point3D) -> real, eps: real) {
    var forward := dist(lhs.commonA, rhs.commonA) < eps && dist(lhs.commonB, rhs.commonB) < eps;
    var backward := dist(lhs.commonA, rhs.commonB) < eps && dist(lhs.commonB, rhs.commonA) < eps;
    forward || backward
  }

  /** `!=`: some end point farther than `eps` in each orientation. */
  predicate Differs(lhs: EdgeShare, rhs: EdgeShare, dist: (Point3D, Point3D) -> real, eps: real) {
    var forward := dist(lhs.commonA, rhs.commonA) > eps || dist(lhs.commonB, rhs.commonB) > eps;
    var backward := dist(lhs.commonA, rhs.commonB) > eps || dist(lhs.commonB, rhs.commonA) > eps;
    forward && backward
  }

  /** `==` and `!=` never both hold. */
  lemma NotBothSameAndDiffers(lhs: EdgeShare, rhs: EdgeShare, dist: (Point3D, Point3D) -> real, eps: real)
    ensures !(Same(lhs, rhs, dist, eps) && Differs(lhs, rhs, dist, eps))
  {
  }

  /** With a distance that is zero from a point to itself, a record equals
      its own reversal. */
  lemma SameReversed(e: EdgeShare, dist: (Point3D, Point3D) -> real, eps: real)
    requires eps > 0.0
    requires dist(e.commonA, e.commonA) == 0.0 && dist(e.commonB, e.commonB) == 0.0
    ensures Same(e, e.(commonA := e.commonB, commonB := e.commonA), dist, eps)
  {
  }

  /** With a symmetric distance, `==` is symmetric. */
  lemma SameSymmetric(lhs: EdgeShare, rhs: EdgeShare, dist: (Point3D, Point3D) -> real, eps: real)
    requires forall p, q :: dist(p, q) == dist(q, p)
    ensures Same(lhs, rhs, dist, eps) <==> Same(rhs, lhs, dist, eps)
  {
    assert dist(lhs.commonA, rhs.commonA) == dist(rhs.commonA, lhs.commonA);
    assert dist(lhs.commonB, rhs.commonB) == dist(rhs.commonB, lhs.commonB);
    assert dist(lhs.commonA, rhs.commonB) == dist(rhs.commonB, lhs.commonA);
    assert dist(lhs.commonB, rhs.commonA) == dist(rhs.commonA, lhs.commonB);
  }

  /** When points closer than `eps` are exactly the equal points, `==` is
      exactly equality of the unordered end-point pairs.  This is why the
      mesh model keys its edge records by `Key`. */
  lemma SameIsKeyEquality(lhs: EdgeShare, rhs: EdgeShare, dist: (Point3D, Point3D) -> real, eps: real)
    requires forall p, q :: dist(p, q) < eps <==> p == q
    ensures Same(lhs, rhs, dist, eps) <==> Key(lhs) == Key(rhs)
  {
    if Key(lhs) == Key(rhs) {
      PairKeyCases(lhs.commonA, lhs.commonB, rhs.commonA, rhs.commonB);
    }
    assert dist(lhs.commonA, rhs.commonA) < eps <==> lhs.commonA == rhs.commonA;
    assert dist(lhs.commonB, rhs.commonB) < eps <==> lhs.commonB == rhs.commonB;
    assert dist(lhs.commonA, rhs.commonB) < eps <==> lhs.commonA == rhs.commonB;
    assert dist(lhs.commonB, rhs.commonA) < eps <==> lhs.commonB == rhs.commonA;
  }
}
