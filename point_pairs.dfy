/** A pair of parameter-plane points used while refining an intersection;
    like an edge record it is compared without regard to orientation. */
module PointPairs {
  import opened Geometry
  import opened Facets

  /** The owner slots exist but nothing in the kernel ever fills them. */
  datatype PointPair = PointPair(commonA: PointSurf, commonB: PointSurf, ref1: Option<Facet>, ref2: Option<Facet>)

  function NewPointPair(ptA: PointSurf, ptB: PointSurf): (r: PointPair)
    ensures r.commonA == ptA && r.commonB == ptB
    ensures r.ref1.None? && r.ref2.None?
  {
    PointPair(ptA, ptB, None, None)
  }

  /** One coordinate on the grid of spacing `epsilon` (the parameter-plane
      tolerance of the point library). */
  function Quantise(c: real, epsilon: real): int
    requires epsilon > 0.0
  {
    RoundHalfAway(c / epsilon)
  }

  /** `hashValue`: the sum of the hashes of the four quantised coordinates,
      with `intHash` the hash of an integer.  The sum is unbounded here; the
      64-bit width and its traps are not modelled. */
  function Hash(p: PointPair, epsilon: real, intHash: int -> int): int
    requires epsilon > 0.0
  {
    intHash(Quantise(p.commonA.u, epsilon)) + intHash(Quantise(p.commonA.v, epsilon))
      + intHash(Quantise(p.commonB.u, epsilon)) + intHash(Quantise(p.commonB.v, epsilon))
  }

  /** Reversing the pair keeps its hash. */
  lemma HashSwap(p: PointPair, epsilon: real, intHash: int -> int)
    requires epsilon > 0.0
    ensures Hash(p.(commonA := p.commonB, commonB := p.commonA), epsilon, intHash) == Hash(p, epsilon, intHash)
  {
  }

  /** `==`: end points pairwise within `eps` in one of the two orientations. */
  predicate Same(lhs: PointPair, rhs: PointPair, dist: (PointSurf, PointSurf) -> real, eps: real) {
    var forward := dist(lhs.commonA, rhs.commonA) < eps && dist(lhs.commonB, rhs.commonB) < eps;
    var backward := dist(lhs.commonA, rhs.commonB) < eps && dist(lhs.commonB, rhs.commonA) < eps;
    forward || backward
  }

  /** `!=`: some end point farther than `eps` in each orientation. */
  predicate Differs(lhs: PointPair, rhs: PointPair, dist: (PointSurf, PointSurf) -> real, eps: real) {
    var forward := dist(lhs.commonA, rhs.commonA) > eps || dist(lhs.commonB, rhs.commonB) > eps;
    var backward := dist(lhs.commonA, rhs.commonB) > eps || dist(lhs.commonB, rhs.commonA) > eps;
    forward && backward
  }

  lemma NotBothSameAndDiffers(lhs: PointPair, rhs: PointPair, dist: (PointSurf, PointSurf) -> real, eps: real)
    ensures !(Same(lhs, rhs, dist, eps) && Differs(lhs, rhs, dist, eps))
  {
  }

  /** The two tests are not complements: a pair whose end points sit exactly
      `eps` apart is neither `==` nor `!=`. */
  lemma NeitherAtTolerance(lhs: PointPair, rhs: PointPair, dist: (PointSurf, PointSurf) -> real, eps: real)
    requires dist(lhs.commonA, rhs.commonA) == eps && dist(lhs.commonB, rhs.commonB) == eps
    requires dist(lhs.commonA, rhs.commonB) == eps && dist(lhs.commonB, rhs.commonA) == eps
    ensures !Same(lhs, rhs, dist, eps) && !Differs(lhs, rhs, dist, eps)
  {
  }

  lemma SameReversed(p: PointPair, dist: (PointSurf, PointSurf) -> real, eps: real)
    requires eps > 0.0
    requires dist(p.commonA, p.commonA) == 0.0 && dist(p.commonB, p.commonB) == 0.0
    ensures Same(p, p.(commonA := p.commonB, commonB := p.commonA), dist, eps)
  {
  }

  lemma SameSymmetric(lhs: PointPair, rhs: PointPair, dist: (PointSurf, PointSurf) -> real, eps: real)
    requires forall p, q :: dist(p, q) == dist(q, p)
    ensures Same(lhs, rhs, dist, eps) <==> Same(rhs, lhs, dist, eps)
  {
    assert dist(lhs.commonA, rhs.commonA) == dist(rhs.commonA, lhs.commonA);
    assert dist(lhs.commonB, rhs.commonB) == dist(rhs.commonB, lhs.commonB);
    assert dist(lhs.commonA, rhs.commonB) == dist(rhs.commonB, lhs.commonA);
    assert dist(lhs.commonB, rhs.commonA) == dist(rhs.commonA, lhs.commonB);
  }
}
