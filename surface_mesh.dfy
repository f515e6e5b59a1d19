/** A mesh of triangles in the parameter plane of one patch: the corners are
    kept in order, three per triangle, with an index list beside them.
    `overlap` selects the triangles whose extent meets a target extent. */
module SurfaceMeshes {
  import opened Geometry
  import opened ExtentsUV
  import Bicubics

  /** Triangle k: corners 3k, 3k + 1 and 3k + 2. */
  function Tri(verts: seq<PointSurf>, k: int): (r: seq<PointSurf>)
    requires 0 <= k && 3 * k + 3 <= |verts|
    ensures |r| == 3
  {
    verts[3 * k..3 * k + 3]
  }

  /** The test `overlap` applies to a triangle: its extent overlaps the
      target. */
  function OverlapTest(target: ExtentUV, isOverlapping: (ExtentUV, ExtentUV) -> bool): seq<PointSurf> -> bool {
    tri => |tri| > 0 && isOverlapping(target, FromSpots(tri))
  }

  /** A test on triangles, as a test on triangle numbers. */
  function Hits(verts: seq<PointSurf>, test: seq<PointSurf> -> bool): int -> bool {
    k => 0 <= k && 3 * k + 3 <= |verts| && test(Tri(verts, k))
  }

  /** The triangle numbers below m that pass `meets`, in increasing order
      (see `KeptIsFilter`). */
  function Kept(meets: int -> bool, m: nat): (ks: seq<int>)
    ensures forall i :: 0 <= i < |ks| ==> 0 <= ks[i] < m
  {
    if m == 0 then []
    else if meets(m - 1) then Kept(meets, m - 1) + [m - 1]
    else Kept(meets, m - 1)
  }

  /** Exactly the numbers below m that pass the test, strictly increasing. */
  lemma {:induction false} KeptIsFilter(meets: int -> bool, m: nat)
    ensures forall k :: k in Kept(meets, m) <==> 0 <= k < m && meets(k)
    ensures forall i, j :: 0 <= i < j < |Kept(meets, m)| ==> Kept(meets, m)[i] < Kept(meets, m)[j]
  {
    if m > 0 {
      KeptIsFilter(meets, m - 1);
    }
  }

  /** The corners of the listed triangles, three per triangle, in list
      order. */
  function Gather(verts: seq<PointSurf>, ks: seq<int>): seq<PointSurf>
    requires forall i :: 0 <= i < |ks| ==> 0 <= ks[i] && 3 * ks[i] + 3 <= |verts|
  {
    if ks == [] then [] else Gather(verts, ks[..|ks| - 1]) + Tri(verts, ks[|ks| - 1])
  }

  /** Gathered points are the listed triangles, whole and in order. */
  lemma {:induction false} GatherTriangles(verts: seq<PointSurf>, ks: seq<int>)
    requires forall i :: 0 <= i < |ks| ==> 0 <= ks[i] && 3 * ks[i] + 3 <= |verts|
    ensures |Gather(verts, ks)| == 3 * |ks|
    ensures forall j :: 0 <= j < |ks| ==> Gather(verts, ks)[3 * j..3 * j + 3] == Tri(verts, ks[j])
  {
    if ks != [] {
      var front := ks[..|ks| - 1];
      GatherTriangles(verts, front);
      var g := Gather(verts, ks);
      assert g == Gather(verts, front) + Tri(verts, ks[|ks| - 1]);
      forall j | 0 <= j < |ks| ensures g[3 * j..3 * j + 3] == Tri(verts, ks[j]) {
        if j < |front| {
          assert g[3 * j..3 * j + 3] == Gather(verts, front)[3 * j..3 * j + 3];
          assert front[j] == ks[j];
        }
      }
    }
  }

  /** Positions in `verts` of the corners of the listed triangles: what the
      index list beside the points evidently should hold. */
  function Positions(ks: seq<int>): (r: seq<int>)
    ensures |r| == 3 * |ks|
  {
    if ks == [] then []
    else
      var g := 3 * ks[|ks| - 1] + 2;
      Positions(ks[..|ks| - 1]) + [g - 2, g - 1, g]
  }

  /** Each corrected index names, in `verts`, the point gathered beside it. */
  lemma {:induction false} PositionsLocate(verts: seq<PointSurf>, ks: seq<int>)
    requires forall i :: 0 <= i < |ks| ==> 0 <= ks[i] && 3 * ks[i] + 3 <= |verts|
    ensures |Positions(ks)| == |Gather(verts, ks)|
    ensures forall i :: 0 <= i < |Positions(ks)| ==>
      0 <= Positions(ks)[i] < |verts| && verts[Positions(ks)[i]] == Gather(verts, ks)[i]
  {
    GatherTriangles(verts, ks);
    if ks != [] {
      var front := ks[..|ks| - 1];
      PositionsLocate(verts, front);
      var n := 3 * |front|;
      var k := ks[|ks| - 1];
      assert Positions(ks) == Positions(front) + [3 * k, 3 * k + 1, 3 * k + 2];
      assert Gather(verts, ks) == Gather(verts, front) + Tri(verts, k);
      forall i | 0 <= i < |Positions(ks)|
        ensures 0 <= Positions(ks)[i] < |verts| && verts[Positions(ks)[i]] == Gather(verts, ks)[i]
      {
        if i >= n {
          assert Positions(ks)[i] == 3 * k + (i - n);
          assert Gather(verts, ks)[i] == Tri(verts, k)[i - n];
        } else {
          assert Positions(ks)[i] == Positions(front)[i];
          assert Gather(verts, ks)[i] == Gather(verts, front)[i];
        }
      }
    }
  }

  /** Two triangles, both passing the test, and the index list `overlap`
      returns as written, whose every entry is the last corner's position:
      the first returned point is not the one its index names, while the
      corrected positions are 0 … 5. */
  lemma OverlapIndicesAsWritten(verts: seq<PointSurf>, test: seq<PointSurf> -> bool, ind: seq<int>)
    requires |verts| == 6 && verts[0] != verts[5]
    requires test(verts[0..3]) && test(verts[3..6])
    requires |ind| == 6 && AllEqual(ind, |verts| - 1)
    ensures Gather(verts, Kept(Hits(verts, test), TriangleCount(verts))) == verts
    ensures verts[ind[0]] != Gather(verts, Kept(Hits(verts, test), TriangleCount(verts)))[0]
    ensures Positions(Kept(Hits(verts, test), TriangleCount(verts))) == [0, 1, 2, 3, 4, 5]
  {
    assert TriangleCount(verts) == 2;
    assert Tri(verts, 0) == verts[0..3] && Tri(verts, 1) == verts[3..6];
    KeptBoth(Hits(verts, test));
    GatherPair(verts);
    assert Positions([0, 1]) == [0, 1, 2, 3, 4, 5] by {
      assert [0, 1][..1] == [0];
      assert Positions([0]) == [0, 1, 2];
    }
  }

  lemma KeptBoth(meets: int -> bool)
    requires meets(0) && meets(1)
    ensures Kept(meets, 2) == [0, 1]
  {
    assert Kept(meets, 1) == [0];
  }

  lemma GatherPair(verts: seq<PointSurf>)
    requires |verts| == 6
    ensures Gather(verts, [0, 1]) == verts
  {
    assert [0, 1][..1] == [0];
    assert Gather(verts, [0]) == verts[0..3];
    assert verts == verts[0..3] + verts[3..6];
  }

  lemma KeptStep(meets: int -> bool, m: nat)
    ensures Kept(meets, m + 1) == if meets(m) then Kept(meets, m) + [m] else Kept(meets, m)
  {
  }

  lemma GatherStep(verts: seq<PointSurf>, ks: seq<int>, k: int)
    requires forall i :: 0 <= i < |ks| ==> 0 <= ks[i] && 3 * ks[i] + 3 <= |verts|
    requires 0 <= k && 3 * k + 3 <= |verts|
    ensures Gather(verts, ks + [k]) == Gather(verts, ks) + Tri(verts, k)
  {
    assert (ks + [k])[..|ks|] == ks;
  }

  /** One pass of the loop of `overlap`: triangle `done` is appended exactly
      when it passes the test. */
  lemma OverlapStep(verts: seq<PointSurf>, meets: int -> bool, done: nat, hit: bool)
    requires 3 * done + 3 <= |verts|
    requires hit == meets(done)
    ensures Gather(verts, Kept(meets, done + 1))
      == Gather(verts, Kept(meets, done)) + (if hit then Tri(verts, done) else [])
  {
    KeptStep(meets, done);
    KeptIsFilter(meets, done);
    if hit {
      GatherStep(verts, Kept(meets, done), done);
    }
  }

  /** Triangle k read through its last corner g = 3k + 2, as `overlap`
      reads it. */
  lemma TriThrough(verts: seq<PointSurf>, k: int, g: int)
    requires 0 <= k && g == 3 * k + 2 && g < |verts|
    ensures Tri(verts, k) == [verts[g - 2], verts[g - 1], verts[g]]
  {
  }

  /** The number of whole triangles, which the stride over the last corners
      visits. */
  function TriangleCount(verts: seq<PointSurf>): (n: nat)
    ensures 3 * n <= |verts| < 3 * n + 3
  {
    WholeThrees(|verts|)
  }

  /** How many whole threes fit in `size`. */
  function WholeThrees(size: nat): (n: nat)
    ensures 3 * n <= size < 3 * n + 3
  {
    if size < 3 then 0 else 1 + WholeThrees(size - 3)
  }

  /** The corners of the triangles below m that pass `test`, in mesh order:
      what the loop of `overlap` has gathered after m triangles. */
  function Sifted(verts: seq<PointSurf>, test: seq<PointSurf> -> bool, m: nat): seq<PointSurf>
    requires 3 * m <= |verts|
  {
    if m == 0 then []
    else if test(Tri(verts, m - 1)) then Sifted(verts, test, m - 1) + Tri(verts, m - 1)
    else Sifted(verts, test, m - 1)
  }

  /** What the loop gathers is the list of the passing triangles' corners. */
  lemma {:induction false} SiftedIsGather(verts: seq<PointSurf>, test: seq<PointSurf> -> bool, m: nat)
    requires 3 * m <= |verts|
    ensures Sifted(verts, test, m) == Gather(verts, Kept(Hits(verts, test), m))
  {
    if m > 0 {
      SiftedIsGather(verts, test, m - 1);
      OverlapStep(verts, Hits(verts, test), m - 1, test(Tri(verts, m - 1)));
    }
  }

  /** Every entry of `s` is `x`. */
  predicate AllEqual(s: seq<int>, x: int) {
    forall i :: 0 <= i < |s| ==> s[i] == x
  }

  lemma AllEqualGrow(s: seq<int>, x: int)
    requires AllEqual(s, x)
    ensures AllEqual(s + [x, x, x], x)
  {
  }

  /** The loop of `overlap`: visit the triangles through their last
      corners and keep, with its corners, each one that passes `test`. */
  method Sift(verts: seq<PointSurf>, test: seq<PointSurf> -> bool) returns (pts: seq<PointSurf>, ind: seq<int>)
    ensures pts == Sifted(verts, test, TriangleCount(verts))
    ensures |ind| == |pts| && AllEqual(ind, |verts| - 1)
  {
    pts, ind := [], [];
    var g := 2;
    ghost var done := 0;
    while g < |verts|
      invariant g == 3 * done + 2 && done <= TriangleCount(verts)
      invariant pts == Sifted(verts, test, done)
      invariant |ind| == |pts| && AllEqual(ind, |verts| - 1)
      decreases |verts| - g
    {
      var triPts := [verts[g - 2], verts[g - 1], verts[g]];
      TriThrough(verts, done, g);
      if test(triPts) {
        AllEqualGrow(ind, |verts| - 1);
        pts := pts + triPts;
        ind := ind + [|verts| - 1, |verts| - 1, |verts| - 1];
      }
      g := g + 3;
      done := done + 1;
    }
  }

  class SurfaceMesh {
    /** The corners, three per triangle. */
    var verts: seq<PointSurf>

    /** Indices into `verts`, used in groups of three. */
    var xedni: seq<int>

    /** The surface the mesh covers. */
    var parent: Bicubics.Bicubic

    /** Whole triangles only, and each index names its own corner. */
    ghost predicate Valid()
      reads this
    {
      |verts| % 3 == 0
      && |xedni| == |verts|
      && forall i :: 0 <= i < |xedni| ==> xedni[i] == i
    }

    constructor (surf: Bicubics.Bicubic)
      ensures verts == [] && xedni == [] && parent == surf
      ensures Valid()
    {
      verts := [];
      xedni := [];
      parent := surf;
    }

    /** `add`: append a triangle's corners and their indices. */
    method Add(alpha: PointSurf, beta: PointSurf, gamma: PointSurf)
      modifies this
      ensures verts == old(verts) + [alpha, beta, gamma]
      ensures xedni == old(xedni) + [|old(verts)|, |old(verts)| + 1, |old(verts)| + 2]
      ensures parent == old(parent)
      ensures old(Valid()) ==> Valid()
      ensures old(Valid()) ==> Tri(verts, |verts| / 3 - 1) == [alpha, beta, gamma]
    {
      verts := verts + [alpha];
      xedni := xedni + [|verts| - 1];

      verts := verts + [beta];
      xedni := xedni + [|verts| - 1];

      verts := verts + [gamma];
      xedni := xedni + [|verts| - 1];
    }

    /** `overlap`: the corners of every whole triangle whose extent overlaps
        the target, in mesh order, with the index list as written (see
        `OverlapIndicesAsWritten`). `isOverlapping` is the extent test. */
    method Overlap(target: ExtentUV, isOverlapping: (ExtentUV, ExtentUV) -> bool) returns (pts: seq<PointSurf>, ind: seq<int>)
      ensures pts == Gather(verts, Kept(Hits(verts, OverlapTest(target, isOverlapping)), TriangleCount(verts)))
      ensures |ind| == |pts| && AllEqual(ind, |verts| - 1)
    {
      pts, ind := Sift(verts, OverlapTest(target, isOverlapping));
      SiftedIsGather(verts, OverlapTest(target, isOverlapping), TriangleCount(verts));
    }
  }
}
