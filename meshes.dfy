/** The `Mesh` class: a list of facets and the edge records that tie them
    together, changed in place by its methods.  Each method is proved to
    leave the object in the state the matching MeshSpec function computes
    from the old state, so what MeshSpec proves about those functions holds
    for the object. */
module Meshes {
  import opened Geometry
  import opened Facets
  import opened EdgeShares
  import opened MeshSpec

  class Mesh {
    /** The facets, in the order they were added. */
    var scales: seq<Facet>
    /** The edge records, under their unordered end-point pair. */
    var edgeSet: EdgeMap

    ghost function State(): MeshState
      reads this
    {
      MeshState(scales, edgeSet)
    }

    /** Every record is well formed and every owner of a record holds that
        record's edge. */
    ghost predicate Valid()
      reads this
    {
      ValidEdges(edgeSet) && OwnersHoldEdge(edgeSet)
    }

    constructor()
      ensures Valid() && State() == EmptyMesh
    {
      scales := [];
      edgeSet := map[];
    }

    /** `recordEdge`. */
    method RecordEdge(ptAlpha: Point3D, ptOmega: Point3D, chip: Facet) returns (failure: Option<Error>)
      requires Valid()
      requires PairKey(ptAlpha, ptOmega) in EdgeKeys(chip)
      modifies this
      ensures Valid()
      ensures scales == old(scales)
      ensures EdgeStep(edgeSet, failure) == MeshSpec.RecordEdge(old(edgeSet), ptAlpha, ptOmega, chip)
    {
      RecordEdgeKeepsOwnersHoldEdge(edgeSet, ptAlpha, ptOmega, chip);
      var razor := NewEdgeShare(ptAlpha, ptOmega);
      var k := Key(razor);
      if k in edgeSet {
        var temp := edgeSet[k];
        if temp.ref2.Some? {
          return Some(EdgeOverflowError(ptAlpha, ptOmega));
        }
        edgeSet := edgeSet - {k};
        // The slot check above means this add cannot overflow.
        temp := AddMate(temp, chip).value;
        edgeSet := edgeSet[k := temp];
      } else {
        razor := AddMate(razor, chip).value;
        edgeSet := edgeSet[k := razor];
      }
      failure := None;
    }

    /** `add`: the three legs in order, then the facet.  A leg that throws
        ends the call with the earlier legs recorded. */
    method Add(shiny: Facet) returns (failure: Option<Error>)
      requires Valid()
      modifies this
      ensures Valid()
      ensures Step(State(), failure) == MeshSpec.Add(old(State()), shiny)
    {
      ghost var legs := Legs(shiny);
      assert legs[1..][1..][1..] == [];
      ghost var e0 := edgeSet;
      failure := RecordEdge(shiny.vertA, shiny.vertB, shiny);
      if failure.Some? {
        return;
      }
      assert RecordLegs(e0, legs, shiny) == RecordLegs(edgeSet, legs[1..], shiny);
      ghost var e1 := edgeSet;
      failure := RecordEdge(shiny.vertB, shiny.vertC, shiny);
      if failure.Some? {
        return;
      }
      assert RecordLegs(e1, legs[1..], shiny) == RecordLegs(edgeSet, legs[1..][1..], shiny);
      ghost var e2 := edgeSet;
      failure := RecordEdge(shiny.vertC, shiny.vertA, shiny);
      if failure.Some? {
        return;
      }
      assert RecordLegs(e2, legs[1..][1..], shiny) == RecordLegs(edgeSet, legs[1..][1..][1..], shiny);
      scales := scales + [shiny];
    }

    /** `addPoints`: the point checks, then the facet, then its three legs. */
    method AddPoints(ptA: Point3D, ptB: Point3D, ptC: Point3D) returns (failure: Option<Error>)
      requires Valid()
      modifies this
      ensures Valid()
      ensures Step(State(), failure) == MeshSpec.AddPoints(old(State()), ptA, ptB, ptC)
    {
      if !IsThreeUnique(ptA, ptB, ptC) {
        return Some(CoincidentPointsError(ptB));
      }
      if IsThreeLinear(ptA, ptB, ptC) {
        return Some(TriangleError(ptB));
      }
      // The constructor repeats the two checks just passed.
      var dorito := MakeFacet(ptA, ptB, ptC).value;
      ghost var legs := Legs(dorito);
      assert legs[1..][1..][1..] == [];
      ghost var e0 := edgeSet;
      failure := RecordEdge(ptA, ptB, dorito);
      if failure.Some? {
        return;
      }
      assert RecordLegs(e0, legs, dorito) == RecordLegs(edgeSet, legs[1..], dorito);
      ghost var e1 := edgeSet;
      failure := RecordEdge(ptB, ptC, dorito);
      if failure.Some? {
        return;
      }
      assert RecordLegs(e1, legs[1..], dorito) == RecordLegs(edgeSet, legs[1..][1..], dorito);
      ghost var e2 := edgeSet;
      failure := RecordEdge(ptC, ptA, dorito);
      if failure.Some? {
        return;
      }
      assert RecordLegs(e2, legs[1..][1..], dorito) == RecordLegs(edgeSet, legs[1..][1..][1..], dorito);
      scales := scales + [dorito];
    }

    /** `absorb`.  The other mesh's records are visited one at a time, in an
        order the source leaves to its set; `done` is the visited part when
        the call returns.  Without a conflict the result is the complete
        merge and the other mesh's facets follow this one's; at a conflict
        the call throws with the records visited before it merged and the
        facets unchanged.  The other mesh may be this mesh itself: its
        records and facets are read as they were on entry, as the source's
        value-typed collections are. */
    method Absorb(noob: Mesh) returns (failure: Option<Error>, ghost done: set<EdgeKey>, ghost culprit: EdgeKey)
      requires Valid() && noob.Valid()
      modifies this
      ensures Valid()
      ensures failure.None? <==> Mergeable(old(edgeSet), old(noob.edgeSet))
      ensures failure.None? ==> State() == MeshSpec.Absorb(old(State()), old(noob.State()))
      ensures failure.Some? ==>
        scales == old(scales)
        && done <= old(noob.edgeSet).Keys && culprit in old(noob.edgeSet) && culprit !in done
        && Conflict(old(edgeSet), old(noob.edgeSet), culprit)
        && edgeSet == MergeOver(old(edgeSet), old(noob.edgeSet), done)
        && failure == Some(ConflictError(old(edgeSet), old(noob.edgeSet), culprit))
    {
      var mine, theirs, incoming := edgeSet, noob.edgeSet, noob.scales;
      ValidEdgesFirstOwned(mine);
      var merged;
      merged, failure, done, culprit := MergeHinges(mine, theirs);
      edgeSet := merged;
      MergeOverValid(mine, theirs, done);
      MergeOverKeepsOwnersHoldEdge(mine, theirs, done);
      if failure.Some? {
        return;
      }
      scales := scales + incoming;
    }

    /** The loop of `absorb`, run on a copy of the records that `Absorb`
        writes back whether or not the loop threw: the incoming records are
        merged one at a time into the existing ones, stopping at the first
        conflict. */
    static method MergeHinges(mine: EdgeMap, theirs: EdgeMap) returns (edges: EdgeMap, failure: Option<Error>, ghost done: set<EdgeKey>, ghost culprit: EdgeKey)
      requires FirstOwned(mine)
      ensures failure.None? <==> Mergeable(mine, theirs)
      ensures failure.None? ==> done == theirs.Keys && edges == Merged(mine, theirs)
      ensures failure.Some? ==>
        done <= theirs.Keys && culprit in theirs && culprit !in done
        && Conflict(mine, theirs, culprit)
        && edges == MergeOver(mine, theirs, done)
        && failure == Some(ConflictError(mine, theirs, culprit))
    {
      var todo := theirs.Keys;
      edges, done := mine, {};
      culprit := EdgeKey(Point3D(0.0, 0.0, 0.0), Point3D(0.0, 0.0, 0.0));
      MergeOverNone(mine, theirs);
      while todo != {}
        invariant todo <= theirs.Keys && done == theirs.Keys - todo
        invariant edges == MergeOver(mine, theirs, done)
        invariant MergeableOver(mine, theirs, done)
        decreases |todo|
      {
        var k :| k in todo;
        edges, failure := MergeHinge(mine, theirs, done, k, edges);
        if failure.Some? {
          culprit := k;
          assert k in theirs && Conflict(mine, theirs, k);
          return;
        }
        MergeableOverStep(mine, theirs, done, k);
        MoveKey(theirs.Keys, todo, k);
        todo, done := todo - {k}, done + {k};
      }
      assert done == theirs.Keys;
      MergeableOverAll(mine, theirs);
      failure := None;
    }

    /** One pass of `absorb`'s loop: the incoming record under `k` is merged
        in, or the conflict there is reported and nothing changes. */
    static method MergeHinge(mine: EdgeMap, theirs: EdgeMap, ghost done: set<EdgeKey>, k: EdgeKey, edges0: EdgeMap) returns (edges: EdgeMap, failure: Option<Error>)
      requires FirstOwned(mine)
      requires done <= theirs.Keys && k in theirs && k !in done
      requires edges0 == MergeOver(mine, theirs, done)
      ensures failure.None? <==> !Conflict(mine, theirs, k)
      ensures failure.None? ==> edges == MergeOver(mine, theirs, done + {k})
      ensures failure.Some? ==> edges == edges0 && failure == Some(ConflictError(mine, theirs, k))
    {
      edges := edges0;
      var hinge := theirs[k];
      MergeOverStep(mine, theirs, done, k);
      if k in edges {
        if hinge.ref2.None? {
          var temp := edges[k];
          if temp.ref2.Some? {
            return edges, Some(EdgeOverflowError(temp.commonA, temp.commonB));
          }
          edges := edges - {k};
          // The slot check above means this add cannot overflow.
          temp := AddMate(temp, temp.ref1.value).value;
          edges := edges[k := temp];
        } else {
          return edges, Some(EdgeOverflowError(hinge.commonA, hinge.commonB));
        }
      } else {
        edges := edges[k := hinge];
      }
      failure := None;
    }

    /** `meshFromFour`: a new mesh of the two facets across the shorter
        diagonal, or the first error. */
    static method MeshFromFour(ptA: Point3D, ptB: Point3D, ptC: Point3D, ptD: Point3D) returns (r: Result<Mesh>)
      ensures r.Ok? <==> MeshSpec.MeshFromFour(ptA, ptB, ptC, ptD).Ok?
      ensures r.Err? ==> r.error == MeshSpec.MeshFromFour(ptA, ptB, ptC, ptD).error
      ensures r.Ok? ==>
        fresh(r.value) && r.value.Valid() && r.value.State() == MeshSpec.MeshFromFour(ptA, ptB, ptC, ptD).value
    {
      var resultMesh := new Mesh();
      // Comparing squared distances orders the diagonals as distances do.
      var flake1, flake2;
      if SqDist(ptA, ptC) < SqDist(ptB, ptD) {
        flake1 := MakeFacet(ptA, ptB, ptC);
        flake2 := MakeFacet(ptC, ptD, ptA);
      } else {
        flake1 := MakeFacet(ptB, ptC, ptD);
        flake2 := MakeFacet(ptD, ptA, ptB);
      }
      if flake1.Err? {
        return Err(flake1.error);
      }
      if flake2.Err? {
        return Err(flake2.error);
      }
      var failure := resultMesh.Add(flake1.value);
      if failure.Some? {
        return Err(failure.value);
      }
      failure := resultMesh.Add(flake2.value);
      if failure.Some? {
        return Err(failure.value);
      }
      r := Ok(resultMesh);
    }

    /** `skewLadderm1`: rungs between neighbouring points of the two chains,
        then a wedge if one chain is longer.  `None` stands for the trap
        that `try!` turns any error into. */
    static method SkewLadder(port: seq<Point3D>, starboard: seq<Point3D>) returns (r: Option<Mesh>)
      ensures r.Some? <==> MeshSpec.SkewLadder(port, starboard).Some?
      ensures r.Some? ==>
        fresh(r.value) && r.value.Valid() && r.value.State() == MeshSpec.SkewLadder(port, starboard).value
    {
      var strip := new Mesh();
      var portCount, starCount := |port|, |starboard|;
      var lesserCount, growing := portCount, true;
      var equalCounts := portCount == starCount;
      if !equalCounts {
        if starCount < portCount {
          lesserCount, growing := starCount, false;
        }
      }
      if lesserCount == 0 {
        return None;
      }
      var ok := strip.AddRungs(port, starboard, lesserCount);
      if !ok {
        return None;
      }
      if !equalCounts {
        ok := strip.AddWedge(port, starboard, lesserCount, growing);
        if !ok {
          return None;
        }
      }
      r := Some(strip);
    }

    /** The tail of `skewLadderm1`: the wedge facet between the last rung
        and the extra point of the longer chain. */
    method AddWedge(port: seq<Point3D>, starboard: seq<Point3D>, lesserCount: nat, growing: bool) returns (ok: bool)
      requires Valid()
      requires |port| != |starboard| && lesserCount == MinCount(port, starboard) >= 1
      requires growing <==> |port| < |starboard|
      modifies this
      ensures Valid()
      ensures ok <==> AddPointsWedge(old(State()), port, starboard).failure.None?
      ensures ok ==> State() == AddPointsWedge(old(State()), port, starboard).after
    {
      var wedgeCount := lesserCount - 1;
      var extraA, extraB := starboard[wedgeCount], port[wedgeCount];
      var third := if growing then starboard[wedgeCount + 1] else port[wedgeCount + 1];
      var failure := AddPoints(extraA, extraB, third);
      ok := failure.None?;
    }

    /** The loop of `skewLadderm1`: for g = 1 … n−1, the two-facet mesh of
        the quad between points g−1 and g of both chains is absorbed.
        `false` stands for the trap that `try!` turns an error into. */
    method AddRungs(port: seq<Point3D>, starboard: seq<Point3D>, n: nat) returns (ok: bool)
      requires Valid() && State() == EmptyMesh
      requires 1 <= n <= MinCount(port, starboard)
      modifies this
      ensures Valid()
      ensures ok <==> LadderRungs(port, starboard, n).Some?
      ensures ok ==> State() == LadderRungs(port, starboard, n).value
    {
      for g := 1 to n
        invariant Valid()
        invariant RungsFrom(port, starboard, State(), g, n) == LadderRungs(port, starboard, n)
      {
        ghost var before := State();
        var pair := MeshFromFour(port[g - 1], port[g], starboard[g], starboard[g - 1]);
        if pair.Err? {
          return false;
        }
        var failure, _, _ := Absorb(pair.value);
        if failure.Some? {
          return false;
        }
        assert Rung(before, port[g - 1], port[g], starboard[g], starboard[g - 1]) == Some(State());
      }
      ok := true;
    }

    /** `getMated`: the segments of the two-owned records, in the order the
        records are visited; `order` is that order. */
    static method GetMated(screen: Mesh) returns (happy: seq<LineSeg>, ghost order: seq<EdgeKey>)
      ensures Enumerates(order, screen.edgeSet.Keys)
      ensures forall i :: 0 <= i < |order| ==> order[i] in screen.edgeSet
      ensures happy == MatedSegs(screen.edgeSet, order)
    {
      var edges := screen.edgeSet;
      var todo := edges.Keys;
      happy, order := [], [];
      while todo != {}
        invariant todo <= edges.Keys
        invariant forall i :: 0 <= i < |order| ==> order[i] in edges && order[i] !in todo
        invariant forall i, j :: 0 <= i < j < |order| ==> order[i] != order[j]
        invariant forall k :: k in edges ==> k in todo || k in order
        invariant happy == MatedSegs(edges, order)
        decreases |todo|
      {
        var k :| k in todo;
        var razor := edges[k];
        if razor.ref2.Some? {
          happy := happy + [LineSeg(razor.commonA, razor.commonB)];
        }
        order := order + [k];
        todo := todo - {k};
      }
    }

    /** `getBach`: the segments of the one-owned records, in the order the
        records are visited; `order` is that order. */
    static method GetBach(screen: Mesh) returns (happy: seq<LineSeg>, ghost order: seq<EdgeKey>)
      ensures Enumerates(order, screen.edgeSet.Keys)
      ensures forall i :: 0 <= i < |order| ==> order[i] in screen.edgeSet
      ensures happy == BachSegs(screen.edgeSet, order)
    {
      var edges := screen.edgeSet;
      var todo := edges.Keys;
      happy, order := [], [];
      while todo != {}
        invariant todo <= edges.Keys
        invariant forall i :: 0 <= i < |order| ==> order[i] in edges && order[i] !in todo
        invariant forall i, j :: 0 <= i < j < |order| ==> order[i] != order[j]
        invariant forall k :: k in edges ==> k in todo || k in order
        invariant happy == BachSegs(edges, order)
        decreases |todo|
      {
        var k :| k in todo;
        var razor := edges[k];
        if razor.ref2.None? {
          happy := happy + [LineSeg(razor.commonA, razor.commonB)];
        }
        order := order + [k];
        todo := todo - {k};
      }
    }
  }
}
