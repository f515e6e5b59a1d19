/** The value-level meaning of a mesh: the facet list and the edge records,
    and what each mesh operation does to them.  The `Mesh` class in module
    Meshes is proved to follow these functions step by step.

    Edge records are kept in a map from the unordered end-point pair to the
    record.  With exact point equality this is what the source's set of
    records, compared orientation-free (EdgeShares.SameIsKeyEquality),
    amounts to. */
module MeshSpec {
  import opened Geometry
  import opened Facets
  import opened EdgeShares

  type EdgeMap = map<EdgeKey, EdgeShare>

  datatype MeshState = MeshState(scales: seq<Facet>, edgeSet: EdgeMap)

  const EmptyMesh := MeshState([], map[])

  /** The edge map after one edge operation, and the error it threw, if any. */
  datatype EdgeStep = EdgeStep(edges: EdgeMap, failure: Option<Error>)

  /** The mesh after one mesh operation, and the error it threw, if any.  An
      operation that throws part way keeps what it did before the throw. */
  datatype Step = Step(after: MeshState, failure: Option<Error>)

  /** Every record sits under its own key, has a first owner, and never has a
      second owner without a first. */
  predicate ValidEdges(edges: EdgeMap) {
    forall k :: k in edges ==> Key(edges[k]) == k && WellFormed(edges[k]) && edges[k].ref1.Some?
  }

  /** Moving one key from the pending part to the done part. */
  lemma MoveKey(all: set<EdgeKey>, todo: set<EdgeKey>, k: EdgeKey)
    requires k in todo && todo <= all
    ensures all - (todo - {k}) == (all - todo) + {k}
  {
  }

  /** Every record has a first owner. */
  predicate FirstOwned(edges: EdgeMap) {
    forall k :: k in edges ==> edges[k].ref1.Some?
  }

  lemma ValidEdgesFirstOwned(edges: EdgeMap)
    requires ValidEdges(edges)
    ensures FirstOwned(edges)
  {
  }

  /** Every owner of a record has that record's edge among its three edges. */
  predicate OwnersHoldEdge(edges: EdgeMap) {
    forall k :: k in edges ==> forall f :: f in Owners(edges[k]) ==> k in EdgeKeys(f)
  }

  /** The owners recorded for `k`, none if the edge is unknown. */
  function OwnersAt(edges: EdgeMap, k: EdgeKey): seq<Facet> {
    if k in edges then Owners(edges[k]) else []
  }

  /** `recordEdge`.  A new edge gets `chip` as its one owner; a known edge
      with one owner gets `chip` as its second; a known edge with two owners
      makes it throw, naming the end points it was given, and nothing
      changes.  The source removes the record before adding the mate and
      reinserts it afterwards; the add cannot fail there, so the record is
      back in place on every path. */
  function RecordEdge(edges: EdgeMap, ptAlpha: Point3D, ptOmega: Point3D, chip: Facet): (r: EdgeStep)
    requires ValidEdges(edges)
    ensures ValidEdges(r.edges)
    ensures PairKey(ptAlpha, ptOmega) in r.edges
    ensures r.failure.None? <==> |OwnersAt(edges, PairKey(ptAlpha, ptOmega))| < 2
    ensures r.failure.None? ==>
      OwnersAt(r.edges, PairKey(ptAlpha, ptOmega)) == OwnersAt(edges, PairKey(ptAlpha, ptOmega)) + [chip]
    ensures r.failure.Some? ==> r == EdgeStep(edges, Some(EdgeOverflowError(ptAlpha, ptOmega)))
    ensures PairKey(ptAlpha, ptOmega) !in edges ==>
      r.edges[PairKey(ptAlpha, ptOmega)].commonA == ptAlpha && r.edges[PairKey(ptAlpha, ptOmega)].commonB == ptOmega
  {
    var k := PairKey(ptAlpha, ptOmega);
    if k in edges then
      var temp := edges[k];
      if temp.ref2.Some? then EdgeStep(edges, Some(EdgeOverflowError(ptAlpha, ptOmega)))
      else EdgeStep(edges[k := AddMate(temp, chip).value], None)
    else
      EdgeStep(edges[k := AddMate(NewEdgeShare(ptAlpha, ptOmega), chip).value], None)
  }

  /** `recordEdge` touches no other edge. */
  lemma RecordEdgeFrame(edges: EdgeMap, ptAlpha: Point3D, ptOmega: Point3D, chip: Facet, k: EdgeKey)
    requires ValidEdges(edges)
    requires k != PairKey(ptAlpha, ptOmega)
    ensures k in RecordEdge(edges, ptAlpha, ptOmega, chip).edges <==> k in edges
    ensures k in edges ==> RecordEdge(edges, ptAlpha, ptOmega, chip).edges[k] == edges[k]
  {
  }

  /** The legs `add` records, in order: A-B, B-C, C-A. */
  function Legs(f: Facet): seq<(Point3D, Point3D)> {
    [(f.vertA, f.vertB), (f.vertB, f.vertC), (f.vertC, f.vertA)]
  }

  function LegKey(leg: (Point3D, Point3D)): EdgeKey {
    PairKey(leg.0, leg.1)
  }

  /** How many of `legs` name the edge `k`. */
  function Count(legs: seq<(Point3D, Point3D)>, k: EdgeKey): nat {
    if |legs| == 0 then 0 else (if LegKey(legs[0]) == k then 1 else 0) + Count(legs[1..], k)
  }

  function Repeat(f: Facet, n: nat): (r: seq<Facet>)
    ensures |r| == n && forall i :: 0 <= i < n ==> r[i] == f
  {
    if n == 0 then [] else [f] + Repeat(f, n - 1)
  }

  /** Legs recorded one after the other, stopping at the first that throws. */
  function RecordLegs(edges: EdgeMap, legs: seq<(Point3D, Point3D)>, chip: Facet): (r: EdgeStep)
    requires ValidEdges(edges)
    ensures ValidEdges(r.edges)
    decreases |legs|
  {
    if |legs| == 0 then EdgeStep(edges, None)
    else
      var s := RecordEdge(edges, legs[0].0, legs[0].1, chip);
      if s.failure.Some? then s else RecordLegs(s.edges, legs[1..], chip)
  }

  /** Edges no leg names are untouched by a run of legs. */
  lemma {:induction false} RecordLegsUntouched(edges: EdgeMap, legs: seq<(Point3D, Point3D)>, chip: Facet, k: EdgeKey)
    requires ValidEdges(edges)
    requires Count(legs, k) == 0
    ensures k in RecordLegs(edges, legs, chip).edges <==> k in edges
    ensures k in edges ==> RecordLegs(edges, legs, chip).edges[k] == edges[k]
    decreases |legs|
  {
    if |legs| > 0 {
      var s := RecordEdge(edges, legs[0].0, legs[0].1, chip);
      if s.failure.None? {
        RecordLegsUntouched(s.edges, legs[1..], chip, k);
      }
    }
  }

  /** A run that does not throw adds `chip` to an edge's owners once per
      leg naming that edge. */
  lemma {:induction false} RecordLegsOwners(edges: EdgeMap, legs: seq<(Point3D, Point3D)>, chip: Facet, k: EdgeKey)
    requires ValidEdges(edges)
    requires RecordLegs(edges, legs, chip).failure.None?
    ensures OwnersAt(RecordLegs(edges, legs, chip).edges, k) == OwnersAt(edges, k) + Repeat(chip, Count(legs, k))
    decreases |legs|
  {
    if |legs| > 0 {
      var s := RecordEdge(edges, legs[0].0, legs[0].1, chip);
      var rest := RecordLegs(s.edges, legs[1..], chip);
      assert s.failure.None? && RecordLegs(edges, legs, chip) == rest;
      RecordLegsOwners(s.edges, legs[1..], chip, k);
      RecordEdgeOwnersAt(edges, legs[0], chip, k);
      RepeatCount(chip, legs, k);
      AppendAssoc(OwnersAt(edges, k), if LegKey(legs[0]) == k then [chip] else [], Repeat(chip, Count(legs[1..], k)));
    }
  }

  lemma AppendAssoc<T>(a: seq<T>, b: seq<T>, c: seq<T>)
    ensures (a + b) + c == a + (b + c)
  {
  }

  /** One recorded leg adds `chip` to the owners of its own edge only. */
  lemma RecordEdgeOwnersAt(edges: EdgeMap, leg: (Point3D, Point3D), chip: Facet, k: EdgeKey)
    requires ValidEdges(edges)
    requires RecordEdge(edges, leg.0, leg.1, chip).failure.None?
    ensures OwnersAt(RecordEdge(edges, leg.0, leg.1, chip).edges, k)
         == OwnersAt(edges, k) + (if LegKey(leg) == k then [chip] else [])
  {
  }

  lemma RepeatCount(chip: Facet, legs: seq<(Point3D, Point3D)>, k: EdgeKey)
    requires |legs| > 0
    ensures Repeat(chip, Count(legs, k))
         == (if LegKey(legs[0]) == k then [chip] else []) + Repeat(chip, Count(legs[1..], k))
  {
    if LegKey(legs[0]) == k {
      assert Repeat(chip, Count(legs, k)) == [chip] + Repeat(chip, Count(legs[1..], k));
    }
  }

  /** A run does not throw when no edge would get more than two owners. */
  lemma {:induction false} RecordLegsNoOverflow(edges: EdgeMap, legs: seq<(Point3D, Point3D)>, chip: Facet)
    requires ValidEdges(edges)
    requires forall k :: |OwnersAt(edges, k)| + Count(legs, k) <= 2
    ensures RecordLegs(edges, legs, chip).failure.None?
    decreases |legs|
  {
    if |legs| > 0 {
      var k0 := LegKey(legs[0]);
      assert |OwnersAt(edges, k0)| + Count(legs, k0) <= 2;
      var s := RecordEdge(edges, legs[0].0, legs[0].1, chip);
      forall k ensures |OwnersAt(s.edges, k)| + Count(legs[1..], k) <= 2 {
        assert |OwnersAt(edges, k)| + Count(legs, k) <= 2;
        if k != k0 {
          assert OwnersAt(s.edges, k) == OwnersAt(edges, k);
        }
      }
      RecordLegsNoOverflow(s.edges, legs[1..], chip);
    }
  }

  /** The run throws at leg j: the legs before it go through, and the edge of
      leg j already has two owners; the error names that leg's end points
      and the edges are those after the legs before it. */
  predicate FailsAt(edges: EdgeMap, legs: seq<(Point3D, Point3D)>, chip: Facet, j: nat)
    requires ValidEdges(edges)
  {
    j < |legs|
    && RecordLegs(edges, legs[..j], chip).failure.None?
    && RecordLegs(edges, legs, chip).edges == RecordLegs(edges, legs[..j], chip).edges
    && |OwnersAt(RecordLegs(edges, legs[..j], chip).edges, LegKey(legs[j]))| == 2
    && RecordLegs(edges, legs, chip).failure == Some(EdgeOverflowError(legs[j].0, legs[j].1))
  }

  /** A run that throws stops at the first leg whose edge already has two
      owners, and the legs before it stay recorded. */
  lemma {:induction false} RecordLegsFailure(edges: EdgeMap, legs: seq<(Point3D, Point3D)>, chip: Facet)
    requires ValidEdges(edges)
    requires RecordLegs(edges, legs, chip).failure.Some?
    ensures exists j :: FailsAt(edges, legs, chip, j)
    decreases |legs|
  {
    var s := RecordEdge(edges, legs[0].0, legs[0].1, chip);
    if s.failure.Some? {
      FailsAtFirst(edges, legs, chip);
    } else {
      RecordLegsFailure(s.edges, legs[1..], chip);
      var j :| FailsAt(s.edges, legs[1..], chip, j);
      FailsAtLater(edges, legs, chip, j);
    }
  }

  lemma FailsAtFirst(edges: EdgeMap, legs: seq<(Point3D, Point3D)>, chip: Facet)
    requires ValidEdges(edges) && |legs| > 0
    requires RecordEdge(edges, legs[0].0, legs[0].1, chip).failure.Some?
    ensures FailsAt(edges, legs, chip, 0)
  {
    assert legs[..0] == [];
  }

  lemma FailsAtLater(edges: EdgeMap, legs: seq<(Point3D, Point3D)>, chip: Facet, j: nat)
    requires ValidEdges(edges) && |legs| > 0
    requires RecordEdge(edges, legs[0].0, legs[0].1, chip).failure.None?
    requires FailsAt(RecordEdge(edges, legs[0].0, legs[0].1, chip).edges, legs[1..], chip, j)
    ensures FailsAt(edges, legs, chip, j + 1)
  {
    var s := RecordEdge(edges, legs[0].0, legs[0].1, chip);
    var rest := legs[1..];
    assert legs[..j + 1][0] == legs[0] && legs[..j + 1][1..] == rest[..j];
    assert RecordLegs(edges, legs[..j + 1], chip) == RecordLegs(s.edges, rest[..j], chip);
    assert legs[j + 1] == rest[j];
  }

  /** `add`: legs A-B, B-C, C-A are recorded in that order and the facet is
      then appended.  A leg that throws stops the rest; legs recorded before
      it stay recorded and the facet is not appended. */
  function Add(st: MeshState, shiny: Facet): (r: Step)
    requires ValidEdges(st.edgeSet)
    ensures ValidEdges(r.after.edgeSet)
    ensures r.failure.None? ==> r.after.scales == st.scales + [shiny]
    ensures r.failure.Some? ==> r.after.scales == st.scales
  {
    var s := RecordLegs(st.edgeSet, Legs(shiny), shiny);
    if s.failure.Some? then Step(MeshState(st.scales, s.edges), s.failure)
    else Step(MeshState(st.scales + [shiny], s.edges), None)
  }

  /** `addPoints`: the point checks come first and throw before anything is
      recorded; then the facet is built and added like `add` does it. */
  function AddPoints(st: MeshState, ptA: Point3D, ptB: Point3D, ptC: Point3D): (r: Step)
    requires ValidEdges(st.edgeSet)
    ensures ValidEdges(r.after.edgeSet)
  {
    if !IsThreeUnique(ptA, ptB, ptC) then Step(st, Some(CoincidentPointsError(ptB)))
    else if IsThreeLinear(ptA, ptB, ptC) then Step(st, Some(TriangleError(ptB)))
    else Add(st, Facet(ptA, ptB, ptC))
  }

  /** `addPoints` is `add` of the facet the constructor builds, and points
      the constructor refuses leave the mesh untouched, with its error. */
  lemma AddPointsIsAddOfFacet(st: MeshState, ptA: Point3D, ptB: Point3D, ptC: Point3D)
    requires ValidEdges(st.edgeSet)
    ensures MakeFacet(ptA, ptB, ptC).Ok? ==> AddPoints(st, ptA, ptB, ptC) == Add(st, MakeFacet(ptA, ptB, ptC).value)
    ensures MakeFacet(ptA, ptB, ptC).Err? ==> AddPoints(st, ptA, ptB, ptC) == Step(st, Some(MakeFacet(ptA, ptB, ptC).error))
  {
  }

  /** For a valid facet each of its three edges is named by exactly one leg. */
  lemma LegCounts(f: Facet, k: EdgeKey)
    requires ValidFacet(f)
    ensures Count(Legs(f), k) == if k in EdgeKeys(f) then 1 else 0
  {
    EdgeKeysDistinct(f);
    var legs := Legs(f);
    assert legs[1..][1..][1..] == [];
    assert Count(legs[1..][1..], k) == if LegKey(legs[2]) == k then 1 else 0;
    assert Count(legs[1..], k) == (if LegKey(legs[1]) == k then 1 else 0) + Count(legs[1..][1..], k);
  }

  /** `add` of a valid facet: the edges it does not have are untouched; if
      none of its edges is already two-owned it does not throw, and then each
      of its edges has gained it as last owner. */
  lemma AddEffect(st: MeshState, shiny: Facet)
    requires ValidEdges(st.edgeSet) && ValidFacet(shiny)
    ensures forall k :: k !in EdgeKeys(shiny) ==>
      OwnersAt(Add(st, shiny).after.edgeSet, k) == OwnersAt(st.edgeSet, k)
      && (k in Add(st, shiny).after.edgeSet <==> k in st.edgeSet)
    ensures (forall k :: k in EdgeKeys(shiny) ==> |OwnersAt(st.edgeSet, k)| < 2) ==> Add(st, shiny).failure.None?
    ensures Add(st, shiny).failure.None? ==>
      forall k :: k in EdgeKeys(shiny) ==> OwnersAt(Add(st, shiny).after.edgeSet, k) == OwnersAt(st.edgeSet, k) + [shiny]
  {
    var legs := Legs(shiny);
    var r := RecordLegs(st.edgeSet, legs, shiny);
    forall k | k !in EdgeKeys(shiny)
      ensures OwnersAt(r.edges, k) == OwnersAt(st.edgeSet, k) && (k in r.edges <==> k in st.edgeSet)
    {
      LegCounts(shiny, k);
      RecordLegsUntouched(st.edgeSet, legs, shiny, k);
    }
    if forall k :: k in EdgeKeys(shiny) ==> |OwnersAt(st.edgeSet, k)| < 2 {
      forall k ensures |OwnersAt(st.edgeSet, k)| + Count(legs, k) <= 2 {
        LegCounts(shiny, k);
      }
      RecordLegsNoOverflow(st.edgeSet, legs, shiny);
    }
    if r.failure.None? {
      forall k | k in EdgeKeys(shiny)
        ensures OwnersAt(r.edges, k) == OwnersAt(st.edgeSet, k) + [shiny]
      {
        LegCounts(shiny, k);
        RecordLegsOwners(st.edgeSet, legs, shiny, k);
      }
    }
  }

  /** A throwing `add` leaves the legs before the failing one recorded: the
      new edge map is that of some first `j` legs, and leg `j`'s edge was
      already two-owned. */
  lemma AddFailureKeepsEarlierLegs(st: MeshState, shiny: Facet)
    requires ValidEdges(st.edgeSet)
    requires Add(st, shiny).failure.Some?
    ensures exists j :: (0 <= j < 3
      && Add(st, shiny).after.edgeSet == RecordLegs(st.edgeSet, Legs(shiny)[..j], shiny).edges
      && RecordLegs(st.edgeSet, Legs(shiny)[..j], shiny).failure.None?
      && |OwnersAt(RecordLegs(st.edgeSet, Legs(shiny)[..j], shiny).edges, LegKey(Legs(shiny)[j]))| == 2
      && Add(st, shiny).failure == Some(EdgeOverflowError(Legs(shiny)[j].0, Legs(shiny)[j].1)))
  {
    RecordLegsFailure(st.edgeSet, Legs(shiny), shiny);
    var j: nat :| FailsAt(st.edgeSet, Legs(shiny), shiny, j);
    assert j < 3;
  }

  /** Through `add` every owner keeps holding its edge. */
  lemma {:induction false} RecordLegsKeepsOwnersHoldEdge(edges: EdgeMap, legs: seq<(Point3D, Point3D)>, chip: Facet)
    requires ValidEdges(edges) && OwnersHoldEdge(edges)
    requires forall i :: 0 <= i < |legs| ==> LegKey(legs[i]) in EdgeKeys(chip)
    ensures OwnersHoldEdge(RecordLegs(edges, legs, chip).edges)
    decreases |legs|
  {
    if |legs| > 0 {
      assert LegKey(legs[0]) in EdgeKeys(chip);
      RecordEdgeKeepsOwnersHoldEdge(edges, legs[0].0, legs[0].1, chip);
      var s := RecordEdge(edges, legs[0].0, legs[0].1, chip);
      if s.failure.None? {
        RecordLegsKeepsOwnersHoldEdge(s.edges, legs[1..], chip);
      }
    }
  }

  lemma AddKeepsOwnersHoldEdge(st: MeshState, shiny: Facet)
    requires ValidEdges(st.edgeSet) && OwnersHoldEdge(st.edgeSet)
    ensures OwnersHoldEdge(Add(st, shiny).after.edgeSet)
  {
    RecordLegsKeepsOwnersHoldEdge(st.edgeSet, Legs(shiny), shiny);
  }

  lemma RecordEdgeKeepsOwnersHoldEdge(edges: EdgeMap, ptAlpha: Point3D, ptOmega: Point3D, chip: Facet)
    requires ValidEdges(edges) && OwnersHoldEdge(edges)
    requires PairKey(ptAlpha, ptOmega) in EdgeKeys(chip)
    ensures OwnersHoldEdge(RecordEdge(edges, ptAlpha, ptOmega, chip).edges)
  {
    var r := RecordEdge(edges, ptAlpha, ptOmega, chip);
    var k := PairKey(ptAlpha, ptOmega);
    forall j | j in r.edges
      ensures forall f :: f in Owners(r.edges[j]) ==> j in EdgeKeys(f)
    {
      if j == k && k in edges && |Owners(edges[k])| < 2 {
        assert Owners(r.edges[k]) == Owners(edges[k]) + [chip];
      }
    }
  }

  // ----- absorb -----

  /** A key whose merge makes `absorb` throw: present on both sides, with the
      incoming record or the existing one already two-owned. */
  predicate Conflict(mine: EdgeMap, theirs: EdgeMap, k: EdgeKey) {
    k in mine && k in theirs && (theirs[k].ref2.Some? || mine[k].ref2.Some?)
  }

  predicate Mergeable(mine: EdgeMap, theirs: EdgeMap) {
    forall k :: k in theirs ==> !Conflict(mine, theirs, k)
  }

  /** No key among `done` is a conflict. */
  predicate MergeableOver(mine: EdgeMap, theirs: EdgeMap, done: set<EdgeKey>) {
    forall k :: k in done ==> !Conflict(mine, theirs, k)
  }

  lemma MergeableOverStep(mine: EdgeMap, theirs: EdgeMap, done: set<EdgeKey>, k: EdgeKey)
    requires MergeableOver(mine, theirs, done) && !Conflict(mine, theirs, k)
    ensures MergeableOver(mine, theirs, done + {k})
  {
  }

  lemma MergeableOverAll(mine: EdgeMap, theirs: EdgeMap)
    requires MergeableOver(mine, theirs, theirs.Keys)
    ensures Mergeable(mine, theirs)
  {
  }

  /** The error `absorb` throws at a conflicting key: the existing record's
      end points if only it was full, else the incoming record's. */
  function ConflictError(mine: EdgeMap, theirs: EdgeMap, k: EdgeKey): Error
    requires Conflict(mine, theirs, k)
  {
    if theirs[k].ref2.None? then EdgeOverflowError(mine[k].commonA, mine[k].commonB)
    else EdgeOverflowError(theirs[k].commonA, theirs[k].commonB)
  }

  /** The record `absorb` leaves at an incoming key: the incoming record if
      the key was new, otherwise the existing record with its own first owner
      added again as second owner (the source mates it with `temp.getRef1()`,
      not with the incoming record's owner). */
  function MergedRecord(mine: EdgeMap, theirs: EdgeMap, k: EdgeKey): EdgeShare
    requires k in theirs
  {
    if k in mine then mine[k].(ref2 := mine[k].ref1) else theirs[k]
  }

  /** The edge map after the incoming keys in `done` have been merged into
      `mine`, in any order (no two of them touch the same key). */
  function MergeOver(mine: EdgeMap, theirs: EdgeMap, done: set<EdgeKey>): (r: EdgeMap)
    requires done <= theirs.Keys
    ensures r.Keys == mine.Keys + done
  {
    map k | k in mine.Keys + done :: if k in done then MergedRecord(mine, theirs, k) else mine[k]
  }

  /** Before any incoming key is merged the map is the existing one. */
  lemma MergeOverNone(mine: EdgeMap, theirs: EdgeMap)
    ensures MergeOver(mine, theirs, {}) == mine
  {
  }

  /** Merging one more incoming key updates just that key. */
  lemma MergeOverStep(mine: EdgeMap, theirs: EdgeMap, done: set<EdgeKey>, k: EdgeKey)
    requires done <= theirs.Keys && k in theirs && k !in done
    ensures MergeOver(mine, theirs, done + {k}) == MergeOver(mine, theirs, done)[k := MergedRecord(mine, theirs, k)]
  {
  }

  /** The edge map after a complete `absorb`. */
  function Merged(mine: EdgeMap, theirs: EdgeMap): EdgeMap {
    MergeOver(mine, theirs, theirs.Keys)
  }

  /** Whatever part of the merge is done, the records stay valid. */
  lemma MergeOverValid(mine: EdgeMap, theirs: EdgeMap, done: set<EdgeKey>)
    requires ValidEdges(mine) && ValidEdges(theirs) && done <= theirs.Keys
    ensures ValidEdges(MergeOver(mine, theirs, done))
  {
  }

  /** A complete merge without conflicts: every existing record stays or, if
      the other mesh also had the edge, becomes two-owned; every incoming
      edge is present; nothing else appears. */
  lemma MergedShape(mine: EdgeMap, theirs: EdgeMap)
    requires ValidEdges(mine) && ValidEdges(theirs) && Mergeable(mine, theirs)
    ensures Merged(mine, theirs).Keys == mine.Keys + theirs.Keys
    ensures forall k :: k in mine && k !in theirs ==> Merged(mine, theirs)[k] == mine[k]
    ensures forall k :: k in theirs && k !in mine ==> Merged(mine, theirs)[k] == theirs[k]
    ensures forall k :: k in mine && k in theirs ==>
      |Owners(mine[k])| == 1 && Owners(Merged(mine, theirs)[k]) == Owners(mine[k]) + Owners(mine[k])
  {
  }

  /** As written, a shared edge ends up owned twice by the existing mesh's
      facet and not at all by the incoming mesh's facet. */
  lemma {:induction false} MergeMatesOwnFacet(mine: EdgeMap, theirs: EdgeMap, k: EdgeKey)
    requires ValidEdges(mine) && ValidEdges(theirs) && Mergeable(mine, theirs)
    requires k in mine && k in theirs
    ensures Owners(Merged(mine, theirs)[k]) == [mine[k].ref1.value, mine[k].ref1.value]
    ensures theirs[k].ref1.value != mine[k].ref1.value ==> theirs[k].ref1.value !in Owners(Merged(mine, theirs)[k])
  {
    assert !Conflict(mine, theirs, k);
    assert mine[k].ref2.None?;
    assert Merged(mine, theirs)[k] == mine[k].(ref2 := mine[k].ref1);
  }

  /** The merge keeps owners holding their edges. */
  lemma MergeOverKeepsOwnersHoldEdge(mine: EdgeMap, theirs: EdgeMap, done: set<EdgeKey>)
    requires ValidEdges(mine) && ValidEdges(theirs) && done <= theirs.Keys
    requires OwnersHoldEdge(mine) && OwnersHoldEdge(theirs)
    ensures OwnersHoldEdge(MergeOver(mine, theirs, done))
  {
    var r := MergeOver(mine, theirs, done);
    forall k | k in r
      ensures forall f :: f in Owners(r[k]) ==> k in EdgeKeys(f)
    {
      if k in done && k in mine {
        assert Owners(r[k]) == [mine[k].ref1.value] + (if mine[k].ref1.Some? then [mine[k].ref1.value] else []);
        assert mine[k].ref1.value in Owners(mine[k]);
      }
    }
  }

  /** `absorb` on success: the merged edges, and the other mesh's facets
      appended after this one's. */
  function Absorb(st: MeshState, noob: MeshState): (r: MeshState)
    requires Mergeable(st.edgeSet, noob.edgeSet)
    ensures r.scales == st.scales + noob.scales
    ensures r.edgeSet.Keys == st.edgeSet.Keys + noob.edgeSet.Keys
  {
    MeshState(st.scales + noob.scales, Merged(st.edgeSet, noob.edgeSet))
  }

  // ----- meshFromFour -----

  /** The two facets `meshFromFour` builds: split along A-C when A-C is the
      shorter diagonal, else along B-D. */
  function QuadSplit(ptA: Point3D, ptB: Point3D, ptC: Point3D, ptD: Point3D): ((Point3D, Point3D, Point3D), (Point3D, Point3D, Point3D)) {
    if SqDist(ptA, ptC) < SqDist(ptB, ptD) then ((ptA, ptB, ptC), (ptC, ptD, ptA))
    else ((ptB, ptC, ptD), (ptD, ptA, ptB))
  }

  /** `meshFromFour`: a fresh mesh with the two facets added in order; the
      first constructor or add error is the result. */
  function MeshFromFour(ptA: Point3D, ptB: Point3D, ptC: Point3D, ptD: Point3D): Result<MeshState> {
    var (t1, t2) := QuadSplit(ptA, ptB, ptC, ptD);
    var r1 := MakeFacet(t1.0, t1.1, t1.2);
    if r1.Err? then Err(r1.error)
    else
      var r2 := MakeFacet(t2.0, t2.1, t2.2);
      if r2.Err? then Err(r2.error)
      else
        var s1 := Add(EmptyMesh, r1.value);
        if s1.failure.Some? then Err(s1.failure.value)
        else
          var s2 := Add(s1.after, r2.value);
          if s2.failure.Some? then Err(s2.failure.value)
          else Ok(s2.after)
  }

  /** The first facet added to an empty mesh gives three one-owned edges. */
  lemma AddToEmpty(f: Facet)
    requires ValidFacet(f)
    ensures Add(EmptyMesh, f).failure.None?
    ensures Add(EmptyMesh, f).after.scales == [f]
    ensures Add(EmptyMesh, f).after.edgeSet.Keys == EdgeKeys(f)
    ensures forall k :: OwnersAt(Add(EmptyMesh, f).after.edgeSet, k) == if k in EdgeKeys(f) then [f] else []
  {
    AddEffect(EmptyMesh, f);
  }

  /** The second facet, sharing exactly its C-A edge with the first facet's
      C-A edge, makes that diagonal two-owned and adds two one-owned sides. */
  lemma AddAcrossDiagonal(f1: Facet, f2: Facet)
    requires ValidFacet(f1) && ValidFacet(f2)
    requires EdgeKeys(f1) * EdgeKeys(f2) == {PairKey(f1.vertC, f1.vertA)}
    ensures var s2 := Add(Add(EmptyMesh, f1).after, f2);
      s2.failure.None? && s2.after.scales == [f1, f2]
      && s2.after.edgeSet.Keys == EdgeKeys(f1) + EdgeKeys(f2)
      && forall k :: OwnersAt(s2.after.edgeSet, k) ==
           if k == PairKey(f1.vertC, f1.vertA) then [f1, f2]
           else if k in EdgeKeys(f1) then [f1]
           else if k in EdgeKeys(f2) then [f2]
           else []
  {
    AddToEmpty(f1);
    AddSecond(Add(EmptyMesh, f1).after, f1, f2);
  }

  /** The step of `AddAcrossDiagonal` for the second facet, on any state that
      holds exactly the first. */
  lemma AddSecond(s1: MeshState, f1: Facet, f2: Facet)
    requires ValidEdges(s1.edgeSet) && ValidFacet(f2)
    requires s1.scales == [f1]
    requires forall k :: OwnersAt(s1.edgeSet, k) == if k in EdgeKeys(f1) then [f1] else []
    requires EdgeKeys(f1) * EdgeKeys(f2) == {PairKey(f1.vertC, f1.vertA)}
    ensures var s2 := Add(s1, f2);
      s2.failure.None? && s2.after.scales == [f1, f2]
      && s2.after.edgeSet.Keys == EdgeKeys(f1) + EdgeKeys(f2)
      && forall k :: OwnersAt(s2.after.edgeSet, k) ==
           if k == PairKey(f1.vertC, f1.vertA) then [f1, f2]
           else if k in EdgeKeys(f1) then [f1]
           else if k in EdgeKeys(f2) then [f2]
           else []
  {
    forall k | k in EdgeKeys(f2) ensures |OwnersAt(s1.edgeSet, k)| < 2 {
      assert OwnersAt(s1.edgeSet, k) == if k in EdgeKeys(f1) then [f1] else [];
    }
    AddEffect(s1, f2);
    SecondOwners(s1.edgeSet, Add(s1, f2).after.edgeSet, f1, f2);
  }

  /** The edge maps before and after the second facet's edges gain it as an
      owner, when the first facet owned exactly its own edges. */
  lemma SecondOwners(before: EdgeMap, after: EdgeMap, f1: Facet, f2: Facet)
    requires ValidEdges(after)
    requires forall k :: OwnersAt(before, k) == if k in EdgeKeys(f1) then [f1] else []
    requires EdgeKeys(f1) * EdgeKeys(f2) == {PairKey(f1.vertC, f1.vertA)}
    requires forall k :: k !in EdgeKeys(f2) ==> OwnersAt(after, k) == OwnersAt(before, k)
    requires forall k :: k in EdgeKeys(f2) ==> OwnersAt(after, k) == OwnersAt(before, k) + [f2]
    ensures after.Keys == EdgeKeys(f1) + EdgeKeys(f2)
    ensures forall k ::
              OwnersAt(after, k) ==
                if k == PairKey(f1.vertC, f1.vertA) then [f1, f2]
                else if k in EdgeKeys(f1) then [f1]
                else if k in EdgeKeys(f2) then [f2]
                else []
  {
    forall k
      ensures OwnersAt(after, k) ==
                if k == PairKey(f1.vertC, f1.vertA) then [f1, f2]
                else if k in EdgeKeys(f1) then [f1]
                else if k in EdgeKeys(f2) then [f2]
                else []
    {
      assert k in EdgeKeys(f1) * EdgeKeys(f2) <==> k == PairKey(f1.vertC, f1.vertA);
      assert OwnersAt(before, k) == if k in EdgeKeys(f1) then [f1] else [];
    }
    forall k ensures k in after <==> k in EdgeKeys(f1) + EdgeKeys(f2) {
      KeyHasOwners(after, k);
    }
  }

  /** A valid edge map holds exactly the edges that have an owner. */
  lemma KeyHasOwners(edges: EdgeMap, k: EdgeKey)
    requires ValidEdges(edges)
    ensures k in edges <==> |OwnersAt(edges, k)| > 0
  {
  }

  /** Three distinct edges on each side sharing exactly one make five. */
  lemma FiveEdges(f1: Facet, f2: Facet)
    requires ValidFacet(f1) && ValidFacet(f2)
    requires EdgeKeys(f1) * EdgeKeys(f2) == {PairKey(f1.vertC, f1.vertA)}
    ensures |EdgeKeys(f1) + EdgeKeys(f2)| == 5
  {
    EdgeKeysDistinct(f1);
    EdgeKeysDistinct(f2);
    var common := EdgeKeys(f1) * EdgeKeys(f2);
    assert |EdgeKeys(f1) + EdgeKeys(f2)| == |EdgeKeys(f1)| + |EdgeKeys(f2) - common| by {
      assert EdgeKeys(f1) + EdgeKeys(f2) == EdgeKeys(f1) + (EdgeKeys(f2) - common);
      assert EdgeKeys(f1) !! (EdgeKeys(f2) - common);
    }
    assert |EdgeKeys(f2) - common| == |EdgeKeys(f2)| - |common| by {
      assert common <= EdgeKeys(f2);
    }
  }

  /** `meshFromFour` succeeds exactly when both facets of the chosen split
      are valid; otherwise the first invalid one's error is the result. */
  lemma MeshFromFourOutcome(ptA: Point3D, ptB: Point3D, ptC: Point3D, ptD: Point3D)
    ensures var (t1, t2) := QuadSplit(ptA, ptB, ptC, ptD);
      (MeshFromFour(ptA, ptB, ptC, ptD).Ok? <==>
         ValidFacet(Facet(t1.0, t1.1, t1.2)) && ValidFacet(Facet(t2.0, t2.1, t2.2)))
    ensures var (t1, t2) := QuadSplit(ptA, ptB, ptC, ptD);
      !ValidFacet(Facet(t1.0, t1.1, t1.2)) ==> MeshFromFour(ptA, ptB, ptC, ptD) == Err(MakeFacet(t1.0, t1.1, t1.2).error)
    ensures var (t1, t2) := QuadSplit(ptA, ptB, ptC, ptD);
      ValidFacet(Facet(t1.0, t1.1, t1.2)) && !ValidFacet(Facet(t2.0, t2.1, t2.2)) ==>
        MeshFromFour(ptA, ptB, ptC, ptD) == Err(MakeFacet(t2.0, t2.1, t2.2).error)
  {
    var (t1, t2) := QuadSplit(ptA, ptB, ptC, ptD);
    var f1, f2 := Facet(t1.0, t1.1, t1.2), Facet(t2.0, t2.1, t2.2);
    if ValidFacet(f1) && ValidFacet(f2) {
      QuadFacetsShareDiagonal(ptA, ptB, ptC, ptD);
      AddAcrossDiagonal(f1, f2);
    }
  }

  /** The two facets of a valid split share exactly the diagonal. */
  lemma QuadFacetsShareDiagonal(ptA: Point3D, ptB: Point3D, ptC: Point3D, ptD: Point3D)
    requires var (t1, t2) := QuadSplit(ptA, ptB, ptC, ptD);
      ValidFacet(Facet(t1.0, t1.1, t1.2)) && ValidFacet(Facet(t2.0, t2.1, t2.2))
    ensures var (t1, t2) := QuadSplit(ptA, ptB, ptC, ptD);
      EdgeKeys(Facet(t1.0, t1.1, t1.2)) * EdgeKeys(Facet(t2.0, t2.1, t2.2)) == {PairKey(t1.2, t1.0)}
  {
    var (t1, t2) := QuadSplit(ptA, ptB, ptC, ptD);
    if SqDist(ptA, ptC) < SqDist(ptB, ptD) {
      assert ptB != ptD;
    } else {
      assert ptB != ptD;
      assert ptA != ptC;
    }
    QuadSharesDiagonal(Facet(t1.0, t1.1, t1.2), Facet(t2.0, t2.1, t2.2));
  }

  /** A successful `meshFromFour` holds the two facets and five edges: the
      diagonal, owned by both facets, and the four sides, owned by one facet
      each. */
  lemma MeshFromFourShape(ptA: Point3D, ptB: Point3D, ptC: Point3D, ptD: Point3D)
    requires MeshFromFour(ptA, ptB, ptC, ptD).Ok?
    ensures var m := MeshFromFour(ptA, ptB, ptC, ptD).value;
      var (t1, t2) := QuadSplit(ptA, ptB, ptC, ptD);
      var diag := PairKey(t1.0, t1.2);
      m.scales == [Facet(t1.0, t1.1, t1.2), Facet(t2.0, t2.1, t2.2)]
      && |m.edgeSet| == 5 && diag in m.edgeSet
      && Owners(m.edgeSet[diag]) == m.scales
      && (forall k :: k in m.edgeSet && k != diag ==> |Owners(m.edgeSet[k])| == 1)
  {
    var (t1, t2) := QuadSplit(ptA, ptB, ptC, ptD);
    var f1, f2 := Facet(t1.0, t1.1, t1.2), Facet(t2.0, t2.1, t2.2);
    MeshFromFourIsAdds(ptA, ptB, ptC, ptD);
    QuadFacetsShareDiagonal(ptA, ptB, ptC, ptD);
    AddAcrossDiagonal(f1, f2);
    FiveEdges(f1, f2);
    PairKeySymmetric(t1.0, t1.2);
    DiagonalShape(MeshFromFour(ptA, ptB, ptC, ptD).value, f1, f2);
  }

  /** A successful `meshFromFour` is the two adds of its split's facets. */
  lemma MeshFromFourIsAdds(ptA: Point3D, ptB: Point3D, ptC: Point3D, ptD: Point3D)
    requires MeshFromFour(ptA, ptB, ptC, ptD).Ok?
    ensures var (t1, t2) := QuadSplit(ptA, ptB, ptC, ptD);
      var f1, f2 := Facet(t1.0, t1.1, t1.2), Facet(t2.0, t2.1, t2.2);
      ValidFacet(f1) && ValidFacet(f2)
      && MeshFromFour(ptA, ptB, ptC, ptD).value == Add(Add(EmptyMesh, f1).after, f2).after
  {
    MeshFromFourOutcome(ptA, ptB, ptC, ptD);
  }

  /** Two facets over five edges, the diagonal owned by both and every other
      edge by one: the diagonal's owners are the facet list and the other
      records are one-owned. */
  lemma DiagonalShape(m: MeshState, f1: Facet, f2: Facet)
    requires m.scales == [f1, f2]
    requires m.edgeSet.Keys == EdgeKeys(f1) + EdgeKeys(f2) && |EdgeKeys(f1) + EdgeKeys(f2)| == 5
    requires forall k ::
               OwnersAt(m.edgeSet, k) ==
                 if k == PairKey(f1.vertC, f1.vertA) then [f1, f2]
                 else if k in EdgeKeys(f1) then [f1]
                 else if k in EdgeKeys(f2) then [f2]
                 else []
    ensures |m.edgeSet| == 5 && PairKey(f1.vertC, f1.vertA) in m.edgeSet
    ensures Owners(m.edgeSet[PairKey(f1.vertC, f1.vertA)]) == m.scales
    ensures forall k :: k in m.edgeSet && k != PairKey(f1.vertC, f1.vertA) ==> |Owners(m.edgeSet[k])| == 1
  {
    var diag := PairKey(f1.vertC, f1.vertA);
    assert |m.edgeSet| == |m.edgeSet.Keys|;
    assert OwnersAt(m.edgeSet, diag) == [f1, f2];
    forall k | k in m.edgeSet && k != diag ensures |Owners(m.edgeSet[k])| == 1 {
      assert OwnersAt(m.edgeSet, k) == Owners(m.edgeSet[k]);
    }
  }

  /** The second facet starts where the first ends and ends where it starts;
      with the fourth corner different from the second, the two facets share
      exactly the diagonal. */
  lemma QuadSharesDiagonal(f1: Facet, f2: Facet)
    requires ValidFacet(f1) && ValidFacet(f2)
    requires f2.vertA == f1.vertC && f2.vertC == f1.vertA
    requires f2.vertB != f1.vertB
    ensures EdgeKeys(f1) * EdgeKeys(f2) == {PairKey(f1.vertC, f1.vertA)}
  {
    var a, b, c, d := f1.vertA, f1.vertB, f1.vertC, f2.vertB;
    assert PairKey(c, d) != PairKey(a, b) && PairKey(c, d) != PairKey(b, c) && PairKey(c, d) != PairKey(c, a) by {
      assert !Touches(PairKey(c, d), b);
      assert !Touches(PairKey(c, d), a);
    }
    assert PairKey(d, a) != PairKey(a, b) && PairKey(d, a) != PairKey(b, c) && PairKey(d, a) != PairKey(c, a) by {
      assert !Touches(PairKey(d, a), b);
      assert !Touches(PairKey(d, a), c);
    }
    assert PairKey(a, c) == PairKey(c, a);
  }

  // ----- skewLadderm1 -----

  function MinCount(port: seq<Point3D>, starboard: seq<Point3D>): nat {
    if |starboard| < |port| then |starboard| else |port|
  }

  /** One rung: the quad's two-facet mesh absorbed into the strip.  `try!`
      turns every error into a trap; `None` stands for it. */
  function Rung(strip: MeshState, ptA: Point3D, ptB: Point3D, ptC: Point3D, ptD: Point3D): (r: Option<MeshState>)
    requires ValidEdges(strip.edgeSet)
    ensures r.Some? ==> ValidEdges(r.value.edgeSet)
    ensures r.Some? ==> |r.value.scales| == |strip.scales| + 2
  {
    var pair := MeshFromFour(ptA, ptB, ptC, ptD);
    if pair.Err? then None
    else
      MeshFromFourValid(ptA, ptB, ptC, ptD);
      MeshFromFourTwoFacets(ptA, ptB, ptC, ptD);
      if !Mergeable(strip.edgeSet, pair.value.edgeSet) then None
      else
        MergeOverValid(strip.edgeSet, pair.value.edgeSet, pair.value.edgeSet.Keys);
        Some(Absorb(strip, pair.value))
  }

  /** The strip after the rungs for g … n−1 are absorbed into `strip`, in
      order, or `None` after a trap. */
  function RungsFrom(port: seq<Point3D>, starboard: seq<Point3D>, strip: MeshState, g: nat, n: nat): (r: Option<MeshState>)
    requires ValidEdges(strip.edgeSet)
    requires 1 <= g <= n <= MinCount(port, starboard)
    ensures r.Some? ==> ValidEdges(r.value.edgeSet)
    ensures r.Some? ==> |r.value.scales| == |strip.scales| + 2 * (n - g)
    decreases n - g
  {
    if g == n then Some(strip)
    else
      var next := Rung(strip, port[g - 1], port[g], starboard[g], starboard[g - 1]);
      if next.None? then None else RungsFrom(port, starboard, next.value, g + 1, n)
  }

  /** The strip after the rungs for g = 1 … n−1, or `None` after a trap. */
  function LadderRungs(port: seq<Point3D>, starboard: seq<Point3D>, n: nat): (r: Option<MeshState>)
    requires 1 <= n <= MinCount(port, starboard)
    ensures r.Some? ==> ValidEdges(r.value.edgeSet) && |r.value.scales| == 2 * (n - 1)
  {
    RungsFrom(port, starboard, EmptyMesh, 1, n)
  }

  lemma MeshFromFourValid(ptA: Point3D, ptB: Point3D, ptC: Point3D, ptD: Point3D)
    ensures MeshFromFour(ptA, ptB, ptC, ptD).Ok? ==> ValidEdges(MeshFromFour(ptA, ptB, ptC, ptD).value.edgeSet)
  {
  }

  /** The wedge facet's three corners, when the chains differ in length. */
  function Wedge(port: seq<Point3D>, starboard: seq<Point3D>): (Point3D, Point3D, Point3D)
    requires MinCount(port, starboard) >= 1 && |port| != |starboard|
  {
    var w := MinCount(port, starboard) - 1;
    if |starboard| < |port| then (starboard[w], port[w], port[w + 1])
    else (starboard[w], port[w], starboard[w + 1])
  }

  /** `skewLadderm1`: a rung per pair of neighbouring points on the shorter
      chain, then a wedge when the chains differ in length.  `None` stands
      for a trap: the range `1..<lesserCount` traps on an empty chain, and
      `try!` traps on any error of a rung or of the wedge. */
  function SkewLadder(port: seq<Point3D>, starboard: seq<Point3D>): (r: Option<MeshState>)
    ensures MinCount(port, starboard) == 0 ==> r.None?
    ensures r.Some? ==> ValidEdges(r.value.edgeSet)
  {
    if MinCount(port, starboard) == 0 then None
    else
      var strip := LadderRungs(port, starboard, MinCount(port, starboard));
      if strip.None? || |port| == |starboard| then strip
      else
        var s := AddPointsWedge(strip.value, port, starboard);
        if s.failure.Some? then None else Some(s.after)
  }

  /** The wedge facet added to the strip after the rungs. */
  function AddPointsWedge(strip: MeshState, port: seq<Point3D>, starboard: seq<Point3D>): (s: Step)
    requires ValidEdges(strip.edgeSet)
    requires MinCount(port, starboard) >= 1 && |port| != |starboard|
    ensures ValidEdges(s.after.edgeSet)
  {
    var (a, b, c) := Wedge(port, starboard);
    AddPoints(strip, a, b, c)
  }

  /** A successful `meshFromFour` holds two facets. */
  lemma MeshFromFourTwoFacets(ptA: Point3D, ptB: Point3D, ptC: Point3D, ptD: Point3D)
    ensures MeshFromFour(ptA, ptB, ptC, ptD).Ok? ==> |MeshFromFour(ptA, ptB, ptC, ptD).value.scales| == 2
  {
    if MeshFromFour(ptA, ptB, ptC, ptD).Ok? {
      MeshFromFourShape(ptA, ptB, ptC, ptD);
    }
  }

  /** A ladder that does not trap holds 2·(min−1) facets from the rungs,
      plus, when the chain lengths differ, the wedge
      (starboard[w], port[w], longer[w+1]) with w = min−1 as its last facet. */
  lemma {:induction false} SkewLadderShape(port: seq<Point3D>, starboard: seq<Point3D>)
    ensures SkewLadder(port, starboard).Some? ==>
      var m := SkewLadder(port, starboard).value;
      |m.scales| == 2 * (MinCount(port, starboard) - 1) + (if |port| == |starboard| then 0 else 1)
      && (|port| != |starboard| ==>
            var (a, b, c) := Wedge(port, starboard);
            m.scales[|m.scales| - 1] == Facet(a, b, c))
  {
    var n := MinCount(port, starboard);
    if n == 0 {
      return;
    }
    var strip := LadderRungs(port, starboard, n);
    if strip.Some? && |port| != |starboard| {
      var (a, b, c) := Wedge(port, starboard);
      AddPointsIsAddOfFacet(strip.value, a, b, c);
    }
  }

  // ----- getMated / getBach -----

  function Seg(e: EdgeShare): LineSeg {
    LineSeg(e.commonA, e.commonB)
  }

  /** Keys listed once each and covering exactly `keys`: an iteration order. */
  predicate Enumerates(order: seq<EdgeKey>, keys: set<EdgeKey>) {
    (forall i, j :: 0 <= i < j < |order| ==> order[i] != order[j])
    && (forall i :: 0 <= i < |order| ==> order[i] in keys)
    && (forall k :: k in keys ==> k in order)
  }

  /** The segments of the two-owned records, in the order `order` visits them. */
  function MatedSegs(edges: EdgeMap, order: seq<EdgeKey>): seq<LineSeg>
    requires forall i :: 0 <= i < |order| ==> order[i] in edges
  {
    if |order| == 0 then []
    else
      var last := order[|order| - 1];
      MatedSegs(edges, order[..|order| - 1]) + (if edges[last].ref2.Some? then [Seg(edges[last])] else [])
  }

  /** The segments of the one-owned records, in the order `order` visits them. */
  function BachSegs(edges: EdgeMap, order: seq<EdgeKey>): seq<LineSeg>
    requires forall i :: 0 <= i < |order| ==> order[i] in edges
  {
    if |order| == 0 then []
    else
      var last := order[|order| - 1];
      BachSegs(edges, order[..|order| - 1]) + (if edges[last].ref2.None? then [Seg(edges[last])] else [])
  }

  /** A segment is listed by `MatedSegs` exactly when some visited record is
      two-owned and has those end points. */
  lemma {:induction false} MatedSegsMembers(edges: EdgeMap, order: seq<EdgeKey>, s: LineSeg)
    requires forall i :: 0 <= i < |order| ==> order[i] in edges
    ensures s in MatedSegs(edges, order) <==>
      exists i :: 0 <= i < |order| && edges[order[i]].ref2.Some? && s == Seg(edges[order[i]])
  {
    if |order| > 0 {
      var init := order[..|order| - 1];
      MatedSegsMembers(edges, init, s);
      if s in MatedSegs(edges, init) {
        var i :| 0 <= i < |init| && edges[init[i]].ref2.Some? && s == Seg(edges[init[i]]);
        assert order[i] == init[i];
      }
      if exists i :: 0 <= i < |order| && edges[order[i]].ref2.Some? && s == Seg(edges[order[i]]) {
        var i :| 0 <= i < |order| && edges[order[i]].ref2.Some? && s == Seg(edges[order[i]]);
        if i < |init| {
          assert init[i] == order[i];
        }
      }
    }
  }

  /** A segment is listed by `BachSegs` exactly when some visited record is
      one-owned and has those end points. */
  lemma {:induction false} BachSegsMembers(edges: EdgeMap, order: seq<EdgeKey>, s: LineSeg)
    requires forall i :: 0 <= i < |order| ==> order[i] in edges
    ensures s in BachSegs(edges, order) <==>
      exists i :: 0 <= i < |order| && edges[order[i]].ref2.None? && s == Seg(edges[order[i]])
  {
    if |order| > 0 {
      var init := order[..|order| - 1];
      BachSegsMembers(edges, init, s);
      if s in BachSegs(edges, init) {
        var i :| 0 <= i < |init| && edges[init[i]].ref2.None? && s == Seg(edges[init[i]]);
        assert order[i] == init[i];
      }
      if exists i :: 0 <= i < |order| && edges[order[i]].ref2.None? && s == Seg(edges[order[i]]) {
        var i :| 0 <= i < |order| && edges[order[i]].ref2.None? && s == Seg(edges[order[i]]);
        if i < |init| {
          assert init[i] == order[i];
        }
      }
    }
  }

  /** Every visited record is listed by exactly one of the two. */
  lemma {:induction false} MatedBachPartition(edges: EdgeMap, order: seq<EdgeKey>)
    requires forall i :: 0 <= i < |order| ==> order[i] in edges
    ensures |MatedSegs(edges, order)| + |BachSegs(edges, order)| == |order|
    ensures multiset(MatedSegs(edges, order)) + multiset(BachSegs(edges, order)) == multiset(AllSegs(edges, order))
  {
    if |order| > 0 {
      MatedBachPartition(edges, order[..|order| - 1]);
    }
  }

  /** The segments of all visited records, in order. */
  function AllSegs(edges: EdgeMap, order: seq<EdgeKey>): (r: seq<LineSeg>)
    requires forall i :: 0 <= i < |order| ==> order[i] in edges
    ensures |r| == |order| && forall i :: 0 <= i < |order| ==> r[i] == Seg(edges[order[i]])
  {
    if |order| == 0 then [] else AllSegs(edges, order[..|order| - 1]) + [Seg(edges[order[|order| - 1]])]
  }

  /** An iteration order visits as many records as the map holds. */
  lemma {:induction false} EnumerationLength(order: seq<EdgeKey>, keys: set<EdgeKey>)
    requires Enumerates(order, keys)
    ensures |order| == |keys|
    decreases |order|
  {
    if |order| > 0 {
      var last := order[|order| - 1];
      var init := order[..|order| - 1];
      forall i | 0 <= i < |init| ensures init[i] != last {
        assert order[i] != order[|order| - 1];
      }
      assert last !in init;
      forall k | k in keys - {last} ensures k in init {
        var i :| 0 <= i < |order| && order[i] == k;
        assert i < |init|;
        assert init[i] == k;
      }
      EnumerationLength(init, keys - {last});
    } else {
      assert forall k :: k !in keys;
      assert keys == {};
    }
  }
}
