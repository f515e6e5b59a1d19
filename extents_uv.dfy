/** The parameter-plane rectangle that encloses a set of surface points. */
module ExtentsUV {
  import opened Geometry

  datatype ExtentUV = ExtentUV(rangeU: Range, rangeV: Range)

  function UValues(spots: seq<PointSurf>): (r: seq<real>)
    ensures |r| == |spots| && forall k :: 0 <= k < |spots| ==> r[k] == spots[k].u
  {
    seq(|spots|, k requires 0 <= k < |spots| => spots[k].u)
  }

  function VValues(spots: seq<PointSurf>): (r: seq<real>)
    ensures |r| == |spots| && forall k :: 0 <= k < |spots| ==> r[k] == spots[k].v
  {
    seq(|spots|, k requires 0 <= k < |spots| => spots[k].v)
  }

  /** `init(spots:)`: least and greatest u and v (see `FromSpotsBounds`).
      An empty array traps in the source (forced unwrap of `min()`), hence
      the precondition. */
  function FromSpots(spots: seq<PointSurf>): ExtentUV
    requires |spots| > 0
  {
    var us, vs := UValues(spots), VValues(spots);
    ExtentUV(Range(SeqMin(us), SeqMax(us)), Range(SeqMin(vs), SeqMax(vs)))
  }

  /** The extent holds every spot, and each of its four bounds is attained
      by some spot. */
  lemma FromSpotsBounds(spots: seq<PointSurf>)
    requires |spots| > 0
    ensures var r := FromSpots(spots);
      r.rangeU.lower <= r.rangeU.upper && r.rangeV.lower <= r.rangeV.upper
    ensures var r := FromSpots(spots);
      forall k :: 0 <= k < |spots| ==> InRange(r.rangeU, spots[k].u) && InRange(r.rangeV, spots[k].v)
    ensures var r := FromSpots(spots);
      (exists k :: 0 <= k < |spots| && r.rangeU.lower == spots[k].u)
      && (exists k :: 0 <= k < |spots| && r.rangeU.upper == spots[k].u)
      && (exists k :: 0 <= k < |spots| && r.rangeV.lower == spots[k].v)
      && (exists k :: 0 <= k < |spots| && r.rangeV.upper == spots[k].v)
  {
    var us, vs := UValues(spots), VValues(spots);
    assert SeqMin(us) <= us[0] <= SeqMax(us);
    assert SeqMin(vs) <= vs[0] <= SeqMax(vs);
  }

  /** One spot gives the degenerate rectangle at that spot. */
  lemma FromOneSpot(p: PointSurf)
    ensures FromSpots([p]) == ExtentUV(Range(p.u, p.u), Range(p.v, p.v))
  {
  }

  /** Any rectangle holding every spot holds the extent: it is the smallest. */
  lemma FromSpotsTightest(spots: seq<PointSurf>, other: ExtentUV)
    requires |spots| > 0
    requires forall k :: 0 <= k < |spots| ==> InRange(other.rangeU, spots[k].u) && InRange(other.rangeV, spots[k].v)
    ensures other.rangeU.lower <= FromSpots(spots).rangeU.lower && FromSpots(spots).rangeU.upper <= other.rangeU.upper
    ensures other.rangeV.lower <= FromSpots(spots).rangeV.lower && FromSpots(spots).rangeV.upper <= other.rangeV.upper
  {
    FromSpotsBounds(spots);
    var r := FromSpots(spots);
    var a :| 0 <= a < |spots| && r.rangeU.lower == spots[a].u;
    var b :| 0 <= b < |spots| && r.rangeU.upper == spots[b].u;
    var c :| 0 <= c < |spots| && r.rangeV.lower == spots[c].v;
    var d :| 0 <= d < |spots| && r.rangeV.upper == spots[d].v;
  }
}
