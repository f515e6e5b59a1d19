/** A direction in the parameter plane of a patch, with the componentwise
    arithmetic the kernel uses on it. */
module VectorsUV {
  import Geometry

  datatype VectorSurf = VectorSurf(i: real, j: real)

  /** Both components are smaller in magnitude than the tolerance `epsV` the
      point and vector library supplies. */
  predicate IsZero(v: VectorSurf, epsV: real) {
    Geometry.Abs(v.i) < epsV && Geometry.Abs(v.j) < epsV
  }

  /** In-place normalisation, as a map from the old value to the new one.  A
      vector that counts as zero is left alone; any other vector is divided by
      its length, which needs a square root, so that branch is the
      library-supplied `unit`. */
  function Normalize(v: VectorSurf, epsV: real, unit: VectorSurf -> VectorSurf): (r: VectorSurf)
    ensures IsZero(v, epsV) ==> r == v
    ensures !IsZero(v, epsV) ==> r == unit(v)
  {
    if IsZero(v, epsV) then v else unit(v)
  }

  /** `lhs * scalar`. */
  function Scale(lhs: VectorSurf, scalar: real): VectorSurf {
    VectorSurf(lhs.i * scalar, lhs.j * scalar)
  }

  function Add(a: VectorSurf, b: VectorSurf): VectorSurf {
    VectorSurf(a.i + b.i, a.j + b.j)
  }

  /** Componentwise sum of a bundle: each component is folded from 0.0, left to right. */
  function SumBundle(bin: seq<VectorSurf>): VectorSurf {
    VectorSurf(SumI(bin), SumJ(bin))
  }

  function SumI(bin: seq<VectorSurf>): real {
    if |bin| == 0 then 0.0 else SumI(bin[..|bin| - 1]) + bin[|bin| - 1].i
  }

  function SumJ(bin: seq<VectorSurf>): real {
    if |bin| == 0 then 0.0 else SumJ(bin[..|bin| - 1]) + bin[|bin| - 1].j
  }

  lemma SumBundleEmpty()
    ensures SumBundle([]) == VectorSurf(0.0, 0.0)
  {
  }

  /** Appending one vector adds it to the sum. */
  lemma SumBundleAppend(xs: seq<VectorSurf>, x: VectorSurf)
    ensures SumBundle(xs + [x]) == Add(SumBundle(xs), x)
  {
    assert (xs + [x])[..|xs|] == xs;
  }

  /** The sum of a concatenation is the sum of the sums. */
  lemma {:induction false} SumBundleConcat(xs: seq<VectorSurf>, ys: seq<VectorSurf>)
    ensures SumBundle(xs + ys) == Add(SumBundle(xs), SumBundle(ys))
    decreases |ys|
  {
    if |ys| == 0 {
      assert xs + ys == xs;
    } else {
      var init := ys[..|ys| - 1];
      var last := ys[|ys| - 1];
      assert ys == init + [last];
      assert xs + ys == (xs + init) + [last];
      SumBundleConcat(xs, init);
      SumBundleAppend(xs + init, last);
      SumBundleAppend(init, last);
    }
  }

  /** Scaling the whole bundle scales its sum. */
  lemma {:induction false} SumBundleScale(bin: seq<VectorSurf>, s: real)
    ensures SumBundle(ScaleAll(bin, s)) == Scale(SumBundle(bin), s)
    decreases |bin|
  {
    if |bin| > 0 {
      var init := bin[..|bin| - 1];
      assert ScaleAll(bin, s) == ScaleAll(init, s) + [Scale(bin[|bin| - 1], s)];
      SumBundleScale(init, s);
      SumBundleAppend(ScaleAll(init, s), Scale(bin[|bin| - 1], s));
      assert SumBundle(bin) == Add(SumBundle(init), bin[|bin| - 1]) by {
        assert bin == init + [bin[|bin| - 1]];
        SumBundleAppend(init, bin[|bin| - 1]);
      }
    }
  }

  function ScaleAll(bin: seq<VectorSurf>, s: real): (r: seq<VectorSurf>)
    ensures |r| == |bin|
    ensures forall k :: 0 <= k < |bin| ==> r[k] == Scale(bin[k], s)
  {
    if |bin| == 0 then [] else ScaleAll(bin[..|bin| - 1], s) + [Scale(bin[|bin| - 1], s)]
  }

  lemma ScaleByOne(v: VectorSurf)
    ensures Scale(v, 1.0) == v
  {
  }

  lemma ScaleByZero(v: VectorSurf)
    ensures Scale(v, 0.0) == VectorSurf(0.0, 0.0)
  {
  }

  /** With a positive tolerance the zero vector counts as zero, and a vector
      counts as zero exactly when both components are inside the tolerance. */
  lemma IsZeroMeaning(v: VectorSurf, epsV: real)
    requires epsV > 0.0
    ensures IsZero(VectorSurf(0.0, 0.0), epsV)
    ensures IsZero(v, epsV) <==> (-epsV < v.i < epsV && -epsV < v.j < epsV)
  {
  }

  /** Normalising something that already counts as zero changes nothing, so
      normalising twice is the same as normalising once on that branch. */
  lemma NormalizeZeroIdempotent(v: VectorSurf, epsV: real, unit: VectorSurf -> VectorSurf)
    requires IsZero(v, epsV)
    ensures Normalize(Normalize(v, epsV, unit), epsV, unit) == Normalize(v, epsV, unit)
  {
  }
}
