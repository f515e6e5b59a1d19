# SurfaceCrib kernel in Dafny

SurfaceCrib is a small geometry kernel built around the bicubic patch. It
covers:

- **The patch.** It has three 4×4 coefficient matrices. The kernel fits the
  patch through sixteen points, evaluates it, takes its partial derivatives,
  boxes it, intersects it with a line, searches it for a fillet tangency and
  draws it as wires.
- **Triangle meshes in space.** A facet list comes with a set of edge
  records, and each record names the at most two facets that own the edge.
- **A cubic curve in a patch's parameter plane.** The kernel cuts it into a
  chain of surface points that stays within an allowed crown.
- **A triangle soup in the parameter plane.** The kernel selects the
  triangles whose extent overlaps a target.
- **Small value types.** These are an extent in the parameter plane, a
  parameter-plane vector and a point pair.

This project models that core and proves what the code promises.

Modelling choices:

- `Double` is modelled as `real` and all arithmetic is exact.
- Points are compared by exact equality.
- The point and vector library the kernel builds on is not part of this
  model. Most of what the kernel takes from it is passed in as a function
  parameter: distances, unit vectors, the foot of a perpendicular, a surface
  point at a parameter pair, and the overlap test between extents. A few
  small pieces are written out as exact arithmetic instead: the vector
  between two points, the dot and cross products, and the collinearity test
  (see "## Left out").
- Objects whose fields the source updates in place are classes: `Mesh`,
  `CubicUV` and `SurfaceMesh`. Their methods are proved against value-level
  specification functions.
- Structs and the immutable patch are datatypes.

The modules, one file each:

- `geometry.dfy`, module `Geometry`: points, vectors, boxes, ranges, segments, error kinds, rounding.
- `cubics.dfy`, module `Cubics`: cubic polynomials held as four coefficients.
- `bicubic.dfy`, module `Bicubics`: the patch, `pointAt`, `altPointAt`, `partU`, `partV`, `genParamCol`, the constructor.
- `bicubic_search.dfy`, module `BicubicSearches`: `getExtent`, `intersectSurfLine`, `crossingFillet`, `stripes`.
- `convex_patch.dfy`, module `ConvexPatch`: the patch of the unit tests and its expected values.
- `facets.dfy`, module `Facets`: `Facet`.
- `edge_shares.dfy`, module `EdgeShares`: `EdgeShare`.
- `point_pairs.dfy`, module `PointPairs`: `PointPair`.
- `mesh_spec.dfy`, module `MeshSpec`: what each `Mesh` operation does, as functions on the mesh's value.
- `meshes.dfy`, module `Meshes`: the `Mesh` class.
- `curve_uv.dfy`, module `CurvesUV`: the `CubicUV` class.
- `surface_mesh.dfy`, module `SurfaceMeshes`: the `SurfaceMesh` class.
- `extents_uv.dfy`, module `ExtentsUV`: `ExtentUV`.
- `vectors_uv.dfy`, module `VectorsUV`: `VectorSurf`.

## Model

| member | source | states |
|---|---|---|
| Bicubics.PointAt | SurfaceCrib/Bicubic.swift:341-375 | It succeeds exactly when 0 ≤ u ≤ 1 and 0 ≤ v ≤ 1. Otherwise it fails with ParameterRangeErrorDos(u, v). On success it returns the patch polynomial Σᵢⱼ u^(3−i)·rowᵢ[j]·v^(3−j) per axis. |
| Bicubics.AltPointAtSwaps | SurfaceCrib/Bicubic.swift:378-410 | `altPointAt(u, v)` is the patch polynomial at (v, u), which is the transposed patch at (u, v). It makes no range check. Where (v, u) is on the patch it equals `pointAt(v, u)`. |
| Bicubics.AxisShiftU | SurfaceCrib/Bicubic.swift:507-597 | `partU` is the exact u-derivative. A step h in u changes each coordinate by partU·h plus a polynomial remainder times h². |
| Bicubics.AxisShiftV | SurfaceCrib/Bicubic.swift:605-685 | `partV` is the exact v-derivative. A step h in v changes each coordinate by partV·h plus a remainder times h². |
| Bicubics.AxisAcross | SurfaceCrib/Bicubic.swift:507-597 | Read as a cubic in u, a coordinate of the patch has `partU` as its slope. |
| Bicubics.PartVAxisSlope | SurfaceCrib/Bicubic.swift:605-685 | Read as a cubic in v, a coordinate of the patch has `partV` as its slope. |
| Bicubics.Bilinear | SurfaceCrib/Bicubic.swift:341-375 | (s·C)·t equals s·(C·t). The order of the two matrix products that `pointAt` takes does not matter. |
| Bicubics.Design | SurfaceCrib/Bicubic.swift:163-333 | The design matrix has 256 entries. |
| Bicubics.DesignLayout | SurfaceCrib/Bicubic.swift:163-333 | Entry 16·k + g is monomial k at the parameters of point g. The monomials run s³t³, s³t², …, t, 1, so the last sixteen entries are 1. |
| Bicubics.GenParamCol | SurfaceCrib/Bicubic.swift:163-333 | The sixteen loops of sixteen appends build exactly the design matrix. |
| Bicubics.Init | SurfaceCrib/Bicubic.swift:36-159 | It fails exactly when the two inputs do not both hold 16 entries. The failure is SurfaceInputError carrying the smaller count. Otherwise each axis's coefficients are the solve of the design against that axis's coordinates, laid out as four rows of four. |
| Bicubics.FitInterpolates | SurfaceCrib/Bicubic.swift:36-159 | When each solve solves its system, the fitted patch passes through every input point at that point's parameters. |
| BicubicSearches.ExtentCovers | SurfaceCrib/Bicubic.swift:463-499 | Per axis, the box's minimum is at most its maximum. The box holds the corner (0, 0) and every grid point (g/15, w/15) for g, w in 1 … 15. |
| BicubicSearches.Hull | SurfaceCrib/Bicubic.swift:484-495 | Each bound of the box is the least or greatest sample coordinate on its axis. The bound holds every sample and is attained by one. |
| BicubicSearches.SampleAt | SurfaceCrib/Bicubic.swift:467-482 | Sample 1 + 15(g−1) + (w−1) is the patch point at (g/15, w/15). |
| BicubicSearches.GetExtent | SurfaceCrib/Bicubic.swift:463-499 | The nested sampling loops return exactly the box around the 226 samples. |
| BicubicSearches.Walk | SurfaceCrib/Bicubic.swift:842-896 | The trail of parameter pairs the search visits starts at the starting pair. |
| BicubicSearches.WalkLength | SurfaceCrib/Bicubic.swift:842-896 | The search makes at most one step per remaining pass out of 25. |
| BicubicSearches.WalkOnPatch | SurfaceCrib/Bicubic.swift:842-896 | Every pair of the trail except the last lies on the patch. |
| BicubicSearches.WalkOneAxis | SurfaceCrib/Bicubic.swift:868-885 | Each step changes u or v, never both. |
| BicubicSearches.LandingEndsWalk | SurfaceCrib/Bicubic.swift:842-896 | The search's outcome is settled by the last pair of the trail. The pair is returned if it is on the patch, and reported as a range error if not. |
| BicubicSearches.IntersectOnPatch | SurfaceCrib/Bicubic.swift:842-896 | A normal return ends a trail of at most 25 steps from (0, 0). Its parameters lie on the patch, and its point is `pointAt` there. |
| BicubicSearches.IntersectRangeError | SurfaceCrib/Bicubic.swift:874-885 | A failure is ParameterRangeErrorDos of the trail's last pair. That pair is off the patch and the one before it is on. |
| BicubicSearches.Descend | SurfaceCrib/Bicubic.swift:845-891 | The repeat loop returns the search's outcome. A normal return is on the patch. |
| BicubicSearches.IntersectSurfLine | SurfaceCrib/Bicubic.swift:842-896 | The method returns exactly the intersection the search defines. |
| BicubicSearches.FirstFlip | SurfaceCrib/Bicubic.swift:931-960 | It returns the first hop whose objective has the sign opposite to the start's, or 9 when there is none. |
| BicubicSearches.HopWithin | SurfaceCrib/Bicubic.swift:918-933 | The hops stay inside the span and climb in steps of an eighth of it. |
| BicubicSearches.FilletFlipIff | SurfaceCrib/Bicubic.swift:909-963 | A narrower range is returned exactly when some hop 1 … 8 flips sign. Otherwise the error is 5.0. |
| BicubicSearches.FilletBracket | SurfaceCrib/Bicubic.swift:931-957 | The returned range is [hop k−1, hop k] for the first flip k. It lies within the span and is an eighth of it wide. The error is the objective at hop k. |
| BicubicSearches.CrossingFillet | SurfaceCrib/Bicubic.swift:909-963 | The loop that returns at the first flip computes exactly the fillet answer. |
| BicubicSearches.Strokes | SurfaceCrib/Bicubic.swift:969-1016 | There are 40·(count + 1) wires. |
| BicubicSearches.StrokeAt | SurfaceCrib/Bicubic.swift:977-1013 | Wire 40·band + r joins successive samples g·0.05 along u at v = band/count when r < 20, and along v at u = band/count otherwise. |
| BicubicSearches.StrokesChain | SurfaceCrib/Bicubic.swift:985-996 | Within a run of twenty, each wire starts where the one before it ends. |
| BicubicSearches.StrokesOnPatch | SurfaceCrib/Bicubic.swift:983-1010 | Both ends of every wire are patch points at parameters on the patch, so no `try!` there traps. |
| BicubicSearches.Stripes | SurfaceCrib/Bicubic.swift:969-1016 | The nested loops with the carried prior point produce exactly those wires. |
| ConvexPatch.ConvexCornerOrigin | SurfaceCribTests/BicubicTests.swift:153-157 | The test patch at (0, 0) is (−1.5, −1.75, 0.95). |
| ConvexPatch.ConvexCornerV | SurfaceCribTests/BicubicTests.swift:158-161 | The test patch at (0, 1) is (−1.5, 1.75, 2.15). |
| ConvexPatch.ConvexCornerU | SurfaceCribTests/BicubicTests.swift:162-165 | The test patch at (1, 0) is (2.5, −1.75, 2.65). |
| ConvexPatch.ConvexCornerFar | SurfaceCribTests/BicubicTests.swift:166-169 | The test patch at (1, 1) is (2.5, 1.75, 3.85). |
| ConvexPatch.ConvexPartUOrigin | SurfaceCribTests/BicubicTests.swift:173-179 | partU at (0, 0) is (4, 0, −0.8). |
| ConvexPatch.ConvexPartUEnd | SurfaceCribTests/BicubicTests.swift:181-185 | partU at (1, 0) is (4, 0, 4.2). |
| ConvexPatch.ConvexPartVOrigin | SurfaceCribTests/BicubicTests.swift:189-195 | partV at (0, 0) is (0, 3.5, −1.0). |
| ConvexPatch.AxisAtCorners | SurfaceCrib/Bicubic.swift:341-375 | At the four corners a coordinate is a sum of coefficients; at (0, 0) it is row 3's last lane. |
| Facets.MakeFacet | SurfaceCrib/Facet.swift:33-46 | It succeeds exactly for three distinct, non-collinear points and keeps them in order. Duplicates throw CoincidentPointsError(ptB) first. Collinear points throw TriangleError(ptB). |
| Facets.MakeFacetOfFacet | SurfaceCrib/Facet.swift:33-63 | Rebuilding a facet from its accessors gives it back. |
| Facets.Reverse | SurfaceCrib/Facet.swift:80-86 | B and C trade places and A stays. The result is valid exactly when the input is. |
| Facets.ReverseTwice | SurfaceCrib/Facet.swift:80-86 | Reversing twice is the identity. |
| Facets.LinearSwap | SurfaceCrib/Facet.swift:39 | Collinearity does not depend on the order of B and C. |
| Facets.DupeMove | SurfaceCrib/Facet.swift:68-77 | The moved facet is the vertex-wise transform, in order. It succeeds exactly when the moved points pass the constructor, and otherwise rethrows the constructor's error. |
| Facets.DupeMoveIdentity | SurfaceCrib/Facet.swift:68-77 | Moving by the identity gives the same facet. |
| Facets.GetExtent | SurfaceCrib/Facet.swift:96-110 | The box is ordered and holds all three vertices. Each bound is one of the vertices' coordinates. |
| Facets.GetExtentTightest | SurfaceCrib/Facet.swift:96-110 | Every box holding the three vertices holds the extent. |
| Facets.EdgeKeysDistinct | SurfaceCrib/Facet.swift:33-46 | A valid facet has three different edges, each joining two different points. |
| Facets.PairKeyCases | SurfaceCrib/EdgeShare.swift:102-115 | Two unordered pairs are equal exactly when their points match in one of the two orientations. |
| EdgeShares.NewEdgeShare | SurfaceCrib/EdgeShare.swift:25-32 | A fresh record keeps its end points and has no owners. |
| EdgeShares.AddMate | SurfaceCrib/EdgeShare.swift:49-59 | It fails exactly when `ref2` is filled, with EdgeOverflowError of the record's own end points. Otherwise it appends the owner, filling `ref1` first. |
| EdgeShares.ThirdMateOverflows | SurfaceCrib/EdgeShare.swift:49-59 | Two calls fill the record in order; the third is refused. |
| EdgeShares.HashSwap | SurfaceCrib/EdgeShare.swift:70-94 | Reversing the record keeps its hash. |
| EdgeShares.HashOfKey | SurfaceCrib/EdgeShare.swift:70-94 | Records naming the same undirected edge hash alike. |
| EdgeShares.NotBothSameAndDiffers | SurfaceCrib/EdgeShare.swift:102-133 | `==` and `!=` never both hold. |
| EdgeShares.SameReversed | SurfaceCrib/EdgeShare.swift:102-115 | A record equals its own reversal. |
| EdgeShares.SameSymmetric | SurfaceCrib/EdgeShare.swift:102-115 | With a symmetric distance, `==` is symmetric. |
| EdgeShares.SameIsKeyEquality | SurfaceCrib/EdgeShare.swift:102-115 | When "closer than epsilon" is exact equality, `==` is equality of the unordered end-point pairs. |
| PointPairs.NewPointPair | SurfaceCrib/PointPair.swift:18-31 | The owner slots start empty; no member of the type fills them. |
| PointPairs.HashSwap | SurfaceCrib/PointPair.swift:36-56 | Swapping the two points keeps the hash. |
| PointPairs.NotBothSameAndDiffers | SurfaceCrib/PointPair.swift:64-95 | `==` and `!=` never both hold. |
| PointPairs.NeitherAtTolerance | SurfaceCrib/PointPair.swift:64-95 | The two tests are not complements: points exactly epsilon apart are neither `==` nor `!=`. |
| PointPairs.SameReversed | SurfaceCrib/PointPair.swift:64-77 | A pair equals its reversal. |
| PointPairs.SameSymmetric | SurfaceCrib/PointPair.swift:64-77 | With a symmetric distance, `==` is symmetric. |
| MeshSpec.RecordEdge | SurfaceCrib/Mesh.swift:62-83 | An unknown edge gets `chip` as its one owner, and a one-owned edge gets `chip` as its second. A two-owned edge throws EdgeOverflowError(ptAlpha, ptOmega) and nothing changes. Records stay well formed. |
| MeshSpec.RecordEdgeFrame | SurfaceCrib/Mesh.swift:62-83 | No other edge's record changes. |
| MeshSpec.RecordLegsOwners | SurfaceCrib/Mesh.swift:47-49 | A run of legs that does not throw adds `chip` to each edge once per leg naming it. |
| MeshSpec.RecordLegsNoOverflow | SurfaceCrib/Mesh.swift:47-49 | A run does not throw when no edge would get a third owner. |
| MeshSpec.RecordLegsFailure | SurfaceCrib/Mesh.swift:47-49 | A run that throws stops at the first leg whose edge is already two-owned. |
| MeshSpec.Add | SurfaceCrib/Mesh.swift:45-52 | The facet is appended exactly when no leg throws; otherwise the facet list is unchanged. |
| MeshSpec.AddEffect | SurfaceCrib/Mesh.swift:45-52 | For a valid facet, edges it does not have are untouched. If none of its edges is two-owned, `add` does not throw, and each of its edges then gains it as last owner. |
| MeshSpec.AddFailureKeepsEarlierLegs | SurfaceCrib/Mesh.swift:45-52 | A throwing `add` keeps the legs before the failing one recorded. The failing leg's edge was two-owned, and the error names that leg. |
| MeshSpec.AddKeepsOwnersHoldEdge | SurfaceCrib/Mesh.swift:45-83 | Every owner of a record keeps holding that edge. |
| MeshSpec.AddPointsIsAddOfFacet | SurfaceCrib/Mesh.swift:134-150 | `addPoints` is `add` of the facet the constructor builds. Points the constructor refuses leave the mesh untouched and give its error. |
| MeshSpec.MergeOver | SurfaceCrib/Mesh.swift:90-112 | After a part of the incoming records is merged, the keys are the old ones plus that part. |
| MeshSpec.MergedShape | SurfaceCrib/Mesh.swift:87-116 | A conflict-free merge keeps the records only this mesh has and inserts the records only the other has. Shared edges become two-owned. |
| MeshSpec.MergeMatesOwnFacet | SurfaceCrib/Mesh.swift:102 | As written, a shared edge is mated with its own first owner. The incoming facet is not among its owners. |
| MeshSpec.Absorb | SurfaceCrib/Mesh.swift:87-116 | On success the facets are the old ones followed by the other mesh's, and the keys are the union. |
| MeshSpec.AddToEmpty | SurfaceCrib/Mesh.swift:45-52 | The first facet of an empty mesh gives exactly its three one-owned edges. |
| MeshSpec.MeshFromFourOutcome | SurfaceCrib/Mesh.swift:269-296 | It succeeds exactly when both facets of the chosen split are valid. The split is along A–C when |AC| < |BD| and along B–D otherwise. |
| MeshSpec.MeshFromFourShape | SurfaceCrib/Mesh.swift:269-296 | A successful result has the two facets and five edges. The diagonal is owned by both facets and the four sides by one each. |
| MeshSpec.MeshFromFourIsAdds | SurfaceCrib/Mesh.swift:292-293 | A successful result is the two adds of the split's facets, in order. |
| MeshSpec.QuadFacetsShareDiagonal | SurfaceCrib/Mesh.swift:280-290 | The two facets of a valid split share exactly the diagonal. |
| MeshSpec.LadderRungs | SurfaceCrib/Mesh.swift:180-183 | Rungs 1 … n−1 that do not trap give 2·(n−1) facets and well-formed records. |
| MeshSpec.SkewLadder | SurfaceCrib/Mesh.swift:155-201 | An empty chain traps on the range `1..<lesserCount` and gives `None`. A strip that does not trap has well-formed records. |
| MeshSpec.SkewLadderShape | SurfaceCrib/Mesh.swift:155-201 | A strip that does not trap holds 2·(min−1) facets, plus one when the counts differ. That last facet is the wedge (starboard[w], port[w], longer[w+1]) with w = min − 1. |
| MeshSpec.MatedSegsMembers | SurfaceCrib/Mesh.swift:229-243 | A segment is listed exactly when some visited record with two owners has those end points. |
| MeshSpec.BachSegsMembers | SurfaceCrib/Mesh.swift:246-260 | A segment is listed exactly when some visited record with one owner has those end points. |
| MeshSpec.MatedBachPartition | SurfaceCrib/Mesh.swift:229-260 | Every visited record is listed by exactly one of `getMated` and `getBach`. |
| MeshSpec.EnumerationLength | SurfaceCrib/Mesh.swift:229-260 | Visiting every record once visits as many records as the set holds. |
| Meshes.Mesh.constructor | SurfaceCrib/Mesh.swift:30-37 | A new mesh has no facets and no edges. |
| Meshes.Mesh.RecordEdge | SurfaceCrib/Mesh.swift:62-83 | The edge set after the in-place call, and the error, are those of MeshSpec.RecordEdge. The facets are unchanged. |
| Meshes.Mesh.Add | SurfaceCrib/Mesh.swift:45-52 | The new state and the error are those of MeshSpec.Add, including the legs kept after a throw. |
| Meshes.Mesh.AddPoints | SurfaceCrib/Mesh.swift:134-150 | The new state and the error are those of MeshSpec.AddPoints. |
| Meshes.Mesh.Absorb | SurfaceCrib/Mesh.swift:87-116 | It succeeds exactly when no shared edge conflicts, and then the state is MeshSpec.Absorb. At a conflict the facets are unchanged, the records visited before it are merged, and the error names the conflicting record. |
| Meshes.Mesh.MergeHinges | SurfaceCrib/Mesh.swift:90-112 | The loop over incoming records merges them one at a time and stops at the first conflict. |
| Meshes.Mesh.MergeHinge | SurfaceCrib/Mesh.swift:92-111 | One pass merges the incoming record, or reports the conflict and changes nothing. |
| Meshes.Mesh.MeshFromFour | SurfaceCrib/Mesh.swift:269-296 | The new mesh is MeshSpec.MeshFromFour's, or the call fails with its error. |
| Meshes.Mesh.SkewLadder | SurfaceCrib/Mesh.swift:155-201 | The strip is MeshSpec.SkewLadder's. `None` stands for a trap, either a `try!` or the empty-chain range. |
| Meshes.Mesh.AddRungs | SurfaceCrib/Mesh.swift:180-183 | The rung loop leaves the state LadderRungs describes. |
| Meshes.Mesh.AddWedge | SurfaceCrib/Mesh.swift:186-198 | The wedge facet is added as MeshSpec.AddPointsWedge says. |
| Meshes.Mesh.GetMated | SurfaceCrib/Mesh.swift:229-243 | The result is the two-owned records' segments, in the order the records are visited, and every record is visited once. |
| Meshes.Mesh.GetBach | SurfaceCrib/Mesh.swift:246-260 | The result is the one-owned records' segments, in visiting order, and every record is visited once. |
| CurvesUV.CubicUV.constructor | SurfaceCrib/CurveUV.swift:32-47 | The coefficients are stored and the range is [0, 1]. |
| CurvesUV.CubicUV.FromEnds | SurfaceCrib/CurveUV.swift:51-67 | The range is [0, 1]. `pointAt(0)` is ptA and `pointAt(1)` is ptB. The velocity is slopeA at t = 0 and slopeB at t = 1. |
| CurvesUV.HermiteEnds | SurfaceCrib/CurveUV.swift:53-61 | The coefficient formulas give a cubic with the requested end values and end slopes. |
| CurvesUV.CubicUV.PointAt | SurfaceCrib/CurveUV.swift:91-102 | It succeeds exactly when t is in the range. Otherwise it fails with ParameterRangeErrorUno(t). On success it returns (au·t³+bu·t²+cu·t+du, av·t³+…+dv). |
| CurvesUV.UpperBoundChanged | SurfaceCrib/CurveUV.swift:71-76 | It succeeds exactly when freshUpper ≤ 1 and freshUpper > lower, and then accepts exactly 0 ≤ t ≤ freshUpper. |
| CurvesUV.CubicUV.ChangeUpperBound | SurfaceCrib/CurveUV.swift:71-76 | The range becomes UpperBoundChanged's, or stays with its error. The coefficients are unchanged and the range still starts at 0. |
| CurvesUV.LowerBoundChanged | SurfaceCrib/CurveUV.swift:80-85 | As written, it succeeds exactly when freshLower ≥ 0 and freshLower < upper, and then accepts 0 ≤ t ≤ freshLower. |
| CurvesUV.CubicUV.ChangeLowerBound | SurfaceCrib/CurveUV.swift:80-85 | The range becomes LowerBoundChanged's, or stays with its error. The coefficients are unchanged. |
| CurvesUV.LowerBoundAsWritten | SurfaceCrib/CurveUV.swift:84 | Raising the lower bound of [0, 1] to 0.5 keeps t = 0.25 and refuses t = 0.75. |
| CurvesUV.LowerBoundRaised | SurfaceCrib/CurveUV.swift:80-85 | Same guard as the source. On success it accepts exactly freshLower ≤ t ≤ upper. |
| CurvesUV.UpperBoundMoved | SurfaceCrib/CurveUV.swift:71-76 | Same guard as the source. On success it accepts exactly lower ≤ t ≤ freshUpper. |
| CurvesUV.IntendedBoundsCompose | SurfaceCrib/CurveUV.swift:71-85 | The intended bound changes compose, in either order, to [freshLower, freshUpper]. |
| CurvesUV.CubicUV.DotsFollowCurve | SurfaceCrib/CurveUV.swift:116-127 | Each of the 201 samples is the surface image of an accepted `pointAt` at t = i·(upper − lower)/200, so no call throws. The first sample is the image of the range's start and the last the image of its end. |
| CurvesUV.SamplesInRange | SurfaceCrib/CurveUV.swift:116-124 | Every sample parameter lies in the range, so no `pointAt` behind the samples traps. |
| CurvesUV.CrownIsGreatest | SurfaceCrib/CurveUV.swift:169-177 | The crown is ≥ 0, bounds every point's distance from the chord, and is attained by one point. |
| CurvesUV.Thin | SurfaceCrib/CurveUV.swift:131-154 | The committed samples have strictly increasing indices in 1 … 199. Each closes the first window from its start whose crown exceeds the allowance, and all windows after the last commit stay within it. |
| CurvesUV.CubicUV.Split | SurfaceCrib/CurveUV.swift:107-165 | The first point is the surface image of `pointAt(low)`, followed by the committed samples in order. The image of `pointAt(high)` is appended exactly when it differs from the last point. |
| CurvesUV.CubicUV.Dots | SurfaceCrib/CurveUV.swift:122-127 | `split` samples 201 surface points. |
| ExtentsUV.FromSpotsBounds | SurfaceCrib/ExtentUV.swift:19-33 | For a non-empty array, lower ≤ upper on both axes. Every spot lies inside, and each of the four bounds is some spot's coordinate. |
| ExtentsUV.FromSpotsTightest | SurfaceCrib/ExtentUV.swift:19-33 | Every rectangle holding all the spots holds the extent. |
| ExtentsUV.FromOneSpot | SurfaceCrib/ExtentUV.swift:30-31 | A single spot gives the degenerate rectangle [u, u] × [v, v]. |
| SurfaceMeshes.SurfaceMesh.constructor | SurfaceCrib/SurfaceMesh.swift:29-36 | `verts` and `xedni` start empty and the surface is kept. |
| SurfaceMeshes.SurfaceMesh.Add | SurfaceCrib/SurfaceMesh.swift:41-52 | alpha, beta and gamma are appended to `verts`, and n, n+1, n+2 to `xedni`. The invariant `xedni[i] == i`, with whole triangles, is preserved, and the new last triangle is (alpha, beta, gamma). |
| SurfaceMeshes.SurfaceMesh.Overlap | SurfaceCrib/SurfaceMesh.swift:56-88 | The points are the corners of exactly the whole triangles whose extent overlaps the target, in mesh order. `ind` is as long and every entry is `verts.count − 1`. Nothing in the mesh changes. |
| SurfaceMeshes.Sift | SurfaceCrib/SurfaceMesh.swift:61-84 | The stride-three loop gathers the triangles that pass the test, and its index list is all `verts.count − 1`. |
| SurfaceMeshes.SiftedIsGather | SurfaceCrib/SurfaceMesh.swift:61-84 | What the loop gathers is the passing triangles' corners, taken whole and in order. |
| SurfaceMeshes.KeptIsFilter | SurfaceCrib/SurfaceMesh.swift:61-71 | The selected triangle numbers are exactly those below the count that pass the test, strictly increasing. |
| SurfaceMeshes.GatherTriangles | SurfaceCrib/SurfaceMesh.swift:65-80 | The gathered points are three per triangle: block j is triangle ks[j]. |
| SurfaceMeshes.TriangleCount | SurfaceCrib/SurfaceMesh.swift:61 | The loop visits ⌊count/3⌋ triangles, ignoring a trailing partial one. |
| SurfaceMeshes.PositionsLocate | SurfaceCrib/SurfaceMesh.swift:74-80 | With the corrected indices g−2, g−1, g, each index names in `verts` the point gathered beside it. |
| SurfaceMeshes.OverlapIndicesAsWritten | SurfaceCrib/SurfaceMesh.swift:74-80 | For two overlapping triangles the points are all six corners, but the first index as written names a different point. The corrected indices are 0 … 5. |
| VectorsUV.IsZeroMeaning | SurfaceCrib/VectorSurf.swift:41-47 | A vector is zero exactly when both components are strictly within the tolerance. |
| VectorsUV.Normalize | SurfaceCrib/VectorSurf.swift:20-29 | A vector that counts as zero is left unchanged; any other becomes the library's unit vector. |
| VectorsUV.NormalizeZeroIdempotent | SurfaceCrib/VectorSurf.swift:20-29 | On the zero branch, normalising twice equals normalising once. |
| VectorsUV.SumBundleEmpty | SurfaceCrib/VectorSurf.swift:49-57 | The sum of no vectors is (0, 0). |
| VectorsUV.SumBundleAppend | SurfaceCrib/VectorSurf.swift:49-57 | Appending a vector adds it to the sum. |
| VectorsUV.SumBundleConcat | SurfaceCrib/VectorSurf.swift:49-57 | The sum of a concatenation is the sum of the sums. |
| VectorsUV.SumBundleScale | SurfaceCrib/VectorSurf.swift:49-69 | Scaling every vector scales the sum. |
| VectorsUV.ScaleByOne | SurfaceCrib/VectorSurf.swift:63-69 | Scaling by 1 is the identity. |
| VectorsUV.ScaleByZero | SurfaceCrib/VectorSurf.swift:63-69 | Scaling by 0 gives (0, 0). |
| Geometry.RoundHalfAway | SurfaceCrib/EdgeShare.swift:74-75 | `round` gives an integer within one half of its input. A tie goes away from zero. |
| Geometry.SqDist | SurfaceCrib/Mesh.swift:274-280 | The squared distance is ≥ 0 and is 0 exactly for equal points, so comparing it orders the diagonals as distance does. |

## Left out

- The LAPACK solve (`sgesv_`) in the patch constructor is a foreign call. It is the `solve` parameter of `Bicubics.Init`. Its status output, which the source never checks, and the narrowing to single precision are not modelled.
- Floating point is not modelled: every quantity is an exact real. This covers the single-precision design entries, the rounding of the `g·step` products in the samplers, and the tolerance in the `==` tests.
- The point and vector library is not part of this model. Distances, lengths, unit vectors, cross products of the normal, `Line`, `Transform`, `Bicubic.pointAt(spot:)`, `LineSeg.resolveRelative` and `ExtentUV.isOverlapping` become function parameters. So `normalAt`, `isConvex`, `offsetNormalInter`, `errorToLine`'s projection, `Facet.genNormal` and `VectorSurf.length` are parameters, not definitions.
- BicubicSearches.AimAt: the numeric content of the Newton step is taken from the library parameters. No convergence is claimed, so the expected pierce point of the intersection test is not proved.
- BicubicSearches.Ratio: a step along a zero-length partial is taken as 0. The source divides by zero there.
- BicubicSearches.GetExtent: the three sorts are modelled as the least and greatest coordinate per axis, which is what reading the first and last element after each sort gives.
- BicubicSearches.Stripes requires count ≥ 1. With count 0 the source divides by zero.
- `LineSeg`'s constructor refuses coincident end points. In `getMated`, `getBach`, `stripes` and `crownCalcs` that refusal would be a `try!` trap. The model builds the segment without the check.
- `showCoeff` prints to the console and is not modelled.
- `Mesh.transform` is not modelled: it is `addPoints` of library-transformed points.
- Edge records are keyed by the exact unordered pair of end points instead of the epsilon `==` and the quantised `hashValue`. EdgeShares.SameIsKeyEquality shows that the two agree when "closer than epsilon" means equal.
- Int.hashValue is an arbitrary function parameter (`intHash`).
- EdgeShares.Hash, PointPairs.Hash: the width of Swift's `Int` is not modelled. Neither are the trapping `+` of the hash sum and the trapping `Int(round(_))` conversion of an out-of-range quotient. The sums are unbounded integers, so HashSwap and HashOfKey describe only the hashes the source returns without trapping. With full-width `intHash` values, one orientation's partial sums may overflow where the other's do not.
- Collinearity (`Point3D.isThreeLinear`, used by the facet constructor) is modelled as an exact zero cross product of the two edge vectors, with no library tolerance. `Vector3D.built` and `dotProduct` are exact arithmetic. Facets.LinearSwap and the validity clause of Facets.Reverse rest on this exact test.
- The set iteration order of `absorb`, `getMated` and `getBach` is not fixed. It is a ghost output (`done`, `order`) that the contracts quantify over.
- Every trap of `skewLadderm1` is a `None` result in MeshSpec.SkewLadder and Meshes.Mesh.SkewLadder. These are the `try!` traps of a rung or the wedge, and the trap of the range `1..<lesserCount` on an empty chain.
- CurvesUV.CubicUV.Split: `split` in the source samples t from 0, not from the range's lower bound. Because the lower bound is always 0 (CubicUV.Valid), the two agree; the model keeps the source's form.
- CurvesUV.Thin and SurfaceMeshes.Sift are the loops of `split` and `overlap`, lifted into their own methods with the per-window or per-triangle test passed in.
- The two `testPartV` and `testNormal` assertions of BicubicTests.swift (lines 197-210) are not stated. The first calls `partV(0,0)` but expects the value at (0,1). The second calls a throwing function without `try`.
- The application files (`Sculpt.swift`, `Easel.swift`, `ViewController.swift`, `writeSTL.swift`) and the performance test are not part of this model: they are drawing, demo wiring and file output.

## Findings

| source | as written | input that shows it | evidently intended | confidence | as-written member | corrected member |
|---|---|---|---|---|---|---|
| SurfaceCrib/CurveUV.swift:84 | `changeLowerBound` sets the range to [0, freshLower]: the new lower bound becomes the upper bound | range [0, 1], freshLower 0.5: the range becomes [0, 0.5], keeping t = 0.25 and refusing t = 0.75 | the range [freshLower, upper] | high; not executed | CurvesUV.LowerBoundAsWritten | CurvesUV.LowerBoundRaised |
| SurfaceCrib/SurfaceMesh.swift:74-80 | `overlap` appends `verts.count − 1` as the index of every selected corner | six corners, two triangles both overlapping: `ind` is [5, 5, 5, 5, 5, 5], and verts[5] is not the first returned point | the corner positions g−2, g−1, g ([0, 1, 2, 3, 4, 5] here) | high; not executed | SurfaceMeshes.OverlapIndicesAsWritten | SurfaceMeshes.PositionsLocate |
