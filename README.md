# Swept-mesh generator: a Dafny model of its exact core

The repository builds a 3D mesh by sweeping a cross-section along a
parametric curve. Cubic Hermite segments and a clamped cubic spline pass
through user-placed nodes. A small dense LU solver solves the spline's
tridiagonal system. The cross-section is either a box, a tube, or a custom
profile cut from an existing mesh. The curve is resampled at even arc
length, the node normals are carried along it, and the routines that fill
the vertex and triangle buffers are driven by a running counter and a
`points[step, profile, slot]` table.

This project models the parts of that core that over the reals are exact
and can be stated precisely:

* `bezier.dfy` (module `Bezier`): divided differences, the change from the
  Newton basis to the power basis, evaluation and differentiation, the
  piecewise position and derivative tables, and the spline system.
  * Proved: interpolation at the nodes, exactness of the basis change, the
    formal derivative, and that spline slopes give curvature continuity.
* `matrix.dfy` (module `Matrix`): `Identity`, the in-place LU
  decomposition, forward and back substitution, and `Solve`.
  * Proved: `L * U == A` (L unit-lower and U upper triangular) and `M x == b`.
* `processmesh.dfy` (module `ProcessMesh`): classifying triangles into
  boundary edges and cap faces, choosing the first edge, chaining the
  outline, re-indexing the cap, and `Unique`.
* `curvesteps.dfy` (module `CurveSteps`): Simpson arc length,
  even-arc-length resampling of t, and the width samples.
* `stepnormals.dfy` (module `StepNormals`): vector rejection
  (`PlaneProject`), the bucket partition of the t steps, and the carried and
  blended normals.
* `tessellation.dfy` (module `Tessellation`): vertex and triangle
  bookkeeping of the box, tube and custom routines.
  * Buffer sizes are given in closed form.
  * Every written grid slot gets exactly one vertex.
  * Every triangle names three vertices of one face at neighbouring grid
    points, or three corners of one cap.
  * The custom end cap is the start cap reversed.
* `curve.dfy` (module `Curve`): the `ParametricCurve` object with its
  settings and setters, and `makeVertsAndFaces`. That routine runs the
  resampling, the normals and one of the three tessellations.
* `common.dfy` (module `Common`): `Option`, the vector types and the
  first-occurrence deduplication shared by `Unique` and the cap re-indexing.

All numbers are Dafny `real`: the source's `float` arithmetic is modelled
as exact. The curve's coordinate functions are parameters:

* `speed` is the derivative's length, which the arc length integrates.
* `tangent` is the derivative, along which normals are projected.
* `theta`, `round` (for `Math.Round`) and `blend` (for the sin² easing of
  `Interpolate`) are also parameters.

A vertex is modelled by what it was produced for: grid step, profile
column and slot, or cap corner. Its position, UV, normal and tangent are
not modelled.

## Model

| member | source | states |
|---|---|---|
| Bezier.HermiteInterpolates | Components/Bezier.cs:9-34 | for tStart ≠ tEnd the Newton cubic of the divided differences takes the start and end positions at tStart and tEnd and has the start and end directions as its slope there |
| Bezier.DivDiff | Components/Bezier.cs:9-26 | the array overwritten in place holds exactly the divided-difference coefficients, so it interpolates both values and both slopes |
| Bezier.NewtToStandExact | Components/Bezier.cs:28-44 | the power-basis coefficients evaluate to the same value as the Newton form at every t |
| Bezier.NewtToStandDerivative | Components/Bezier.cs:28-44 | the formal derivative of the power form equals the derivative of the Newton form at every t |
| Bezier.NewtToStandSecondDerivative | Components/Bezier.cs:28-44 | differentiating the power form twice gives the Newton form's second derivative |
| Bezier.EvalStand | Components/Bezier.cs:46-54 | the running-power accumulation returns the value of the coefficient polynomial at t |
| Bezier.StandDerivative | Components/Bezier.cs:56-62 | returns length−1 entries with entry i equal to c[i+1]·(i+1), the formal derivative |
| Bezier.FormalDerivative | Components/Bezier.cs:56-62 | the formal derivative has one coefficient fewer than a nonconstant polynomial |
| Bezier.Segment | Components/Bezier.cs:68-72 | the truncated, clamped segment index lies in [0, n−1]; t < 1 gives segment 0, t ≥ n gives n−1, and inside [0, n) the segment is ⌊t⌋ |
| Bezier.EvalPiecewise | Components/Bezier.cs:68-78 | evaluates the row of the selected segment at t |
| Bezier.LambdasFromNodes | Components/Bezier.cs:80-95 | fills one row per node pair with the Hermite segment over [i, i+1] and a second table with its derivative |
| Bezier.FillRow | Components/Bezier.cs:84-92 | one loop pass stores segment i and its derivative in row i and keeps the earlier rows |
| Bezier.BuildSegment | Components/Bezier.cs:85-86 | the segment's coefficients come from the divided differences and the basis change, and its derivative from StandDerivative |
| Bezier.StoreSegment | Components/Bezier.cs:87-91 | the copy into row i changes row i only |
| Bezier.TablesStored | Components/Bezier.cs:84-95 | once all rows are stored the arrays are the segment and derivative tables |
| Bezier.SegmentEnds | Components/Bezier.cs:80-95 | segment k starts at node k and ends at node k+1 with the nodes' positions and directions |
| Bezier.NodesInterpolated | Components/Bezier.cs:68-95 | with two nodes or more, the position function equals positions[i] and the derivative function equals directions[i] at every node i; the last node comes from the last segment's end |
| Bezier.TriMatrix | Components/Bezier.cs:112-124 | with unit spacing the system is square with 4 on the diagonal, 1 beside it and 0 elsewhere |
| Bezier.TriSolvable | Components/Bezier.cs:112-131 | every pivot of that matrix, the last included, is nonzero (each is at least 3), so Solve never fails on it |
| Bezier.TriElimStep | Components/Bezier.cs:129 | eliminating pivot i of the tridiagonal matrix gives the next stage in closed form |
| Bezier.TriDoolittle | Components/Bezier.cs:129 | the decomposition of the tridiagonal matrix succeeds with the known pivots |
| Bezier.TriRowDot | Components/Bezier.cs:112-124 | row i of the system times x is the neighbours plus four times the middle |
| Bezier.SplineRhs | Components/Bezier.cs:112-126 | the right-hand side has n−2 entries: three times the central differences, with sStart taken off the first and sEnd off the last |
| Bezier.RhsAdjusted | Components/Bezier.cs:123-126 | the source's two end adjustments give exactly that right-hand side |
| Bezier.SplineFromSystem | Components/Bezier.cs:128-134 | a solution of the interior system, framed by the end slopes, satisfies the clamped spline equation at each interior node |
| Bezier.Spline | Components/Bezier.cs:97-137 | for n ≥ 3 returns n slopes, s[0] = sStart and s[n−1] = sEnd, satisfying the spline equations |
| Bezier.Spacings | Components/Bezier.cs:100-110 | the spacings are all 1 and the chord slopes are the consecutive differences |
| Bezier.SplineSystem | Components/Bezier.cs:112-126 | the assembled A is the tridiagonal matrix and b is the adjusted right-hand side |
| Bezier.TridiagonalRow | Components/Bezier.cs:114-121 | row i receives the tridiagonal entries and no other row changes |
| Bezier.SolveInterior | Components/Bezier.cs:129 | the call to Solve returns a vector, and it satisfies the spline equations once framed |
| Bezier.FrameSlopes | Components/Bezier.cs:128-134 | the slopes are sStart, then the interior solution, then sEnd |
| Bezier.SplineIsC2 | Components/Bezier.cs:97-137 | at an interior node the two adjacent segments have equal second derivatives exactly when the spline equation holds there |
| Bezier.SplineSegmentsJoin | Components/Bezier.cs:97-137 | slopes satisfying the spline equations give a curve whose second derivative is continuous at every interior node |
| Matrix.Identity | Components/Matrix.cs:20-32 | a fresh n×n array with 1 exactly where i == j and 0 elsewhere |
| Matrix.LUDecomposition | Components/Matrix.cs:34-55 | on a non-square input returns null and leaves A unchanged; otherwise L is non-null exactly when the factorisation succeeds, A becomes its U and L its L |
| Matrix.FactorSquare | Components/Matrix.cs:37-54 | the elimination loop on a square array computes the functional factorisation |
| Matrix.PivotStep | Components/Matrix.cs:40-50 | a zero pivot before the last row stops with a failed factorisation; otherwise one column below the pivot is eliminated |
| Matrix.EliminatePivot | Components/Matrix.cs:44-50 | all rows below pivot i are eliminated and their multipliers recorded in column i of L |
| Matrix.EliminateRow | Components/Matrix.cs:45-49 | row j gets its multiplier in L[j,i], a zero at A[j,i], and loses the multiple of the pivot row; the other rows are kept |
| Matrix.SubtractPivotRow | Components/Matrix.cs:47-49 | only row j changes, from column i+1 on |
| Matrix.EliminateColumn | Components/Matrix.cs:44-50 | below the pivot, column i becomes 0 and each later entry loses multiplier times pivot-row entry; rows up to the pivot are kept |
| Matrix.RecordMultipliers | Components/Matrix.cs:45 | L changes only in column i below the diagonal, where it gets A[j,i]/A[i,i] |
| Matrix.LUCorrect | Components/Matrix.cs:34-55 | a successful decomposition gives a unit lower triangular L and an upper triangular U with L·U equal to the original A |
| Matrix.PartialFactorStep | Components/Matrix.cs:39-52 | each pivot step keeps A = L·(current matrix) on the finished part, with zeros below the diagonal in the eliminated columns |
| Matrix.DoolittlePivots | Components/Matrix.cs:39-52 | finished rows are final, and failure happens exactly at a zero checked pivot |
| Matrix.LUFailsIffZeroPivot | Components/Matrix.cs:39-43 | the decomposition fails exactly when one of the pivots 0 .. n−2 of the result is zero; the last pivot is never checked |
| Matrix.LUIdentity | Components/Matrix.cs:20-55 | the identity factors as I·I |
| Matrix.ForwardSubstitution | Components/Matrix.cs:57-68 | with a nonzero diagonal, each row i of L times y over columns 0 .. i equals b[i] |
| Matrix.BackSubstitution | Components/Matrix.cs:70-81 | with a nonzero diagonal, each row i of U times x over columns i .. n−1 equals y[i] |
| Matrix.Solve | Components/Matrix.cs:83-93 | corrected (see Findings): returns None exactly when A is not square, the decomposition fails (a zero pivot among 0 .. n−2), or b has all n entries and the last pivot is zero; a shorter b never reaches the last pivot and is solved; otherwise x has one entry per entry of b and solves the leading k×k block of the original M, k the length of b, which is M x = b when k = n; a square A is left holding the U factor of the original, a non-square one is unchanged |
| Matrix.Substitute | Components/Matrix.cs:89-92 | with the pivots that b's rows reach nonzero, forward then back substitution with the factors of M solves M x = b, and for a shorter b the leading block of M of b's size |
| Matrix.Leading | Components/Matrix.cs:57-81 | the leading k×k block, the part of the factors a right-hand side of length k reaches, agrees with M there |
| Matrix.LeadingProduct | Components/Matrix.cs:34-55 | the leading k×k blocks of a unit lower L and an upper U with L·U = M are unit lower and upper triangular and multiply to M's leading block |
| Matrix.LeadingLower | Components/Matrix.cs:57-68 | the forward-substitution equations of the first rows, one per entry of b, are those of the leading block of L |
| Matrix.LeadingUpper | Components/Matrix.cs:70-81 | the back-substitution equations over the first rows and columns, one per entry of y, are those of the leading block of U |
| Matrix.LeadingSubstituted | Components/Matrix.cs:83-93 | substituting with the first rows of the factors, one per entry of b, is substitution with the leading blocks' factors, which meet SolveCorrect's premises |
| Matrix.LeadingSolve | Components/Matrix.cs:83-93 | for a b shorter than n, the two substitutions' y and x solve the leading block of M of b's size |
| Matrix.SolveCorrect | Components/Matrix.cs:83-93 | for triangular factors with L·U = M, L y = b and U x = y give M x = b |
| Matrix.SolveIdentity | Components/Matrix.cs:83-93 | solving against a fresh identity returns the right-hand side |
| Matrix.LastPivotUnchecked | Components/Matrix.cs:39-43 | [[1,1],[1,1]] passes the decomposition as written although its last pivot is 0, so back substitution of a length-2 b would divide by zero |
| ProcessMesh.KindFromCorners | Components/ProcessMesh.cs:40-62 | counting on-plane corners gives an edge for two (reversed when the middle corner is off the plane), a cap face for three and nothing otherwise |
| ProcessMesh.GetPairsAndFaces | Components/ProcessMesh.cs:35-65 | returns the boundary edges and cap faces of all triangles, in triangle order |
| ProcessMesh.ClassifyTriangle | Components/ProcessMesh.cs:40-62 | one triangle adds its edge, its face or nothing |
| ProcessMesh.CornersOnPlane | Components/ProcessMesh.cs:43-52 | the inner loop collects the on-plane corners in order and notes whether the middle corner is off the plane |
| ProcessMesh.PairsAndFacesBound | Components/ProcessMesh.cs:39-63 | the edges and faces together are at most the number of triangles |
| ProcessMesh.GetFirst | Components/ProcessMesh.cs:67-81 | returns the start of the first edge that no edge ends at; if there is none, the start of the first edge; the result is always some edge's start |
| ProcessMesh.TakeEdge | Components/ProcessMesh.cs:113-139 | an edge that starts at the last point appends its end, completes the last UV pair with the v of the edge's start, opens (v of its end, 0), and does the same with the projected normals; one that ends there appends its start and leaves UVs and normals as they were; a used edge is removed; otherwise nothing changes |
| ProcessMesh.SeamUVs | Components/ProcessMesh.cs:102-119 | the loop's UV list has at least one pair and at most one more than the used edges |
| ProcessMesh.SeamNormals | Components/ProcessMesh.cs:103-119 | likewise the loop's normal list |
| ProcessMesh.SeamStart | Components/ProcessMesh.cs:114-119 | an edge matched at its start extends the loop's UV and normal lists by CloseAndOpen with its start's and end's values |
| ProcessMesh.SeamEnd | Components/ProcessMesh.cs:128-132 | an edge matched at its end leaves both lists as they were |
| ProcessMesh.SeamsClosedForm | Components/ProcessMesh.cs:100-141 | the lists built that way are, pair by pair, the closed form: pair j runs from the v of the (j−1)-th start-matched edge's end to the v of the j-th's start, the first beginning with 0, the last ending with 0, and with no such edge the single pair is (0, v of the first vertex); likewise for the normals |
| ProcessMesh.SeamsSnoc | Components/ProcessMesh.cs:116-119 | CloseAndOpen on the closed form for S gives the closed form for S with one more edge |
| ProcessMesh.UVPairSnoc | Components/ProcessMesh.cs:116-117 | one more start-matched edge completes the last UV pair with its start's v and opens a new one with its end's; earlier pairs are kept |
| ProcessMesh.NormalPairSnoc | Components/ProcessMesh.cs:118-119 | the same for the normal pairs |
| ProcessMesh.Starts | Components/ProcessMesh.cs:114-119 | the edges matched at their start are as many as the start matches, valid, and drawn from the used edges |
| ProcessMesh.StartsSnoc | Components/ProcessMesh.cs:114-132 | one more used edge adds itself to the start-matched edges exactly when it matched at its start |
| ProcessMesh.LinkStep | Components/ProcessMesh.cs:113-132 | removing an edge that joins the last point to q and appending q keeps the outline starting at the first vertex, linked edge by edge, with removed and remaining edges making up the original ones |
| ProcessMesh.ScanStep | Components/ProcessMesh.cs:108-140 | one iteration either stops after the last edge or tries edge i, and keeps the chaining invariant |
| ProcessMesh.ChainBoundary | Components/ProcessMesh.cs:100-141 | the outline starts at the first vertex and each step follows a removed edge; removed and remaining edges make up the original ones; at most one point is added per edge and UVs and normals are no longer than points; UV pair j and normal pair j have the closed form over the edges matched at their start; it stops on closure, when no edge touches the last point, or after 1000 steps |
| ProcessMesh.ChainDone | Components/ProcessMesh.cs:105-141 | what the loop state gives once the loop has stopped |
| ProcessMesh.UsedEdgesFollow | Components/ProcessMesh.cs:105-141 | edges removed one per step, each linking consecutive points, show the outline follows the boundary edges |
| ProcessMesh.RemoveAt | Components/ProcessMesh.cs:120-131 | removing entry i drops exactly one copy of it and keeps the rest valid |
| ProcessMesh.AddCorner | Components/ProcessMesh.cs:146-151 | a corner not seen before gets the next cap vertex and UV; every corner becomes its cap vertex's index |
| ProcessMesh.ReindexFace | Components/ProcessMesh.cs:145-152 | the three corners of one face are re-indexed |
| ProcessMesh.ReindexCorners | Components/ProcessMesh.cs:143-153 | the cap lists follow the distinct corners in first-use order, and each corner becomes the position of its vertex among them |
| ProcessMesh.ReindexCap | Components/ProcessMesh.cs:143-153 | there are 3·faces cap triangle entries, each below the number of cap vertices; cap vertex n and its UV are the n-th distinct corner's, in first-use order |
| ProcessMesh.Flatten | Components/ProcessMesh.cs:144-145 | the face corners, face after face, are 3·faces in-range indices |
| ProcessMesh.FlattenAt | Components/ProcessMesh.cs:144-145 | corner k of face j sits at position 3j+k |
| ProcessMesh.GetPointsUVsAndCap | Components/ProcessMesh.cs:83-156 | None exactly when the mesh has no boundary edge; otherwise the outline starts at the vertex GetFirst picks, follows the edges and has at most one point more than there are edges; UVs and normals are no longer than the points and have the closed form over some of the edges, taken from the first vertex; the cap is the re-indexed cap faces |
| ProcessMesh.Unique | Components/ProcessMesh.cs:23-33 | the loop returns the first-occurrence deduplication of the list |
| ProcessMesh.UniqueProperties | Components/ProcessMesh.cs:23-33 | the result has no duplicates, holds exactly the input's points, and keeps their first-occurrence order |
| Common.DedupStep | Components/ProcessMesh.cs:25-31 | one more element is appended exactly when it has not been seen |
| Common.DedupElements | Components/ProcessMesh.cs:23-33 | the deduplication holds exactly the elements of the prefix, each once |
| Common.DedupOrder | Components/ProcessMesh.cs:23-33 | the kept elements are in the order of their first occurrence |
| StepNormals.ProjectOrthogonal | Components/ParametricCurve.cs:228-232 | for a nonzero direction the projection is orthogonal to it |
| StepNormals.ProjectIdempotent | Components/ParametricCurve.cs:228-232 | projecting twice is projecting once |
| StepNormals.ProjectKeepsPlane | Components/ParametricCurve.cs:228-232 | a vector already orthogonal to the direction is unchanged |
| StepNormals.ProjectScaleInvariant | Components/ParametricCurve.cs:228-232 | scaling the direction by a nonzero factor, such as its normalisation, does not change the result |
| CurveSteps.ArcLength | Components/ParametricCurve.cs:234-249 | the loop sums Simpson's rule over the NUM_INTERVALS micro-intervals of [t1, t2] |
| CurveSteps.SimpsonPiece | Components/ParametricCurve.cs:242-246 | one Simpson term, with the speed at the interval's end carried over |
| CurveSteps.ArcSumMono | Components/ParametricCurve.cs:241-247 | with a non-negative speed the partial sums are non-negative and never decrease |
| CurveSteps.ArcLengthNonNegative | Components/ParametricCurve.cs:234-249 | the arc length is non-negative for a non-negative speed |
| CurveSteps.StepInside | Components/ParametricCurve.cs:264 | micro-interval i ends inside [lower, upper] exactly when i ≤ NUM_INTERVALS, so the loop makes NUM_INTERVALS passes |
| CurveSteps.TSteps | Components/ParametricCurve.cs:251-287 | returns the resampled steps, at least two, starting with lower, ending with upper and nondecreasing |
| CurveSteps.WalkIntervals | Components/ParametricCurve.cs:258-286 | the walk with its early return computes the resampled steps and fraction |
| CurveSteps.LoopBody | Components/ParametricCurve.cs:264-281 | one pass either ends early with the resampled steps and fraction 1, or keeps the loop resumable |
| CurveSteps.MicroInterval | Components/ParametricCurve.cs:265-279 | the loop body performs one step of the walk: it records the nearer end of a crossed micro-interval and ends early when the target meets the total |
| CurveSteps.FinishWalk | Components/ParametricCurve.cs:282-285 | after the last micro-interval, upper is appended and the fraction of the last step is reported |
| CurveSteps.ResampleShape | Components/ParametricCurve.cs:251-287 | on both exits the steps start at lower, end at upper, never decrease and stay in [lower, upper]; there are 2 .. NUM_INTERVALS+2 of them, and the early exit reports fraction 1 |
| CurveSteps.WalkToShape | Components/ParametricCurve.cs:264-281 | after each micro-interval the recorded steps start at lower, stay sorted and stay below its end |
| CurveSteps.WalkStays | Components/ParametricCurve.cs:277-280 | once the walk has ended it stays as it was |
| CurveSteps.ResumeIsResample | Components/ParametricCurve.cs:264-286 | resuming the walk where it stands gives the resampled result |
| CurveSteps.WidthSteps | Components/ParametricCurve.cs:289-305 | the samples are 0, step, 2·step, … while below width−EPSILON, then width itself |
| CurveSteps.WidthSamplesUnique | Components/ParametricCurve.cs:289-305 | at most one list meets that description |
| CurveSteps.WidthBelow | Components/ParametricCurve.cs:295-300 | every sample but the last is below width−EPSILON |
| StepNormals.DivisionIndices | Components/ParametricCurve.cs:314-321 | the list built is the division indices: 0, each step index whose t reaches the count so far, then the last index |
| StepNormals.ScanShape | Components/ParametricCurve.cs:314-320 | the scan starts at 0, never decreases and stays below the steps scanned |
| StepNormals.Divisions | Components/ParametricCurve.cs:314-321 | the indices cut the steps 0 .. Count−1 into consecutive half-open buckets from 0 to Count−1 |
| StepNormals.BucketOf | Components/ParametricCurve.cs:323-339 | every step below the last lies in a bucket |
| StepNormals.BucketUnique | Components/ParametricCurve.cs:323-339 | and in one bucket only |
| StepNormals.CarryForward | Components/ParametricCurve.cs:325-326 | the forward normal of step j comes from the bucket's node normal or from step j−1's, projected; nothing else changes |
| StepNormals.CarryBackward | Components/ParametricCurve.cs:328-330 | the backward normal of step k comes from the next node normal or from step k+1's, projected; nothing else changes |
| StepNormals.ProjectBucket | Components/ParametricCurve.cs:324-331 | the first inner loop fills both carried normals of every step of the bucket |
| StepNormals.MergeBucket | Components/ParametricCurve.cs:333-338 | the second inner loop blends them with the step's coefficient, eased in mode 1, and leaves earlier steps alone |
| StepNormals.CarriedOrthogonal | Components/ParametricCurve.cs:323-332 | every carried normal is orthogonal to the tangent at its step |
| StepNormals.MergedEnds | Components/ParametricCurve.cs:334-337 | coefficient 0 gives the forward normal and coefficient 1 the backward one |
| StepNormals.BucketNormals | Components/ParametricCurve.cs:322-340 | every step of a bucket gets that bucket's blended normal |
| StepNormals.GetStepNormals | Components/ParametricCurve.cs:311-344 | returns one normal per t step, the blended normal of its bucket, and the last node's normal at the last step |
| Tessellation.VertexCount | Components/ParametricCurve.cs:635-743 | the vertex pass writes a closed-form number of grid vertices; the same holds for the tube loop (lines 871-948) and the custom loop (lines 498-544) |
| Tessellation.TriangleCount | Components/ParametricCurve.cs:751-827 | the face pass emits a closed-form number of grid triangles; the same holds for the tube loop (lines 955-1027) and the custom loop (lines 569-583) |
| Tessellation.VertexAllocationExact | Components/ParametricCurve.cs:614-616 | for the box, and likewise for the tube (lines 847-848) and the custom profile (line 479), the vertex buffer holds exactly the grid vertices (plus the two custom caps), except for a one-column box with both side faces, which leaves 2·numTSteps entries unused |
| Tessellation.TriangleAllocationFits | Components/ParametricCurve.cs:950-952 | the tube's triangles and the custom profile's (line 566) fit their buffers under every face setting, and so do the box's with the corrected allocation |
| Tessellation.BoxTriangleAllocationCorrection | Components/ParametricCurve.cs:745-748 | the corrected box length adds two triangles per enabled top or bottom face |
| Tessellation.BoxTriangleAllocationAsWrittenShort | Components/ParametricCurve.cs:745-748 | as written, the box triangle buffer is too short exactly when top or bottom is on and left, right, start and end are all off |
| Tessellation.BoxTopOnlyOverflows | Components/ParametricCurve.cs:745-827 | a 2×2 box with only its top face gets a zero-length triangle buffer but emits two triangles |
| Tessellation.VertexGrid | Components/ParametricCurve.cs:635-743 | after the vertex pass the written slots and the first k vertices correspond one to one through points |
| Tessellation.VertexRow | Components/ParametricCurve.cs:637-742 | one row of the vertex pass advances the counter by the row's count and keeps that correspondence |
| Tessellation.VertexPassDone | Components/ParametricCurve.cs:635-743 | the finished pass produced distinct vertices for exactly the written slots, and points names each one |
| Tessellation.FaceGrid | Components/ParametricCurve.cs:751-827 | the face pass emits the counted triangles, each well formed, and leaves the rest of the buffer zero |
| Tessellation.FaceRow | Components/ParametricCurve.cs:753-826 | one row of the face pass emits its cells' triangles |
| Tessellation.BoxFaceCell | Components/ParametricCurve.cs:754-825 | box cell (i, j) emits its start, end, right, left, top and bottom triangles, each naming three vertices of one face at neighbouring grid points |
| Tessellation.TubeFaceCell | Components/ParametricCurve.cs:958-1025 | tube cell (i, j) emits its cap, top and bottom triangles, each well formed |
| Tessellation.CustomFaceCell | Components/ParametricCurve.cs:573-582 | custom cell (i, j) stitches the two profile copies into one strip |
| Tessellation.StartCap | Components/ParametricCurve.cs:585-587 | the start cap's triangles are the cap mesh's entries offset by the start cap's first index |
| Tessellation.EndCap | Components/ParametricCurve.cs:589-594 | the end cap's triangles are each cap triangle with its corners reversed, offset by the end cap's first index |
| Tessellation.EndCapTriangle | Components/ParametricCurve.cs:590-593 | the inner loop writes corners i+2, i+1, i |
| Tessellation.CapVertices | Components/ParametricCurve.cs:546-564 | the cap loop adds one vertex per cap corner after the grid and changes nothing else |
| Tessellation.PlaceCaps | Components/ParametricCurve.cs:546-564 | the start cap's corners follow the grid vertices, then come the end cap's |
| Tessellation.SweepMesh | Components/ParametricCurve.cs:597-1027 | box and tube: buffers of the allocated lengths, one vertex per written slot, and well-formed triangles naming those vertices |
| Tessellation.CustomMesh | Components/ParametricCurve.cs:460-594 | custom profile: two vertices per grid point, then both caps' corners; the strip triangles, then the start cap's and the end cap's reversed triangles, all in the buffers |
| Tessellation.CustomVertices | Components/ParametricCurve.cs:479-564 | the custom vertex buffer: grid vertices, then both caps |
| Tessellation.CustomFaces | Components/ParametricCurve.cs:566-594 | the custom triangle buffer: strip, start cap, end cap |
| Curve.ParametricCurve.constructor | Components/ParametricCurve.cs:61-105 | the settings are the source's defaults and no mesh has been built yet |
| Curve.ParametricCurve.SetShape | Components/ParametricCurve.cs:107-109 | sets the shape mode and nothing else |
| Curve.ParametricCurve.SetAngleInterpolationMode | Components/ParametricCurve.cs:111-113 | sets the interpolation mode and nothing else |
| Curve.ParametricCurve.SetNormals | Components/ParametricCurve.cs:115-117 | sets the node normals and nothing else |
| Curve.ParametricCurve.SetTheta | Components/ParametricCurve.cs:119-121 | sets theta and nothing else |
| Curve.ParametricCurve.SetTRange | Components/ParametricCurve.cs:123-126 | sets lower and upper and nothing else |
| Curve.ParametricCurve.SetStepLength | Components/ParametricCurve.cs:128-130 | sets the step length and nothing else |
| Curve.ParametricCurve.SetBoxSize | Components/ParametricCurve.cs:132-136 | sets width, width step and height and nothing else |
| Curve.ParametricCurve.SetRadius | Components/ParametricCurve.cs:138-141 | sets both radii and nothing else |
| Curve.ParametricCurve.SetCustom | Components/ParametricCurve.cs:143-148 | sets the custom profile, its UVs and normals, and the cap, and nothing else |
| Curve.ParametricCurve.SetDivisions | Components/ParametricCurve.cs:157-159 | sets the tube divisions and nothing else |
| Curve.ParametricCurve.SetOffset | Components/ParametricCurve.cs:161-164 | sets both offsets and nothing else |
| Curve.ParametricCurve.SetRound | Components/ParametricCurve.cs:166-168 | sets the rounding length and nothing else |
| Curve.ParametricCurve.SetUVScale | Components/ParametricCurve.cs:170-172 | sets the UV scale and nothing else |
| Curve.ParametricCurve.SetUVOffset | Components/ParametricCurve.cs:174-176 | sets the UV offset and nothing else |
| Curve.ParametricCurve.SetFaces | Components/ParametricCurve.cs:178-185 | sets the six face switches and nothing else |
| Curve.StepsAndNormals | Components/ParametricCurve.cs:467-475 | the resampled t steps (at least two, from lower to upper) and one normal per step as GetStepNormals gives it |
| Curve.Dispatch | Components/ParametricCurve.cs:346-355 | shape mode 0 builds the box over the width samples, 1 the tube over divisions+1 columns, anything else the custom profile; the result is that shape's mesh |
| Curve.Generate | Components/ParametricCurve.cs:346-355 | resampling and normals, then the dispatched tessellation |
| Curve.ParametricCurve.MakeVertsAndFaces | Components/ParametricCurve.cs:346-355 | stores fresh vertex and triangle buffers that form the chosen shape's mesh for the settings before the call |

## Left out

- Geometry of vertices (positions, UVs, mesh normals, tangents) and the trigonometry behind them (`perp`, `AngleFromVector`, the tube ring's cosine and sine, Unity's normalisation): vertices are modelled by the slot they were produced for, because these are floating-point computations without an exact statement.
- `Math.Round` in the length adjustment and the sin² easing of `Interpolate` are parameters (`round`, `blend`); the curve's speed and tangent are independent parameters, and their relation through the derivative is not modelled.
- Float arithmetic: all numbers are exact reals, so `t += stepSize` accumulation, rounding and Unity's approximate `Vector2`/`Vector3` equality are not modelled; the on-plane test `x < EPSILON` is exact.
- CurveSteps.LengthAdjustment: a zero rounded length, where the source divides by zero and gets a non-finite float, is `None`. With a positive step length the source's target is then +∞ or NaN, so every comparison with it fails, as the model's `None` does. With a negative step length the target would be −∞ and every comparison would succeed; `Curve.Ready` requires a positive step length, which the editor guarantees by clamping it to at least 0.01 (Editor/CurveMaker.cs:479-480 and Editor/CurveMaker.cs:507-508).
- CurveSteps.TSteps: requires lower < upper, because with lower == upper the source's loop never advances t and does not terminate.
- CurveSteps.ArcLength: requires t1 ≤ t2 and uses only the NUM_INTERVALS interval count, its one call site under the modelled settings.
- CurveSteps.WidthSteps: requires a positive width step (or a width already within EPSILON of 0), because otherwise the source's loop does not terminate.
- The `!evenStepLength` branches of the three routines: evenStepLength is set true by the constructor and no setter changes it; with it false the source passes a null step list to `GetStepNormals`. `Curve.Ready` requires it.
- Matrix.Solve: returns None when b has all n entries and the last pivot is zero, where the source's back substitution divides by zero (see Findings); a shorter b stops above the last row, and the model returns its solution as the source does. For a square A it requires b to have at most n entries, so the IndexOutOfRangeException the source's forward substitution throws at Components/Matrix.cs:63-65 when b is longer is not modelled.
- Bezier.Spline: requires n ≥ 3. For n = 2 the source throws at Components/Bezier.cs:125, since b has no entry 0; the editor reaches two nodes when it auto-positions them (Editor/CurveMaker.cs:342-358) and when deleting stops at two (Editor/CurveMaker.cs:164). For n = 1 and n = 0 the allocations at Components/Bezier.cs:112 and Components/Bezier.cs:105 throw OverflowException.
- ProcessMesh.GetPointsUVsAndCap: requires `ValidMesh`, which gives every vertex a UV and a normal. A mesh without UVs or normals has empty arrays, and the source then throws IndexOutOfRangeException at Components/ProcessMesh.cs:102-103 (and at lines 116-119); that exception is not modelled.
- Bezier.Truncate: C#'s `(int) t` (Components/Bezier.cs:70) is modelled as exact truncation toward zero; for a t of magnitude 2^31 or more the C# cast gives a platform-dependent value, which is not modelled. The curve only evaluates t in [0, n−1].
- Curve.ParametricCurve.MakeVertsAndFaces: requires `Curve.Ready`, which includes enough node normals for every occupied bucket (the source indexes past the end of its array otherwise), a non-negative division count for the tube, a positive step length, and, for the custom profile, a non-empty profile with at least one UV pair and one normal pair per profile point, and a cap whose triangle list is whole triangles of existing corners with at least one UV per corner. So the model does not cover the source's exceptions when the lists are shorter: ArgumentOutOfRangeException reading `customUVs[j]` and `customNormals[j]` (Components/ParametricCurve.cs:529-540) and IndexOutOfRangeException reading the cap UVs (Components/ParametricCurve.cs:553 and 563). The editor passes the outline of `GetPointsUVsAndCap` straight to `SetCustom` (Editor/CurveMaker.cs:273-279), and that outline has fewer UV and normal pairs than points whenever the chain takes an edge at its end (Components/ProcessMesh.cs:128-138), so that path reaches the exception.
- ProcessMesh.ChainBoundary: the contract says each step follows some remaining edge that touches the last point, not that it is the lowest-indexed such edge of the current list, which the source takes before restarting its scan at index 0 (Components/ProcessMesh.cs:108-137). `TakeEdge` and `ScanStep` do take that edge, but the top-level contract does not pin the outline where two remaining edges meet the last point, as on a plane section that is not a manifold.
- Tessellation.SweepMesh and Tessellation.CustomMesh: the box uses the corrected triangle allocation (see Findings), so the as-written overflow is exhibited by lemmas rather than by a method that runs past the buffer.
- The step normals computed by `makeVertsAndFaces` are used only for vertex positions, which are not modelled.
- `SetFitObject` and `FitToCurve` (Unity mesh and object lookup with float-keyed dictionaries) and the fit fields.
- `Matrix.String` (float formatting), `ProcessMesh.PointComparer` (Atan2 ordering, never used).
- Components/NodeInfo.cs, Components/Util.cs and Editor/CurveMaker.cs are not part of this model: they are data holders, logging and editor plumbing.

## Findings

| source | as written | input that shows it | evidently intended | confidence | as-written member | corrected member |
|---|---|---|---|---|---|---|
| Components/Matrix.cs:39-93 | the decomposition tests only pivots 0 .. n−2, and Solve then back-substitutes over b's rows; when b has all n entries this divides by the last pivot U[n−1,n−1] unchecked | M = [[1,1],[1,1]] with b of length 2: the checked pivot is 1, the last pivot is 0 | Solve reports failure (null) when b reaches the last row and its pivot is zero; a shorter b never divides by it and is solved as written | not executed | Matrix.LastPivotUnchecked | Matrix.Solve |
| Components/ParametricCurve.cs:745-748 | the top and bottom terms of the box triangle buffer are 2·T·W − 2·T − 2·W triangles each, two fewer than the 2(T−1)(W−1) the face loop emits | T = W = 2 with only the top face on: a buffer of 0 entries for 2 triangles. With W = 1 and only top or bottom faces on the length is negative, so C# throws OverflowException at the allocation (lines 745-748) and never overruns; the face loop would emit no triangle there | each term is 2(T−1)(W−1), so the buffer fits under every face setting | not executed | Tessellation.BoxTopOnlyOverflows | Tessellation.TriangleAllocationFits |
