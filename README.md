# Polygon section fibre discretisation, modelled in Dafny

This project models the geometric core of a fibre-section generator for
reinforced-concrete cross sections (`fiberGenerate.py`, class
`PolygonSection`, and the point-in-polygon test in `pointInPolygon.py`). A
section is an outer polygon, optionally with polygonal holes. The generator:

- offsets each loop by the cover thickness to get the cover lines
  (`coverLinePlot`, `innerLinePlot`);
- cuts the strip between a loop and its cover line into quadrilateral cover
  fibres (`_coverDivide`, `coverMesh`);
- places reinforcing bars on lines offset by cover + half a bar diameter
  (`_barDivide`, `barMesh`, `userBarMesh`);
- turns a given triangulation of the core into triangle fibres
  (`_triEleInfo`).

A fibre is a centroid `(x, y)` and an area.

Modules:

- `Geometry`: points, fibres, edges, the math library, Python's `int()`
  (truncation), `max(1, nEle)`, equal division points, and the
  `{i + 1: s[i]}` rekeying.
- `PointInPolygon`: `is_in_2d_polygon`. It is an angle-sum test with an early
  exit for points on an edge. It raises `ValueError` for fewer than three
  vertices, and `ZeroDivisionError` when the guarded slope denominator is
  exactly zero.
- `BoundaryOffset`: `_interNodeCoord` and `_pointToLineD`:
  - the edge lines in general form;
  - the two parallel candidates `c ± d·sqrt(a² + b²)`;
  - the probe point on the first candidate;
  - the mode's choice;
  - the 2×2 solve (Cramer's rule);
  - the right rotation of the result.
- `CoverStrip`: `_coverDivide`.
- `BarPlacement`: `_barDivide`, and the specification of `userBarMesh`.
- `TriangleInfo`: `_triEleInfo` (`fiberGenerate.py:539-561`). It also stands
  for the identical `CircleSection._triEleInfo` (`fiberGenerate.py:92-113`).
- `Section`:
  - the `PolygonSection` class. Its `outNewNodeDict` and `inNewNodeDict` fields
    start as `None`, are set by `CoverLinePlot` and `InnerLinePlot`, and are
    required by `CoverMesh`;
  - `_lineNodeList`, `figureSize`, and the assembly of the cover and bar meshes.

Modelling conventions:

- **Math library.** `math.sqrt`, `math.atan2` and `math.pi` are a parameter
  (`Geometry.MathLib`). Two predicates state what is known of it:
  `SqrtOk` (sqrt is the non-negative root) and `Atan2Ok` (atan2 lies in
  (-pi, pi] and 3.14 < pi < 3.15). Each is assumed only where a member lists
  it among its requirements.
- **Classifier.** The offset engine takes its point classifier as a parameter
  of type `(Point, seq<Point>) -> bool`, and calls it with the closed loop, as
  the source does.
- **Node and edge dicts.** Node dicts keyed `1..n` in insertion order are
  `seq<Point>`; their dict view is `Rekey`. Edge dicts keyed `1..n` are
  `seq<Edge>`.

## Model

| member | source | states |
|---|---|---|
| Geometry.Trunc | fiberGenerate.py:628 | `int()` truncates toward zero: for non-negative r the result is the largest integer not above r |
| Geometry.LerpEnds | fiberGenerate.py:634-635 | the equal-division formula ((n-i)·I + i·J)/n gives I at i = 0 and J at i = n |
| Geometry.StartAndInteriorAreDivisionPoints | fiberGenerate.py:629-639 | the start vertex followed by the `range(1, nEle)` points are exactly the division points 0 .. max(1, nEle) - 1 |
| Geometry.Rekey | fiberGenerate.py:420 | the dict comprehension has exactly the keys 1..n and key i + 1 holds list entry i |
| Geometry.SqrtOnePlusSquare | pointInPolygon.py:30 | the distance denominator sqrt(k² + 1) is at least 1, so never zero |
| PointInPolygon.IsIn2dPolygon | pointInPolygon.py:11-45 | the loop returns exactly what `Classify` says. Fewer than 3 vertices raises; a zero slope denominator raises; the first on-edge hit returns True; otherwise the sum is compared with 2π |
| PointInPolygon.Normalise | pointInPolygon.py:37-40 | the raw angle changes by at most one whole turn; a raw difference in (-2π, 2π) lands in [-π, π] |
| PointInPolygon.ClassifyClosedForm | pointInPolygon.py:21-45 | without a zero division, the answer is "p is on some visited edge, or the angle sum is within 1e-11 of 2π" |
| PointInPolygon.EarlyReturn | pointInPolygon.py:28-33 | a boundary hit at edge k returns True whatever the later edges are |
| PointInPolygon.EdgePairing | pointInPolygon.py:20-25 | step i pairs vertices[i] with its cyclic predecessor, and the first step uses the last vertex |
| PointInPolygon.EdgeAngleBounds | pointInPolygon.py:35-40 | every normalised per-edge angle lies in [-π, π] |
| PointInPolygon.AngleSumBounds | pointInPolygon.py:35-42 | the sum after k edges is at most k·π in absolute value |
| PointInPolygon.ClockwiseSumIsOutside | pointInPolygon.py:45 | a sum near -2π does not count as inside |
| PointInPolygon.SlopeGuard | pointInPolygon.py:28 | a vertical edge does not divide by zero; the denominator is zero exactly when tx - sx = 1e-12 |
| PointInPolygon.FirstEdgeZeroDivision | pointInPolygon.py:20-28 | when the last and first vertices differ in x by exactly the guard, the call raises before any other edge |
| PointInPolygon.SquareBoundaryPoint | pointInPolygon.py:28-33 | on a square, the midpoint of an edge is on the boundary and counts as inside |
| BoundaryOffset.EdgeLine | fiberGenerate.py:494-499 | both end vertices satisfy the general-form edge line |
| BoundaryOffset.Solve | fiberGenerate.py:517-520 | with a non-zero determinant, the solution lies on both lines |
| BoundaryOffset.SolveUnique | fiberGenerate.py:517-520 | no other point lies on both lines |
| BoundaryOffset.ProbePoint | fiberGenerate.py:452-466 | the probe lies on the candidate line and on the perpendicular through the edge midpoint |
| BoundaryOffset.PerpendicularMeets | fiberGenerate.py:460-465 | the probe system's determinant is -(a² + b²), non-zero for an edge of non-zero length |
| BoundaryOffset.CandidateAtDistance | fiberGenerate.py:500-503 | a candidate differs from the edge line only in c, by exactly ±d·sqrt(a² + b²). Its points are at distance abs(d): Value² = d²·(a² + b²) |
| BoundaryOffset.ProbeOnNormal | fiberGenerate.py:505-508 | the probe is on its candidate and is reached from the edge midpoint along the edge normal |
| BoundaryOffset.ChosenCandidate | fiberGenerate.py:509-514 | outLine takes the first candidate exactly when its probe is inside; innerLine takes it exactly when its probe is outside |
| BoundaryOffset.ModesOpposite | fiberGenerate.py:509-514 | for the same answer the two modes take opposite candidates, symmetric about the edge line |
| BoundaryOffset.Close | fiberGenerate.py:476-478 | the classifier gets the loop with its first vertex repeated at the end |
| BoundaryOffset.InterNodeCoord | fiberGenerate.py:468-523 | one offset vertex per source vertex; after the rotation, entry q is built from the cyclic triple (v[q-1], v[q], v[q+1]) |
| BoundaryOffset.CornerNode | fiberGenerate.py:486-520 | one loop pass computes the intersection of the two chosen offset lines |
| BoundaryOffset.RotationAligns | fiberGenerate.py:521-522 | the right rotation by one moves the corner of vertex q into position q |
| BoundaryOffset.TripleIsOffsetVertex | fiberGenerate.py:479-484 | the triple at step t of the key list extended by its first two keys is centred on vertex t + 1 (cyclically) |
| BoundaryOffset.Cyclic | fiberGenerate.py:476-484 | the extended list's entries t, t+1, t+2 are vertices t, t+1, t+2 mod n |
| BoundaryOffset.OffsetVertexAtDistance | fiberGenerate.py:494-520 | each offset vertex lies at distance abs(d) from both adjacent source edge lines |
| CoverStrip.StripFibre | fiberGenerate.py:655-659 | the fibre centroid is the mean of the four strip corners (the midpoint of the two chord midpoints) and carries the given area |
| CoverStrip.DivideEdge | fiberGenerate.py:629-641 | the i2 loop builds the samples I, the division points, J on both loops |
| CoverStrip.StripLoop | fiberGenerate.py:650-660 | one fibre per pair of consecutive samples, in order |
| CoverStrip.DivideStrip | fiberGenerate.py:617-660 | one edge's fibres and plot points are `StripDivision`, with int(L / eleSize) pieces |
| CoverStrip.CoverDivide | fiberGenerate.py:598-661 | the three lists are the edges' contributions joined in edge order |
| CoverStrip.SamplesAreEqualDivision | fiberGenerate.py:629-641 | an edge has max(1, nEle) + 1 samples, and sample k is the k-th equal division point |
| CoverStrip.StripShape | fiberGenerate.py:627-660 | an edge yields max(1, nEle) fibres and as many plot points per loop. Plot point k is division point k; fibre k is the strip between division points k and k + 1; all its fibres have the same area |
| CoverStrip.FirstPieceLength | fiberGenerate.py:642-645 | the first piece of an edge cut into n parts has length L / n |
| CoverStrip.FirstStripArea | fiberGenerate.py:642-646 | every fibre of an edge carries (inLength + outLength)·coverThick/2 over the first pair of pieces |
| CoverStrip.PiecesMakeWhole | fiberGenerate.py:642-646 | the edge's fibres together carry (inL + outL)·coverThick/2 over the whole edge |
| CoverStrip.CoverDivisionAppend | fiberGenerate.py:616-661 | the result for two runs of edges is the two results joined; edges contribute independently, in order |
| CoverStrip.CoverDivisionParallel | fiberGenerate.py:647-660 | the fibre list and both plot lists have equal length, at least one entry per edge |
| BarPlacement.LineBarPoints | fiberGenerate.py:760-765 | the i2 loop lists the start vertex and the `range(1, nEle)` division points |
| BarPlacement.EmitBars | fiberGenerate.py:766-769 | one fibre per position, with the x and y lists alongside |
| BarPlacement.DivideBarLine | fiberGenerate.py:752-769 | one edge's bars, with int(L / barDist) pieces |
| BarPlacement.BarDivide | fiberGenerate.py:733-770 | the bars of the edges, joined in edge order, each with area π·barD²/4 |
| BarPlacement.BarPointsAreDivisionPoints | fiberGenerate.py:760-765 | an edge yields max(1, nEle) bars; the first is its start vertex and bar k is division point k |
| BarPlacement.EndNotEmitted | fiberGenerate.py:760-765 | the end vertex of an edge of non-zero length is never emitted, so a corner gets one bar, from the edge starting there |
| BarPlacement.DivisionPointBeforeEnd | fiberGenerate.py:762-765 | a division point k < n equals the end vertex only on a zero-length edge |
| BarPlacement.BarDivisionCount | fiberGenerate.py:746-769 | a bar line gets max(1, int(L / barDist)) bars per edge, summed over its edges, and each bar is a disc of diameter barD (area π·barD²/4) |
| BarPlacement.BarDivisionParallel | fiberGenerate.py:766-769 | the x and y lists run parallel to the fibres, and every fibre has area π·barD²/4 |
| BarPlacement.BarDivisionAppend | fiberGenerate.py:751-769 | each added edge appends max(1, int(L / barDist)) bars starting at its start vertex |
| BarPlacement.SingleEdgeBars | fiberGenerate.py:815 | a one-edge line `{1: (nodeI, nodeJ)}` gets exactly that edge's bars |
| BarPlacement.UserBarsAppend | fiberGenerate.py:814-818 | each user bar line appends max(1, int(L / barDist)) bars, from its first control node, with its own area |
| BarPlacement.UserBarsAligned | fiberGenerate.py:814-818 | userBarMesh's x and y lists run parallel to its fibres |
| TriangleInfo.TriEleInfo | fiberGenerate.py:539-561 | one fibre per triangle, in input order: the vertex-mean centroid and the signed shoelace area |
| TriangleInfo.TriangleFibresEntry | fiberGenerate.py:548-561 | entry t has the mean of triangle t's vertices and half the cross product as area; swapping two vertex indices negates the area |
| TriangleInfo.ShoelaceIsCross | fiberGenerate.py:557 | the shoelace expression is half the cross product of two edge vectors |
| TriangleInfo.SwapNegates | fiberGenerate.py:557 | swapping two vertices negates the signed area |
| TriangleInfo.RotationKeeps | fiberGenerate.py:557 | rotating the vertex order keeps the area |
| TriangleInfo.TranslationKeeps | fiberGenerate.py:557-559 | translating a triangle keeps its area and moves its centroid by the same amount |
| TriangleInfo.DegenerateHasNoArea | fiberGenerate.py:557 | a triangle with a repeated vertex has zero area |
| Section.LineNodeList | fiberGenerate.py:391-408 | one segment per edge, in edge order |
| Section.LineNodeListDrawsLoop | fiberGenerate.py:391-408 | for edges (1,2), ..., (n,1), segment k runs from vertex k to the next vertex round the loop |
| Section.Closed | fiberGenerate.py:685-686 | closing keeps the fibres and appends each plot list's first point to it |
| Section.ClosedCoverDivide | fiberGenerate.py:682-688 | one loop's part of coverMesh: `_coverDivide`, with both plot lists closed |
| Section.CoverHoles | fiberGenerate.py:690-702 | the hole loop of coverMesh joins every hole's closed division, in hole order |
| Section.BarHoles | fiberGenerate.py:794-800 | the hole loop of barMesh joins every hole bar line's bars, in order |
| Section.MinOf | fiberGenerate.py:830-831 | min() returns an element that is no larger than any other |
| Section.MaxOf | fiberGenerate.py:830-831 | max() returns an element that is no smaller than any other |
| Section.Spread | fiberGenerate.py:830-833 | abs(max - min) bounds every pairwise difference and equals one of them |
| Section.FigureSize | fiberGenerate.py:821-834 | w and h are the largest differences of two x and of two y coordinates of the nodes |
| Section.ClosedLayout | fiberGenerate.py:684-702 | a closed contribution leads the joined lists; its closing points repeat its first ones; each contribution adds one plot point more than fibres |
| Section.CoverMeshLayout | fiberGenerate.py:663-704 | coverMesh lists the outer loop's `_coverDivide` result first, its plot lists closed. The holes follow; the plot lists hold one point more per loop than there are fibres |
| Section.BarMeshLayout | fiberGenerate.py:772-801 | barMesh's x and y lists run parallel to its fibres. The outer bars come first, with area π·outBarD²/4; every hole bar has area π·inBarD²/4 |
| Section.PolygonSection.constructor | fiberGenerate.py:360-374 | stores the loops; both cover-line fields start as None |
| Section.PolygonSection.HoleOffsets | fiberGenerate.py:439-442 | one offset loop per hole walked by zip(inNode, inEle), each as long as its hole |
| Section.PolygonSection.MiddleLineNode | fiberGenerate.py:525-537 | the offset loop at distance d in the given mode, one vertex per source vertex |
| Section.PolygonSection.CoverLinePlot | fiberGenerate.py:410-425 | returns the outLine offset loop at coverThick and its segments. outNewNodeDict becomes that loop keyed 1..n; inNewNodeDict is unchanged |
| Section.PolygonSection.HoleLinePlots | fiberGenerate.py:436-448 | the zip loop: each hole's innerLine offset loop, keyed 1..n, and all their segments |
| Section.PolygonSection.InnerLinePlot | fiberGenerate.py:427-450 | without holes it returns None and changes nothing. With holes it stores the holes' loops keyed 1..n in inNewNodeDict and returns them with their segments; outNewNodeDict is unchanged |
| Section.PolygonSection.CoverMesh | fiberGenerate.py:663-704 | the result is the outer loop's closed cover division followed by each hole's, in hole order |
| Section.PolygonSection.OutBarLineNode | fiberGenerate.py:706-715 | the outLine offset loop at barToEdgeDist, keyed 1..n |
| Section.PolygonSection.InnerBarLineNode | fiberGenerate.py:717-731 | None without holes; otherwise each hole's innerLine offset loop at barToEdgeDist, keyed 1..n |
| Section.PolygonSection.BarMesh | fiberGenerate.py:772-801 | the outer bars, on the offset at coverThick + outBarD/2, then each hole's, on its offset at coverThick + inBarD/2, in order |
| Section.PolygonSection.UserBarMesh | fiberGenerate.py:803-819 | each bar line's bars, with its own diameter and spacing, joined in order |

## Left out

- **Foreign library calls.** `PolygonSection.coreMesh` and `CircleSection.coreMesh` triangulate with pygmsh/meshio, a foreign library. Only `_triEleInfo` over a given point array and triangle list is modelled.
- **Plotting helpers.** `sectPlot`, `CircleSection.initSectionPlot`, and all plotting only build lists for matplotlib.
- **`CircleSection` placement.** Its point placement (cos/sin over angles) and its own `_coverDivide`, `coverMesh`, `_barDivide` and `barMesh` are not part of this model.
- **Exact real arithmetic.**
  - Arithmetic is exact over `real`, not IEEE doubles. The tolerances 1e-6, 1e-11 and 1e-12 are exact real constants.
  - Nothing is proved about the geometric truth of the angle-sum test (that interior points sum to 2π); that needs real trigonometry.
- **The classifier parameter.** The offset engine's classifier is a plain boolean parameter. The exceptions `is_in_2d_polygon` can raise are not propagated into the offset engine: with the real classifier they would abort `_interNodeCoord`.
- **Singular and degenerate loops.**
  - `scipy.linalg.solve` on a singular system raises. This is excluded by requiring every corner of an offset loop to turn (`Offsettable`), which also demands at least three vertices.
- **The `pos` argument.** A bad `pos` only prints an error in the source. `pos` is the two-valued `Mode`, so the unbound-variable failure that follows the print cannot occur.
- **Node and edge dicts.**
  - Node dicts are assumed to be keyed 1..n in insertion order (they become `seq`). The `zip`s stop at the shorter list (`HoleCount`).
  - numpy's negative indices in `_triEleInfo` are excluded by `Indexed`.
  - `KeyError`s for edge ids that name no node are excluded by requires (`EdgesKnown`, `EdgesWithin`).
- **Failures excluded by requires.**
  - Division by zero when eleSize or barDist is 0.
  - `IndexError` in `coverMesh` on a loop with no edges.
  - `IndexError` when `coverMesh` or `barMesh` index past the hole lists.
  - `min()` of an empty node dict in `figureSize`.
  - Holes given without their edge dicts (`inEle` left as `None` while `inNode` is set): `zip(self.inNode, self.inEle)` in `innerLinePlot` and `_innerBarLineNode` raises `TypeError`. `HolesOffsettable` requires `inEle` whenever `inNode` is given.
  - Calling `coverMesh` before `coverLinePlot` (and before `innerLinePlot` when there are holes).
- **barMesh's optional arguments.** `inBarD` and `inBarDist` default to `None` in `barMesh`. With holes, that default raises `TypeError`; here they are plain reals.
- **The plot loop.** `_coverDivide`'s j2 loop, which copies all samples but the last to the plot lists, is modelled as a slice in `DivideStrip`.
- **The example drivers.** `polygon_Example.py` and `polygonWithThreeHoles_Example.py` only set parameters and call `sectionFiberMain`, which is not part of this model.
- Bar corners: per edge the code emits the start vertex and the `range(1, nEle)` interior points only, never the end vertex. Each corner of a bar line therefore gets one bar (`BarPlacement.EndNotEmitted`), and an edge gets max(1, int(L / barDist)) bars. The model follows the code here, not a reading in which corners are emitted twice.
