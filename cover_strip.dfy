/** The cover-concrete discretiser (_coverDivide): every edge of a loop is cut
    into equal pieces, the same pieces are taken on the offset loop, and each
    quadrilateral strip between a piece and its offset becomes one fibre. */
module CoverStrip {
  import opened Geometry

  /** What _coverDivide returns: the fibres and the two lists of plot points
      (every sample of the source loop and of the offset loop except each
      edge's last one). */
  datatype Division = Division(fibres: seq<Fiber>, outPlot: seq<Point>, inPlot: seq<Point>)

  function Join(a: Division, b: Division): Division {
    Division(a.fibres + b.fibres, a.outPlot + b.outPlot, a.inPlot + b.inPlot)
  }

  /** Every edge can be looked up in both node dicts. */
  predicate Divisible(outNodes: map<int, Point>, inNodes: map<int, Point>, edges: seq<Edge>) {
    EdgesKnown(outNodes, edges) && EdgesKnown(inNodes, edges)
  }

  /** The sample list of an edge p -> q split into nEle parts: p, the interior
      division points, then q. */
  function Samples(p: Point, q: Point, nEle: int): seq<Point> {
    [p] + InteriorPoints(p, q, nEle) + [q]
  }

  /** The fibre of the strip between outer chord (outI, outJ) and inner chord
      (inI, inJ): halfway between the two chord midpoints, which is the mean of
      the four corners. */
  function StripFibre(outI: Point, outJ: Point, inI: Point, inJ: Point, area: real): (f: Fiber)
    ensures f.x == (outI.x + outJ.x + inI.x + inJ.x) / 4.0
    ensures f.y == (outI.y + outJ.y + inI.y + inJ.y) / 4.0
    ensures f.area == area
  {
    var outCenter := Mid(outI, outJ);
    var inCenter := Mid(inI, inJ);
    Fiber((outCenter.x + inCenter.x) / 2.0, (outCenter.y + inCenter.y) / 2.0, area)
  }

  /** One fibre per pair of consecutive samples, all carrying the same area. */
  function StripFibres(outs: seq<Point>, ins: seq<Point>, area: real): seq<Fiber>
    requires 1 <= |outs| == |ins|
  {
    seq(|outs| - 1, k requires 0 <= k < |outs| - 1 =>
      StripFibre(outs[k], outs[k + 1], ins[k], ins[k + 1], area))
  }

  /** (inLength + outLength) * coverThick / 2 over the first pair of pieces. */
  function StripArea(m: MathLib, outs: seq<Point>, ins: seq<Point>, coverThick: real): real
    requires 2 <= |outs| && 2 <= |ins|
  {
    (Dist(m, ins[0], ins[1]) + Dist(m, outs[0], outs[1])) * coverThick / 2.0
  }

  /** What one edge contributes to _coverDivide's three lists when it is cut
      into nEle pieces, the edge running outI -> outJ on the source loop and
      inI -> inJ on the offset loop. */
  function StripCut(m: MathLib, outI: Point, outJ: Point, inI: Point, inJ: Point,
                    nEle: int, coverThick: real): Division
  {
    var outs := Samples(outI, outJ, nEle);
    var ins := Samples(inI, inJ, nEle);
    Division(StripFibres(outs, ins, StripArea(m, outs, ins, coverThick)),
             outs[..|outs| - 1], ins[..|ins| - 1])
  }

  /** int(L / eleSize), L the length of the edge on the source loop. */
  function PieceCount(m: MathLib, outI: Point, outJ: Point, eleSize: real): int
    requires eleSize != 0.0
  {
    Trunc(Dist(m, outI, outJ) / eleSize)
  }

  /** What one edge contributes: it is cut into int(L / eleSize) pieces. */
  function StripDivision(m: MathLib, outI: Point, outJ: Point, inI: Point, inJ: Point,
                         eleSize: real, coverThick: real): Division
    requires eleSize != 0.0
  {
    StripCut(m, outI, outJ, inI, inJ, PieceCount(m, outI, outJ, eleSize), coverThick)
  }

  function EdgeDivision(m: MathLib, outNodes: map<int, Point>, inNodes: map<int, Point>,
                        e: Edge, eleSize: real, coverThick: real): Division
    requires eleSize != 0.0 && HasEnds(outNodes, e) && HasEnds(inNodes, e)
  {
    StripDivision(m, outNodes[e.i], outNodes[e.j], inNodes[e.i], inNodes[e.j], eleSize, coverThick)
  }

  /** The contributions of a run of edges, one per edge, in edge order. */
  function EdgeDivisions(m: MathLib, outNodes: map<int, Point>, inNodes: map<int, Point>,
                         edges: seq<Edge>, eleSize: real, coverThick: real): seq<Division>
    requires eleSize != 0.0 && Divisible(outNodes, inNodes, edges)
  {
    seq(|edges|, k requires 0 <= k < |edges| => EdgeDivision(m, outNodes, inNodes, edges[k], eleSize, coverThick))
  }

  /** A run of contributions appended one after the other. */
  function Flatten(ds: seq<Division>): Division
    decreases |ds|
  {
    if ds == [] then Division([], [], []) else
    Join(Flatten(ds[..|ds| - 1]), ds[|ds| - 1])
  }

  /** What _coverDivide returns for a list of edges. */
  function CoverDivision(m: MathLib, outNodes: map<int, Point>, inNodes: map<int, Point>,
                         edges: seq<Edge>, eleSize: real, coverThick: real): Division
    requires eleSize != 0.0 && Divisible(outNodes, inNodes, edges)
  {
    Flatten(EdgeDivisions(m, outNodes, inNodes, edges, eleSize, coverThick))
  }

  /** The i2 loop of _coverDivide: the sample lists of an edge on the source
      loop (outI -> outJ) and on the offset loop (inI -> inJ). */
  method DivideEdge(outI: Point, outJ: Point, inI: Point, inJ: Point, nEle: int)
    returns (totalOut: seq<Point>, totalIn: seq<Point>)
    ensures totalOut == Samples(outI, outJ, nEle) && totalIn == Samples(inI, inJ, nEle)
  {
    totalOut, totalIn := [outI], [inI];
    ghost var outInterior := InteriorPoints(outI, outJ, nEle);
    ghost var inInterior := InteriorPoints(inI, inJ, nEle);
    var i2 := 1;
    while i2 < nEle
      invariant 1 <= i2 && (i2 == 1 || i2 <= nEle)
      invariant totalOut == [outI] + outInterior[..i2 - 1]
      invariant totalIn == [inI] + inInterior[..i2 - 1]
    {
      var outNode := Lerp(outI, outJ, nEle, i2);
      var inNode := Lerp(inI, inJ, nEle, i2);
      assert outInterior[..i2] == outInterior[..i2 - 1] + [outNode];
      assert inInterior[..i2] == inInterior[..i2 - 1] + [inNode];
      totalOut := totalOut + [outNode];
      totalIn := totalIn + [inNode];
      i2 := i2 + 1;
    }
    assert outInterior[..i2 - 1] == outInterior && inInterior[..i2 - 1] == inInterior;
    totalOut := totalOut + [outJ];
    totalIn := totalIn + [inJ];
  }

  /** The i3 loop of _coverDivide: one fibre per strip of an edge. */
  method StripLoop(totalOut: seq<Point>, totalIn: seq<Point>, eleArea: real)
    returns (fibres: seq<Fiber>)
    requires 1 <= |totalOut| == |totalIn|
    ensures fibres == StripFibres(totalOut, totalIn, eleArea)
  {
    fibres := [];
    for i3 := 0 to |totalOut| - 1
      invariant fibres == StripFibres(totalOut, totalIn, eleArea)[..i3]
    {
      var outI, outJ := totalOut[i3], totalOut[i3 + 1];
      var inI, inJ := totalIn[i3], totalIn[i3 + 1];
      var outCenter := Point((outI.x + outJ.x) / 2.0, (outI.y + outJ.y) / 2.0);
      var inCenter := Point((inI.x + inJ.x) / 2.0, (inI.y + inJ.y) / 2.0);
      var centerCoord := Fiber((outCenter.x + inCenter.x) / 2.0, (outCenter.y + inCenter.y) / 2.0, eleArea);
      fibres := fibres + [centerCoord];
    }
  }

  /** The body of _coverDivide's edge loop, for one edge: its fibres and the
      plot points it adds to each list. */
  method DivideStrip(m: MathLib, outI: Point, outJ: Point, inI: Point, inJ: Point,
                     eleSize: real, coverThick: real)
    returns (fibres: seq<Fiber>, outPlot: seq<Point>, inPlot: seq<Point>)
    requires eleSize != 0.0
    ensures Division(fibres, outPlot, inPlot) == StripDivision(m, outI, outJ, inI, inJ, eleSize, coverThick)
  {
    var length := Dist(m, outI, outJ);
    var nEle := Trunc(length / eleSize);
    var totalOut, totalIn := DivideEdge(outI, outJ, inI, inJ, nEle);
    var eleArea := StripArea(m, totalOut, totalIn, coverThick);
    outPlot := totalOut[..|totalOut| - 1];
    inPlot := totalIn[..|totalIn| - 1];
    fibres := StripLoop(totalOut, totalIn, eleArea);
  }

  /** _coverDivide: walks the edges in order and returns their fibres and plot
      points, as CoverDivision describes them. */
  method CoverDivide(m: MathLib, outNodeDict: map<int, Point>, inNodeDict: map<int, Point>,
                     eleDict: seq<Edge>, eleSize: real, coverThick: real)
    returns (centerCoordList: seq<Fiber>, outPlotNode: seq<Point>, inPlotNode: seq<Point>)
    requires eleSize != 0.0 && Divisible(outNodeDict, inNodeDict, eleDict)
    ensures Division(centerCoordList, outPlotNode, inPlotNode)
         == CoverDivision(m, outNodeDict, inNodeDict, eleDict, eleSize, coverThick)
  {
    centerCoordList, outPlotNode, inPlotNode := [], [], [];
    ghost var pieces := EdgeDivisions(m, outNodeDict, inNodeDict, eleDict, eleSize, coverThick);
    for i1 := 0 to |eleDict|
      invariant Division(centerCoordList, outPlotNode, inPlotNode) == Flatten(pieces[..i1])
    {
      var e := eleDict[i1];
      var outI, outJ := outNodeDict[e.i], outNodeDict[e.j];
      var inI, inJ := inNodeDict[e.i], inNodeDict[e.j];
      var strip, outPlot, inPlot := DivideStrip(m, outI, outJ, inI, inJ, eleSize, coverThick);
      centerCoordList := centerCoordList + strip;
      outPlotNode := outPlotNode + outPlot;
      inPlotNode := inPlotNode + inPlot;
      assert pieces[..i1 + 1][..i1] == pieces[..i1];
    }
    assert pieces[..|eleDict|] == pieces;
  }

  /** The k-th sample of an edge is the k-th of max(1, nEle) equal division
      points: the list runs from p through ((n - k) p + k q) / n to q. */
  lemma {:induction false} SamplesAreEqualDivision(p: Point, q: Point, nEle: int, k: nat)
    requires k <= Pieces(nEle)
    ensures |Samples(p, q, nEle)| == Pieces(nEle) + 1
    ensures Samples(p, q, nEle)[k] == Lerp(p, q, Pieces(nEle), k)
  {
    var s := Samples(p, q, nEle);
    if k < Pieces(nEle) {
      assert s[k] == ([p] + InteriorPoints(p, q, nEle))[k];
      StartAndInteriorAreDivisionPoints(p, q, nEle, k);
    } else {
      LerpEnds(p, q, Pieces(nEle));
    }
  }

  /** An edge cut into nEle pieces yields n = max(1, nEle) fibres and n plot
      points on each loop; plot point k is the k-th equal division point of
      the edge, and fibre k belongs to the strip between division points k and
      k + 1. Every fibre of the edge carries the same area. */
  lemma {:induction false} StripShape(m: MathLib, outI: Point, outJ: Point, inI: Point, inJ: Point,
                                      nEle: int, coverThick: real)
    ensures var d := StripCut(m, outI, outJ, inI, inJ, nEle, coverThick);
            var n := Pieces(nEle);
            && |d.fibres| == |d.outPlot| == |d.inPlot| == n
            && (forall k :: 0 <= k < n ==>
                  d.outPlot[k] == Lerp(outI, outJ, n, k) && d.inPlot[k] == Lerp(inI, inJ, n, k))
            && (forall k :: 0 <= k < n ==>
                  d.fibres[k] == StripFibre(Lerp(outI, outJ, n, k), Lerp(outI, outJ, n, k + 1),
                                            Lerp(inI, inJ, n, k), Lerp(inI, inJ, n, k + 1),
                                            d.fibres[0].area))
  {
    var n := Pieces(nEle);
    forall k | 0 <= k <= n
      ensures Samples(outI, outJ, nEle)[k] == Lerp(outI, outJ, n, k)
      ensures Samples(inI, inJ, nEle)[k] == Lerp(inI, inJ, n, k)
    {
      SamplesAreEqualDivision(outI, outJ, nEle, k);
      SamplesAreEqualDivision(inI, inJ, nEle, k);
    }
  }

  /** A piece of an edge cut into n equal parts is 1/n of its length. */
  lemma {:induction false} FirstPieceLength(m: MathLib, p: Point, q: Point, n: int)
    requires m.SqrtOk() && 1 <= n
    ensures Dist(m, p, Lerp(p, q, n, 1)) * n as real == Dist(m, p, q)
  {
    var nr := n as real;
    var f := 1.0 / nr;
    var s := Lerp(p, q, n, 1);
    var dx, dy := q.x - p.x, q.y - p.y;
    assert s.x - p.x == dx * f by {
      assert s.x == ((nr - 1.0) * p.x + q.x) / nr;
      assert s.x - p.x == (q.x - p.x) / nr;
    }
    assert s.y - p.y == dy * f by {
      assert s.y == ((nr - 1.0) * p.y + q.y) / nr;
      assert s.y - p.y == (q.y - p.y) / nr;
    }
    var r := Sq(dx) + Sq(dy);
    assert Sq(s.x - p.x) + Sq(s.y - p.y) == r * (f * f);
    assert 0.0 <= r by {
      SquareNonNegative(dx);
      SquareNonNegative(dy);
    }
    SqrtScale(m, r, f);
    ScaleBack(m.sqrt(r), nr);
  }

  lemma ScaleBack(a: real, n: real)
    requires n != 0.0
    ensures a * (1.0 / n) * n == a
  {
  }

  lemma ShareOut(a: real, b: real, t: real, n: real, whole: real, wholeB: real)
    requires a * n == whole && b * n == wholeB
    ensures (a + b) * t / 2.0 * n == (whole + wholeB) * t / 2.0
  {
    assert (a + b) * t / 2.0 * n == (a * n + b * n) * t / 2.0;
  }

  /** The area every fibre of an edge cut into nEle pieces carries:
      (inLength + outLength) * coverThick / 2 over the first pair of pieces,
      whose far ends are the first division points. */
  function FirstStripArea(m: MathLib, outI: Point, outJ: Point, inI: Point, inJ: Point,
                          nEle: int, coverThick: real): (area: real)
    ensures forall k :: 0 <= k < |StripCut(m, outI, outJ, inI, inJ, nEle, coverThick).fibres| ==>
              StripCut(m, outI, outJ, inI, inJ, nEle, coverThick).fibres[k].area == area
  {
    var n := Pieces(nEle);
    SamplesAreEqualDivision(outI, outJ, nEle, 1);
    SamplesAreEqualDivision(inI, inJ, nEle, 1);
    LerpEnds(outI, outJ, n);
    LerpEnds(inI, inJ, n);
    (Dist(m, inI, Lerp(inI, inJ, n, 1)) + Dist(m, outI, Lerp(outI, outJ, n, 1))) * coverThick / 2.0
  }

  /** The strip's area is shared out equally: the n = max(1, nEle) fibres of
      an edge, each carrying FirstStripArea, together carry (inLength +
      outLength) * coverThick / 2 taken over the whole edge. */
  lemma {:induction false} PiecesMakeWhole(m: MathLib, outI: Point, outJ: Point, inI: Point, inJ: Point,
                                           nEle: int, coverThick: real)
    requires m.SqrtOk()
    ensures FirstStripArea(m, outI, outJ, inI, inJ, nEle, coverThick) * Pieces(nEle) as real
         == (Dist(m, inI, inJ) + Dist(m, outI, outJ)) * coverThick / 2.0
  {
    var n := Pieces(nEle);
    FirstPieceLength(m, outI, outJ, n);
    FirstPieceLength(m, inI, inJ, n);
    ShareOut(Dist(m, inI, Lerp(inI, inJ, n, 1)), Dist(m, outI, Lerp(outI, outJ, n, 1)), coverThick, n as real,
             Dist(m, inI, inJ), Dist(m, outI, outJ));
  }

  lemma JoinAssociative(a: Division, b: Division, c: Division)
    ensures Join(Join(a, b), c) == Join(a, Join(b, c))
  {
    assert (a.fibres + b.fibres) + c.fibres == a.fibres + (b.fibres + c.fibres);
    assert (a.outPlot + b.outPlot) + c.outPlot == a.outPlot + (b.outPlot + c.outPlot);
    assert (a.inPlot + b.inPlot) + c.inPlot == a.inPlot + (b.inPlot + c.inPlot);
  }

  /** Flattening two runs is joining their flattenings. */
  lemma {:induction false} FlattenAppend(xs: seq<Division>, ys: seq<Division>)
    ensures Flatten(xs + ys) == Join(Flatten(xs), Flatten(ys))
    decreases |ys|
  {
    if ys == [] {
      assert xs + ys == xs;
      assert Join(Flatten(xs), Division([], [], [])) == Flatten(xs);
    } else {
      var last := |ys| - 1;
      assert (xs + ys)[..|xs + ys| - 1] == xs + ys[..last];
      assert (xs + ys)[|xs + ys| - 1] == ys[last];
      FlattenAppend(xs, ys[..last]);
      JoinAssociative(Flatten(xs), Flatten(ys[..last]), ys[last]);
    }
  }

  /** The three lists of a contribution have the same length. */
  predicate Balanced(d: Division) {
    |d.fibres| == |d.outPlot| == |d.inPlot|
  }

  lemma {:induction false} FlattenBalanced(ds: seq<Division>)
    requires forall k :: 0 <= k < |ds| ==> Balanced(ds[k]) && 1 <= |ds[k].fibres|
    ensures Balanced(Flatten(ds)) && |ds| <= |Flatten(ds).fibres|
    decreases |ds|
  {
    if ds != [] {
      FlattenBalanced(ds[..|ds| - 1]);
    }
  }

  /** _coverDivide over two runs of edges is the two runs' results joined:
      edges contribute in order and independently of each other. */
  lemma {:induction false} CoverDivisionAppend(m: MathLib, outNodes: map<int, Point>, inNodes: map<int, Point>,
                                               a: seq<Edge>, b: seq<Edge>, eleSize: real, coverThick: real)
    requires eleSize != 0.0 && Divisible(outNodes, inNodes, a) && Divisible(outNodes, inNodes, b)
    ensures Divisible(outNodes, inNodes, a + b)
    ensures CoverDivision(m, outNodes, inNodes, a + b, eleSize, coverThick)
         == Join(CoverDivision(m, outNodes, inNodes, a, eleSize, coverThick),
                 CoverDivision(m, outNodes, inNodes, b, eleSize, coverThick))
  {
    assert forall k :: 0 <= k < |a + b| ==> (a + b)[k] == if k < |a| then a[k] else b[k - |a|];
    assert EdgeDivisions(m, outNodes, inNodes, a + b, eleSize, coverThick)
        == EdgeDivisions(m, outNodes, inNodes, a, eleSize, coverThick)
         + EdgeDivisions(m, outNodes, inNodes, b, eleSize, coverThick);
    FlattenAppend(EdgeDivisions(m, outNodes, inNodes, a, eleSize, coverThick),
                  EdgeDivisions(m, outNodes, inNodes, b, eleSize, coverThick));
  }

  /** The three lists _coverDivide returns have the same length, one plot
      point on each loop per fibre, and every edge gives at least one fibre. */
  lemma {:induction false} CoverDivisionParallel(m: MathLib, outNodes: map<int, Point>, inNodes: map<int, Point>,
                                                 edges: seq<Edge>, eleSize: real, coverThick: real)
    requires eleSize != 0.0 && Divisible(outNodes, inNodes, edges)
    ensures var d := CoverDivision(m, outNodes, inNodes, edges, eleSize, coverThick);
            |d.fibres| == |d.outPlot| == |d.inPlot| >= |edges|
  {
    var ds := EdgeDivisions(m, outNodes, inNodes, edges, eleSize, coverThick);
    forall k | 0 <= k < |ds|
      ensures Balanced(ds[k]) && 1 <= |ds[k].fibres|
    {
      var e := edges[k];
      StripShape(m, outNodes[e.i], outNodes[e.j], inNodes[e.i], inNodes[e.j],
                 PieceCount(m, outNodes[e.i], outNodes[e.j], eleSize), coverThick);
    }
    FlattenBalanced(ds);
  }
}
