/** The polygon section object (PolygonSection): its outer loop and holes, the
    offset loops it stores for the cover mesh, and the cover and bar meshes it
    assembles from the components. */
module Section {
  import opened Geometry
  import opened BoundaryOffset
  import opened CoverStrip
  import opened BarPlacement

  /** The end coordinates of an edge for plotting: ([xI, xJ], [yI, yJ]). */
  datatype Segment = Segment(xs: seq<real>, ys: seq<real>)

  /** What innerLinePlot returns: the offset loop of every hole and the
      segments of all of them. */
  datatype HolePlot = HolePlot(innerList: seq<seq<Point>>, inlineList: seq<Segment>)

  /** Width and height of the bounding box. */
  datatype Size = Size(w: real, h: real)

  /** The edges of a loop with n vertices name vertex ids 1..n. */
  predicate EdgesWithin(edges: seq<Edge>, n: int) {
    forall k :: 0 <= k < |edges| ==> 1 <= edges[k].i <= n && 1 <= edges[k].j <= n
  }

  /** The edge list of a closed loop of n vertices, as polygon_Example.py
      writes it: {1: (1, 2), 2: (2, 3), ..., n: (n, 1)}. */
  predicate LoopEdges(edges: seq<Edge>, n: nat) {
    |edges| == n && forall k :: 0 <= k < n ==> edges[k] == Edge(k + 1, if k == n - 1 then 1 else k + 2)
  }

  /** _lineNodeList: each edge as its end coordinates, in edge order. */
  function LineNodeList(nodeDict: map<int, Point>, eleDict: seq<Edge>): (r: seq<Segment>)
    requires EdgesKnown(nodeDict, eleDict)
    ensures |r| == |eleDict|
  {
    seq(|eleDict|, k requires 0 <= k < |eleDict| =>
      Segment([nodeDict[eleDict[k].i].x, nodeDict[eleDict[k].j].x],
              [nodeDict[eleDict[k].i].y, nodeDict[eleDict[k].j].y]))
  }

  /** For a loop's nodes keyed 1..n and its edges (1, 2), ..., (n, 1), segment k
      runs from vertex k to the next vertex round the loop: the segments draw
      the polygon. */
  lemma {:induction false} LineNodeListDrawsLoop(vs: seq<Point>, edges: seq<Edge>, k: nat)
    requires LoopEdges(edges, |vs|) && k < |vs|
    ensures EdgesKnown(Rekey(vs), edges)
    ensures var next := if k == |vs| - 1 then 0 else k + 1;
            LineNodeList(Rekey(vs), edges)[k] == Segment([vs[k].x, vs[next].x], [vs[k].y, vs[next].y])
  {
    var n := |vs|;
    assert forall g :: 0 <= g < n ==> 1 <= edges[g].i <= n && 1 <= edges[g].j <= n;
    var next := if k == n - 1 then 0 else k + 1;
    assert Rekey(vs)[k + 1] == vs[k] && Rekey(vs)[next + 1] == vs[next];
  }

  /** Edges naming ids 1..n can be looked up once a loop of n nodes is keyed
      1..n. */
  lemma WithinIsKnown(vs: seq<Point>, edges: seq<Edge>)
    requires EdgesWithin(edges, |vs|)
    ensures EdgesKnown(Rekey(vs), edges)
  {
  }

  /** The segments of several loops, one loop after the other. */
  function HoleLines(loops: seq<seq<Point>>, eles: seq<seq<Edge>>): (r: seq<Segment>)
    requires |loops| == |eles|
    requires forall h :: 0 <= h < |loops| ==> EdgesWithin(eles[h], |loops[h]|)
    decreases |loops|
  {
    if loops == [] then [] else
    var last := |loops| - 1;
    WithinIsKnown(loops[last], eles[last]);
    HoleLines(loops[..last], eles[..last]) + LineNodeList(Rekey(loops[last]), eles[last])
  }

  function RekeyAll(loops: seq<seq<Point>>): seq<map<int, Point>> {
    seq(|loops|, h requires 0 <= h < |loops| => Rekey(loops[h]))
  }

  lemma RekeyAllAppend(loops: seq<seq<Point>>, loop: seq<Point>)
    ensures RekeyAll(loops + [loop]) == RekeyAll(loops) + [Rekey(loop)]
  {
  }

  /** One more loop adds its segments at the end. */
  lemma HoleLinesAppend(loops: seq<seq<Point>>, eles: seq<seq<Edge>>, loop: seq<Point>)
    requires |eles| == |loops| + 1
    requires forall h :: 0 <= h < |loops| ==> EdgesWithin(eles[h], |loops[h]|)
    requires EdgesWithin(eles[|loops|], |loop|)
    ensures forall h :: 0 <= h < |loops| + 1 ==> EdgesWithin(eles[h], |(loops + [loop])[h]|)
    ensures EdgesKnown(Rekey(loop), eles[|loops|])
    ensures HoleLines(loops + [loop], eles)
         == HoleLines(loops, eles[..|loops|]) + LineNodeList(Rekey(loop), eles[|loops|])
  {
    var all := loops + [loop];
    assert all[..|loops|] == loops;
    WithinIsKnown(loop, eles[|loops|]);
  }

  /** A contribution of _coverDivide with each plot list closed by repeating
      its first point, as coverMesh does. */
  function Closed(d: Division): (r: Division)
    requires 1 <= |d.outPlot| && 1 <= |d.inPlot|
    ensures r.fibres == d.fibres
    ensures |r.outPlot| == |d.outPlot| + 1 && |r.inPlot| == |d.inPlot| + 1
    ensures r.outPlot[..|d.outPlot|] == d.outPlot && r.outPlot[|d.outPlot|] == r.outPlot[0]
    ensures r.inPlot[..|d.inPlot|] == d.inPlot && r.inPlot[|d.inPlot|] == r.inPlot[0]
  {
    Division(d.fibres, d.outPlot + [d.outPlot[0]], d.inPlot + [d.inPlot[0]])
  }

  /** The cover division of a loop with at least one edge, its plot lists
      closed. */
  function ClosedCover(m: MathLib, outNodes: map<int, Point>, inNodes: map<int, Point>,
                       edges: seq<Edge>, eleSize: real, coverThick: real): Division
    requires eleSize != 0.0 && Divisible(outNodes, inNodes, edges) && 1 <= |edges|
  {
    CoverDivisionParallel(m, outNodes, inNodes, edges, eleSize, coverThick);
    Closed(CoverDivision(m, outNodes, inNodes, edges, eleSize, coverThick))
  }

  /** How far a bar line lies from its loop: the cover thickness plus half
      the bar diameter, so that the bars just touch the cover. */
  function BarToEdge(coverThick: real, barD: real): real {
    coverThick + barD / 2.0
  }

  /** Every hole has a cover line and an edge list, at least one edge, and
      edges that both its node dict and its cover line can look up. */
  predicate HolesDivisible(holes: seq<seq<Point>>, newDicts: seq<map<int, Point>>, eles: seq<seq<Edge>>) {
    && |holes| <= |eles| && |holes| <= |newDicts|
    && forall h :: 0 <= h < |holes| ==> 1 <= |eles[h]| && Divisible(Rekey(holes[h]), newDicts[h], eles[h])
  }

  /** The closed cover division of each hole, in hole order. */
  function HoleCovers(m: MathLib, holes: seq<seq<Point>>, newDicts: seq<map<int, Point>>, eles: seq<seq<Edge>>,
                      eleSize: real, coverThick: real): (r: seq<Division>)
    requires eleSize != 0.0 && HolesDivisible(holes, newDicts, eles)
    ensures |r| == |holes|
  {
    seq(|holes|, h requires 0 <= h < |holes| =>
      ClosedCover(m, Rekey(holes[h]), newDicts[h], eles[h], eleSize, coverThick))
  }

  /** One loop's part of coverMesh: _coverDivide, then each plot list closed
      with its first point. */
  method ClosedCoverDivide(m: MathLib, outNodes: map<int, Point>, inNodes: map<int, Point>,
                           edges: seq<Edge>, eleSize: real, coverThick: real)
    returns (fibres: seq<Fiber>, outPlot: seq<Point>, inPlot: seq<Point>)
    requires eleSize != 0.0 && Divisible(outNodes, inNodes, edges) && 1 <= |edges|
    ensures Division(fibres, outPlot, inPlot) == ClosedCover(m, outNodes, inNodes, edges, eleSize, coverThick)
  {
    var outInfo, inInfo;
    fibres, outInfo, inInfo := CoverDivide(m, outNodes, inNodes, edges, eleSize, coverThick);
    CoverDivisionParallel(m, outNodes, inNodes, edges, eleSize, coverThick);
    outPlot := outInfo + [outInfo[0]];
    inPlot := inInfo + [inInfo[0]];
  }

  /** The hole loop of coverMesh: every hole's closed division, in hole
      order. */
  method CoverHoles(m: MathLib, holes: seq<seq<Point>>, newDicts: seq<map<int, Point>>, eles: seq<seq<Edge>>,
                    eleSize: real, coverThick: real)
    returns (fibres: seq<Fiber>, outPlot: seq<Point>, inPlot: seq<Point>)
    requires eleSize != 0.0 && HolesDivisible(holes, newDicts, eles)
    ensures Division(fibres, outPlot, inPlot) == Flatten(HoleCovers(m, holes, newDicts, eles, eleSize, coverThick))
  {
    ghost var pieces := HoleCovers(m, holes, newDicts, eles, eleSize, coverThick);
    fibres, outPlot, inPlot := [], [], [];
    for i4 := 0 to |holes|
      invariant Division(fibres, outPlot, inPlot) == Flatten(pieces[..i4])
    {
      var innerfiber, innerOut, innerIn :=
        ClosedCoverDivide(m, Rekey(holes[i4]), newDicts[i4], eles[i4], eleSize, coverThick);
      fibres := fibres + innerfiber;
      outPlot := outPlot + innerOut;
      inPlot := inPlot + innerIn;
      assert pieces[..i4 + 1][..i4] == pieces[..i4];
    }
    assert pieces[..|holes|] == pieces;
  }

  lemma FlattenSingle(d: Division)
    ensures Flatten([d]) == d
  {
    assert [d][..0] == [];
  }

  /** Every hole bar line's edges can be looked up in its node dict. */
  predicate HoleBarsKnown(lines: seq<map<int, Point>>, eles: seq<seq<Edge>>) {
    |eles| <= |lines| && forall h :: 0 <= h < |eles| ==> EdgesKnown(lines[h], eles[h])
  }

  /** The bars of each hole bar line, one entry per hole edge list. */
  function HoleBars(m: MathLib, barD: real, barDist: real, lines: seq<map<int, Point>>, eles: seq<seq<Edge>>)
    : (r: seq<Bars>)
    requires barDist != 0.0 && HoleBarsKnown(lines, eles)
    ensures |r| == |eles|
  {
    seq(|eles|, h requires 0 <= h < |eles| => BarDivision(m, barD, barDist, lines[h], eles[h]))
  }

  /** The hole loop of barMesh: the bars of each hole bar line, in order. */
  method BarHoles(m: MathLib, barD: real, barDist: real, lines: seq<map<int, Point>>, eles: seq<seq<Edge>>)
    returns (fibres: seq<Fiber>, xs: seq<real>, ys: seq<real>)
    requires barDist != 0.0 && HoleBarsKnown(lines, eles)
    ensures Bars(fibres, xs, ys) == FlattenBars(HoleBars(m, barD, barDist, lines, eles))
  {
    ghost var pieces := HoleBars(m, barD, barDist, lines, eles);
    fibres, xs, ys := [], [], [];
    for i1 := 0 to |eles|
      invariant Bars(fibres, xs, ys) == FlattenBars(pieces[..i1])
    {
      var inBarFiber, inXList, inYList := BarDivide(m, barD, barDist, lines[i1], eles[i1]);
      fibres := fibres + inBarFiber;
      xs := xs + inXList;
      ys := ys + inYList;
      assert pieces[..i1 + 1][..i1] == pieces[..i1];
    }
    assert pieces[..|eles|] == pieces;
  }

  lemma FlattenBarsSingle(b: Bars)
    ensures FlattenBars([b]) == b
  {
    assert [b][..0] == [];
  }

  function MinOf(s: seq<real>): (r: real)
    requires |s| > 0
    ensures r in s && forall k :: 0 <= k < |s| ==> r <= s[k]
  {
    if |s| == 1 then s[0] else
    var rest := MinOf(s[1..]);
    assert forall k :: 1 <= k < |s| ==> s[k] == s[1..][k - 1];
    if s[0] <= rest then s[0] else rest
  }

  function MaxOf(s: seq<real>): (r: real)
    requires |s| > 0
    ensures r in s && forall k :: 0 <= k < |s| ==> s[k] <= r
  {
    if |s| == 1 then s[0] else
    var rest := MaxOf(s[1..]);
    assert forall k :: 1 <= k < |s| ==> s[k] == s[1..][k - 1];
    if rest <= s[0] then s[0] else rest
  }

  /** |max(s) - min(s)|: the largest difference of two values of s. */
  function Spread(s: seq<real>): (r: real)
    requires |s| > 0
    ensures forall i, j :: 0 <= i < |s| && 0 <= j < |s| ==> s[j] - s[i] <= r
    ensures exists i, j :: 0 <= i < |s| && 0 <= j < |s| && s[j] - s[i] == r
  {
    var lo, hi := MinOf(s), MaxOf(s);
    assert lo <= s[0] <= hi;
    var i :| 0 <= i < |s| && s[i] == lo;
    var j :| 0 <= j < |s| && s[j] == hi;
    assert s[j] - s[i] == Abs(hi - lo);
    Abs(hi - lo)
  }

  /** The x values, in node order. */
  function Xs(pts: seq<Point>): (r: seq<real>)
    ensures |r| == |pts| && forall k :: 0 <= k < |pts| ==> r[k] == pts[k].x
  {
    seq(|pts|, k requires 0 <= k < |pts| => pts[k].x)
  }

  /** The y values, in node order. */
  function Ys(pts: seq<Point>): (r: seq<real>)
    ensures |r| == |pts| && forall k :: 0 <= k < |pts| ==> r[k] == pts[k].y
  {
    seq(|pts|, k requires 0 <= k < |pts| => pts[k].y)
  }

  lemma WidthIsSpread(pts: seq<Point>)
    requires |pts| > 0
    ensures forall i, j :: 0 <= i < |pts| && 0 <= j < |pts| ==> pts[j].x - pts[i].x <= Spread(Xs(pts))
    ensures exists i, j :: 0 <= i < |pts| && 0 <= j < |pts| && pts[j].x - pts[i].x == Spread(Xs(pts))
  {
    var xs := Xs(pts);
    var i, j :| 0 <= i < |xs| && 0 <= j < |xs| && xs[j] - xs[i] == Spread(xs);
    assert pts[j].x - pts[i].x == Spread(xs);
  }

  lemma HeightIsSpread(pts: seq<Point>)
    requires |pts| > 0
    ensures forall i, j :: 0 <= i < |pts| && 0 <= j < |pts| ==> pts[j].y - pts[i].y <= Spread(Ys(pts))
    ensures exists i, j :: 0 <= i < |pts| && 0 <= j < |pts| && pts[j].y - pts[i].y == Spread(Ys(pts))
  {
    var ys := Ys(pts);
    var i, j :| 0 <= i < |ys| && 0 <= j < |ys| && ys[j] - ys[i] == Spread(ys);
    assert pts[j].y - pts[i].y == Spread(ys);
  }

  /** figureSize: the width and height of the nodes' bounding box, that is the
      largest difference of two x and of two y coordinates. */
  function FigureSize(outSideNode: seq<Point>): (size: Size)
    requires |outSideNode| > 0
    ensures forall i, j :: 0 <= i < |outSideNode| && 0 <= j < |outSideNode| ==>
              outSideNode[j].x - outSideNode[i].x <= size.w && outSideNode[j].y - outSideNode[i].y <= size.h
    ensures exists i, j :: 0 <= i < |outSideNode| && 0 <= j < |outSideNode| &&
              outSideNode[j].x - outSideNode[i].x == size.w
    ensures exists i, j :: 0 <= i < |outSideNode| && 0 <= j < |outSideNode| &&
              outSideNode[j].y - outSideNode[i].y == size.h
  {
    WidthIsSpread(outSideNode);
    HeightIsSpread(outSideNode);
    Size(Spread(Xs(outSideNode)), Spread(Ys(outSideNode)))
  }

  class PolygonSection {
    /** The math library and the point classifier (is_in_2d_polygon) the
        offset engine uses. */
    const m: MathLib
    const classify: (Point, seq<Point>) -> bool
    /** The outer loop's nodes (ids 1..n in order) and edges. */
    const outNode: seq<Point>
    const outEle: seq<Edge>
    /** The holes' nodes and edges, one entry per hole, or None. */
    const inNode: Option<seq<seq<Point>>>
    const inEle: Option<seq<seq<Edge>>>
    /** The outer cover line, set by coverLinePlot. */
    var outNewNodeDict: Option<map<int, Point>>
    /** The holes' cover lines, set by innerLinePlot. */
    var inNewNodeDict: Option<seq<map<int, Point>>>

    constructor(m: MathLib, classify: (Point, seq<Point>) -> bool, outNode: seq<Point>, outEle: seq<Edge>,
                inNode: Option<seq<seq<Point>>>, inEle: Option<seq<seq<Edge>>>)
      ensures this.m == m && this.classify == classify
      ensures this.outNode == outNode && this.outEle == outEle
      ensures this.inNode == inNode && this.inEle == inEle
      ensures outNewNodeDict == None && inNewNodeDict == None
    {
      this.m := m;
      this.classify := classify;
      this.outNode := outNode;
      this.outEle := outEle;
      this.inNode := inNode;
      this.inEle := inEle;
      outNewNodeDict := None;
      inNewNodeDict := None;
    }

    /** The number of holes zip(inNode, inEle) walks. */
    function HoleCount(): nat
      requires inNode.Some? && inEle.Some?
    {
      if |inNode.value| <= |inEle.value| then |inNode.value| else |inEle.value|
    }

    /** Every hole zip(inNode, inEle) walks can be offset, and its edges name
        its own vertices. */
    predicate HolesOffsettable() {
      inNode.Some? ==>
        && inEle.Some?
        && forall h :: 0 <= h < HoleCount() ==>
             Offsettable(inNode.value[h]) && EdgesWithin(inEle.value[h], |inNode.value[h]|)
    }

    /** The offset loops of the holes zip(inNode, inEle) walks. */
    function HoleOffsets(d: real, mode: Mode): (r: seq<seq<Point>>)
      requires inNode.Some? && HolesOffsettable()
      ensures |r| == HoleCount()
      ensures forall h :: 0 <= h < |r| ==> |r[h]| == |inNode.value[h]|
    {
      seq(HoleCount(), h requires 0 <= h < HoleCount() => OffsetLoop(m, classify, inNode.value[h], d, mode))
    }

    /** _middleLineNode: the offset loop of a loop at distance d. */
    method MiddleLineNode(nodeDict: seq<Point>, d: real, pos: Mode) returns (newNodeList: seq<Point>)
      requires Offsettable(nodeDict)
      ensures newNodeList == OffsetLoop(m, classify, nodeDict, d, pos)
      ensures |newNodeList| == |nodeDict|
    {
      newNodeList := InterNodeCoord(m, classify, nodeDict, d, pos);
    }

    /** coverLinePlot: offsets the outer loop by coverThick in outLine mode, stores the
        result keyed 1..n in outNewNodeDict, and returns it with its segments. */
    method CoverLinePlot(coverThick: real) returns (returnNodeList: seq<Point>, coverlineList: seq<Segment>)
      requires Offsettable(outNode) && EdgesWithin(outEle, |outNode|)
      modifies this
      ensures returnNodeList == OffsetLoop(m, classify, outNode, coverThick, OutLine)
      ensures outNewNodeDict == Some(Rekey(returnNodeList))
      ensures inNewNodeDict == old(inNewNodeDict)
      ensures coverlineList == LineNodeList(Rekey(returnNodeList), outEle)
    {
      returnNodeList := MiddleLineNode(outNode, coverThick, OutLine);
      var outNodeNewDict := Rekey(returnNodeList);
      outNewNodeDict := Some(outNodeNewDict);
      coverlineList := LineNodeList(outNodeNewDict, outEle);
    }

    /** The loop of innerLinePlot: every hole zip(inNode, inEle) walks offset
        by coverThick in innerLine mode, those loops keyed 1..n, and their segments. */
    method HoleLinePlots(coverThick: real)
      returns (innerList: seq<seq<Point>>, innerListDict: seq<map<int, Point>>, inlineList: seq<Segment>)
      requires inNode.Some? && HolesOffsettable()
      ensures innerList == HoleOffsets(coverThick, InnerLine)
      ensures innerListDict == RekeyAll(innerList)
      ensures inlineList == HoleLines(innerList, inEle.value[..HoleCount()])
    {
      var n := HoleCount();
      ghost var loops := HoleOffsets(coverThick, InnerLine);
      innerList, innerListDict, inlineList := [], [], [];
      for h := 0 to n
        invariant innerList == loops[..h]
        invariant innerListDict == RekeyAll(innerList)
        invariant inlineList == HoleLines(innerList, inEle.value[..h])
      {
        var eachNodeDict, eachEleDict := inNode.value[h], inEle.value[h];
        var returnNodeList := MiddleLineNode(eachNodeDict, coverThick, InnerLine);
        assert loops[..h + 1] == innerList + [returnNodeList];
        assert inEle.value[..h + 1][..h] == inEle.value[..h];
        assert inEle.value[..h + 1][h] == eachEleDict;
        HoleLinesAppend(innerList, inEle.value[..h + 1], returnNodeList);
        RekeyAllAppend(innerList, returnNodeList);
        innerList := innerList + [returnNodeList];
        innerListDict := innerListDict + [Rekey(returnNodeList)];
        var inNodeDict := Rekey(returnNodeList);
        var tempList := LineNodeList(inNodeDict, eachEleDict);
        inlineList := inlineList + tempList;
      }
      assert loops[..n] == loops;
    }

    /** innerLinePlot: with holes, offsets each hole by coverThick in innerLine mode,
        stores the results keyed 1..n in inNewNodeDict and returns them with
        their segments; without holes it returns None and changes nothing. */
    method InnerLinePlot(coverThick: real) returns (r: Option<HolePlot>)
      requires HolesOffsettable()
      modifies this
      ensures outNewNodeDict == old(outNewNodeDict)
      ensures inNode.None? ==> r == None && inNewNodeDict == old(inNewNodeDict)
      ensures inNode.Some? ==>
                var loops := HoleOffsets(coverThick, InnerLine);
                && r == Some(HolePlot(loops, HoleLines(loops, inEle.value[..HoleCount()])))
                && inNewNodeDict == Some(RekeyAll(loops))
    {
      if inNode.None? {
        return None;
      }
      var innerList, innerListDict, inlineList := HoleLinePlots(coverThick);
      inNewNodeDict := Some(innerListDict);
      r := Some(HolePlot(innerList, inlineList));
    }

    /** What coverMesh needs: coverLinePlot has run, the outer loop has an
        edge and its edges name its vertices; with holes, innerLinePlot has run
        and covers every hole, each hole has an edge and its edges name its
        vertices. */
    predicate CoverReady()
      reads this
    {
      && outNewNodeDict.Some?
      && 1 <= |outEle|
      && Divisible(Rekey(outNode), outNewNodeDict.value, outEle)
      && (inNode.Some? ==>
            inEle.Some? && inNewNodeDict.Some?
            && HolesDivisible(inNode.value, inNewNodeDict.value, inEle.value))
    }

    /** The pieces coverMesh joins: the outer loop's cover division first,
        then each hole's, every plot list closed. */
    function MeshPieces(eleSize: real, coverThick: real): seq<Division>
      reads this
      requires eleSize != 0.0 && CoverReady()
    {
      [ClosedCover(m, Rekey(outNode), outNewNodeDict.value, outEle, eleSize, coverThick)]
        + (if inNode.None? then []
           else HoleCovers(m, inNode.value, inNewNodeDict.value, inEle.value, eleSize, coverThick))
    }

    /** coverMesh: the cover fibres and closed plot lists of the outer loop
        (between the outer loop and its cover line), then of each hole. */
    method CoverMesh(eleSize: real, coverThick: real)
      returns (coverFiberInfo: seq<Fiber>, outNodeReturn: seq<Point>, inNodeReturn: seq<Point>)
      requires eleSize != 0.0 && CoverReady()
      ensures Division(coverFiberInfo, outNodeReturn, inNodeReturn) == Flatten(MeshPieces(eleSize, coverThick))
    {
      var outer := ClosedCover(m, Rekey(outNode), outNewNodeDict.value, outEle, eleSize, coverThick);
      coverFiberInfo, outNodeReturn, inNodeReturn :=
        ClosedCoverDivide(m, Rekey(outNode), outNewNodeDict.value, outEle, eleSize, coverThick);
      var holes := [];
      if inNode.Some? {
        holes := HoleCovers(m, inNode.value, inNewNodeDict.value, inEle.value, eleSize, coverThick);
        var innerfiber, innerOut, innerIn :=
          CoverHoles(m, inNode.value, inNewNodeDict.value, inEle.value, eleSize, coverThick);
        coverFiberInfo := coverFiberInfo + innerfiber;
        outNodeReturn := outNodeReturn + innerOut;
        inNodeReturn := inNodeReturn + innerIn;
      }
      FlattenSingle(outer);
      FlattenAppend([outer], holes);
    }

    /** _outBarLineNode: the outer bar line, the outer loop offset in outLine mode by
        barToEdgeDist, keyed 1..n. */
    method OutBarLineNode(barToEdgeDist: real) returns (outBarLineNodeDict: map<int, Point>)
      requires Offsettable(outNode)
      ensures outBarLineNodeDict == Rekey(OffsetLoop(m, classify, outNode, barToEdgeDist, OutLine))
    {
      var returnNodeList := MiddleLineNode(outNode, barToEdgeDist, OutLine);
      outBarLineNodeDict := Rekey(returnNodeList);
    }

    /** _innerBarLineNode: the holes' bar lines, each hole offset in innerLine mode by
        barToEdgeDist and keyed 1..n, or None without holes. */
    method InnerBarLineNode(barToEdgeDist: real) returns (r: Option<seq<map<int, Point>>>)
      requires HolesOffsettable()
      ensures inNode.None? ==> r == None
      ensures inNode.Some? ==> r == Some(RekeyAll(HoleOffsets(barToEdgeDist, InnerLine)))
    {
      if inNode.None? {
        return None;
      }
      var n := HoleCount();
      ghost var loops := HoleOffsets(barToEdgeDist, InnerLine);
      var innerListDict: seq<map<int, Point>> := [];
      for h := 0 to n
        invariant innerListDict == RekeyAll(loops[..h])
      {
        var returnNodeList := MiddleLineNode(inNode.value[h], barToEdgeDist, InnerLine);
        assert loops[..h + 1] == loops[..h] + [returnNodeList];
        innerListDict := innerListDict + [Rekey(returnNodeList)];
      }
      assert loops[..n] == loops;
      r := Some(innerListDict);
    }

    /** What barMesh needs: a non-zero spacing and an offsettable outer loop
        whose edges name its vertices; with holes, a non-zero spacing, holes
        that can be offset, and no more hole edge lists than holes. */
    predicate BarReady(outBarDist: real, inBarDist: real) {
      && outBarDist != 0.0 && Offsettable(outNode) && EdgesWithin(outEle, |outNode|)
      && (inNode.Some? ==> inBarDist != 0.0 && HolesOffsettable() && |inEle.value| <= |inNode.value|)
    }

    /** The pieces barMesh joins: the bars on the outer loop offset in outLine mode by
        coverThick + outBarD / 2, then those on each hole offset in innerLine mode by
        coverThick + inBarD / 2. */
    function BarPieces(outBarD: real, outBarDist: real, coverThick: real, inBarD: real, inBarDist: real): seq<Bars>
      requires BarReady(outBarDist, inBarDist)
    {
      var outLine := OffsetLoop(m, classify, outNode, BarToEdge(coverThick, outBarD), OutLine);
      WithinIsKnown(outLine, outEle);
      [BarDivision(m, outBarD, outBarDist, Rekey(outLine), outEle)]
        + (if inNode.None? then []
           else HoleBars(m, inBarD, inBarDist, RekeyAll(HoleOffsets(BarToEdge(coverThick, inBarD), InnerLine)), inEle.value))
    }

    /** barMesh: the bars of the outer bar line, then those of each hole. */
    method BarMesh(outBarD: real, outBarDist: real, coverThick: real, inBarD: real, inBarDist: real)
      returns (barFiberInfo: seq<Fiber>, outXList: seq<real>, outYList: seq<real>)
      requires BarReady(outBarDist, inBarDist)
      ensures Bars(barFiberInfo, outXList, outYList)
           == FlattenBars(BarPieces(outBarD, outBarDist, coverThick, inBarD, inBarDist))
    {
      var outBarLineDict := OutBarLineNode(BarToEdge(coverThick, outBarD));
      WithinIsKnown(OffsetLoop(m, classify, outNode, BarToEdge(coverThick, outBarD), OutLine), outEle);
      barFiberInfo, outXList, outYList := BarDivide(m, outBarD, outBarDist, outBarLineDict, outEle);
      var outer := Bars(barFiberInfo, outXList, outYList);
      var holes := [];
      if inNode.Some? {
        var inBarLineDict := InnerBarLineNode(BarToEdge(coverThick, inBarD));
        holes := HoleBars(m, inBarD, inBarDist, inBarLineDict.value, inEle.value);
        var inFibres, inXs, inYs := BarHoles(m, inBarD, inBarDist, inBarLineDict.value, inEle.value);
        barFiberInfo := barFiberInfo + inFibres;
        outXList := outXList + inXs;
        outYList := outYList + inYs;
      }
      FlattenBarsSingle(outer);
      FlattenBarsAppend([outer], holes);
    }

    /** userBarMesh: each user bar line divided between its two control
        nodes with its own diameter and spacing, joined in order. */
    method UserBarMesh(barControlNodeDict: map<int, Point>, barEleDict: seq<BarLine>)
      returns (barFiberInfo: seq<Fiber>, xListInfo: seq<real>, yListInfo: seq<real>)
      requires forall k :: 0 <= k < |barEleDict| ==> UserLineOk(barControlNodeDict, barEleDict[k])
      ensures Bars(barFiberInfo, xListInfo, yListInfo) == UserBars(m, barControlNodeDict, barEleDict)
    {
      barFiberInfo, xListInfo, yListInfo := [], [], [];
      for k := 0 to |barEleDict|
        invariant Bars(barFiberInfo, xListInfo, yListInfo) == UserBars(m, barControlNodeDict, barEleDict[..k])
      {
        var each := barEleDict[k];
        var barFiber, xList, yList :=
          BarDivide(m, each.barD, each.barDist, barControlNodeDict, [Edge(each.nodeI, each.nodeJ)]);
        barFiberInfo := barFiberInfo + barFiber;
        xListInfo := xListInfo + xList;
        yListInfo := yListInfo + yList;
        assert barEleDict[..k + 1][..k] == barEleDict[..k];
      }
      assert barEleDict[..|barEleDict|] == barEleDict;
    }
  }

  /** Contributions whose plot lists each have one point more than fibres
      join into lists with one plot point more per contribution. */
  lemma {:induction false} FlattenClosed(ds: seq<Division>)
    requires forall k :: 0 <= k < |ds| ==>
               |ds[k].outPlot| == |ds[k].fibres| + 1 && |ds[k].inPlot| == |ds[k].fibres| + 1
    ensures |Flatten(ds).outPlot| == |Flatten(ds).fibres| + |ds|
    ensures |Flatten(ds).inPlot| == |Flatten(ds).fibres| + |ds|
    decreases |ds|
  {
    if ds != [] {
      FlattenClosed(ds[..|ds| - 1]);
    }
  }

  /** A closed contribution followed by others: its fibres and (unclosed)
      plot points lead, its plot lists' closing point repeats their first,
      and each contribution adds one plot point more than fibres. */
  lemma {:induction false} ClosedLayout(o: Division, holes: seq<Division>)
    requires Balanced(o) && 1 <= |o.fibres|
    requires forall k :: 0 <= k < |holes| ==>
               |holes[k].outPlot| == |holes[k].fibres| + 1 && |holes[k].inPlot| == |holes[k].fibres| + 1
    ensures var d := Flatten([Closed(o)] + holes);
            && |o.fibres| <= |d.fibres| && |o.outPlot| < |d.outPlot| && |o.inPlot| < |d.inPlot|
            && d.fibres[..|o.fibres|] == o.fibres
            && d.outPlot[..|o.outPlot|] == o.outPlot && d.outPlot[|o.outPlot|] == o.outPlot[0]
            && d.inPlot[..|o.inPlot|] == o.inPlot && d.inPlot[|o.inPlot|] == o.inPlot[0]
            && |d.outPlot| == |d.fibres| + 1 + |holes| && |d.inPlot| == |d.fibres| + 1 + |holes|
  {
    var c := Closed(o);
    var pieces := [c] + holes;
    FlattenSingle(c);
    FlattenAppend([c], holes);
    forall k | 0 <= k < |pieces|
      ensures |pieces[k].outPlot| == |pieces[k].fibres| + 1 && |pieces[k].inPlot| == |pieces[k].fibres| + 1
    {
      if k > 0 {
        assert pieces[k] == holes[k - 1];
      }
    }
    FlattenClosed(pieces);
  }

  /** Each hole's closed division has one plot point more on each loop than
      fibres. */
  lemma HoleCoversClosed(m: MathLib, holes: seq<seq<Point>>, newDicts: seq<map<int, Point>>, eles: seq<seq<Edge>>,
                         eleSize: real, coverThick: real)
    requires eleSize != 0.0 && HolesDivisible(holes, newDicts, eles)
    ensures var cs := HoleCovers(m, holes, newDicts, eles, eleSize, coverThick);
            forall k :: 0 <= k < |cs| ==>
              |cs[k].outPlot| == |cs[k].fibres| + 1 && |cs[k].inPlot| == |cs[k].fibres| + 1
  {
    var cs := HoleCovers(m, holes, newDicts, eles, eleSize, coverThick);
    forall k | 0 <= k < |cs|
      ensures |cs[k].outPlot| == |cs[k].fibres| + 1 && |cs[k].inPlot| == |cs[k].fibres| + 1
    {
      CoverDivisionParallel(m, Rekey(holes[k]), newDicts[k], eles[k], eleSize, coverThick);
    }
  }

  /** coverMesh lists the outer loop first: its fibres and plot points are
      those _coverDivide gives for the outer loop and its cover line, each plot
      list closed by repeating its first point; the holes follow, each closed
      the same way, so the plot lists hold one point more per loop than
      there are fibres. */
  lemma {:induction false} CoverMeshLayout(s: PolygonSection, eleSize: real, coverThick: real)
    requires eleSize != 0.0 && s.CoverReady()
    ensures var d := Flatten(s.MeshPieces(eleSize, coverThick));
            var o := CoverDivision(s.m, Rekey(s.outNode), s.outNewNodeDict.value, s.outEle, eleSize, coverThick);
            var loops := 1 + (if s.inNode.None? then 0 else |s.inNode.value|);
            && |s.outEle| <= |o.fibres| <= |d.fibres| && |o.outPlot| < |d.outPlot| && |o.inPlot| < |d.inPlot|
            && d.fibres[..|o.fibres|] == o.fibres
            && d.outPlot[..|o.outPlot|] == o.outPlot && d.outPlot[|o.outPlot|] == o.outPlot[0]
            && d.inPlot[..|o.inPlot|] == o.inPlot && d.inPlot[|o.inPlot|] == o.inPlot[0]
            && |d.outPlot| == |d.fibres| + loops && |d.inPlot| == |d.fibres| + loops
  {
    var o := CoverDivision(s.m, Rekey(s.outNode), s.outNewNodeDict.value, s.outEle, eleSize, coverThick);
    CoverDivisionParallel(s.m, Rekey(s.outNode), s.outNewNodeDict.value, s.outEle, eleSize, coverThick);
    var holes: seq<Division> := [];
    if s.inNode.Some? {
      holes := HoleCovers(s.m, s.inNode.value, s.inNewNodeDict.value, s.inEle.value, eleSize, coverThick);
      HoleCoversClosed(s.m, s.inNode.value, s.inNewNodeDict.value, s.inEle.value, eleSize, coverThick);
    }
    assert s.MeshPieces(eleSize, coverThick) == [Closed(o)] + holes;
    ClosedLayout(o, holes);
  }

  /** Bars with parallel coordinate lists, the first run of one area and the
      rest of another, stay parallel when joined, each bar keeping its area. */
  lemma {:induction false} TwoAreaLayout(outer: Bars, holes: seq<Bars>, outArea: real, inArea: real)
    requires Parallel(outer, outArea)
    requires forall k :: 0 <= k < |holes| ==> Parallel(holes[k], inArea)
    ensures var b := FlattenBars([outer] + holes);
            && |b.xs| == |b.fibres| && |b.ys| == |b.fibres|
            && |outer.fibres| <= |b.fibres|
            && (forall k :: 0 <= k < |outer.fibres| ==> b.fibres[k] == Fiber(b.xs[k], b.ys[k], outArea))
            && (forall k :: |outer.fibres| <= k < |b.fibres| ==> b.fibres[k] == Fiber(b.xs[k], b.ys[k], inArea))
  {
    FlattenParallel(holes, inArea);
    FlattenBarsSingle(outer);
    FlattenBarsAppend([outer], holes);
    var h := FlattenBars(holes);
    var b := FlattenBars([outer] + holes);
    forall k | |outer.fibres| <= k < |b.fibres|
      ensures b.fibres[k] == Fiber(b.xs[k], b.ys[k], inArea)
    {
      var k' := k - |outer.fibres|;
      assert b.fibres[k] == h.fibres[k'] && b.xs[k] == h.xs[k'] && b.ys[k] == h.ys[k'];
    }
  }

  /** Every hole bar line's bars carry the area of a bar of diameter barD. */
  lemma HoleBarsParallel(m: MathLib, barD: real, barDist: real, lines: seq<map<int, Point>>, eles: seq<seq<Edge>>)
    requires barDist != 0.0 && HoleBarsKnown(lines, eles)
    ensures var bs := HoleBars(m, barD, barDist, lines, eles);
            forall k :: 0 <= k < |bs| ==> Parallel(bs[k], BarArea(m, barD))
  {
    var bs := HoleBars(m, barD, barDist, lines, eles);
    forall k | 0 <= k < |bs|
      ensures Parallel(bs[k], BarArea(m, barD))
    {
      BarDivisionParallel(m, barD, barDist, lines[k], eles[k]);
    }
  }

  /** barMesh's coordinate lists run parallel to its fibres; the outer bar
      line's bars come first and carry the area of a bar of diameter outBarD,
      and every later bar, on a hole, that of a bar of diameter inBarD. */
  lemma {:induction false} BarMeshLayout(s: PolygonSection, outBarD: real, outBarDist: real, coverThick: real,
                                         inBarD: real, inBarDist: real)
    requires s.BarReady(outBarDist, inBarDist)
    ensures var pieces := s.BarPieces(outBarD, outBarDist, coverThick, inBarD, inBarDist);
            var b := FlattenBars(pieces);
            && |b.xs| == |b.fibres| && |b.ys| == |b.fibres|
            && |pieces[0].fibres| <= |b.fibres|
            && (forall k :: 0 <= k < |pieces[0].fibres| ==>
                  b.fibres[k] == Fiber(b.xs[k], b.ys[k], BarArea(s.m, outBarD)))
            && (forall k :: |pieces[0].fibres| <= k < |b.fibres| ==>
                  b.fibres[k] == Fiber(b.xs[k], b.ys[k], BarArea(s.m, inBarD)))
  {
    var pieces := s.BarPieces(outBarD, outBarDist, coverThick, inBarD, inBarDist);
    var outLine := OffsetLoop(s.m, s.classify, s.outNode, BarToEdge(coverThick, outBarD), OutLine);
    WithinIsKnown(outLine, s.outEle);
    var outer := BarDivision(s.m, outBarD, outBarDist, Rekey(outLine), s.outEle);
    BarDivisionParallel(s.m, outBarD, outBarDist, Rekey(outLine), s.outEle);
    var holes: seq<Bars> := [];
    if s.inNode.Some? {
      var lines := RekeyAll(s.HoleOffsets(BarToEdge(coverThick, inBarD), InnerLine));
      holes := HoleBars(s.m, inBarD, inBarDist, lines, s.inEle.value);
      HoleBarsParallel(s.m, inBarD, inBarDist, lines, s.inEle.value);
    }
    assert pieces == [outer] + holes;
    TwoAreaLayout(outer, holes, BarArea(s.m, outBarD), BarArea(s.m, inBarD));
  }
}
