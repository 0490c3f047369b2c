/** Reinforcing-bar placement (_barDivide): every edge of a bar line is cut
    into equal pieces and a bar fibre is put at the start of each piece. */
module BarPlacement {
  import opened Geometry

  /** What _barDivide returns: the bar fibres and, parallel to them, their x
      and y coordinates. */
  datatype Bars = Bars(fibres: seq<Fiber>, xs: seq<real>, ys: seq<real>)

  /** One user-defined bar line: its start and end control nodes, the bar
      diameter and the bar spacing. */
  datatype BarLine = BarLine(nodeI: int, nodeJ: int, barD: real, barDist: real)

  function JoinBars(a: Bars, b: Bars): Bars {
    Bars(a.fibres + b.fibres, a.xs + b.xs, a.ys + b.ys)
  }

  /** np.pi * barD ** 2 / 4.0: the area of one bar. */
  function BarArea(m: MathLib, barD: real): real {
    m.pi * (barD * barD) / 4.0
  }

  /** The bar positions of an edge p -> q cut into nEle pieces: p and the
      interior division points; q is left to the edge that starts there. */
  function BarPoints(p: Point, q: Point, nEle: int): seq<Point> {
    [p] + InteriorPoints(p, q, nEle)
  }

  /** One fibre of the given area at each point, with the coordinate lists. */
  function BarsAt(pts: seq<Point>, area: real): Bars {
    Bars(seq(|pts|, k requires 0 <= k < |pts| => Fiber(pts[k].x, pts[k].y, area)),
         seq(|pts|, k requires 0 <= k < |pts| => pts[k].x),
         seq(|pts|, k requires 0 <= k < |pts| => pts[k].y))
  }

  /** What one edge contributes: it is cut into int(L / barDist) pieces. */
  function EdgeBars(m: MathLib, barD: real, barDist: real, nodes: map<int, Point>, e: Edge): Bars
    requires barDist != 0.0 && HasEnds(nodes, e)
  {
    var p, q := nodes[e.i], nodes[e.j];
    BarsAt(BarPoints(p, q, Trunc(Dist(m, p, q) / barDist)), BarArea(m, barD))
  }

  function FlattenBars(bs: seq<Bars>): Bars
    decreases |bs|
  {
    if bs == [] then Bars([], [], []) else
    JoinBars(FlattenBars(bs[..|bs| - 1]), bs[|bs| - 1])
  }

  /** The bars of each edge of a bar line, one entry per edge. */
  function EdgeBarsOf(m: MathLib, barD: real, barDist: real, nodes: map<int, Point>, edges: seq<Edge>): seq<Bars>
    requires barDist != 0.0 && EdgesKnown(nodes, edges)
  {
    seq(|edges|, k requires 0 <= k < |edges| => EdgeBars(m, barD, barDist, nodes, edges[k]))
  }

  /** What _barDivide returns for a bar line: the edges' bars in edge order. */
  function BarDivision(m: MathLib, barD: real, barDist: real, nodes: map<int, Point>, edges: seq<Edge>): Bars
    requires barDist != 0.0 && EdgesKnown(nodes, edges)
  {
    FlattenBars(EdgeBarsOf(m, barD, barDist, nodes, edges))
  }

  /** The i2 loop of _barDivide: the bar positions of one edge. */
  method LineBarPoints(p: Point, q: Point, nEle: int) returns (lineBarCoorList: seq<Point>)
    ensures lineBarCoorList == BarPoints(p, q, nEle)
  {
    lineBarCoorList := [p];
    ghost var interior := InteriorPoints(p, q, nEle);
    var i2 := 1;
    while i2 < nEle
      invariant 1 <= i2 && (i2 == 1 || i2 <= nEle)
      invariant lineBarCoorList == [p] + interior[..i2 - 1]
    {
      var node := Lerp(p, q, nEle, i2);
      assert interior[..i2] == interior[..i2 - 1] + [node];
      lineBarCoorList := lineBarCoorList + [node];
      i2 := i2 + 1;
    }
    assert interior[..i2 - 1] == interior;
  }

  /** The i3 loop of _barDivide: a fibre and its coordinates per position. */
  method EmitBars(lineBarCoorList: seq<Point>, area: real)
    returns (fibres: seq<Fiber>, xs: seq<real>, ys: seq<real>)
    ensures Bars(fibres, xs, ys) == BarsAt(lineBarCoorList, area)
  {
    fibres, xs, ys := [], [], [];
    for i3 := 0 to |lineBarCoorList|
      invariant Bars(fibres, xs, ys) == BarsAt(lineBarCoorList[..i3], area)
    {
      var pt := lineBarCoorList[i3];
      fibres := fibres + [Fiber(pt.x, pt.y, area)];
      xs := xs + [pt.x];
      ys := ys + [pt.y];
    }
    assert lineBarCoorList[..|lineBarCoorList|] == lineBarCoorList;
  }

  /** The body of _barDivide's edge loop for the edge p -> q. */
  method DivideBarLine(m: MathLib, p: Point, q: Point, barDist: real, area: real)
    returns (fibres: seq<Fiber>, xs: seq<real>, ys: seq<real>)
    requires barDist != 0.0
    ensures Bars(fibres, xs, ys) == BarsAt(BarPoints(p, q, Trunc(Dist(m, p, q) / barDist)), area)
  {
    var length := Dist(m, p, q);
    var nEle := Trunc(length / barDist);
    var lineBarCoorList := LineBarPoints(p, q, nEle);
    fibres, xs, ys := EmitBars(lineBarCoorList, area);
  }

  /** _barDivide: the bars of every edge of a bar line, in edge order. */
  method BarDivide(m: MathLib, barD: real, barDist: real, nodeDict: map<int, Point>, lineEleDict: seq<Edge>)
    returns (barFiberList: seq<Fiber>, xReturnList: seq<real>, yReturnList: seq<real>)
    requires barDist != 0.0 && EdgesKnown(nodeDict, lineEleDict)
    ensures Bars(barFiberList, xReturnList, yReturnList) == BarDivision(m, barD, barDist, nodeDict, lineEleDict)
  {
    var area := m.pi * (barD * barD) / 4.0;
    assert area == BarArea(m, barD);
    barFiberList, xReturnList, yReturnList := [], [], [];
    ghost var pieces := EdgeBarsOf(m, barD, barDist, nodeDict, lineEleDict);
    for i1 := 0 to |lineEleDict|
      invariant Bars(barFiberList, xReturnList, yReturnList) == FlattenBars(pieces[..i1])
    {
      var e := lineEleDict[i1];
      var fibres, xs, ys := DivideBarLine(m, nodeDict[e.i], nodeDict[e.j], barDist, area);
      assert Bars(fibres, xs, ys) == pieces[i1];
      barFiberList := barFiberList + fibres;
      xReturnList := xReturnList + xs;
      yReturnList := yReturnList + ys;
      assert pieces[..i1 + 1][..i1] == pieces[..i1];
    }
    assert pieces[..|lineEleDict|] == pieces;
  }

  /** An edge p -> q cut into nEle pieces gets n = max(1, nEle) bars: the first
      is at p and bar k at the k-th of n equal division points. */
  lemma {:induction false} BarPointsAreDivisionPoints(p: Point, q: Point, nEle: int)
    ensures |BarPoints(p, q, nEle)| == Pieces(nEle)
    ensures BarPoints(p, q, nEle)[0] == p
    ensures forall k :: 0 <= k < Pieces(nEle) ==> BarPoints(p, q, nEle)[k] == Lerp(p, q, Pieces(nEle), k)
  {
    forall k | 0 <= k < Pieces(nEle)
      ensures BarPoints(p, q, nEle)[k] == Lerp(p, q, Pieces(nEle), k)
    {
      StartAndInteriorAreDivisionPoints(p, q, nEle, k);
    }
  }

  /** Only the k = n division point is the end q, unless the edge is a point. */
  lemma {:induction false} DivisionPointBeforeEnd(p: Point, q: Point, n: int, k: int)
    requires 0 <= k < n && Lerp(p, q, n, k) == q
    ensures p == q
  {
    var nr, kr := n as real, k as real;
    assert (nr - kr) * p.x + kr * q.x == nr * q.x by {
      assert ((nr - kr) * p.x + kr * q.x) / nr == q.x;
    }
    assert (p.x - q.x) * (nr - kr) == 0.0;
    ZeroFactor(p.x - q.x, nr - kr);
    assert (nr - kr) * p.y + kr * q.y == nr * q.y by {
      assert ((nr - kr) * p.y + kr * q.y) / nr == q.y;
    }
    assert (p.y - q.y) * (nr - kr) == 0.0;
    ZeroFactor(p.y - q.y, nr - kr);
  }

  /** The end vertex of an edge of non-zero length is never one of its bars:
      a corner of the bar line gets a bar once, from the edge starting there. */
  lemma {:induction false} EndNotEmitted(p: Point, q: Point, nEle: int)
    requires p != q
    ensures q !in BarPoints(p, q, nEle)
  {
    BarPointsAreDivisionPoints(p, q, nEle);
    if q in BarPoints(p, q, nEle) {
      var k :| 0 <= k < |BarPoints(p, q, nEle)| && BarPoints(p, q, nEle)[k] == q;
      DivisionPointBeforeEnd(p, q, Pieces(nEle), k);
    }
  }

  /** The number of bars a bar line gets: max(1, int(L / barDist)) per edge,
      summed over the edges. */
  function BarCount(m: MathLib, barDist: real, nodes: map<int, Point>, edges: seq<Edge>): int
    requires barDist != 0.0 && EdgesKnown(nodes, edges)
  {
    if edges == [] then 0 else
    var e := edges[|edges| - 1];
    BarCount(m, barDist, nodes, edges[..|edges| - 1])
      + Pieces(Trunc(Dist(m, nodes[e.i], nodes[e.j]) / barDist))
  }

  /** _barDivide emits exactly BarCount bars, each a disc of diameter barD. */
  lemma {:induction false} BarDivisionCount(m: MathLib, barD: real, barDist: real,
                                            nodes: map<int, Point>, edges: seq<Edge>)
    requires barDist != 0.0 && EdgesKnown(nodes, edges)
    ensures var b := BarDivision(m, barD, barDist, nodes, edges);
            && |b.fibres| == BarCount(m, barDist, nodes, edges)
            && forall k :: 0 <= k < |b.fibres| ==> b.fibres[k].area == m.pi * Sq(barD / 2.0)
    decreases |edges|
  {
    BarDivisionParallel(m, barD, barDist, nodes, edges);
    if edges != [] {
      var front, e := edges[..|edges| - 1], edges[|edges| - 1];
      assert front + [e] == edges;
      BarDivisionCount(m, barD, barDist, nodes, front);
      BarDivisionAppend(m, barD, barDist, nodes, front, e);
    }
  }

  /** Bars whose coordinate lists run parallel to the fibres, every fibre
      carrying the given area. */
  predicate Parallel(b: Bars, area: real) {
    && |b.xs| == |b.fibres| && |b.ys| == |b.fibres|
    && forall k :: 0 <= k < |b.fibres| ==> b.fibres[k] == Fiber(b.xs[k], b.ys[k], area)
  }

  lemma {:induction false} FlattenParallel(bs: seq<Bars>, area: real)
    requires forall k :: 0 <= k < |bs| ==> Parallel(bs[k], area)
    ensures Parallel(FlattenBars(bs), area)
    decreases |bs|
  {
    if bs != [] {
      FlattenParallel(bs[..|bs| - 1], area);
    }
  }

  /** xReturnList and yReturnList run parallel to barFiberList, and every bar
      fibre carries the area pi * barD^2 / 4. */
  lemma {:induction false} BarDivisionParallel(m: MathLib, barD: real, barDist: real,
                                               nodes: map<int, Point>, edges: seq<Edge>)
    requires barDist != 0.0 && EdgesKnown(nodes, edges)
    ensures var b := BarDivision(m, barD, barDist, nodes, edges);
            && |b.xs| == |b.fibres| && |b.ys| == |b.fibres|
            && forall k :: 0 <= k < |b.fibres| ==>
                 b.fibres[k].x == b.xs[k] && b.fibres[k].y == b.ys[k] && b.fibres[k].area == BarArea(m, barD)
  {
    FlattenParallel(EdgeBarsOf(m, barD, barDist, nodes, edges), BarArea(m, barD));
  }

  /** _barDivide over two runs of edges is the two runs' results joined. */
  lemma {:induction false} FlattenBarsAppend(xs: seq<Bars>, ys: seq<Bars>)
    ensures FlattenBars(xs + ys) == JoinBars(FlattenBars(xs), FlattenBars(ys))
    decreases |ys|
  {
    if ys == [] {
      assert xs + ys == xs;
    } else {
      var last := |ys| - 1;
      assert (xs + ys)[..|xs + ys| - 1] == xs + ys[..last];
      assert (xs + ys)[|xs + ys| - 1] == ys[last];
      FlattenBarsAppend(xs, ys[..last]);
    }
  }

  /** The bars of a bar line are its edges' bars one after the other: edge k
      contributes max(1, int(L_k / barDist)) bars, starting at its start node. */
  lemma {:induction false} BarDivisionAppend(m: MathLib, barD: real, barDist: real,
                                             nodes: map<int, Point>, edges: seq<Edge>, e: Edge)
    requires barDist != 0.0 && EdgesKnown(nodes, edges) && HasEnds(nodes, e)
    ensures EdgesKnown(nodes, edges + [e])
    ensures var b := EdgeBars(m, barD, barDist, nodes, e);
            var n := Pieces(Trunc(Dist(m, nodes[e.i], nodes[e.j]) / barDist));
            && BarDivision(m, barD, barDist, nodes, edges + [e])
                 == JoinBars(BarDivision(m, barD, barDist, nodes, edges), b)
            && |b.fibres| == n
            && b.fibres[0] == Fiber(nodes[e.i].x, nodes[e.i].y, BarArea(m, barD))
  {
    var bs := EdgeBarsOf(m, barD, barDist, nodes, edges + [e]);
    assert bs[..|bs| - 1] == EdgeBarsOf(m, barD, barDist, nodes, edges);
    BarPointsAreDivisionPoints(nodes[e.i], nodes[e.j], Trunc(Dist(m, nodes[e.i], nodes[e.j]) / barDist));
  }

  /** userBarMesh's result for a list of bar lines: each line is divided as a
      one-edge bar line between its control nodes, with its own diameter and
      spacing, and the results are joined in order. */
  function UserBars(m: MathLib, control: map<int, Point>, lines: seq<BarLine>): Bars
    requires forall k :: 0 <= k < |lines| ==> UserLineOk(control, lines[k])
    decreases |lines|
  {
    if lines == [] then Bars([], [], []) else
    var last := lines[|lines| - 1];
    assert UserLineOk(control, last);
    JoinBars(UserBars(m, control, lines[..|lines| - 1]),
             BarDivision(m, last.barD, last.barDist, control, [Edge(last.nodeI, last.nodeJ)]))
  }

  predicate UserLineOk(control: map<int, Point>, line: BarLine) {
    line.barDist != 0.0 && line.nodeI in control && line.nodeJ in control
  }

  /** A one-edge bar line gets exactly that edge's bars. */
  lemma SingleEdgeBars(m: MathLib, barD: real, barDist: real, nodes: map<int, Point>, e: Edge)
    requires barDist != 0.0 && HasEnds(nodes, e)
    ensures EdgesKnown(nodes, [e])
    ensures BarDivision(m, barD, barDist, nodes, [e]) == EdgeBars(m, barD, barDist, nodes, e)
  {
    var b := EdgeBars(m, barD, barDist, nodes, e);
    var bs := EdgeBarsOf(m, barD, barDist, nodes, [e]);
    assert bs == [b] && bs[..0] == [];
    assert FlattenBars(bs[..0]) == Bars([], [], []);
    assert FlattenBars(bs) == JoinBars(Bars([], [], []), b);
    assert [] + b.fibres == b.fibres && [] + b.xs == b.xs && [] + b.ys == b.ys;
  }

  /** The coordinate lists run parallel to the fibres (whatever their areas). */
  predicate Aligned(b: Bars) {
    && |b.xs| == |b.fibres| && |b.ys| == |b.fibres|
    && forall k :: 0 <= k < |b.fibres| ==> b.fibres[k].x == b.xs[k] && b.fibres[k].y == b.ys[k]
  }

  /** userBarMesh with one more bar line appends that line's bars, which are
      max(1, int(L / barDist)) bars starting at its first control node, with
      the line's own bar area. */
  lemma {:induction false} UserBarsAppend(m: MathLib, control: map<int, Point>, lines: seq<BarLine>, line: BarLine)
    requires forall k :: 0 <= k < |lines| ==> UserLineOk(control, lines[k])
    requires UserLineOk(control, line)
    ensures forall k :: 0 <= k < |lines + [line]| ==> UserLineOk(control, (lines + [line])[k])
    ensures var b := EdgeBars(m, line.barD, line.barDist, control, Edge(line.nodeI, line.nodeJ));
            var p, q := control[line.nodeI], control[line.nodeJ];
            && UserBars(m, control, lines + [line]) == JoinBars(UserBars(m, control, lines), b)
            && |b.fibres| == Pieces(Trunc(Dist(m, p, q) / line.barDist))
            && b.fibres[0] == Fiber(p.x, p.y, BarArea(m, line.barD))
  {
    var all := lines + [line];
    assert all[..|all| - 1] == lines && all[|all| - 1] == line;
    var e := Edge(line.nodeI, line.nodeJ);
    SingleEdgeBars(m, line.barD, line.barDist, control, e);
    BarDivisionAppend(m, line.barD, line.barDist, control, [], e);
    assert [] + [e] == [e];
  }

  lemma JoinAligned(a: Bars, b: Bars)
    requires Aligned(a) && Aligned(b)
    ensures Aligned(JoinBars(a, b))
  {
    var j := JoinBars(a, b);
    forall k | 0 <= k < |j.fibres|
      ensures j.fibres[k].x == j.xs[k] && j.fibres[k].y == j.ys[k]
    {
      if k >= |a.fibres| {
        assert j.fibres[k] == b.fibres[k - |a.fibres|];
      }
    }
  }

  /** Whatever the bar lines, userBarMesh's coordinate lists run parallel to
      its fibres. */
  lemma {:induction false} UserBarsAligned(m: MathLib, control: map<int, Point>, lines: seq<BarLine>)
    requires forall k :: 0 <= k < |lines| ==> UserLineOk(control, lines[k])
    ensures Aligned(UserBars(m, control, lines))
    decreases |lines|
  {
    if lines != [] {
      var last := lines[|lines| - 1];
      var front := lines[..|lines| - 1];
      UserBarsAligned(m, control, front);
      var e := [Edge(last.nodeI, last.nodeJ)];
      assert UserLineOk(control, last);
      BarDivisionParallel(m, last.barD, last.barDist, control, e);
      JoinAligned(UserBars(m, control, front), BarDivision(m, last.barD, last.barDist, control, e));
    }
  }
}
