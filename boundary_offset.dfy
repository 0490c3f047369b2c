/** The boundary offset engine of PolygonSection (_interNodeCoord and
    _pointToLineD): every edge of a loop is moved a distance d along its normal,
    the side being chosen edge by edge by asking a point classifier about a
    probe point, and each new vertex is the intersection of the two moved lines
    adjacent to it. The classifier is a parameter (in the source it is
    is_in_2d_polygon, modelled in PointInPolygon), and the 2x2 solve is
    Cramer's rule. */
module BoundaryOffset {
  import opened Geometry

  /** A line a*x + b*y + c = 0 in general form. */
  datatype Line = Line(a: real, b: real, c: real)

  /** The left-hand side a*x + b*y + c at p: zero on the line, and
      Value / sqrt(a^2 + b^2) is the signed distance of p from it. */
  function Value(l: Line, p: Point): real { l.a * p.x + l.b * p.y + l.c }

  predicate OnLine(l: Line, p: Point) { Value(l, p) == 0.0 }

  /** a^2 + b^2, the squared length of the line's normal. */
  function Norm2(l: Line): real { l.a * l.a + l.b * l.b }

  /** The line has a normal vector (a, b) != (0, 0): it is a genuine line. */
  predicate HasNormal(l: Line) { l.a != 0.0 || l.b != 0.0 }

  /** The determinant of [[a1, b1], [a2, b2]]. */
  function Det(l1: Line, l2: Line): real { l1.a * l2.b - l2.a * l1.b }

  /** The general-form line through i and j:
      (yj - yi) x - (xj - xi) y + (xj - xi) yi - (yj - yi) xi = 0. */
  function EdgeLine(i: Point, j: Point): (l: Line)
    ensures OnLine(l, i) && OnLine(l, j)
  {
    Line(j.y - i.y, -(j.x - i.x), (j.x - i.x) * i.y - (j.y - i.y) * i.x)
  }

  /** One of the two lines parallel to l at distance d: its constant is
      c - sqrt(a^2 + b^2) * d for the first candidate, c + sqrt(a^2 + b^2) * d
      for the second. */
  function Candidate(m: MathLib, l: Line, d: real, first: bool): Line {
    var shift := m.sqrt(l.a * l.a + l.b * l.b) * d;
    Line(l.a, l.b, if first then l.c - shift else l.c + shift)
  }

  /** The perpendicular to l through the midpoint of i and j:
      b*x - a*y + (a*(yi + yj)/2 - b*(xi + xj)/2) = 0. */
  function Perpendicular(l: Line, i: Point, j: Point): Line {
    Line(l.b, -l.a, l.a * 0.5 * (i.y + j.y) - l.b * 0.5 * (i.x + j.x))
  }

  /** The solution of a1*x + b1*y = -c1, a2*x + b2*y = -c2 by Cramer's rule:
      the one point on both lines. */
  function Solve(l1: Line, l2: Line): (p: Point)
    requires Det(l1, l2) != 0.0
    ensures OnLine(l1, p) && OnLine(l2, p)
  {
    var det := Det(l1, l2);
    var p := Point((l1.b * l2.c - l2.b * l1.c) / det, (l2.a * l1.c - l1.a * l2.c) / det);
    CramerSolves(l1, l2, p);
    p
  }

  lemma CramerSolves(l1: Line, l2: Line, p: Point)
    requires Det(l1, l2) != 0.0
    requires p.x == (l1.b * l2.c - l2.b * l1.c) / Det(l1, l2)
    requires p.y == (l2.a * l1.c - l1.a * l2.c) / Det(l1, l2)
    ensures OnLine(l1, p) && OnLine(l2, p)
  {
    var det := Det(l1, l2);
    var nx, ny := l1.b * l2.c - l2.b * l1.c, l2.a * l1.c - l1.a * l2.c;
    assert p.x * det == nx;
    assert p.y * det == ny;
    assert Value(l1, p) * det == l1.a * nx + l1.b * ny + l1.c * det;
    assert l1.a * nx + l1.b * ny + l1.c * det == 0.0;
    ZeroFactor(Value(l1, p), det);
    assert Value(l2, p) * det == l2.a * nx + l2.b * ny + l2.c * det;
    assert l2.a * nx + l2.b * ny + l2.c * det == 0.0;
    ZeroFactor(Value(l2, p), det);
  }

  /** The 2x2 system has no solution other than Solve's. */
  lemma SolveUnique(l1: Line, l2: Line, q: Point)
    requires Det(l1, l2) != 0.0
    requires OnLine(l1, q) && OnLine(l2, q)
    ensures q == Solve(l1, l2)
  {
    var det := Det(l1, l2);
    var p := Solve(l1, l2);
    assert q.x * det == l1.b * l2.c - l2.b * l1.c by {
      assert l2.b * Value(l1, q) - l1.b * Value(l2, q) == q.x * det + l2.b * l1.c - l1.b * l2.c;
    }
    assert q.y * det == l2.a * l1.c - l1.a * l2.c by {
      assert l1.a * Value(l2, q) - l2.a * Value(l1, q) == q.y * det + l1.a * l2.c - l2.a * l1.c;
    }
    assert p.x * det == l1.b * l2.c - l2.b * l1.c;
    assert p.y * det == l2.a * l1.c - l1.a * l2.c;
    ZeroFactor(q.x - p.x, det);
    ZeroFactor(q.y - p.y, det);
  }

  /** _pointToLineD: the foot on line l of the perpendicular dropped through the
      midpoint of i and j. Its determinant is -(a^2 + b^2), so it exists as soon
      as the line has a normal. */
  function ProbePoint(l: Line, i: Point, j: Point): (p: Point)
    requires HasNormal(l)
    ensures OnLine(l, p) && OnLine(Perpendicular(l, i, j), p)
  {
    PerpendicularMeets(l, i, j);
    Solve(l, Perpendicular(l, i, j))
  }

  lemma PerpendicularMeets(l: Line, i: Point, j: Point)
    requires HasNormal(l)
    ensures Det(l, Perpendicular(l, i, j)) == -Norm2(l)
    ensures Det(l, Perpendicular(l, i, j)) != 0.0
  {
    SumOfSquaresPositive(l.a, l.b);
    assert Det(l, Perpendicular(l, i, j)) == -(l.a * l.a + l.b * l.b);
  }

  /** The choice between the two candidate constants c_1 and c_2 once the
      probe on c_1 has been classified: "outLine" keeps c_1 when the probe is
      inside, "innerLine" keeps c_1 when it is outside. */
  function Choose(mode: Mode, c1: real, c2: real, probeInside: bool): real {
    match mode
    case OutLine => if probeInside then c1 else c2
    case InnerLine => if !probeInside then c1 else c2
  }

  /** The offset line chosen for edge (i, j) of the loop whose closed vertex
      list is closed. */
  function ChosenLine(m: MathLib, classify: (Point, seq<Point>) -> bool, closed: seq<Point>,
                      mode: Mode, d: real, i: Point, j: Point): Line
    requires HasNormal(EdgeLine(i, j))
  {
    var e := EdgeLine(i, j);
    var first, second := Candidate(m, e, d, true), Candidate(m, e, d, false);
    var probe := ProbePoint(first, i, j);
    Line(e.a, e.b, Choose(mode, first.c, second.c, classify(probe, closed)))
  }

  /** Adjacent edges (i, j) and (j, k) are not parallel, and neither is degenerate. */
  predicate Turns(i: Point, j: Point, k: Point) {
    Det(EdgeLine(i, j), EdgeLine(j, k)) != 0.0
  }

  lemma TurnsHasNormals(i: Point, j: Point, k: Point)
    requires Turns(i, j, k)
    ensures HasNormal(EdgeLine(i, j)) && HasNormal(EdgeLine(j, k))
  {
  }

  /** a^2 + b^2 > 0 unless a = b = 0. */
  lemma SumOfSquaresPositive(a: real, b: real)
    requires a != 0.0 || b != 0.0
    ensures 0.0 < a * a + b * b
  {
    if a != 0.0 {
      SquarePositive(a);
      SquareNonNegative(b);
    } else {
      SquarePositive(b);
      assert a * a == 0.0;
    }
  }

  /** The new vertex at j: the intersection of the chosen offset lines of the
      edges (i, j) and (j, k). */
  function Corner(m: MathLib, classify: (Point, seq<Point>) -> bool, closed: seq<Point>,
                  mode: Mode, d: real, i: Point, j: Point, k: Point): Point
    requires Turns(i, j, k)
  {
    TurnsHasNormals(i, j, k);
    var l1, l2 := ChosenLine(m, classify, closed, mode, d, i, j), ChosenLine(m, classify, closed, mode, d, j, k);
    assert Det(l1, l2) == Det(EdgeLine(i, j), EdgeLine(j, k));
    Solve(l1, l2)
  }

  /** The closed vertex list handed to the classifier: the first vertex repeated at the end. */
  function Close(vs: seq<Point>): (r: seq<Point>)
    requires |vs| > 0
    ensures |r| == |vs| + 1 && r[|vs|] == vs[0] && r[..|vs|] == vs
  {
    vs + [vs[0]]
  }

  function Pred(q: nat, n: nat): nat requires q < n { if q == 0 then n - 1 else q - 1 }
  function Succ(q: nat, n: nat): nat requires q < n { if q == n - 1 then 0 else q + 1 }

  /** Vertex q of vs turns: its two edges are neither parallel nor degenerate. */
  predicate CornerTurns(vs: seq<Point>, q: nat)
    requires q < |vs|
  {
    Turns(vs[Pred(q, |vs|)], vs[q], vs[Succ(q, |vs|)])
  }

  /** The loops whose offset the source can compute: at least three vertices,
      and at no vertex are the two edges parallel (scipy's solve raises on a
      singular system, which is not modelled). */
  predicate Offsettable(vs: seq<Point>) {
    3 <= |vs| && forall q :: 0 <= q < |vs| ==> CornerTurns(vs, q)
  }

  /** The offset vertex of vertex q, built from the cyclic triple
      (vs[q - 1], vs[q], vs[q + 1]). */
  function OffsetVertex(m: MathLib, classify: (Point, seq<Point>) -> bool, vs: seq<Point>,
                        d: real, mode: Mode, q: nat): Point
    requires Offsettable(vs) && q < |vs|
  {
    assert CornerTurns(vs, q);
    Corner(m, classify, Close(vs), mode, d, vs[Pred(q, |vs|)], vs[q], vs[Succ(q, |vs|)])
  }

  /** The offset loop: one new vertex per source vertex, in the same order. */
  function OffsetLoop(m: MathLib, classify: (Point, seq<Point>) -> bool, vs: seq<Point>,
                      d: real, mode: Mode): seq<Point>
    requires Offsettable(vs)
  {
    seq(|vs|, q requires 0 <= q < |vs| => OffsetVertex(m, classify, vs, d, mode, q))
  }

  /** _interNodeCoord: one corner per cyclic triple (v[t], v[t+1], v[t+2]) of
      the vertex list extended by its first two vertices, appended in turn, and
      then the list rotated right by one so that entry q belongs to vertex q. */
  method InterNodeCoord(m: MathLib, classify: (Point, seq<Point>) -> bool, vs: seq<Point>,
                        d: real, mode: Mode) returns (nodes: seq<Point>)
    requires Offsettable(vs)
    ensures nodes == OffsetLoop(m, classify, vs, d, mode)
  {
    var n := |vs|;
    var closed := vs + [vs[0]];
    var extended := closed + [vs[1]];
    var list: seq<Point> := [];
    for t := 0 to n
      invariant |list| == t
      invariant forall u :: 0 <= u < t ==> list[u] == OffsetVertex(m, classify, vs, d, mode, Succ(u, n))
    {
      var iNode, jNode, kNode := extended[t], extended[t + 1], extended[t + 2];
      TripleIsOffsetVertex(m, classify, vs, d, mode, t);
      var newNode := CornerNode(m, classify, closed, mode, d, iNode, jNode, kNode);
      list := list + [newNode];
    }
    RotationAligns(m, classify, vs, d, mode, list);
    nodes := [list[n - 1]] + list[..n - 1];
  }

  /** Rotating a list right by one puts entry u at position u + 1 (cyclically). */
  lemma RotateRight(list: seq<Point>, target: seq<Point>)
    requires 0 < |list| == |target|
    requires forall u :: 0 <= u < |list| ==> list[u] == target[Succ(u, |list|)]
    ensures [list[|list| - 1]] + list[..|list| - 1] == target
  {
    var n := |list|;
    var nodes := [list[n - 1]] + list[..n - 1];
    forall q | 0 <= q < n
      ensures nodes[q] == target[q]
    {
      if q == 0 {
        assert Succ(n - 1, n) == 0;
      } else {
        assert nodes[q] == list[q - 1] && Succ(q - 1, n) == q;
      }
    }
  }

  /** Rotating right by one moves the corner of vertex q + 1 (built at step q)
      to position q + 1, and the last one to the front. */
  lemma RotationAligns(m: MathLib, classify: (Point, seq<Point>) -> bool, vs: seq<Point>,
                       d: real, mode: Mode, list: seq<Point>)
    requires Offsettable(vs) && |list| == |vs|
    requires forall u :: 0 <= u < |vs| ==> list[u] == OffsetVertex(m, classify, vs, d, mode, Succ(u, |vs|))
    ensures [list[|vs| - 1]] + list[..|vs| - 1] == OffsetLoop(m, classify, vs, d, mode)
  {
    var target := OffsetLoop(m, classify, vs, d, mode);
    forall u | 0 <= u < |list|
      ensures list[u] == target[Succ(u, |list|)]
    {
    }
    RotateRight(list, target);
  }

  /** One pass of the loop body of _interNodeCoord for the triple (i, j, k):
      edge lines, candidate constants, probes on the first candidates, the
      mode's choice, and the 2x2 solve. */
  method CornerNode(m: MathLib, classify: (Point, seq<Point>) -> bool, closed: seq<Point>,
                    mode: Mode, d: real, iNode: Point, jNode: Point, kNode: Point)
    returns (newNode: Point)
    requires Turns(iNode, jNode, kNode)
    ensures newNode == Corner(m, classify, closed, mode, d, iNode, jNode, kNode)
  {
    TurnsHasNormals(iNode, jNode, kNode);
    var e1, e2 := EdgeLine(iNode, jNode), EdgeLine(jNode, kNode);
    var c1_1, c1_2 := Candidate(m, e1, d, true).c, Candidate(m, e1, d, false).c;
    var c2_1, c2_2 := Candidate(m, e2, d, true).c, Candidate(m, e2, d, false).c;
    var nodeD1_1 := ProbePoint(Line(e1.a, e1.b, c1_1), iNode, jNode);
    var d1_1Index := classify(nodeD1_1, closed);
    var nodeD2_1 := ProbePoint(Line(e2.a, e2.b, c2_1), jNode, kNode);
    var d2_1Index := classify(nodeD2_1, closed);
    var c11 := Choose(mode, c1_1, c1_2, d1_1Index);
    var c22 := Choose(mode, c2_1, c2_2, d2_1Index);
    assert Line(e1.a, e1.b, c11) == ChosenLine(m, classify, closed, mode, d, iNode, jNode);
    assert Line(e2.a, e2.b, c22) == ChosenLine(m, classify, closed, mode, d, jNode, kNode);
    newNode := Solve(Line(e1.a, e1.b, c11), Line(e2.a, e2.b, c22));
  }

  /** The corner built from entries t, t + 1, t + 2 of the extended list is the
      offset vertex of vertex t + 1 (cyclically). */
  lemma TripleIsOffsetVertex(m: MathLib, classify: (Point, seq<Point>) -> bool, vs: seq<Point>,
                             d: real, mode: Mode, t: nat)
    requires Offsettable(vs) && t < |vs|
    ensures var extended := vs + [vs[0]] + [vs[1]];
            && Turns(extended[t], extended[t + 1], extended[t + 2])
            && Corner(m, classify, vs + [vs[0]], mode, d, extended[t], extended[t + 1], extended[t + 2])
               == OffsetVertex(m, classify, vs, d, mode, Succ(t, |vs|))
  {
    Cyclic(vs, t);
    assert CornerTurns(vs, Succ(t, |vs|));
  }

  /** Entry t of the extended list starts the triple centred on vertex t + 1 (cyclically). */
  lemma Cyclic(vs: seq<Point>, t: nat)
    requires 3 <= |vs| && t < |vs|
    ensures var n, extended := |vs|, vs + [vs[0]] + [vs[1]];
            && Pred(Succ(t, n), n) == t
            && extended[t] == vs[t]
            && extended[t + 1] == vs[Succ(t, n)]
            && extended[t + 2] == vs[Succ(Succ(t, n), n)]
  {
  }

  // ---------------------------------------------------------------------------
  // Properties of the offset construction

  /** Both candidates are parallel to l, and every point of a candidate lies at
      distance |d| from l: its squared signed distance Value^2 / (a^2 + b^2) is d^2.
      The two candidates lie on opposite sides of l. */
  lemma CandidateAtDistance(m: MathLib, l: Line, d: real, first: bool, p: Point)
    requires m.SqrtOk()
    requires OnLine(Candidate(m, l, d, first), p)
    ensures Candidate(m, l, d, first).a == l.a && Candidate(m, l, d, first).b == l.b
    ensures Value(l, p) == (if first then 1.0 else -1.0) * m.sqrt(Norm2(l)) * d
    ensures Sq(Value(l, p)) == Sq(d) * Norm2(l)
  {
    var s := m.sqrt(Norm2(l));
    assert 0.0 <= Norm2(l);
    assert s * s == Norm2(l);
    assert Value(l, p) == Value(Candidate(m, l, d, first), p) + (if first then s * d else -(s * d));
    assert Sq(s * d) == (s * s) * (d * d);
  }

  /** The midpoint of the edge lies on the edge line and on the perpendicular. */
  lemma MidpointOnBoth(i: Point, j: Point, l: Line)
    requires l.a == EdgeLine(i, j).a && l.b == EdgeLine(i, j).b
    ensures OnLine(EdgeLine(i, j), Mid(i, j))
    ensures OnLine(Perpendicular(l, i, j), Mid(i, j))
  {
    var e := EdgeLine(i, j);
    assert Value(e, Mid(i, j)) == (Value(e, i) + Value(e, j)) / 2.0;
  }

  /** The probe of a candidate lies on that candidate, hence at distance |d|
      from the edge line, and it is reached from the edge's midpoint along the
      edge's normal (a, b). */
  lemma ProbeOnNormal(m: MathLib, i: Point, j: Point, d: real, first: bool)
    requires HasNormal(EdgeLine(i, j))
    ensures var e := EdgeLine(i, j);
            var p := ProbePoint(Candidate(m, e, d, first), i, j);
            var mid := Mid(i, j);
            && OnLine(Candidate(m, e, d, first), p)
            && e.b * (p.x - mid.x) - e.a * (p.y - mid.y) == 0.0
  {
    var e := EdgeLine(i, j);
    var cand := Candidate(m, e, d, first);
    var p := ProbePoint(cand, i, j);
    var mid := Mid(i, j);
    MidpointOnBoth(i, j, cand);
    var u, v := p.x - mid.x, p.y - mid.y;
    assert Value(Perpendicular(cand, i, j), p) - Value(Perpendicular(cand, i, j), mid) == e.b * u - e.a * v;
  }

  /** The chosen line is the first candidate exactly when the mode's test on
      the probe's classification succeeds: in "outLine" mode when the probe is
      inside, in "innerLine" mode when it is outside; otherwise it is the second. */
  lemma ChosenCandidate(m: MathLib, classify: (Point, seq<Point>) -> bool, closed: seq<Point>,
                        mode: Mode, d: real, i: Point, j: Point)
    requires HasNormal(EdgeLine(i, j))
    ensures var e := EdgeLine(i, j);
            var inside := classify(ProbePoint(Candidate(m, e, d, true), i, j), closed);
            ChosenLine(m, classify, closed, mode, d, i, j)
              == Candidate(m, e, d, (mode == OutLine) == inside)
  {
  }

  /** For the same classifier answer the two modes take opposite candidates,
      which lie symmetrically about the edge line. */
  lemma ModesOpposite(m: MathLib, classify: (Point, seq<Point>) -> bool, closed: seq<Point>,
                      d: real, i: Point, j: Point)
    requires HasNormal(EdgeLine(i, j))
    ensures var e := EdgeLine(i, j);
            var inside := classify(ProbePoint(Candidate(m, e, d, true), i, j), closed);
            var outer := ChosenLine(m, classify, closed, OutLine, d, i, j);
            var inner := ChosenLine(m, classify, closed, InnerLine, d, i, j);
            && outer == Candidate(m, e, d, inside)
            && inner == Candidate(m, e, d, !inside)
            && outer.c + inner.c == 2.0 * e.c
  {
    ChosenCandidate(m, classify, closed, OutLine, d, i, j);
    ChosenCandidate(m, classify, closed, InnerLine, d, i, j);
  }

  /** Each offset vertex lies on the chosen lines of both of its edges, so it
      is at distance |d| from both source edge lines. */
  lemma OffsetVertexAtDistance(m: MathLib, classify: (Point, seq<Point>) -> bool, vs: seq<Point>,
                               d: real, mode: Mode, q: nat)
    requires m.SqrtOk()
    requires Offsettable(vs) && q < |vs|
    ensures var p := OffsetVertex(m, classify, vs, d, mode, q);
            var before := EdgeLine(vs[Pred(q, |vs|)], vs[q]);
            var after := EdgeLine(vs[q], vs[Succ(q, |vs|)]);
            && Sq(Value(before, p)) == Sq(d) * Norm2(before)
            && Sq(Value(after, p)) == Sq(d) * Norm2(after)
  {
    var i, j, k := vs[Pred(q, |vs|)], vs[q], vs[Succ(q, |vs|)];
    assert CornerTurns(vs, q);
    TurnsHasNormals(i, j, k);
    var closed := Close(vs);
    var p := OffsetVertex(m, classify, vs, d, mode, q);
    var e1, e2 := EdgeLine(i, j), EdgeLine(j, k);
    var inside1 := classify(ProbePoint(Candidate(m, e1, d, true), i, j), closed);
    var inside2 := classify(ProbePoint(Candidate(m, e2, d, true), j, k), closed);
    ChosenCandidate(m, classify, closed, mode, d, i, j);
    ChosenCandidate(m, classify, closed, mode, d, j, k);
    assert OnLine(ChosenLine(m, classify, closed, mode, d, i, j), p);
    assert OnLine(ChosenLine(m, classify, closed, mode, d, j, k), p);
    CandidateAtDistance(m, e1, d, (mode == OutLine) == inside1, p);
    CandidateAtDistance(m, e2, d, (mode == OutLine) == inside2, p);
  }
}
