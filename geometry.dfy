/** Shared vocabulary of the section model: points, fibres, the math library the
    source calls into, and the small arithmetic helpers every component uses. */
module Geometry {

  datatype Option<+T> = None | Some(value: T)

  /** A vertex or any other planar location (x, y). */
  datatype Point = Point(x: real, y: real)

  /** A discretised mass point: centroid (x, y) and area. */
  datatype Fiber = Fiber(x: real, y: real, area: real)

  /** An edge of a loop: the ids of its start node I and end node J. */
  datatype Edge = Edge(i: int, j: int)

  /** Which side of a loop its offset goes to: "outLine" for the outer boundary,
      "innerLine" for a hole. */
  datatype Mode = OutLine | InnerLine

  /** The floating-point library functions the source calls (math.sqrt / np.sqrt,
      math.atan2 and math.pi), passed in as values. Only the properties stated by
      SqrtOk and Atan2Ok are known about them. */
  datatype MathLib = MathLib(sqrt: real -> real, atan2: (real, real) -> real, pi: real)
  {
    /** sqrt is the non-negative square root on non-negative arguments. */
    ghost predicate SqrtOk() {
      forall r :: 0.0 <= r ==> 0.0 <= sqrt(r) && sqrt(r) * sqrt(r) == r
    }

    /** pi is the familiar constant and atan2 ranges over (-pi, pi]. */
    ghost predicate Atan2Ok() {
      && 3.14 < pi < 3.15
      && forall y, x :: -pi < atan2(y, x) <= pi
    }
  }

  function Abs(r: real): (a: real)
    ensures 0.0 <= a && (a == r || a == -r)
  {
    if r < 0.0 then -r else r
  }

  function Sq(r: real): real { r * r }

  /** Euclidean distance sqrt((qx - px)^2 + (qy - py)^2), as the source writes it. */
  function Dist(m: MathLib, p: Point, q: Point): real {
    m.sqrt(Sq(q.x - p.x) + Sq(q.y - p.y))
  }

  function Mid(p: Point, q: Point): Point {
    Point((p.x + q.x) / 2.0, (p.y + q.y) / 2.0)
  }

  /** Python's int() of a float: truncation toward zero. */
  function Trunc(r: real): (t: int)
    ensures 0.0 <= r ==> 0 <= t && t as real <= r < t as real + 1.0
    ensures r < 0.0 ==> t <= 0 && t as real - 1.0 < r <= t as real
  {
    if 0.0 <= r then r.Floor else -((-r).Floor)
  }

  /** max(1, nEle): the number of pieces an edge is cut into when the source
      divides it into int(length / size) parts. */
  function Pieces(nEle: int): (n: nat)
    ensures 1 <= n && (n == nEle || (nEle <= 1 && n == 1))
  {
    if nEle < 1 then 1 else nEle
  }

  /** The i-th of n equal division points of segment p-q:
      ((n - i) * p + i * q) / n. */
  function Lerp(p: Point, q: Point, n: int, i: int): Point
    requires n != 0
  {
    Point(((n - i) as real * p.x + i as real * q.x) / n as real,
          ((n - i) as real * p.y + i as real * q.y) / n as real)
  }

  lemma LerpEnds(p: Point, q: Point, n: int)
    requires n != 0
    ensures Lerp(p, q, n, 0) == p && Lerp(p, q, n, n) == q
  {
    var nr := n as real;
    assert (nr * p.x + 0.0 * q.x) / nr == p.x;
    assert (nr * p.y + 0.0 * q.y) / nr == p.y;
    assert (0.0 * p.x + nr * q.x) / nr == q.x;
    assert (0.0 * p.y + nr * q.y) / nr == q.y;
  }

  /** Both end nodes of e are keys of the node dict. */
  predicate HasEnds(nodes: map<int, Point>, e: Edge) {
    e.i in nodes && e.j in nodes
  }

  /** Every edge can be looked up in the node dict. */
  predicate EdgesKnown(nodes: map<int, Point>, edges: seq<Edge>) {
    forall k :: 0 <= k < |edges| ==> HasEnds(nodes, edges[k])
  }

  /** The points an edge p -> q is divided at when int(length / size) = nEle:
      p, then ((nEle - k) p + k q) / nEle for k = 1 .. nEle - 1 (none when
      nEle <= 1). The cover strips append q as well; the bars do not. */
  function InteriorPoints(p: Point, q: Point, nEle: int): seq<Point> {
    seq(Pieces(nEle) - 1, k requires 0 <= k < Pieces(nEle) - 1 => Lerp(p, q, nEle, k + 1))
  }

  /** Every point the source appends for an edge is the k-th of max(1, nEle)
      equal division points, k = 0 .. max(1, nEle) - 1. */
  lemma StartAndInteriorAreDivisionPoints(p: Point, q: Point, nEle: int, k: nat)
    requires k < Pieces(nEle)
    ensures ([p] + InteriorPoints(p, q, nEle))[k] == Lerp(p, q, Pieces(nEle), k)
  {
    LerpEnds(p, q, Pieces(nEle));
  }

  /** The dict comprehension {(i + 1): s[i] for i in range(len(s))}: a list of
      nodes rekeyed by ids 1..n. */
  function Rekey(s: seq<Point>): (d: map<int, Point>)
    ensures forall k :: k in d <==> 1 <= k <= |s|
    ensures forall i :: 0 <= i < |s| ==> d[i + 1] == s[i]
  {
    if s == [] then map[] else
    var front := s[..|s| - 1];
    assert forall i :: 0 <= i < |front| ==> front[i] == s[i];
    Rekey(front)[|s| := s[|s| - 1]]
  }

  /** The non-negative square root is unique. */
  lemma SqrtUnique(m: MathLib, r: real, s: real)
    requires m.SqrtOk()
    requires 0.0 <= r && 0.0 <= s && s * s == r
    ensures m.sqrt(r) == s
  {
    var t := m.sqrt(r);
    assert 0.0 <= t && t * t == r;
    if t < s {
      SquareLess(t, s);
    } else if s < t {
      SquareLess(s, t);
    }
  }

  /** sqrt(r * f * f) == sqrt(r) * f for a non-negative factor f. */
  lemma SqrtScale(m: MathLib, r: real, f: real)
    requires m.SqrtOk()
    requires 0.0 <= r && 0.0 <= f
    ensures m.sqrt(r * (f * f)) == m.sqrt(r) * f
  {
    var s := m.sqrt(r);
    assert 0.0 <= s && s * s == r;
    assert (s * f) * (s * f) == (s * s) * (f * f);
    assert 0.0 <= r * (f * f);
    SqrtUnique(m, r * (f * f), s * f);
  }

  /** sqrt(k * k + 1) >= 1: the divisor of the classifier's distance is never zero. */
  lemma SqrtOnePlusSquare(m: MathLib, k: real)
    requires m.SqrtOk()
    ensures 1.0 <= m.sqrt(k * k + 1.0)
  {
    var s := m.sqrt(k * k + 1.0);
    assert 0.0 <= k * k;
    assert 0.0 <= s && s * s == k * k + 1.0;
    if s < 1.0 {
      SquareLess(s, 1.0);
    }
  }

  lemma SquareLess(a: real, b: real)
    requires 0.0 <= a < b
    ensures a * a < b * b
  {
    var ab := a * b;
    assert a * a <= ab;
    assert ab < b * b;
  }

  lemma SquarePositive(a: real)
    requires a != 0.0
    ensures 0.0 < a * a
  {
    if 0.0 < a {
      SquareLess(0.0, a);
    } else {
      SquareLess(0.0, -a);
      assert (-a) * (-a) == a * a;
    }
  }

  lemma SquareNonNegative(a: real)
    ensures 0.0 <= a * a
  {
    if a != 0.0 {
      SquarePositive(a);
    }
  }

  lemma ZeroFactor(u: real, v: real)
    requires u * v == 0.0 && v != 0.0
    ensures u == 0.0
  {
    assert u == (u * v) / v;
  }
}
