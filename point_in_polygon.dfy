/** The angle-sum point-in-polygon test is_in_2d_polygon: a point is inside when
    the signed angles it subtends over every edge add up to 2*pi, and a point
    found on an edge counts as inside at once. atan2, sqrt and pi stay abstract
    (Geometry.MathLib), so what is verified here is the control structure: the
    vertex-count check, the cyclic edge pairing, the angle normalisation, the
    early return and the final threshold. */
module PointInPolygon {
  import opened Geometry

  /** Distance below which a point is taken to lie on an edge's line. */
  const BoundaryEps: real := 0.000001
  /** Tolerance of the comparison of the angle sum with 2*pi. */
  const AngleEps: real := 0.00000000001
  /** Added to the slope denominator so that a vertical edge does not divide by zero. */
  const DivideGuard: real := 0.000000000001

  /** The exceptions the Python function can raise. */
  datatype Failure =
    | TooFewVertices   // ValueError("len of vertices < 3")
    | ZeroDivision     // the guarded slope denominator is exactly zero

  datatype Answer = Inside(inside: bool) | Raised(failure: Failure)

  /** Index of the trailing vertex t paired with s = vertices[i]: j starts at
      the last vertex and then trails i by one. */
  function Trailing(i: nat, n: nat): (j: nat)
    requires i < n
    ensures j < n
  {
    if i == 0 then n - 1 else i - 1
  }

  /** The slope denominator sx - tx + 1e-12 of edge (s, t). */
  function SlopeDenominator(s: Point, t: Point): real {
    s.x - t.x + DivideGuard
  }

  /** |k * px - py + b| / sqrt(k^2 + 1): the distance from p to the line
      y = k * x + b through s with the edge's guarded slope k. */
  function LineDistance(m: MathLib, p: Point, s: Point, t: Point): real
    requires m.SqrtOk()
    requires SlopeDenominator(s, t) != 0.0
  {
    var k := (s.y - t.y) / SlopeDenominator(s, t);
    var b := s.y - k * s.x;
    SqrtOnePlusSquare(m, k);
    Abs(k * p.x - 1.0 * p.y + b) / m.sqrt(k * k + 1.0)
  }

  /** The early exit: p is close to the edge's line and its x lies between
      the edge's end abscissas. */
  predicate OnEdge(m: MathLib, p: Point, s: Point, t: Point)
    requires m.SqrtOk()
    requires SlopeDenominator(s, t) != 0.0
  {
    LineDistance(m, p, s, t) < BoundaryEps && ((s.x <= p.x <= t.x) || (t.x <= p.x <= s.x))
  }

  /** The raw difference of two atan2 values brought back by one turn when it
      reaches pi or -pi. The result differs from the input by a whole number of
      turns (0 or +-1), so it stands for the same angle. */
  function Normalise(pi: real, raw: real): (r: real)
    ensures r == raw || r == raw - 2.0 * pi || r == raw + 2.0 * pi
    ensures 0.0 < pi && -2.0 * pi < raw < 2.0 * pi ==> -pi <= r <= pi
  {
    if raw >= pi then raw - pi * 2.0
    else if raw <= -pi then raw + pi * 2.0
    else raw
  }

  /** The signed angle subtended at p by edge (s, t). */
  function EdgeAngle(m: MathLib, p: Point, s: Point, t: Point): real {
    Normalise(m.pi, m.atan2(s.y - p.y, s.x - p.x) - m.atan2(t.y - p.y, t.x - p.x))
  }

  /** The edge visited at step i: s = vertices[i], t = vertices[Trailing(i)]. */
  function S(vs: seq<Point>, i: nat): Point requires i < |vs| { vs[i] }
  function T(vs: seq<Point>, i: nat): Point requires i < |vs| { vs[Trailing(i, |vs|)] }

  /** Sum of the angles of the first k visited edges. */
  function AngleSum(m: MathLib, p: Point, vs: seq<Point>, k: nat): real
    requires k <= |vs|
  {
    if k == 0 then 0.0 else AngleSum(m, p, vs, k - 1) + EdgeAngle(m, p, S(vs, k - 1), T(vs, k - 1))
  }

  /** The final threshold: the sum is within 1e-11 of +2*pi. */
  predicate CloseToTurn(m: MathLib, sum: real) {
    Abs(sum - m.pi * 2.0) < AngleEps
  }

  /** The answer of the loop from step i on, with the angles of steps < i
      already summed in sum. */
  function ScanFrom(m: MathLib, p: Point, vs: seq<Point>, i: nat, sum: real): Answer
    requires m.SqrtOk()
    requires i <= |vs|
    decreases |vs| - i
  {
    if i == |vs| then Inside(CloseToTurn(m, sum))
    else if SlopeDenominator(S(vs, i), T(vs, i)) == 0.0 then Raised(ZeroDivision)
    else if OnEdge(m, p, S(vs, i), T(vs, i)) then Inside(true)
    else ScanFrom(m, p, vs, i + 1, sum + EdgeAngle(m, p, S(vs, i), T(vs, i)))
  }

  /** What is_in_2d_polygon(p, vs) returns or raises. */
  function Classify(m: MathLib, p: Point, vs: seq<Point>): Answer
    requires m.SqrtOk()
  {
    if |vs| < 3 then Raised(TooFewVertices) else ScanFrom(m, p, vs, 0, 0.0)
  }

  /** The Python loop: edges are visited in order, j trails i, and the first
      boundary hit returns True at once. */
  method IsIn2dPolygon(m: MathLib, p: Point, vs: seq<Point>) returns (r: Answer)
    requires m.SqrtOk()
    ensures r == Classify(m, p, vs)
  {
    var size := |vs|;
    if size < 3 {
      return Raised(TooFewVertices);
    }
    var angleSum := 0.0;
    var j := size - 1;
    for i := 0 to size
      invariant i < size ==> j == Trailing(i, size)
      invariant ScanFrom(m, p, vs, i, angleSum) == Classify(m, p, vs)
    {
      var s, t := vs[i], vs[j];
      var den := s.x - t.x + DivideGuard;
      if den == 0.0 {
        return Raised(ZeroDivision);
      }
      ScanFromStep(m, p, vs, i, angleSum);
      var dis := LineDistance(m, p, s, t);
      if dis < BoundaryEps {
        if (s.x <= p.x <= t.x) || (t.x <= p.x <= s.x) {
          return Inside(true);
        }
      }
      var angle := m.atan2(s.y - p.y, s.x - p.x) - m.atan2(t.y - p.y, t.x - p.x);
      if angle >= m.pi {
        angle := angle - m.pi * 2.0;
      } else if angle <= -m.pi {
        angle := angle + m.pi * 2.0;
      }
      assert angle == EdgeAngle(m, p, s, t);
      angleSum := angleSum + angle;
      j := i;
    }
    return Inside(CloseToTurn(m, angleSum));
  }

  // ---------------------------------------------------------------------------
  // Properties of the classifier

  /** No visited edge among the first k makes the guarded slope denominator zero. */
  predicate NoZeroDivision(vs: seq<Point>, k: nat)
    requires k <= |vs|
  {
    forall i :: 0 <= i < k ==> SlopeDenominator(S(vs, i), T(vs, i)) != 0.0
  }

  /** Some visited edge from step i on is hit by the boundary test. */
  predicate HitsFrom(m: MathLib, p: Point, vs: seq<Point>, i: nat)
    requires m.SqrtOk()
    requires i <= |vs| && NoZeroDivision(vs, |vs|)
    decreases |vs| - i
  {
    i < |vs| && (OnEdge(m, p, S(vs, i), T(vs, i)) || HitsFrom(m, p, vs, i + 1))
  }

  lemma {:induction false} HitsFromExists(m: MathLib, p: Point, vs: seq<Point>, i: nat)
    requires m.SqrtOk()
    requires i <= |vs| && NoZeroDivision(vs, |vs|)
    ensures HitsFrom(m, p, vs, i) <==> exists q :: i <= q < |vs| && OnEdge(m, p, S(vs, q), T(vs, q))
    decreases |vs| - i
  {
    if i < |vs| {
      HitsFromExists(m, p, vs, i + 1);
      if exists q :: i <= q < |vs| && OnEdge(m, p, S(vs, q), T(vs, q)) {
        var q :| i <= q < |vs| && OnEdge(m, p, S(vs, q), T(vs, q));
        if q != i {
          assert i + 1 <= q;
        }
      }
    }
  }

  /** One step of the scan: with a non-zero denominator, a hit returns True
      and otherwise the scan moves on with the edge's angle added. */
  lemma ScanFromStep(m: MathLib, p: Point, vs: seq<Point>, i: nat, sum: real)
    requires m.SqrtOk()
    requires i < |vs| && SlopeDenominator(S(vs, i), T(vs, i)) != 0.0
    ensures ScanFrom(m, p, vs, i, sum)
         == if OnEdge(m, p, S(vs, i), T(vs, i)) then Inside(true)
            else ScanFrom(m, p, vs, i + 1, sum + EdgeAngle(m, p, S(vs, i), T(vs, i)))
  {
  }

  /** One step of HitsFrom: edge i is hit, or a later one is. */
  lemma HitsFromStep(m: MathLib, p: Point, vs: seq<Point>, i: nat)
    requires m.SqrtOk()
    requires i < |vs| && NoZeroDivision(vs, |vs|)
    ensures HitsFrom(m, p, vs, i) == (OnEdge(m, p, S(vs, i), T(vs, i)) || HitsFrom(m, p, vs, i + 1))
  {
  }

  /** The scan from step i with the angles of the earlier steps summed. */
  predicate ClosedFormAt(m: MathLib, p: Point, vs: seq<Point>, i: nat)
    requires m.SqrtOk()
    requires i <= |vs| && NoZeroDivision(vs, |vs|)
  {
    ScanFrom(m, p, vs, i, AngleSum(m, p, vs, i))
      == Inside(HitsFrom(m, p, vs, i) || CloseToTurn(m, AngleSum(m, p, vs, |vs|)))
  }

  /** A step whose edge is hit closes the scan with True. */
  lemma ClosedFormHit(m: MathLib, p: Point, vs: seq<Point>, i: nat)
    requires m.SqrtOk()
    requires i < |vs| && NoZeroDivision(vs, |vs|) && OnEdge(m, p, S(vs, i), T(vs, i))
    ensures ClosedFormAt(m, p, vs, i)
  {
    ScanFromStep(m, p, vs, i, AngleSum(m, p, vs, i));
    HitsFromStep(m, p, vs, i);
  }

  /** A step whose edge is missed adds its angle and leaves the answer to the rest. */
  lemma ClosedFormMiss(m: MathLib, p: Point, vs: seq<Point>, i: nat)
    requires m.SqrtOk()
    requires i < |vs| && NoZeroDivision(vs, |vs|) && !OnEdge(m, p, S(vs, i), T(vs, i))
    requires ClosedFormAt(m, p, vs, i + 1)
    ensures ClosedFormAt(m, p, vs, i)
  {
    ScanFromStep(m, p, vs, i, AngleSum(m, p, vs, i));
    HitsFromStep(m, p, vs, i);
  }

  lemma {:induction false} ScanFromClosedForm(m: MathLib, p: Point, vs: seq<Point>, i: nat)
    requires m.SqrtOk()
    requires i <= |vs| && NoZeroDivision(vs, |vs|)
    ensures ClosedFormAt(m, p, vs, i)
    decreases |vs| - i
  {
    if i == |vs| {
    } else if OnEdge(m, p, S(vs, i), T(vs, i)) {
      ClosedFormHit(m, p, vs, i);
    } else {
      ScanFromClosedForm(m, p, vs, i + 1);
      ClosedFormMiss(m, p, vs, i);
    }
  }

  /** When no edge divides by zero, the answer is "p is on some edge, or the
      angle sum is within 1e-11 of 2*pi". */
  lemma ClassifyClosedForm(m: MathLib, p: Point, vs: seq<Point>)
    requires m.SqrtOk()
    requires 3 <= |vs| && NoZeroDivision(vs, |vs|)
    ensures Classify(m, p, vs)
         == Inside((exists q :: 0 <= q < |vs| && OnEdge(m, p, S(vs, q), T(vs, q)))
                   || CloseToTurn(m, AngleSum(m, p, vs, |vs|)))
  {
    ScanFromClosedForm(m, p, vs, 0);
    HitsFromExists(m, p, vs, 0);
  }

  lemma {:induction false} ScanFromEarlyReturn(m: MathLib, p: Point, vs: seq<Point>, i: nat, k: nat, sum: real)
    requires m.SqrtOk()
    requires i <= k < |vs| && NoZeroDivision(vs, k + 1) && OnEdge(m, p, S(vs, k), T(vs, k))
    ensures ScanFrom(m, p, vs, i, sum) == Inside(true)
    decreases k - i
  {
    if i < k && !OnEdge(m, p, S(vs, i), T(vs, i)) {
      ScanFromEarlyReturn(m, p, vs, i + 1, k, sum + EdgeAngle(m, p, S(vs, i), T(vs, i)));
    }
  }

  /** A boundary hit at edge k returns True whatever the edges after k are,
      provided no edge up to k divided by zero first. */
  lemma EarlyReturn(m: MathLib, p: Point, vs: seq<Point>, k: nat)
    requires m.SqrtOk()
    requires 3 <= |vs| && k < |vs| && NoZeroDivision(vs, k + 1) && OnEdge(m, p, S(vs, k), T(vs, k))
    ensures Classify(m, p, vs) == Inside(true)
  {
    ScanFromEarlyReturn(m, p, vs, 0, k, 0.0);
  }

  /** Edge i pairs vertices[i] with its cyclic predecessor; the first visited
      edge closes the loop from the last vertex to the first. */
  lemma EdgePairing(vs: seq<Point>, i: nat)
    requires i < |vs|
    ensures S(vs, i) == vs[i]
    ensures T(vs, i) == vs[(i + |vs| - 1) % |vs|]
    ensures (Trailing(i, |vs|) + 1) % |vs| == i
    ensures i == 0 ==> T(vs, i) == vs[|vs| - 1]
  {
    if i == 0 {
      assert (i + |vs| - 1) % |vs| == |vs| - 1;
    } else {
      assert (i + |vs| - 1) % |vs| == i - 1;
    }
  }

  /** With atan2 in (-pi, pi], every normalised edge angle lies in [-pi, pi]. */
  lemma EdgeAngleBounds(m: MathLib, p: Point, s: Point, t: Point)
    requires m.Atan2Ok()
    ensures -m.pi <= EdgeAngle(m, p, s, t) <= m.pi
  {
    var a1 := m.atan2(s.y - p.y, s.x - p.x);
    var a2 := m.atan2(t.y - p.y, t.x - p.x);
    assert -m.pi < a1 <= m.pi && -m.pi < a2 <= m.pi;
  }

  /** k * pi as k repeated additions, which keeps the induction below linear. */
  function PiTimes(k: nat, pi: real): real {
    if k == 0 then 0.0 else PiTimes(k - 1, pi) + pi
  }

  lemma {:induction false} PiTimesProduct(k: nat, pi: real)
    ensures PiTimes(k, pi) == k as real * pi
  {
    if k > 0 {
      PiTimesProduct(k - 1, pi);
      assert (k - 1) as real * pi + pi == k as real * pi;
    }
  }

  lemma {:induction false} AngleSumWithin(m: MathLib, p: Point, vs: seq<Point>, k: nat)
    requires m.Atan2Ok() && k <= |vs|
    ensures -PiTimes(k, m.pi) <= AngleSum(m, p, vs, k) <= PiTimes(k, m.pi)
  {
    if k > 0 {
      AngleSumWithin(m, p, vs, k - 1);
      EdgeAngleBounds(m, p, S(vs, k - 1), T(vs, k - 1));
    }
  }

  /** The accumulated sum after k edges is bounded by k * pi. */
  lemma AngleSumBounds(m: MathLib, p: Point, vs: seq<Point>, k: nat)
    requires m.Atan2Ok() && k <= |vs|
    ensures Abs(AngleSum(m, p, vs, k)) <= k as real * m.pi
  {
    AngleSumWithin(m, p, vs, k);
    PiTimesProduct(k, m.pi);
    AbsWithin(AngleSum(m, p, vs, k), PiTimes(k, m.pi), k as real * m.pi);
  }

  lemma AbsWithin(r: real, bound: real, same: real)
    requires -bound <= r <= bound && bound == same
    ensures Abs(r) <= same
  {
  }

  /** Only a sum near +2*pi counts as inside: a loop traversed the other way
      round (sum near -2*pi) is outside. */
  lemma ClockwiseSumIsOutside(m: MathLib, sum: real)
    requires m.Atan2Ok()
    requires Abs(sum + m.pi * 2.0) < AngleEps
    ensures !CloseToTurn(m, sum)
  {
  }

  /** The guard keeps an exactly vertical edge away from a zero denominator,
      but an edge with tx - sx == 1e-12 divides by zero. */
  lemma SlopeGuard(s: Point, t: Point)
    ensures s.x == t.x ==> SlopeDenominator(s, t) == DivideGuard
    ensures SlopeDenominator(s, t) == 0.0 <==> t.x - s.x == DivideGuard
  {
  }

  /** The first edge visited runs from the last vertex to the first; if its
      abscissas differ by exactly the guard, the call raises before any other
      edge is looked at. */
  lemma FirstEdgeZeroDivision(m: MathLib, p: Point, vs: seq<Point>)
    requires m.SqrtOk()
    requires 3 <= |vs| && vs[|vs| - 1].x - vs[0].x == DivideGuard
    ensures Classify(m, p, vs) == Raised(ZeroDivision)
  {
  }

  /** The unit square [(0,0), (2,0), (2,2), (0,2)]: the midpoint (1,0) of its
      bottom edge is on the boundary and counts as inside. */
  lemma SquareBoundaryPoint(m: MathLib)
    requires m.SqrtOk()
    ensures Classify(m, Point(1.0, 0.0),
                     [Point(0.0, 0.0), Point(2.0, 0.0), Point(2.0, 2.0), Point(0.0, 2.0)]) == Inside(true)
  {
    var vs := [Point(0.0, 0.0), Point(2.0, 0.0), Point(2.0, 2.0), Point(0.0, 2.0)];
    var p := Point(1.0, 0.0);
    assert SlopeDenominator(S(vs, 0), T(vs, 0)) == DivideGuard;
    assert SlopeDenominator(S(vs, 1), T(vs, 1)) == 2.0 + DivideGuard;
    // the edge from (0,0) to (2,0) is horizontal: k = 0, b = 0, distance 0
    assert (S(vs, 1).y - T(vs, 1).y) / SlopeDenominator(S(vs, 1), T(vs, 1)) == 0.0;
    SqrtUnique(m, 0.0 * 0.0 + 1.0, 1.0);
    assert LineDistance(m, p, S(vs, 1), T(vs, 1)) == 0.0;
    EarlyReturn(m, p, vs, 1);
  }
}
