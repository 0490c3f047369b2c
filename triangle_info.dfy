/** Fibres of a triangulated core (_triEleInfo): one fibre per triangle, at
    the mean of its vertices, carrying its signed shoelace area. */
module TriangleInfo {
  import opened Geometry

  /** A triangle as the indices of its three vertices I, J, K in the point array. */
  datatype Triangle = Triangle(i: int, j: int, k: int)

  /** Every vertex index of every triangle names a point of the array. */
  predicate Indexed(points: seq<Point>, tris: seq<Triangle>) {
    forall t :: 0 <= t < |tris| ==>
      0 <= tris[t].i < |points| && 0 <= tris[t].j < |points| && 0 <= tris[t].k < |points|
  }

  /** 0.5 * (x1 y2 - x2 y1 + x2 y3 - x3 y2 + x3 y1 - x1 y3): the shoelace area,
      positive for a counter-clockwise triangle. */
  function SignedArea(a: Point, b: Point, c: Point): real {
    0.5 * (a.x * b.y - b.x * a.y + b.x * c.y - c.x * b.y + c.x * a.y - a.x * c.y)
  }

  function TriangleFibre(a: Point, b: Point, c: Point): Fiber {
    Fiber((a.x + b.x + c.x) / 3.0, (a.y + b.y + c.y) / 3.0, SignedArea(a, b, c))
  }

  /** The fibres of the given triangles, in input order. */
  function TriangleFibres(points: seq<Point>, tris: seq<Triangle>): (r: seq<Fiber>)
    requires Indexed(points, tris)
    ensures |r| == |tris|
  {
    seq(|tris|, t requires 0 <= t < |tris| =>
      TriangleFibre(points[tris[t].i], points[tris[t].j], points[tris[t].k]))
  }

  /** _triEleInfo (and CircleSection's identical copy): one fibre per triangle,
      in input order. */
  method TriEleInfo(nodeNArray: seq<Point>, eleNArray: seq<Triangle>) returns (inFoList: seq<Fiber>)
    requires Indexed(nodeNArray, eleNArray)
    ensures inFoList == TriangleFibres(nodeNArray, eleNArray)
  {
    inFoList := [];
    for t := 0 to |eleNArray|
      invariant inFoList == TriangleFibres(nodeNArray, eleNArray)[..t]
    {
      var each := eleNArray[t];
      var x1, y1 := nodeNArray[each.i].x, nodeNArray[each.i].y;
      var x2, y2 := nodeNArray[each.j].x, nodeNArray[each.j].y;
      var x3, y3 := nodeNArray[each.k].x, nodeNArray[each.k].y;
      var area := 0.5 * (x1 * y2 - x2 * y1 + x2 * y3 - x3 * y2 + x3 * y1 - x1 * y3);
      var xc := (x1 + x2 + x3) / 3.0;
      var yc := (y1 + y2 + y3) / 3.0;
      assert Fiber(xc, yc, area)
          == TriangleFibre(nodeNArray[each.i], nodeNArray[each.j], nodeNArray[each.k]);
      inFoList := inFoList + [Fiber(xc, yc, area)];
    }
  }

  /** The shoelace value is half the cross product of two edge vectors. */
  lemma ShoelaceIsCross(a: Point, b: Point, c: Point)
    ensures SignedArea(a, b, c) == ((b.x - a.x) * (c.y - a.y) - (c.x - a.x) * (b.y - a.y)) / 2.0
  {
  }

  /** Swapping two vertices negates the area (the sign gives the orientation). */
  lemma SwapNegates(a: Point, b: Point, c: Point)
    ensures SignedArea(b, a, c) == -SignedArea(a, b, c)
    ensures SignedArea(a, c, b) == -SignedArea(a, b, c)
    ensures SignedArea(c, b, a) == -SignedArea(a, b, c)
  {
  }

  /** Rotating the vertices keeps the area. */
  lemma RotationKeeps(a: Point, b: Point, c: Point)
    ensures SignedArea(b, c, a) == SignedArea(a, b, c)
  {
  }

  /** Moving a triangle changes neither its area nor its centroid's offset. */
  lemma TranslationKeeps(a: Point, b: Point, c: Point, dx: real, dy: real)
    ensures var a', b', c' := Point(a.x + dx, a.y + dy), Point(b.x + dx, b.y + dy), Point(c.x + dx, c.y + dy);
            && SignedArea(a', b', c') == SignedArea(a, b, c)
            && TriangleFibre(a', b', c').x == TriangleFibre(a, b, c).x + dx
            && TriangleFibre(a', b', c').y == TriangleFibre(a, b, c).y + dy
  {
    ShoelaceIsCross(a, b, c);
    var a', b', c' := Point(a.x + dx, a.y + dy), Point(b.x + dx, b.y + dy), Point(c.x + dx, c.y + dy);
    ShoelaceIsCross(a', b', c');
  }

  /** A triangle with a repeated vertex has no area. */
  lemma DegenerateHasNoArea(a: Point, c: Point)
    ensures SignedArea(a, a, c) == 0.0
  {
  }

  /** Entry t describes triangle t: its centroid is the mean of its three
      vertices and its area the signed shoelace area; swapping two vertex
      indices of a triangle negates its entry's area and keeps its centroid. */
  lemma {:induction false} TriangleFibresEntry(points: seq<Point>, tris: seq<Triangle>, t: nat)
    requires Indexed(points, tris) && t < |tris|
    ensures var f, a, b, c := TriangleFibres(points, tris)[t], points[tris[t].i], points[tris[t].j], points[tris[t].k];
            && f.x == (a.x + b.x + c.x) / 3.0 && f.y == (a.y + b.y + c.y) / 3.0
            && f.area == ((b.x - a.x) * (c.y - a.y) - (c.x - a.x) * (b.y - a.y)) / 2.0
    ensures var swapped := tris[t := Triangle(tris[t].j, tris[t].i, tris[t].k)];
            && Indexed(points, swapped)
            && TriangleFibres(points, swapped)[t].area == -TriangleFibres(points, tris)[t].area
            && TriangleFibres(points, swapped)[t].x == TriangleFibres(points, tris)[t].x
  {
    var a, b, c := points[tris[t].i], points[tris[t].j], points[tris[t].k];
    ShoelaceIsCross(a, b, c);
    SwapNegates(a, b, c);
  }
}
