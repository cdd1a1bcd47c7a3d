/**
 * src/geometry/orthopolygon.rs: a polygon whose edges are parallel to the
 * axes, stored by its even vertices only.
 */
module Orthopolygon {
  import opened Geometry
  import MoreItertools
  import Polygon

  datatype PointPosition = Outside | Vertex | Edge | Inside

  /**
   * Edge 2i (from an even vertex) is horizontal and edge 2i + 1 is vertical.
   * Equality is equality of the even-vertex lists, so the same shape started
   * at another vertex is a different value.
   */
  datatype Orthopolygon = Orthopolygon(evenVertices: seq<Point>)

  /** `Orthopolygon::new`: collects the even vertices in iteration order. */
  function New(evenVertices: seq<Point>): (o: Orthopolygon)
    ensures |EvenVertices(o)| == |evenVertices|
    ensures forall i :: 0 <= i < |evenVertices| ==> EvenVertices(o)[i] == evenVertices[i]
  {
    Orthopolygon(evenVertices)
  }

  /** `Orthopolygon::from`: takes the vector as it is. */
  function From(evenVertices: seq<Point>): (o: Orthopolygon)
    ensures EvenVertices(o) == evenVertices
  {
    Orthopolygon(evenVertices)
  }

  function EvenVertices(o: Orthopolygon): seq<Point>
  {
    o.evenVertices
  }

  /** The odd vertex after `p0` when the next even vertex is `p1`. */
  function OddVertex(p0: Point, p1: Point): Point
  {
    Point(p1.x, p0.y)
  }

  /** `flat_map(|(p0, p1)| [p0, (p1.x, p0.y)])` over a list of pairs. */
  function Expand(pairs: seq<(Point, Point)>): (r: seq<Point>)
    ensures |r| == 2 * |pairs|
  {
    if |pairs| == 0 then [] else [pairs[0].0, OddVertex(pairs[0].0, pairs[0].1)] + Expand(pairs[1..])
  }

  lemma {:induction false} ExpandAt(pairs: seq<(Point, Point)>, i: nat)
    requires i < |pairs|
    ensures Expand(pairs)[2 * i] == pairs[i].0
    ensures Expand(pairs)[2 * i + 1] == OddVertex(pairs[i].0, pairs[i].1)
  {
    if i > 0 {
      ExpandAt(pairs[1..], i - 1);
      assert Expand(pairs) == [pairs[0].0, OddVertex(pairs[0].0, pairs[0].1)] + Expand(pairs[1..]);
    }
  }

  /** `Polygonlike::vertices` for an orthopolygon: every even vertex followed by its odd vertex. */
  function Vertices(o: Orthopolygon): (r: seq<Point>)
    ensures |r| == 2 * |o.evenVertices|
  {
    Expand(MoreItertools.CircularPairs(o.evenVertices))
  }

  /**
   * Vertex 2i is even vertex i; vertex 2i + 1 takes its y from even vertex i
   * and its x from the next even vertex (cyclically).
   */
  lemma VerticesAt(o: Orthopolygon, i: nat)
    requires i < |o.evenVertices|
    ensures Vertices(o)[2 * i] == o.evenVertices[i]
    ensures Vertices(o)[2 * i + 1] ==
      Point((if i + 1 < |o.evenVertices| then o.evenVertices[i + 1] else o.evenVertices[0]).x, o.evenVertices[i].y)
  {
    MoreItertools.CircularPairsNext(o.evenVertices, i);
    ExpandAt(MoreItertools.CircularPairs(o.evenVertices), i);
  }

  /** In the expanded vertex list, even edges are horizontal and odd edges vertical. */
  lemma EdgesAxisParallel(o: Orthopolygon, k: nat)
    requires k < |Vertices(o)|
    ensures var e := Polygon.Edges(Vertices(o))[k];
      if k % 2 == 0 then e.0.y == e.1.y else e.0.x == e.1.x
  {
    var v := Vertices(o);
    var n := |o.evenVertices|;
    var i := k / 2;
    Polygon.EdgesAt(v, k);
    VerticesAt(o, i);
    if k % 2 == 0 {
      assert k == 2 * i && k + 1 < |v|;
    } else {
      assert k == 2 * i + 1;
      if i + 1 < n {
        VerticesAt(o, i + 1);
      } else {
        VerticesAt(o, 0);
      }
    }
  }

  /** `to_orthopolygon`: a new orthopolygon with the same even vertices in the same order. */
  function ToOrthopolygon(o: Orthopolygon): (q: Orthopolygon)
    ensures |EvenVertices(q)| == |EvenVertices(o)|
    ensures forall i :: 0 <= i < |EvenVertices(o)| ==> EvenVertices(q)[i] == EvenVertices(o)[i]
  {
    Orthopolygon(EvenVertices(o))
  }

  lemma EvenVerticesKept(o: Orthopolygon)
    ensures forall i :: 0 <= i < |o.evenVertices| ==> Vertices(o)[2 * i] == o.evenVertices[i]
  {
    forall i | 0 <= i < |o.evenVertices| {
      VerticesAt(o, i);
    }
  }

  /** `to_polygon` for an orthopolygon: the polygon of all 2n expanded vertices. */
  function ToPolygon(o: Orthopolygon): (p: Polygon.Polygon)
    ensures |Polygon.Vertices(p)| == 2 * |EvenVertices(o)|
    ensures forall i :: 0 <= i < |EvenVertices(o)| ==> Polygon.Vertices(p)[2 * i] == EvenVertices(o)[i]
  {
    EvenVerticesKept(o);
    Polygon.From(Vertices(o))
  }

  /** Equal orthopolygons have identical even-vertex lists; a rotated start makes another value. */
  lemma EqualityIsListEquality(a: seq<Point>, b: seq<Point>)
    ensures Orthopolygon(a) == Orthopolygon(b) <==> a == b
  {
  }

  lemma RotatedSquareDiffers()
    ensures Orthopolygon([Point(0, 0), Point(1, 1)]) != Orthopolygon([Point(1, 1), Point(0, 0)])
  {
    assert [Point(0, 0), Point(1, 1)][0] != [Point(1, 1), Point(0, 0)][0];
  }

  // Ray casting of `get_point_position`, one edge (p0, p1) at a time.

  predicate XBetween(x0: int, x1: int, x: int)
  {
    (x0 <= x < x1) || (x1 <= x < x0)
  }

  /** The edge counts as a crossing of the upward ray from the point. */
  predicate Crosses(p0: Point, p1: Point, pt: Point)
  {
    p0.y < pt.y && XBetween(p0.x, p1.x, pt.x)
  }

  /** The point is one of the edge's corners (even or odd vertex). */
  predicate VertexHit(p0: Point, p1: Point, pt: Point)
  {
    (p0.y == pt.y && (pt.x == p0.x || pt.x == p1.x)) || (pt.y == p1.y && pt.x == p1.x)
  }

  /** The point lies on the horizontal or on the vertical part of the edge. */
  predicate EdgeHit(p0: Point, p1: Point, pt: Point)
  {
    (pt.y == p0.y && XBetween(p0.x, p1.x, pt.x)) || (pt.x == p1.x && XBetween(p0.y, p1.y, pt.y))
  }

  /** What the loop of `get_point_position` returns from edge list `edges` with `crossings` so far. */
  function Scan(edges: seq<(Point, Point)>, pt: Point, crossings: nat): PointPosition
  {
    if |edges| == 0 then
      if crossings % 2 == 0 then Outside else Inside
    else
      var (p0, p1) := edges[0];
      var c := crossings + (if Crosses(p0, p1, pt) then 1 else 0);
      if VertexHit(p0, p1, pt) then Vertex
      else if EdgeHit(p0, p1, pt) then Edge
      else Scan(edges[1..], pt, c)
  }

  /** The number of crossing edges. */
  function CountCrossings(edges: seq<(Point, Point)>, pt: Point): nat
  {
    if |edges| == 0 then 0
    else (if Crosses(edges[0].0, edges[0].1, pt) then 1 else 0) + CountCrossings(edges[1..], pt)
  }

  /** `get_point_position`: the ray-casting loop with its early returns. */
  method GetPointPosition(o: Orthopolygon, pt: Point) returns (r: PointPosition)
    ensures r == Scan(MoreItertools.CircularPairs(o.evenVertices), pt, 0)
  {
    var edges := MoreItertools.CircularPairs(o.evenVertices);
    var intersections := 0;
    var i := 0;
    while i < |edges|
      invariant 0 <= i <= |edges|
      invariant Scan(edges, pt, 0) == Scan(edges[i..], pt, intersections)
    {
      var (p0, p1) := edges[i];
      assert edges[i..][1..] == edges[i + 1..];
      if p0.y < pt.y && XBetween(p0.x, p1.x, pt.x) {
        intersections := intersections + 1;
      }
      if (p0.y == pt.y && (pt.x == p0.x || pt.x == p1.x)) || (pt.y == p1.y && pt.x == p1.x) {
        return Vertex;
      }
      if (pt.y == p0.y && XBetween(p0.x, p1.x, pt.x)) || (pt.x == p1.x && XBetween(p0.y, p1.y, pt.y)) {
        return Edge;
      }
      i := i + 1;
    }
    r := if intersections % 2 == 0 then Outside else Inside;
  }

  /** With no vertex and no edge hit, Inside vs Outside is the parity of the crossings. */
  lemma {:induction false} ScanNoHit(edges: seq<(Point, Point)>, pt: Point, crossings: nat)
    requires forall j :: 0 <= j < |edges| ==>
      !VertexHit(edges[j].0, edges[j].1, pt) && !EdgeHit(edges[j].0, edges[j].1, pt)
    ensures Scan(edges, pt, crossings) ==
      if (crossings + CountCrossings(edges, pt)) % 2 == 0 then Outside else Inside
  {
    if |edges| > 0 {
      var c := crossings + (if Crosses(edges[0].0, edges[0].1, pt) then 1 else 0);
      ScanNoHit(edges[1..], pt, c);
    }
  }

  /**
   * The first edge that the point touches decides: Vertex if it touches a
   * corner of that edge (the Vertex test comes first), Edge otherwise.
   */
  lemma {:induction false} ScanFirstHit(edges: seq<(Point, Point)>, pt: Point, crossings: nat, k: nat)
    requires k < |edges|
    requires forall j :: 0 <= j < k ==>
      !VertexHit(edges[j].0, edges[j].1, pt) && !EdgeHit(edges[j].0, edges[j].1, pt)
    requires VertexHit(edges[k].0, edges[k].1, pt) || EdgeHit(edges[k].0, edges[k].1, pt)
    ensures Scan(edges, pt, crossings) == if VertexHit(edges[k].0, edges[k].1, pt) then Vertex else Edge
  {
    if k > 0 {
      var c := crossings + (if Crosses(edges[0].0, edges[0].1, pt) then 1 else 0);
      ScanFirstHit(edges[1..], pt, c, k - 1);
    }
  }

  /** An orthopolygon without vertices classifies every point as Outside. */
  lemma EmptyIsOutside(pt: Point)
    ensures Scan(MoreItertools.CircularPairs([]), pt, 0) == Outside
  {
  }
}
