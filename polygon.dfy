/** src/geometry/polygon.rs: a polygon given by its vertex list. */
module Polygon {
  import opened Geometry
  import MoreItertools

  datatype Polygon = Polygon(vertices: seq<Point>)

  /** `Polygon::new`: collects the vertices in iteration order. */
  function New(vertices: seq<Point>): (p: Polygon)
    ensures |Vertices(p)| == |vertices|
    ensures forall i :: 0 <= i < |vertices| ==> Vertices(p)[i] == vertices[i]
  {
    Polygon(vertices)
  }

  /** `Polygon::from`: takes the vector as it is. */
  function From(vertices: seq<Point>): (p: Polygon)
    ensures Vertices(p) == vertices
  {
    Polygon(vertices)
  }

  /** `Polygonlike::vertices` for a `Polygon`: the stored vector, in order. */
  function Vertices(p: Polygon): seq<Point>
  {
    p.vertices
  }

  /** `Polygonlike::edges`: the circular pairs of the vertex list. */
  function Edges(vertices: seq<Point>): (r: seq<(Point, Point)>)
    ensures |r| == |vertices|
  {
    MoreItertools.CircularPairs(vertices)
  }

  /** Edge i runs from vertex i to vertex i + 1; the last edge closes back to the first vertex. */
  lemma EdgesAt(vertices: seq<Point>, i: nat)
    requires i < |vertices|
    ensures Edges(vertices)[i].0 == vertices[i]
    ensures Edges(vertices)[i].1 == if i + 1 < |vertices| then vertices[i + 1] else vertices[0]
  {
    MoreItertools.CircularPairsNext(vertices, i);
  }

  /**
   * `Polygonlike::to_polygon` for a `Polygon`: a new polygon with the same
   * vertices, in the same order.
   */
  function ToPolygon(p: Polygon): (q: Polygon)
    ensures |Vertices(q)| == |Vertices(p)|
    ensures forall i :: 0 <= i < |Vertices(p)| ==> Vertices(q)[i] == Vertices(p)[i]
  {
    From(Vertices(p))
  }
}
