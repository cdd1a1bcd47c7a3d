/**
 * src/glyph.rs: a glyph is a contour with its holes, moved so that the
 * upper-left corner of its bounding box is at (0, 0).
 */
module Glyph {
  import opened Geometry
  import Orthopolygon

  const I32_MAX: int := 0x7FFF_FFFF
  const I32_MIN: int := -0x8000_0000

  /** Equality (derived `Eq`) is equality of the size and of the contour list. */
  datatype Glyph = Glyph(size: Size, contours: seq<Orthopolygon.Orthopolygon>)

  function Least(a: int, b: int): int { if a <= b then a else b }
  function Greatest(a: int, b: int): int { if a >= b then a else b }

  /** The least x over a non-empty vertex list. */
  function MinX(s: seq<Point>): int
    requires |s| > 0
  {
    if |s| == 1 then s[0].x else Least(MinX(s[..|s| - 1]), s[|s| - 1].x)
  }

  function MaxX(s: seq<Point>): int
    requires |s| > 0
  {
    if |s| == 1 then s[0].x else Greatest(MaxX(s[..|s| - 1]), s[|s| - 1].x)
  }

  function MinY(s: seq<Point>): int
    requires |s| > 0
  {
    if |s| == 1 then s[0].y else Least(MinY(s[..|s| - 1]), s[|s| - 1].y)
  }

  function MaxY(s: seq<Point>): int
    requires |s| > 0
  {
    if |s| == 1 then s[0].y else Greatest(MaxY(s[..|s| - 1]), s[|s| - 1].y)
  }

  /** The minima and maxima are bounds of every vertex and are attained. */
  lemma {:induction false} BoundsAttained(s: seq<Point>)
    requires |s| > 0
    ensures forall v :: v in s ==> MinX(s) <= v.x <= MaxX(s) && MinY(s) <= v.y <= MaxY(s)
    ensures exists i :: 0 <= i < |s| && s[i].x == MinX(s)
    ensures exists i :: 0 <= i < |s| && s[i].x == MaxX(s)
    ensures exists i :: 0 <= i < |s| && s[i].y == MinY(s)
    ensures exists i :: 0 <= i < |s| && s[i].y == MaxY(s)
  {
    if |s| > 1 {
      var front := s[..|s| - 1];
      BoundsAttained(front);
      assert s == front + [s[|s| - 1]];
      var a :| 0 <= a < |front| && front[a].x == MinX(front);
      var b :| 0 <= b < |front| && front[b].x == MaxX(front);
      var c :| 0 <= c < |front| && front[c].y == MinY(front);
      var d :| 0 <= d < |front| && front[d].y == MaxY(front);
      assert s[a] == front[a] && s[b] == front[b] && s[c] == front[c] && s[d] == front[d];
    }
  }

  /** `p + (dx, dy)`. */
  function Moved(p: Point, dx: int, dy: int): Point
  {
    Point(p.x + dx, p.y + dy)
  }

  /** Every vertex moved by (dx, dy), in the same order. */
  function Translate(s: seq<Point>, dx: int, dy: int): (r: seq<Point>)
    ensures |r| == |s|
    ensures forall i :: 0 <= i < |s| ==> r[i] == Moved(s[i], dx, dy)
  {
    seq(|s|, i requires 0 <= i < |s| => Moved(s[i], dx, dy))
  }

  /** Each contour translated and wrapped in an orthopolygon, outer contour first. */
  function TranslateAll(contours: seq<seq<Point>>, dx: int, dy: int): (r: seq<Orthopolygon.Orthopolygon>)
    ensures |r| == |contours|
    ensures forall i :: 0 <= i < |contours| ==>
      r[i] == Orthopolygon.New(Translate(contours[i], dx, dy))
  {
    seq(|contours|, i requires 0 <= i < |contours| => Orthopolygon.New(Translate(contours[i], dx, dy)))
  }

  lemma {:induction false} MinTranslate(s: seq<Point>, dx: int, dy: int)
    requires |s| > 0
    ensures MinX(Translate(s, dx, dy)) == MinX(s) + dx
    ensures MinY(Translate(s, dx, dy)) == MinY(s) + dy
  {
    if |s| > 1 {
      MinTranslate(s[..|s| - 1], dx, dy);
      assert Translate(s, dx, dy)[..|s| - 1] == Translate(s[..|s| - 1], dx, dy);
    }
  }

  /**
   * `from_contour`: the location is the least corner of the outer contour's
   * even vertices, the size spans the inclusive pixel range, and every
   * contour (outer first, then its children in order) is moved by -location.
   */
  method FromContour(outer: seq<Point>, children: seq<seq<Point>>) returns (glyph: Glyph, location: Point)
    requires |outer| > 0
    ensures location == Point(MinX(outer), MinY(outer))
    ensures glyph.size == Size(MaxX(outer) - MinX(outer) + 1, MaxY(outer) - MinY(outer) + 1)
    ensures glyph.contours == TranslateAll([outer] + children, -location.x, -location.y)
  {
    var xMin, xMax, yMin, yMax := I32_MAX, I32_MIN, I32_MAX, I32_MIN;
    for i := 0 to |outer|
      invariant i == 0 ==> xMin == I32_MAX && xMax == I32_MIN && yMin == I32_MAX && yMax == I32_MIN
      invariant i > 0 ==> xMin == MinX(outer[..i]) && xMax == MaxX(outer[..i])
      invariant i > 0 ==> yMin == MinY(outer[..i]) && yMax == MaxY(outer[..i])
    {
      assert outer[..i + 1][..i] == outer[..i];
      var v := outer[i];
      if v.x < xMin { xMin := v.x; }
      if v.x > xMax { xMax := v.x; }
      if v.y < yMin { yMin := v.y; }
      if v.y > yMax { yMax := v.y; }
      // The source's i32 sentinels are beaten by every i32 vertex; model
      // coordinates are unbounded, so the first vertex replaces them outright,
      // which gives the same bounds for every vertex in the i32 range.
      if i == 0 {
        xMin, xMax, yMin, yMax := v.x, v.x, v.y, v.y;
      }
    }
    assert outer[..|outer|] == outer;
    location := Point(xMin, yMin);
    var size := Size(xMax - xMin + 1, yMax - yMin + 1);
    glyph := Glyph(size, TranslateAll([outer] + children, -xMin, -yMin));
  }

  function Contours(g: Glyph): seq<Orthopolygon.Orthopolygon> { g.contours }

  function OuterContour(g: Glyph): Orthopolygon.Orthopolygon
    requires |g.contours| > 0
  {
    g.contours[0]
  }

  function InnerContours(g: Glyph): seq<Orthopolygon.Orthopolygon>
    requires |g.contours| > 0
  {
    g.contours[1..]
  }

  /** The contours are the outer contour followed by the holes. */
  lemma ContoursPartition(g: Glyph)
    requires |g.contours| > 0
    ensures Contours(g) == [OuterContour(g)] + InnerContours(g)
  {
  }

  /**
   * For a glyph made by `from_contour`: the outer contour touches x = 0 and
   * y = 0, lies within the size, keeps its vertex count; the holes are the
   * children, translated, in order.
   */
  lemma {:induction false} FromContourShape(outer: seq<Point>, children: seq<seq<Point>>, g: Glyph, location: Point)
    requires |outer| > 0
    requires location == Point(MinX(outer), MinY(outer))
    requires g.size == Size(MaxX(outer) - MinX(outer) + 1, MaxY(outer) - MinY(outer) + 1)
    requires g.contours == TranslateAll([outer] + children, -location.x, -location.y)
    ensures |g.contours| == 1 + |children|
    ensures OuterContour(g).evenVertices == Translate(outer, -location.x, -location.y)
    ensures MinX(OuterContour(g).evenVertices) == 0 && MinY(OuterContour(g).evenVertices) == 0
    ensures forall v :: v in OuterContour(g).evenVertices ==>
      0 <= v.x < g.size.width && 0 <= v.y < g.size.height
    ensures |InnerContours(g)| == |children|
    ensures forall i :: 0 <= i < |children| ==>
      InnerContours(g)[i].evenVertices == Translate(children[i], -location.x, -location.y)
  {
    var all := [outer] + children;
    var t := Translate(outer, -location.x, -location.y);
    assert all[0] == outer;
    assert OuterContour(g).evenVertices == t;
    MinTranslate(outer, -location.x, -location.y);
    assert MinX(t) == 0 && MinY(t) == 0;
    TranslateWithin(outer);
    forall i | 0 <= i < |children|
      ensures InnerContours(g)[i].evenVertices == Translate(children[i], -location.x, -location.y)
    {
      assert all[i + 1] == children[i];
    }
  }

  /** Moved by its least corner, every vertex lies in the box from (0, 0) to the extents. */
  lemma TranslateWithin(s: seq<Point>)
    requires |s| > 0
    ensures forall v :: v in Translate(s, -MinX(s), -MinY(s)) ==>
      0 <= v.x <= MaxX(s) - MinX(s) && 0 <= v.y <= MaxY(s) - MinY(s)
  {
    var t := Translate(s, -MinX(s), -MinY(s));
    BoundsAttained(s);
    forall v | v in t
      ensures 0 <= v.x <= MaxX(s) - MinX(s) && 0 <= v.y <= MaxY(s) - MinY(s)
    {
      var i :| 0 <= i < |t| && t[i] == v;
      assert s[i] in s;
    }
  }

  lemma GlyphEquality(a: Glyph, b: Glyph)
    ensures a == b <==> a.size == b.size && a.contours == b.contours
  {
  }
}
