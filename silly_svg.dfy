/**
 * src/silly_svg.rs: SVG text for glyphs made of orthopolygons. A path is
 * written with relative `m`, `h`, `v` and `z` commands (SVG 1.1, section
 * 8.3), stepping from even vertex to even vertex: `h{dx}v{dy}` passes
 * through the odd vertex between them.
 */
module SillySvg {
  import opened Geometry
  import opened Wrappers
  import Seqs
  import opened Text
  import Orthopolygon
  import Book

  /** The path-data commands `get_path` emits. */
  datatype Node =
    | MoveAbs(at: Point)             // M{x},{y}
    | MoveRel(d: Point)              // m{dx},{dy}
    | HorizontalVertical(d: Point)   // h{dx}v{dy}
    | HorizontalClose(dx: int)       // h{dx}z

  function NodeText(n: Node): string
  {
    match n
    case MoveAbs(p) => "M" + IntToString(p.x) + "," + IntToString(p.y)
    case MoveRel(d) => "m" + IntToString(d.x) + "," + IntToString(d.y)
    case HorizontalVertical(d) => "h" + IntToString(d.x) + "v" + IntToString(d.y)
    case HorizontalClose(dx) => "h" + IntToString(dx) + "z"
  }

  /** The text of each command, in order: the `nodes` vector of `get_path`. */
  function Texts(ns: seq<Node>): (r: seq<string>)
    ensures |r| == |ns|
  {
    Seqs.Map(NodeText, ns)
  }

  /** `concat` of a list of strings. */
  function Concat(ss: seq<string>): string
  {
    if |ss| == 0 then "" else Concat(ss[..|ss| - 1]) + ss[|ss| - 1]
  }

  /** `join(sep)` of a list of strings. */
  function Join(ss: seq<string>, sep: string): string
  {
    if |ss| == 0 then ""
    else if |ss| == 1 then ss[0]
    else Join(ss[..|ss| - 1], sep) + sep + ss[|ss| - 1]
  }

  // ---------------------------------------------------------------------
  // The path data, by contour.
  // ---------------------------------------------------------------------

  /** `location + p.to_vector()`. */
  function Shift(p: Point, location: Point): Point
  {
    Point(location.x + p.x, location.y + p.y)
  }

  /** `p - q`, the vector from q to p. */
  function Delta(p: Point, q: Point): Point
  {
    Point(p.x - q.x, p.y - q.y)
  }

  predicate NonEmpty(cs: seq<seq<Point>>)
  {
    forall k :: 0 <= k < |cs| ==> |cs[k]| > 0
  }

  function EvenVerticesOf(contours: seq<Orthopolygon.Orthopolygon>): (r: seq<seq<Point>>)
    ensures |r| == |contours|
    ensures forall k :: 0 <= k < |contours| ==> r[k] == contours[k].evenVertices
  {
    seq(|contours|, k requires 0 <= k < |contours| => contours[k].evenVertices)
  }

  /**
   * The first command of contour i: absolute, shifted by `location`, for the
   * first contour; relative to the previous contour's start otherwise.
   */
  function Lead(location: Point, cs: seq<seq<Point>>, i: nat): Node
    requires i < |cs| && NonEmpty(cs)
  {
    if i == 0 then MoveAbs(Shift(cs[0][0], location))
    else MoveRel(Delta(cs[i][0], cs[i - 1][0]))
  }

  /** One `h{dx}v{dy}` per later even vertex, relative to the vertex before it. */
  function Steps(c: seq<Point>): (r: seq<Node>)
    requires |c| > 0
    ensures |r| == |c| - 1
  {
    if |c| == 1 then [] else [HorizontalVertical(Delta(c[1], c[0]))] + Steps(c[1..])
  }

  /** A contour: its lead, its steps, and `h{start.x - last.x}z` back to the start. */
  function ContourNodes(lead: Node, c: seq<Point>): seq<Node>
    requires |c| > 0
  {
    [lead] + Steps(c) + [HorizontalClose(Delta(c[0], c[|c| - 1]).x)]
  }

  function PathNodes(location: Point, cs: seq<seq<Point>>): seq<Node>
    requires NonEmpty(cs)
  {
    if |cs| == 0 then []
    else PathNodes(location, cs[..|cs| - 1]) + ContourNodes(Lead(location, cs, |cs| - 1), cs[|cs| - 1])
  }

  function IdParameter(objectId: Option<nat>): string
  {
    match objectId
    case None => ""
    case Some(id) => "id=\"" + NatToString(id) + "\" "
  }

  function PathElement(objectId: Option<nat>, data: string): string
  {
    "<path " + IdParameter(objectId) + "d=\"" + data + "\"/>"
  }

  /** What `get_path` returns. */
  function PathText(location: Point, contours: seq<Orthopolygon.Orthopolygon>, objectId: Option<nat>): string
    requires NonEmpty(EvenVerticesOf(contours))
  {
    PathElement(objectId, Concat(Texts(PathNodes(location, EvenVerticesOf(contours)))))
  }

  /** The path data of one more contour. */
  lemma PathNodesSnoc(location: Point, cs: seq<seq<Point>>, i: nat)
    requires NonEmpty(cs) && i < |cs|
    ensures NonEmpty(cs[..i]) && NonEmpty(cs[..i + 1])
    ensures PathNodes(location, cs[..i + 1]) == PathNodes(location, cs[..i]) + ContourNodes(Lead(location, cs, i), cs[i])
  {
    var front := cs[..i + 1];
    assert front[..i] == cs[..i];
    assert front[i] == cs[i];
    if i > 0 {
      assert front[i - 1] == cs[i - 1];
    }
    assert Lead(location, front, i) == Lead(location, cs, i);
  }

  /** The steps of a longer prefix: one more step, to the next even vertex. */
  lemma {:induction false} StepsSnoc(c: seq<Point>, j: nat)
    requires 1 <= j < |c|
    ensures Steps(c[..j + 1]) == Steps(c[..j]) + [HorizontalVertical(Delta(c[j], c[j - 1]))]
  {
    if j > 1 {
      StepsSnoc(c[1..], j - 1);
      assert c[..j + 1][1..] == c[1..][..j];
      assert c[..j][1..] == c[1..][..j - 1];
    } else {
      assert c[..2][1..] == [c[1]];
    }
  }

  lemma TextsAppend(a: seq<Node>, b: seq<Node>)
    ensures Texts(a + b) == Texts(a) + Texts(b)
  {
    Seqs.MapAppend(NodeText, a, b);
  }

  /** Writing one more command after the texts of `ns`. */
  lemma TextsSnoc(prefix: seq<string>, ns: seq<Node>, n: Node)
    ensures prefix + Texts(ns + [n]) == (prefix + Texts(ns)) + [NodeText(n)]
  {
    TextsAppend(ns, [n]);
    assert Texts([n]) == [NodeText(n)];
  }

  /**
   * `get_path`: the path data of the contours, then the element around it,
   * with an `id` parameter iff an object id is given.
   */
  method GetPath(location: Point, contours: seq<Orthopolygon.Orthopolygon>, objectId: Option<nat>) returns (path: string)
    requires NonEmpty(EvenVerticesOf(contours))
    ensures path == PathText(location, contours, objectId)
  {
    var nodes := PathData(location, contours);
    var data := Concat(nodes);
    var idParameter := if objectId.Some? then "id=\"" + NatToString(objectId.value) + "\" " else "";
    path := "<path " + idParameter + "d=\"" + data + "\"/>";
  }

  /**
   * The loop of `get_path`: one pass over the contours and their even
   * vertices, keeping the previous vertex and the current contour's start; a
   * contour without vertices panics at `start.unwrap()`.
   */
  method PathData(location: Point, contours: seq<Orthopolygon.Orthopolygon>) returns (nodes: seq<string>)
    requires NonEmpty(EvenVerticesOf(contours))
    ensures nodes == Texts(PathNodes(location, EvenVerticesOf(contours)))
  {
    ghost var cs := EvenVerticesOf(contours);
    nodes := [];
    var previousVertex: Option<Point> := None;
    for i := 0 to |contours|
      invariant nodes == Texts(PathNodes(location, cs[..i]))
      invariant previousVertex == if i == 0 then None else Some(cs[i - 1][0])
    {
      var vs := contours[i].evenVertices;
      assert vs == cs[i];
      ghost var lead := Lead(location, cs, i);
      var start, last;
      nodes, start, last := ContourVertices(location, vs, previousVertex, nodes, lead);
      var relative := Delta(start, last);
      ContourText(location, cs, i, nodes, "h" + IntToString(relative.x) + "z");
      nodes := nodes + ["h" + IntToString(relative.x) + "z"];
      previousVertex := Some(start);
    }
    assert cs[..|contours|] == cs;
  }

  /** The text of contour i: its lead and steps, then `h{dx}z` back to its start. */
  lemma ContourText(location: Point, cs: seq<seq<Point>>, i: nat, written: seq<string>, closing: string)
    requires NonEmpty(cs) && i < |cs|
    requires written == Texts(PathNodes(location, cs[..i])) + Texts([Lead(location, cs, i)] + Steps(cs[i]))
    requires closing == "h" + IntToString(Delta(cs[i][0], cs[i][|cs[i]| - 1]).x) + "z"
    ensures NonEmpty(cs[..i + 1])
    ensures Texts(PathNodes(location, cs[..i + 1])) == written + [closing]
  {
    var done := PathNodes(location, cs[..i]);
    var vs := cs[i];
    var lead := Lead(location, cs, i);
    var close := HorizontalClose(Delta(vs[0], vs[|vs| - 1]).x);
    PathNodesSnoc(location, cs, i);
    assert done + ContourNodes(lead, vs) == (done + ([lead] + Steps(vs))) + [close];
    TextsAppend(done, [lead] + Steps(vs));
    TextsSnoc([], done + ([lead] + Steps(vs)), close);
  }

  /** The text of a contour's lead command. */
  lemma LeadText(nodes: seq<string>, lead: Node, vs: seq<Point>)
    requires |vs| > 0
    ensures nodes + Texts([lead] + Steps(vs[..1])) == nodes + [NodeText(lead)]
  {
    assert Steps(vs[..1]) == [];
    assert [lead] + Steps(vs[..1]) == [lead];
    assert Texts([lead]) == [NodeText(lead)];
  }

  /** The text of the step to even vertex j. */
  lemma StepText(nodes: seq<string>, lead: Node, vs: seq<Point>, j: nat)
    requires 1 <= j < |vs|
    ensures nodes + Texts([lead] + Steps(vs[..j + 1])) ==
      (nodes + Texts([lead] + Steps(vs[..j]))) + ["h" + IntToString(Delta(vs[j], vs[j - 1]).x) + "v" + IntToString(Delta(vs[j], vs[j - 1]).y)]
  {
    var step := HorizontalVertical(Delta(vs[j], vs[j - 1]));
    StepsSnoc(vs, j);
    assert [lead] + Steps(vs[..j + 1]) == ([lead] + Steps(vs[..j])) + [step];
    TextsSnoc(nodes, [lead] + Steps(vs[..j]), step);
  }

  /**
   * The inner loop of `get_path` over the even vertices of one contour: the
   * lead command (absolute for the first contour, relative to the previous
   * contour's start otherwise), then one step per later vertex.
   */
  method ContourVertices(location: Point, vs: seq<Point>, previousVertex: Option<Point>, nodes: seq<string>, ghost lead: Node)
    returns (nodes': seq<string>, start: Point, last: Point)
    requires |vs| > 0
    requires previousVertex.None? ==> lead == MoveAbs(Shift(vs[0], location))
    requires previousVertex.Some? ==>
      lead == MoveRel(Delta(vs[0], previousVertex.value))
    ensures nodes' == nodes + Texts([lead] + Steps(vs))
    ensures start == vs[0] && last == vs[|vs| - 1]
  {
    nodes' := nodes;
    var previous := previousVertex;
    var first: Option<Point> := None;
    for j := 0 to |vs|
      invariant j == 0 ==> first == None && nodes' == nodes && previous == previousVertex
      invariant j > 0 ==> first == Some(vs[0]) && previous == Some(vs[j - 1])
      invariant j > 0 ==> nodes' == nodes + Texts([lead] + Steps(vs[..j]))
    {
      var vertex := vs[j];
      if previous.Some? {
        var relative := Delta(vertex, previous.value);
        if first.None? {
          first := Some(vertex);
          nodes' := nodes' + ["m" + IntToString(relative.x) + "," + IntToString(relative.y)];
          LeadText(nodes, lead, vs);
        } else {
          nodes' := nodes' + ["h" + IntToString(relative.x) + "v" + IntToString(relative.y)];
          StepText(nodes, lead, vs, j);
        }
      } else {
        var absolute := Shift(vertex, location);
        first := Some(vertex);
        nodes' := nodes' + ["M" + IntToString(absolute.x) + "," + IntToString(absolute.y)];
        LeadText(nodes, lead, vs);
      }
      previous := Some(vertex);
    }
    assert vs[..|vs|] == vs;
    start, last := first.value, previous.value;
  }

  // ---------------------------------------------------------------------
  // What the path draws: a pen following the commands (SVG 1.1, sections
  // 8.3.2-8.3.4). After `z` the pen is back at the start of the subpath, so
  // the next `m` is relative to that start.
  // ---------------------------------------------------------------------

  datatype Pen = Pen(at: Point, subpathStart: Point)

  /** Where `h{dx}` takes the pen from p. */
  function Horizontal(p: Point, dx: int): Point
  {
    Point(p.x + dx, p.y)
  }

  /** A step from p to q, drawn from p shifted by `location`, reaches the shifted odd vertex, then q shifted. */
  lemma StepLands(p: Point, q: Point, location: Point)
    ensures Horizontal(Shift(p, location), Delta(q, p).x) == Shift(Orthopolygon.OddVertex(p, q), location)
    ensures Shift(Delta(q, p), Shift(p, location)) == Shift(q, location)
  {
  }

  /** The corners a command reaches, in order. */
  function Marks(n: Node, pen: Pen): seq<Point>
  {
    match n
    case MoveAbs(p) => [p]
    case MoveRel(d) => [Shift(d, pen.at)]
    case HorizontalVertical(d) => [Horizontal(pen.at, d.x), Shift(d, pen.at)]
    case HorizontalClose(dx) => [Horizontal(pen.at, dx), pen.subpathStart]
  }

  function Move(n: Node, pen: Pen): Pen
  {
    match n
    case MoveAbs(p) => Pen(p, p)
    case MoveRel(d) => Pen(Shift(d, pen.at), Shift(d, pen.at))
    case HorizontalVertical(d) => Pen(Shift(d, pen.at), pen.subpathStart)
    case HorizontalClose(_) => Pen(pen.subpathStart, pen.subpathStart)
  }

  /** The state after `step` has consumed the items from the front. */
  function Fold<N, S>(step: (N, S) -> S, ns: seq<N>, s: S): S
  {
    if |ns| == 0 then s else Fold(step, ns[1..], step(ns[0], s))
  }

  /** What `emit` yields for each item, in order, while `step` threads the state. */
  function Scan<N, S, O>(emit: (N, S) -> seq<O>, step: (N, S) -> S, ns: seq<N>, s: S): seq<O>
  {
    if |ns| == 0 then [] else emit(ns[0], s) + Scan(emit, step, ns[1..], step(ns[0], s))
  }

  lemma {:induction false} FoldAppend<N, S>(step: (N, S) -> S, a: seq<N>, b: seq<N>, s: S)
    ensures Fold(step, a + b, s) == Fold(step, b, Fold(step, a, s))
  {
    if |a| == 0 {
      assert a + b == b;
    } else {
      FoldAppend(step, a[1..], b, step(a[0], s));
      assert (a + b)[0] == a[0];
      assert (a + b)[1..] == a[1..] + b;
    }
  }

  lemma {:induction false} ScanAppend<N, S, O>(emit: (N, S) -> seq<O>, step: (N, S) -> S, a: seq<N>, b: seq<N>, s: S)
    ensures Scan(emit, step, a + b, s) == Scan(emit, step, a, s) + Scan(emit, step, b, Fold(step, a, s))
  {
    if |a| == 0 {
      assert a + b == b;
    } else {
      var next := step(a[0], s);
      ScanAppend(emit, step, a[1..], b, next);
      assert (a + b)[0] == a[0];
      assert (a + b)[1..] == a[1..] + b;
      assert Fold(step, a, s) == Fold(step, a[1..], next);
      var m, t1, t2 := emit(a[0], s), Scan(emit, step, a[1..], next), Scan(emit, step, b, Fold(step, a[1..], next));
      assert m + (t1 + t2) == (m + t1) + t2;
    }
  }

  /** Where the pen is after following the commands. */
  function Final(ns: seq<Node>, pen: Pen): Pen
  {
    Fold(Move, ns, pen)
  }

  /** Every corner the pen reaches while following the commands. */
  function Trace(ns: seq<Node>, pen: Pen): seq<Point>
  {
    Scan(Marks, Move, ns, pen)
  }

  lemma TraceAppend(a: seq<Node>, b: seq<Node>, pen: Pen)
    ensures Trace(a + b, pen) == Trace(a, pen) + Trace(b, Final(a, pen))
    ensures Final(a + b, pen) == Final(b, Final(a, pen))
  {
    ScanAppend(Marks, Move, a, b, pen);
    FoldAppend(Move, a, b, pen);
  }

  lemma TraceSingle(n: Node, pen: Pen)
    ensures Trace([n], pen) == Marks(n, pen) && Final([n], pen) == Move(n, pen)
  {
    var none: seq<Node> := [];
    assert [n][1..] == none;
    assert Scan(Marks, Move, none, Move(n, pen)) == [];
    assert Fold(Move, none, Move(n, pen)) == Move(n, pen);
  }

  lemma TraceCons(ns: seq<Node>, pen: Pen)
    requires |ns| > 0
    ensures Trace(ns, pen) == Marks(ns[0], pen) + Trace(ns[1..], Move(ns[0], pen))
    ensures Final(ns, pen) == Final(ns[1..], Move(ns[0], pen))
  {
  }

  /** Each point shifted by `location`. */
  function ShiftAll(s: seq<Point>, location: Point): (r: seq<Point>)
    ensures |r| == |s|
    ensures forall i :: 0 <= i < |s| ==> r[i] == Shift(s[i], location)
  {
    seq(|s|, i requires 0 <= i < |s| => Shift(s[i], location))
  }

  /** The outline of one contour: the expanded vertices, shifted, and the return to the start. */
  function Outline(location: Point, c: seq<Point>): (r: seq<Point>)
    requires |c| > 0
  {
    ShiftAll(Orthopolygon.Vertices(Orthopolygon.New(c)), location) + [Shift(c[0], location)]
  }

  function Outlines(location: Point, cs: seq<seq<Point>>): seq<Point>
    requires NonEmpty(cs)
  {
    if |cs| == 0 then [] else Outlines(location, cs[..|cs| - 1]) + Outline(location, cs[|cs| - 1])
  }

  /**
   * The corners the steps through the even vertices of c reach, shifted by
   * `location`: for each step the odd vertex, then the next even vertex.
   */
  function Zigzag(location: Point, c: seq<Point>): seq<Point>
    requires |c| > 0
  {
    if |c| == 1 then []
    else [Shift(Orthopolygon.OddVertex(c[0], c[1]), location), Shift(c[1], location)] + Zigzag(location, c[1..])
  }

  lemma ZigzagCons(location: Point, c: seq<Point>)
    requires |c| > 1
    ensures Zigzag(location, c) == [Shift(Orthopolygon.OddVertex(c[0], c[1]), location), Shift(c[1], location)] + Zigzag(location, c[1..])
  {
  }

  lemma {:induction false} ZigzagLength(location: Point, c: seq<Point>)
    requires |c| > 0
    ensures |Zigzag(location, c)| == 2 * (|c| - 1)
  {
    if |c| > 1 {
      ZigzagLength(location, c[1..]);
    }
  }

  lemma {:induction false} ZigzagAt(location: Point, c: seq<Point>, k: nat)
    requires k < |c| - 1
    ensures |Zigzag(location, c)| == 2 * (|c| - 1)
    ensures Zigzag(location, c)[2 * k] == Shift(Orthopolygon.OddVertex(c[k], c[k + 1]), location)
    ensures Zigzag(location, c)[2 * k + 1] == Shift(c[k + 1], location)
  {
    ZigzagLength(location, c);
    if k > 0 {
      ZigzagAt(location, c[1..], k - 1);
    }
  }

  /** From the first even vertex, the steps draw `Zigzag` and stop at the last even vertex. */
  lemma {:induction false} StepsTrace(location: Point, c: seq<Point>, start: Point)
    requires |c| > 0
    ensures Trace(Steps(c), Pen(Shift(c[0], location), start)) == Zigzag(location, c)
    ensures Final(Steps(c), Pen(Shift(c[0], location), start)) == Pen(Shift(c[|c| - 1], location), start)
  {
    if |c| > 1 {
      var ns := Steps(c);
      var pen := Pen(Shift(c[0], location), start);
      assert ns[1..] == Steps(c[1..]);
      assert c[1..][0] == c[1];
      StepLands(c[0], c[1], location);
      StepsTrace(location, c[1..], start);
      TraceCons(ns, pen);
      ZigzagCons(location, c);
    }
  }

  /** Index m of a sequence of pairs is the first or the second item of pair m / 2. */
  lemma Halves(m: nat)
    ensures m == 2 * (m / 2) || m == 2 * (m / 2) + 1
  {
  }

  /** The commands of one contour draw its outline and leave the pen at its start. */
  lemma ContourTrace(location: Point, c: seq<Point>, lead: Node, pen: Pen)
    requires |c| > 0
    requires Marks(lead, pen) == [Shift(c[0], location)]
    requires Move(lead, pen) == Pen(Shift(c[0], location), Shift(c[0], location))
    ensures Trace(ContourNodes(lead, c), pen) == Outline(location, c)
    ensures Final(ContourNodes(lead, c), pen) == Pen(Shift(c[0], location), Shift(c[0], location))
  {
    var n := |c|;
    var start := Shift(c[0], location);
    var close := HorizontalClose(Delta(c[0], c[n - 1]).x);
    StepsTrace(location, c, start);
    TraceSingle(lead, pen);
    TraceAppend([lead], Steps(c), pen);
    TraceAppend([lead] + Steps(c), [close], pen);
    TraceSingle(close, Pen(Shift(c[n - 1], location), start));
    var corner := Shift(Orthopolygon.OddVertex(c[n - 1], c[0]), location);
    StepLands(c[n - 1], c[0], location);
    assert Marks(close, Pen(Shift(c[n - 1], location), start)) == [corner, start];
    var t := Trace(ContourNodes(lead, c), pen);
    var z := Zigzag(location, c);
    assert t == [start] + z + [corner, start];
    OutlineShape(location, c, z, corner);
  }

  /** The shifted expansion of c is its first even vertex, the zigzag, and the closing corner. */
  lemma OutlineShape(location: Point, c: seq<Point>, z: seq<Point>, corner: Point)
    requires |c| > 0 && z == Zigzag(location, c)
    requires corner == Shift(Orthopolygon.OddVertex(c[|c| - 1], c[0]), location)
    ensures Outline(location, c) == [Shift(c[0], location)] + z + [corner, Shift(c[0], location)]
  {
    var n := |c|;
    var sv := ShiftAll(Orthopolygon.Vertices(Orthopolygon.New(c)), location);
    var expected := [Shift(c[0], location)] + z + [corner];
    ZigzagLength(location, c);
    forall m | 0 <= m < 2 * n
      ensures sv[m] == expected[m]
    {
      Halves(m);
      ShiftedVertices(location, c, m / 2);
      if m == 0 {
        assert sv[m] == expected[m];
      } else if m == 2 * n - 1 {
        assert expected[m] == corner;
        assert sv[m] == expected[m];
      } else if m % 2 == 0 {
        assert expected[m] == z[m - 1];
        OutlineEvenAt(location, c, m / 2);
        assert sv[m] == expected[m];
      } else {
        assert expected[m] == z[m - 1];
        OutlineOddAt(location, c, m / 2);
        assert sv[m] == expected[m];
      }
    }
    assert sv == expected;
  }

  /** Vertex 2i, for i > 0, is the end of step i - 1. */
  lemma OutlineEvenAt(location: Point, c: seq<Point>, i: nat)
    requires 0 < i < |c|
    ensures |Zigzag(location, c)| == 2 * (|c| - 1)
    ensures ShiftAll(Orthopolygon.Vertices(Orthopolygon.New(c)), location)[2 * i] == Zigzag(location, c)[2 * i - 1]
  {
    ShiftedVertices(location, c, i);
    ZigzagAt(location, c, i - 1);
    assert 2 * (i - 1) + 1 == 2 * i - 1;
  }

  /** Vertex 2i + 1, for i + 1 < |c|, is the corner of step i. */
  lemma OutlineOddAt(location: Point, c: seq<Point>, i: nat)
    requires i + 1 < |c|
    ensures |Zigzag(location, c)| == 2 * (|c| - 1)
    ensures ShiftAll(Orthopolygon.Vertices(Orthopolygon.New(c)), location)[2 * i + 1] == Zigzag(location, c)[2 * i]
  {
    ShiftedVertices(location, c, i);
    ZigzagAt(location, c, i);
  }

  /** Even vertex i of c and the odd vertex after it, shifted by `location`. */
  lemma ShiftedVertices(location: Point, c: seq<Point>, i: nat)
    requires i < |c|
    ensures var sv := ShiftAll(Orthopolygon.Vertices(Orthopolygon.New(c)), location);
      && sv[2 * i] == Shift(c[i], location)
      && sv[2 * i + 1] == Shift(Orthopolygon.OddVertex(c[i], if i + 1 < |c| then c[i + 1] else c[0]), location)
  {
    Orthopolygon.VerticesAt(Orthopolygon.New(c), i);
  }

  /**
   * The path data of `get_path`, followed by a pen from the origin, traces
   * exactly the outlines of the contours: for each contour, its full vertex
   * list (even and odd vertices) shifted by `location`, closed at its start.
   */
  lemma {:induction false} PathTrace(location: Point, cs: seq<seq<Point>>)
    requires NonEmpty(cs)
    ensures Trace(PathNodes(location, cs), Pen(Point(0, 0), Point(0, 0))) == Outlines(location, cs)
    ensures |cs| > 0 ==>
      Final(PathNodes(location, cs), Pen(Point(0, 0), Point(0, 0))) ==
      Pen(Shift(cs[|cs| - 1][0], location), Shift(cs[|cs| - 1][0], location))
  {
    if |cs| > 0 {
      var origin := Pen(Point(0, 0), Point(0, 0));
      var front := cs[..|cs| - 1];
      var c := cs[|cs| - 1];
      PathTrace(location, front);
      var lead := Lead(location, cs, |cs| - 1);
      TraceAppend(PathNodes(location, front), ContourNodes(lead, c), origin);
      if |cs| > 1 {
        assert front[|front| - 1] == cs[|cs| - 2];
        StepLands(cs[|cs| - 2][0], c[0], location);
      }
      ContourTrace(location, c, lead, Final(PathNodes(location, front), origin));
    }
  }

  /** The `id` attribute of a path element. */
  predicate HasIdAttribute(s: string)
  {
    exists k :: 0 <= k <= |s| && IdAt(s, k)
  }

  predicate IdAt(s: string, k: int)
  {
    0 <= k && k + 4 <= |s| && s[k..k + 4] == "id=\""
  }

  predicate PathChars(s: string)
  {
    forall c :: c in s ==> IsDigit(c) || c in "-,Mmhvz"
  }

  lemma {:induction false} ConcatPathChars(ns: seq<Node>)
    ensures PathChars(Concat(Texts(ns)))
  {
    if |ns| > 0 {
      ConcatPathChars(ns[..|ns| - 1]);
      assert Texts(ns)[..|ns| - 1] == Texts(ns[..|ns| - 1]);
      var n := ns[|ns| - 1];
      match n
      case MoveAbs(p) => IntToStringChars(p.x); IntToStringChars(p.y);
      case MoveRel(d) => IntToStringChars(d.x); IntToStringChars(d.y);
      case HorizontalVertical(d) => IntToStringChars(d.x); IntToStringChars(d.y);
      case HorizontalClose(dx) => IntToStringChars(dx);
    }
  }

  lemma NotInAppend<T>(x: T, a: seq<T>, b: seq<T>)
    requires x !in a && x !in b
    ensures x !in a + b
  {
  }

  /** Path data never holds an `i`, so only the `id` parameter can start `id="`. */
  lemma PathElementId(objectId: Option<nat>, data: string)
    requires PathChars(data)
    ensures HasIdAttribute(PathElement(objectId, data)) <==> objectId.Some?
  {
    var s := PathElement(objectId, data);
    if objectId.Some? {
      assert IdAt(s, 6);
    } else {
      var front, back := "<path d=\"", "\"/>";
      assert s == front + data + back;
      assert 'i' !in front && 'i' !in back;
      assert !IsDigit('i') && 'i' !in "-,Mmhvz";
      NotInAppend('i', front, data);
      NotInAppend('i', front + data, back);
      forall k | 0 <= k && k + 4 <= |s|
        ensures !IdAt(s, k)
      {
        assert s[k] in s;
        assert s[k..k + 4][0] == s[k];
      }
    }
  }

  /** A path element carries an `id="…"` attribute iff an object id is given. */
  lemma IdAttributeIffSome(location: Point, contours: seq<Orthopolygon.Orthopolygon>, objectId: Option<nat>)
    requires NonEmpty(EvenVerticesOf(contours))
    ensures HasIdAttribute(PathText(location, contours, objectId)) <==> objectId.Some?
  {
    var ns := PathNodes(location, EvenVerticesOf(contours));
    ConcatPathChars(ns);
    PathElementId(objectId, Concat(Texts(ns)));
  }

  // ---------------------------------------------------------------------
  // Page and shared documents.
  // ---------------------------------------------------------------------

  const Origin: Point := Point(0, 0)

  /** Every contour of every glyph of the book has vertices, as `get_path` needs. */
  predicate Drawable(book: Book.Book)
  {
    forall i :: 0 <= i < |book.glyphs| ==> NonEmpty(EvenVerticesOf(book.glyphs[i].contours))
  }

  /** `order` lists the keys of a hash map once each, in its (unspecified) iteration order. */
  ghost predicate Enumerates(order: seq<nat>, keys: set<nat>)
  {
    && (forall i :: i in keys <==> i in order)
    && (forall a, b :: 0 <= a < b < |order| ==> order[a] != order[b])
  }

  /** The definition of glyph `id`: its path at the origin, carrying the id. */
  function Definition(book: Book.Book, id: nat): string
    requires Drawable(book) && id < |book.glyphs|
  {
    PathText(Origin, book.glyphs[id].contours, Some(id))
  }

  /** One definition per glyph index of `order`, in that order. */
  function Definitions(book: Book.Book, order: seq<nat>): (r: seq<string>)
    requires Drawable(book)
    requires forall k :: 0 <= k < |order| ==> order[k] < |book.glyphs|
    ensures |r| == |order|
  {
    if |order| == 0 then []
    else Definitions(book, order[..|order| - 1]) + [Definition(book, order[|order| - 1])]
  }

  function UseLine(location: Point, id: nat, file: string, fill: string): string
  {
    "<use x=\"" + IntToString(location.x) + "\" y=\"" + IntToString(location.y) + "\" href=\"" + file + "#"
      + NatToString(id) + "\" fill=\"" + fill + "\"/>"
  }

  /** The line of one glyph entry: an inline path, or a `use` of a page or book definition. */
  function EntryLine(e: Book.GlyphEntry): string
    requires NonEmpty(EvenVerticesOf(e.glyph.contours))
  {
    match e.kind
    case Unique => PathText(e.location, e.glyph.contours, None)
    case PageShared => UseLine(e.location, e.id, "", "red")
    case BookShared => UseLine(e.location, e.id, "_.svg", "blue")
  }

  predicate EntriesValid(book: Book.Book, p: nat)
  {
    p < |book.pages| && forall e :: e in book.pages[p].glyphEntries ==> e.1 < |book.glyphs|
  }

  function PageLines(book: Book.Book, p: nat): (r: seq<string>)
    requires Drawable(book) && EntriesValid(book, p)
    ensures |r| == |book.pages[p].glyphEntries|
  {
    var entries := Book.GlyphEntries(book, p);
    seq(|entries|, k requires 0 <= k < |entries| => EntryLine(entries[k]))
  }

  lemma PageLinesSnoc(book: Book.Book, p: nat, k: nat, lines: seq<string>, line: string)
    requires Drawable(book) && EntriesValid(book, p) && k < |book.pages[p].glyphEntries|
    requires lines == PageLines(book, p)[..k]
    requires line == EntryLine(Book.GlyphEntries(book, p)[k])
    ensures lines + [line] == PageLines(book, p)[..k + 1]
  {
  }

  function DefsBlock(definitionLines: string): string
  {
    if |definitionLines| > 0 then "\n <defs>\n  " + definitionLines + "\n </defs>" else ""
  }

  function PageDocument(size: Size, defs: string, glyphLines: string): string
  {
    "<svg version=\"1.1\" width=\"" + IntToString(size.width) + "\" height=\"" + IntToString(size.height)
      + "\" xmlns=\"http://www.w3.org/2000/svg\">" + defs + "\n " + glyphLines + "\n</svg>"
  }

  function SharedDocument(definitionLines: string): string
  {
    "<svg version=\"1.1\" xmlns=\"http://www.w3.org/2000/svg\">\n <defs>\n  " + definitionLines + "\n </defs>\n</svg>"
  }

  lemma {:induction false} JoinEmpty(ss: seq<string>, sep: string)
    requires forall k :: 0 <= k < |ss| ==> |ss[k]| > 0
    ensures |Join(ss, sep)| > 0 <==> |ss| > 0
  {
    if |ss| > 1 {
      JoinEmpty(ss[..|ss| - 1], sep);
    }
  }

  lemma PathTextNonEmpty(location: Point, contours: seq<Orthopolygon.Orthopolygon>, objectId: Option<nat>)
    requires NonEmpty(EvenVerticesOf(contours))
    ensures |PathText(location, contours, objectId)| > 0
  {
  }

  lemma EnumeratesEmpty(order: seq<nat>, keys: set<nat>)
    requires Enumerates(order, keys)
    ensures |order| > 0 <==> |keys| > 0
  {
    if |order| > 0 {
      assert order[0] in keys;
    }
    if |keys| > 0 {
      var i :| i in keys;
      assert i in order;
    }
  }

  /** The definition paths for the glyph indices in `order`, each with its id. */
  method DefinitionPaths(book: Book.Book, order: seq<nat>) returns (paths: seq<string>)
    requires Drawable(book)
    requires forall k :: 0 <= k < |order| ==> order[k] < |book.glyphs|
    ensures paths == Definitions(book, order)
    ensures forall k :: 0 <= k < |paths| ==> |paths[k]| > 0
  {
    paths := [];
    for k := 0 to |order|
      invariant paths == Definitions(book, order[..k])
    {
      var path := GetPath(Origin, book.glyphs[order[k]].contours, Some(order[k]));
      assert path == Definition(book, order[k]);
      DefinitionsSnoc(book, order, k);
      paths := paths + [path];
    }
    assert order[..|order|] == order;
    DefinitionsNonEmpty(book, order);
  }

  lemma DefinitionsSnoc(book: Book.Book, order: seq<nat>, k: nat)
    requires Drawable(book)
    requires forall k :: 0 <= k < |order| ==> order[k] < |book.glyphs|
    requires k < |order|
    ensures Definitions(book, order[..k + 1]) == Definitions(book, order[..k]) + [Definition(book, order[k])]
  {
    var front := order[..k + 1];
    assert front[..k] == order[..k];
    assert front[k] == order[k];
  }

  lemma {:induction false} DefinitionsNonEmpty(book: Book.Book, order: seq<nat>)
    requires Drawable(book)
    requires forall k :: 0 <= k < |order| ==> order[k] < |book.glyphs|
    ensures forall k :: 0 <= k < |order| ==> |Definitions(book, order)[k]| > 0
  {
    if |order| > 0 {
      DefinitionsNonEmpty(book, order[..|order| - 1]);
    }
  }

  /**
   * `get_shared_contents`: a document of the book-shared glyph definitions,
   * or None when the book has none. `order` is the book dictionary's
   * iteration order.
   */
  method GetSharedContents(book: Book.Book, order: seq<nat>) returns (r: Option<string>)
    requires Drawable(book)
    requires Enumerates(order, book.dictionary.Keys)
    requires forall k :: 0 <= k < |order| ==> order[k] < |book.glyphs|
    ensures r.Some? <==> |book.dictionary| > 0
    ensures r.Some? ==> r.value == SharedDocument(Join(Definitions(book, order), "\n  "))
  {
    var definitions := DefinitionPaths(book, order);
    var definitionLines := Join(definitions, "\n  ");
    JoinEmpty(definitions, "\n  ");
    EnumeratesEmpty(order, book.dictionary.Keys);
    if |definitionLines| > 0 {
      r := Some(SharedDocument(definitionLines));
    } else {
      r := None;
    }
  }

  /**
   * `get_page_contents`: the page's own definitions (in the page
   * dictionary's iteration order `order`) in a `defs` block present iff the
   * page has page-shared glyphs, then one line per glyph entry, in page order.
   */
  method GetPageContents(book: Book.Book, p: nat, order: seq<nat>) returns (r: string)
    requires Drawable(book) && EntriesValid(book, p)
    requires Enumerates(order, book.pages[p].dictionary.Keys)
    requires forall k :: 0 <= k < |order| ==> order[k] < |book.glyphs|
    ensures r == PageDocument(book.pages[p].size,
      DefsBlock(Join(Definitions(book, order), "\n  ")), Join(PageLines(book, p), "\n "))
    ensures DefsBlock(Join(Definitions(book, order), "\n  ")) != "" <==> |book.pages[p].dictionary| > 0
  {
    var definitions := DefinitionPaths(book, order);
    var entries := Book.GlyphEntries(book, p);
    var glyphs: seq<string> := [];
    for k := 0 to |entries|
      invariant glyphs == PageLines(book, p)[..k]
    {
      var entry := entries[k];
      var line;
      match entry.kind {
        case Unique =>
          line := GetPath(entry.location, entry.glyph.contours, None);
        case PageShared =>
          line := UseLine(entry.location, entry.id, "", "red");
        case BookShared =>
          line := UseLine(entry.location, entry.id, "_.svg", "blue");
      }
      PageLinesSnoc(book, p, k, glyphs, line);
      glyphs := glyphs + [line];
    }
    assert glyphs == PageLines(book, p);
    var definitionLines := Join(definitions, "\n  ");
    var defs := if |definitionLines| > 0 then "\n <defs>\n  " + definitionLines + "\n </defs>" else "";
    JoinEmpty(definitions, "\n  ");
    EnumeratesEmpty(order, book.pages[p].dictionary.Keys);
    r := PageDocument(book.pages[p].size, defs, Join(glyphs, "\n "));
  }

  /**
   * For a book made by `Book::new`: a glyph occurring once in the whole book
   * is drawn inline at its location; one repeated only on this page is a red
   * `use` of the page's definition; one on several pages is a blue `use` of
   * the shared document's definition.
   */
  lemma PageLineKinds(input: seq<Book.PageInput>, book: Book.Book, p: nat, k: nat)
    requires Book.Describes(input, book) && Drawable(book)
    requires p < |input| && k < |input[p].glyphs|
    ensures EntriesValid(book, p)
    ensures
      var os := Book.Occurrences(input);
      var (g, location) := input[p].glyphs[k];
      var id := book.pages[p].glyphEntries[k].1;
      && (Book.Count(os, g) == 1 ==> PageLines(book, p)[k] == PathText(location, g.contours, None))
      && (Book.PagesOf(os, g) == {p} && Book.Count(os, g) > 1 ==> PageLines(book, p)[k] == UseLine(location, id, "", "red"))
      && (|Book.PagesOf(os, g)| > 1 ==> PageLines(book, p)[k] == UseLine(location, id, "_.svg", "blue"))
  {
    Book.EntryKinds(input, book, p, k);
  }
}
