/**
 * umriss/svg/__init__.py: `SvgDocument` turns drawings into an SVG element
 * tree. Referenced glyphs go into a `defs` block as paths with ids `g0`,
 * `g1`, ...; the drawing itself becomes a group of direct paths followed by
 * one `use` per reference. Path data is kept as the list of commands added
 * to it (move, line, cubic, close); the element tree is a value.
 */
module Svg {
  import Text
  import Seqs

  /** A point of a contour (a pair of floats, taken exactly). */
  datatype Vec = Vec(x: real, y: real)

  /** A cubic Bézier node `[control1, control2, end]`. */
  datatype CubicNode = CubicNode(control1: Vec, control2: Vec, end: Vec)

  datatype Contour = LineContour(points: seq<Vec>) | CubicContour(nodes: seq<CubicNode>)

  datatype Glyph = Glyph(contours: seq<Contour>)

  /** A placed copy of `referenced_glyphs[index]`. */
  datatype Reference = Reference(index: nat, offset: Vec)

  /** What `_add_drawing` reads of a drawing. */
  datatype Drawing = Drawing(glyphs: seq<Glyph>, references: seq<Reference>, referencedGlyphs: seq<Glyph>)

  /** One node of path data. */
  datatype Command = Move(at: Vec) | Line(to: Vec) | Cubic(node: CubicNode) | Close

  /** An attribute value: text, a number, or path data with its number of decimals. */
  datatype Value = Text(text: string) | Number(number: real) | Data(decimals: int, commands: seq<Command>)

  datatype Element = Element(tag: string, attributes: seq<(string, Value)>, children: seq<Element>)

  // ---------------------------------------------------------------------
  // Path data
  // ---------------------------------------------------------------------

  /** `PathData`: the commands added so far, in order. */
  class PathData {
    const decimals: int
    var commands: seq<Command>

    constructor (decimals: int)
      ensures this.decimals == decimals && commands == []
    {
      this.decimals := decimals;
      commands := [];
    }

    method AddMoveNode(p: Vec)
      modifies this
      ensures commands == old(commands) + [Move(p)]
    {
      commands := commands + [Move(p)];
    }

    method AddLineNode(p: Vec)
      modifies this
      ensures commands == old(commands) + [Line(p)]
    {
      commands := commands + [Line(p)];
    }

    method AddCubicNode(n: CubicNode)
      modifies this
      ensures commands == old(commands) + [Cubic(n)]
    {
      commands := commands + [Cubic(n)];
    }

    method AddCloseNode()
      modifies this
      ensures commands == old(commands) + [Close]
    {
      commands := commands + [Close];
    }
  }

  function Times(scale: real, p: Vec): Vec
  {
    Vec(scale * p.x, scale * p.y)
  }

  /** `contour.points if scale == 1.0 else scale * contour.points`. */
  function ScalePoints(points: seq<Vec>, scale: real): (r: seq<Vec>)
    ensures |r| == |points|
    ensures forall i :: 0 <= i < |points| ==> r[i] == if scale == 1.0 then points[i] else Times(scale, points[i])
  {
    if scale == 1.0 then points else seq(|points|, i requires 0 <= i < |points| => Times(scale, points[i]))
  }

  function ScaleNode(scale: real, n: CubicNode): CubicNode
  {
    CubicNode(Times(scale, n.control1), Times(scale, n.control2), Times(scale, n.end))
  }

  function ScaleNodes(nodes: seq<CubicNode>, scale: real): (r: seq<CubicNode>)
    ensures |r| == |nodes|
    ensures forall i :: 0 <= i < |nodes| ==> r[i] == if scale == 1.0 then nodes[i] else ScaleNode(scale, nodes[i])
  {
    if scale == 1.0 then nodes else seq(|nodes|, i requires 0 <= i < |nodes| => ScaleNode(scale, nodes[i]))
  }

  function Lines(ps: seq<Vec>): (r: seq<Command>)
    ensures |r| == |ps|
    ensures forall i :: 0 <= i < |ps| ==> r[i] == Line(ps[i])
  {
    seq(|ps|, i requires 0 <= i < |ps| => Line(ps[i]))
  }

  function Cubics(ns: seq<CubicNode>): (r: seq<Command>)
    ensures |r| == |ns|
    ensures forall i :: 0 <= i < |ns| ==> r[i] == Cubic(ns[i])
  {
    seq(|ns|, i requires 0 <= i < |ns| => Cubic(ns[i]))
  }

  /** The commands `_add_line_contour` adds for a polygon. */
  function LineCommands(points: seq<Vec>, scale: real): seq<Command>
    requires |points| > 0
  {
    var ps := ScalePoints(points, scale);
    [Move(ps[0])] + Lines(ps[1..]) + [Close]
  }

  /** The commands `_add_cubic_contour` adds for a spline. */
  function CubicCommands(nodes: seq<CubicNode>, scale: real): seq<Command>
    requires |nodes| > 0
  {
    var ns := ScaleNodes(nodes, scale);
    [Move(ns[|ns| - 1].end)] + Cubics(ns) + [Close]
  }

  predicate Drawable(c: Contour)
  {
    match c
    case LineContour(points) => |points| > 0
    case CubicContour(nodes) => |nodes| > 0
  }

  function ContourCommands(c: Contour, scale: real): seq<Command>
    requires Drawable(c)
  {
    match c
    case LineContour(points) => LineCommands(points, scale)
    case CubicContour(nodes) => CubicCommands(nodes, scale)
  }

  /** The commands of the contours cs, one contour after the other. */
  function GlyphCommands(cs: seq<Contour>, scale: real): seq<Command>
    requires forall i :: 0 <= i < |cs| ==> Drawable(cs[i])
  {
    if |cs| == 0 then [] else GlyphCommands(cs[..|cs| - 1], scale) + ContourCommands(cs[|cs| - 1], scale)
  }

  /** The end points the commands draw to, in order (a close draws to the start, which is already listed). */
  function Visited(cs: seq<Command>): seq<Vec>
  {
    if |cs| == 0 then []
    else
      Visited(cs[..|cs| - 1]) +
        match cs[|cs| - 1]
        case Move(p) => [p]
        case Line(p) => [p]
        case Cubic(n) => [n.end]
        case Close => []
  }

  lemma {:induction false} VisitedAppend(a: seq<Command>, b: seq<Command>)
    ensures Visited(a + b) == Visited(a) + Visited(b)
  {
    if |b| > 0 {
      VisitedAppend(a, b[..|b| - 1]);
      assert (a + b)[..|a + b| - 1] == a + b[..|b| - 1];
    } else {
      assert a + b == a;
    }
  }

  lemma {:induction false} VisitedLines(ps: seq<Vec>)
    ensures Visited(Lines(ps)) == ps
  {
    if |ps| > 0 {
      VisitedLines(ps[..|ps| - 1]);
      assert Lines(ps)[..|ps| - 1] == Lines(ps[..|ps| - 1]);
    }
  }

  lemma {:induction false} VisitedCubics(ns: seq<CubicNode>)
    ensures |Visited(Cubics(ns))| == |ns|
    ensures forall i :: 0 <= i < |ns| ==> Visited(Cubics(ns))[i] == ns[i].end
  {
    if |ns| > 0 {
      VisitedCubics(ns[..|ns| - 1]);
      assert Cubics(ns)[..|ns| - 1] == Cubics(ns[..|ns| - 1]);
    }
  }

  /**
   * A polygon's path has one command per point plus a close: it moves to
   * the first (scaled) point, draws a line to each later point in order,
   * then closes.
   */
  lemma LineCommandsShape(points: seq<Vec>, scale: real)
    requires |points| > 0
    ensures var r := LineCommands(points, scale);
      && |r| == |points| + 1
      && r[0] == Move(ScalePoints(points, scale)[0])
      && (forall i :: 0 < i < |points| ==> r[i] == Line(ScalePoints(points, scale)[i]))
      && r[|points|] == Close
  {
    var ps := ScalePoints(points, scale);
    var body := Lines(ps[1..]);
    var r := [Move(ps[0])] + body + [Close];
    assert r == LineCommands(points, scale);
    forall i | 0 < i < |points|
      ensures r[i] == Line(ps[i])
    {
      assert r[i] == body[i - 1];
    }
  }

  /** The path of a polygon visits exactly its scaled points, in order. */
  lemma LineCommandsVisit(points: seq<Vec>, scale: real)
    requires |points| > 0
    ensures Visited(LineCommands(points, scale)) == ScalePoints(points, scale)
  {
    var ps := ScalePoints(points, scale);
    var head := [Move(ps[0])];
    var body := Lines(ps[1..]);
    var close := [Close];
    VisitedAppend(head, body);
    VisitedAppend(head + body, close);
    VisitedLines(ps[1..]);
    assert Visited(head) == [ps[0]];
    assert Visited(close) == [] by {
      assert close[..0] == [];
    }
    assert [ps[0]] + ps[1..] == ps;
  }

  /**
   * A spline's path starts at the end point of its last node, draws every
   * node in order, then closes; the last node drawn ends where the path
   * started, so the close adds no segment.
   */
  lemma CubicCommandsShape(nodes: seq<CubicNode>, scale: real)
    requires |nodes| > 0
    ensures var r := CubicCommands(nodes, scale);
      var ns := ScaleNodes(nodes, scale);
      && |r| == |nodes| + 2
      && r[0] == Move(ns[|nodes| - 1].end)
      && (forall i :: 0 <= i < |nodes| ==> r[i + 1] == Cubic(ns[i]))
      && r[|nodes| + 1] == Close
      && r[|nodes|].node.end == r[0].at
  {
    var ns := ScaleNodes(nodes, scale);
    var body := Cubics(ns);
    var r := [Move(ns[|ns| - 1].end)] + body + [Close];
    assert r == CubicCommands(nodes, scale);
    forall i | 0 <= i < |nodes|
      ensures r[i + 1] == Cubic(ns[i])
    {
      assert r[i + 1] == body[i];
    }
  }

  /** With scale 1.0 the points are drawn unchanged. */
  lemma UnitScale(points: seq<Vec>, nodes: seq<CubicNode>)
    ensures ScalePoints(points, 1.0) == points && ScaleNodes(nodes, 1.0) == nodes
  {
  }

  lemma GlyphCommandsSnoc(cs: seq<Contour>, k: nat, scale: real)
    requires k < |cs| && forall i :: 0 <= i < |cs| ==> Drawable(cs[i])
    ensures GlyphCommands(cs[..k + 1], scale) == GlyphCommands(cs[..k], scale) + ContourCommands(cs[k], scale)
  {
    assert cs[..k + 1][..k] == cs[..k];
  }

  /** `_add_line_contour`. */
  method AddLineContour(pathData: PathData, points: seq<Vec>, scale: real)
    requires |points| > 0
    modifies pathData
    ensures pathData.commands == old(pathData.commands) + LineCommands(points, scale)
  {
    var ps := ScalePoints(points, scale);
    pathData.AddMoveNode(ps[0]);
    for i := 1 to |ps|
      invariant pathData.commands == old(pathData.commands) + [Move(ps[0])] + Lines(ps[1..i])
    {
      assert Lines(ps[1..i + 1]) == Lines(ps[1..i]) + [Line(ps[i])];
      pathData.AddLineNode(ps[i]);
    }
    pathData.AddCloseNode();
  }

  /** `_add_cubic_contour`. */
  method AddCubicContour(pathData: PathData, nodes: seq<CubicNode>, scale: real)
    requires |nodes| > 0
    modifies pathData
    ensures pathData.commands == old(pathData.commands) + CubicCommands(nodes, scale)
  {
    var ns := ScaleNodes(nodes, scale);
    pathData.AddMoveNode(ns[|ns| - 1].end);
    for i := 0 to |ns|
      invariant pathData.commands == old(pathData.commands) + [Move(ns[|ns| - 1].end)] + Cubics(ns[..i])
    {
      assert Cubics(ns[..i + 1]) == Cubics(ns[..i]) + [Cubic(ns[i])];
      pathData.AddCubicNode(ns[i]);
    }
    assert ns[..|ns|] == ns;
    pathData.AddCloseNode();
  }

  /** The `add_contour` callback: `_add_line_contour` for line drawings, `_add_cubic_contour` for cubic ones. */
  method AddContour(pathData: PathData, c: Contour, scale: real)
    requires Drawable(c)
    modifies pathData
    ensures pathData.commands == old(pathData.commands) + ContourCommands(c, scale)
  {
    match c
    case LineContour(points) => AddLineContour(pathData, points, scale);
    case CubicContour(nodes) => AddCubicContour(pathData, nodes, scale);
  }

  // ---------------------------------------------------------------------
  // `_format_value`: the trimming of the already formatted text
  // ---------------------------------------------------------------------

  /** `str.rstrip(c)` for a single character. */
  function RightStrip(s: string, c: char): (r: string)
    ensures r <= s
    ensures forall k :: |r| <= k < |s| ==> s[k] == c
    ensures |r| > 0 ==> r[|r| - 1] != c
  {
    if |s| > 0 && s[|s| - 1] == c then RightStrip(s[..|s| - 1], c) else s
  }

  /**
   * `_format_value` applied to `formatted`, the text `'{:.{d}f}'` gives:
   * with decimals, the trailing zeros and then the trailing points go.
   */
  function FormatValue(decimals: int, formatted: string): (r: string)
  {
    if decimals > 0 then RightStrip(RightStrip(formatted, '0'), '.') else formatted
  }

  /**
   * Without decimals the text is untouched. With decimals, the text is cut
   * back to a prefix; what is removed is points after zeros, the result does
   * not end in a point, and no zero was left before the removed points.
   */
  lemma FormatValueTrims(decimals: int, formatted: string)
    ensures decimals <= 0 ==> FormatValue(decimals, formatted) == formatted
    ensures decimals > 0 ==>
      var r := FormatValue(decimals, formatted);
      var z := RightStrip(formatted, '0');
      && r <= z <= formatted
      && (forall k :: |z| <= k < |formatted| ==> formatted[k] == '0')
      && (forall k :: |r| <= k < |z| ==> z[k] == '.')
      && (|z| > 0 ==> z[|z| - 1] != '0')
      && (|r| > 0 ==> r[|r| - 1] != '.')
  {
  }

  /** "-0.00" becomes "-0": a negative zero keeps its sign. */
  lemma FormatNegativeZero()
    ensures FormatValue(2, "-0.00") == "-0"
  {
    assert "-0.00"[..4] == "-0.0" && "-0.0"[..3] == "-0." && "-0."[..2] == "-0";
  }

  /** "1.50" becomes "1.5" and "10.00" becomes "10": zeros before the point stay. */
  lemma FormatTrailingZeros()
    ensures FormatValue(2, "1.50") == "1.5"
    ensures FormatValue(2, "10.00") == "10"
  {
    assert "1.50"[..3] == "1.5";
    assert "10.00"[..4] == "10.0" && "10.0"[..3] == "10." && "10."[..2] == "10";
  }

  // ---------------------------------------------------------------------
  // `_add_drawing`
  // ---------------------------------------------------------------------

  function GlyphId(index: nat): string
  {
    "g" + Text.NatToString(index)
  }

  predicate GlyphDrawable(g: Glyph)
  {
    forall i :: 0 <= i < |g.contours| ==> Drawable(g.contours[i])
  }

  /** The `path` of `defs` for referenced glyph `index`. */
  function DefinedPath(decimals: int, g: Glyph, index: nat, scale: real, debugColor: nat -> string): Element
    requires GlyphDrawable(g)
  {
    Element("path", [("id", Text(GlyphId(index))), ("d", Data(decimals, GlyphCommands(g.contours, scale))),
                     ("fill", Text(debugColor(index)))], [])
  }

  function DirectPath(decimals: int, g: Glyph, scale: real): Element
    requires GlyphDrawable(g)
  {
    Element("path", [("d", Data(decimals, GlyphCommands(g.contours, scale)))], [])
  }

  /** The `use` of a reference; `fixed` is the float formatting `'{:.{d}f}'` at the document's decimals. */
  function UseOf(decimals: int, r: Reference, fixed: real -> string): Element
  {
    Element("use", [("xlink__href", Text("#" + GlyphId(r.index))),
                    ("x", Text(FormatValue(decimals, fixed(r.offset.x)))),
                    ("y", Text(FormatValue(decimals, fixed(r.offset.y))))], [])
  }

  predicate DrawingDrawable(d: Drawing)
  {
    && (forall i :: 0 <= i < |d.glyphs| ==> GlyphDrawable(d.glyphs[i]))
    && (forall i :: 0 <= i < |d.referencedGlyphs| ==> GlyphDrawable(d.referencedGlyphs[i]))
  }

  /** [f(0), ..., f(n - 1)]. */
  function Tabulate<B>(n: nat, f: nat --> B): (r: seq<B>)
    requires forall i :: 0 <= i < n ==> f.requires(i)
    ensures |r| == n
    ensures forall i :: 0 <= i < n ==> r[i] == f(i)
  {
    if n == 0 then [] else Tabulate(n - 1, f) + [f(n - 1)]
  }

  function DefinedPathAt(decimals: int, gs: seq<Glyph>, scale: real, debugColor: nat -> string): nat --> Element
  {
    (index: nat) requires index < |gs| && GlyphDrawable(gs[index]) => DefinedPath(decimals, gs[index], index, scale, debugColor)
  }

  function DirectPathOf(decimals: int, scale: real): Glyph --> Element
  {
    g requires GlyphDrawable(g) => DirectPath(decimals, g, scale)
  }

  function UseOfReference(decimals: int, fixed: real -> string): Reference -> Element
  {
    r => UseOf(decimals, r, fixed)
  }

  function DefinedPaths(decimals: int, gs: seq<Glyph>, scale: real, debugColor: nat -> string): (r: seq<Element>)
    requires forall i :: 0 <= i < |gs| ==> GlyphDrawable(gs[i])
    ensures |r| == |gs|
    ensures forall i :: 0 <= i < |gs| ==> r[i] == DefinedPath(decimals, gs[i], i, scale, debugColor)
  {
    Tabulate(|gs|, DefinedPathAt(decimals, gs, scale, debugColor))
  }

  function DirectPaths(decimals: int, gs: seq<Glyph>, scale: real): (r: seq<Element>)
    requires forall i :: 0 <= i < |gs| ==> GlyphDrawable(gs[i])
    ensures |r| == |gs|
    ensures forall i :: 0 <= i < |gs| ==> r[i] == DirectPath(decimals, gs[i], scale)
  {
    Seqs.Map(DirectPathOf(decimals, scale), gs)
  }

  function Uses(decimals: int, rs: seq<Reference>, fixed: real -> string): (r: seq<Element>)
    ensures |r| == |rs|
    ensures forall i :: 0 <= i < |rs| ==> r[i] == UseOf(decimals, rs[i], fixed)
  {
    Seqs.Map(UseOfReference(decimals, fixed), rs)
  }

  /** The group's attributes; `floatText` is Python's `str` of a float. */
  function GroupAttributes(scale: real, floatText: real -> string): seq<(string, Value)>
    requires scale != 0.0
  {
    if scale != 1.0 then [("transform", Text("scale(" + floatText(1.0 / scale) + ")"))] else []
  }

  /** The `defs` block: the paths of the referenced glyphs. */
  function Defs(decimals: int, d: Drawing, scale: real, debugColor: nat -> string): Element
    requires DrawingDrawable(d)
  {
    Element("defs", [], DefinedPaths(decimals, d.referencedGlyphs, scale, debugColor))
  }

  /** The group: the direct paths, then the uses. */
  function Group(decimals: int, d: Drawing, scale: real, floatText: real -> string, fixed: real -> string): Element
    requires scale != 0.0 && DrawingDrawable(d)
  {
    Element("g", GroupAttributes(scale, floatText), DirectPaths(decimals, d.glyphs, scale) + Uses(decimals, d.references, fixed))
  }

  /** The elements `_add_drawing` appends to the document's root, in order. */
  function DrawingElements(decimals: int, d: Drawing, scale: real,
                           floatText: real -> string, fixed: real -> string, debugColor: nat -> string): seq<Element>
    requires scale != 0.0 && DrawingDrawable(d)
  {
    (if |d.references| > 0 then [Defs(decimals, d, scale, debugColor)] else []) + [Group(decimals, d, scale, floatText, fixed)]
  }

  /** `path_data = PathData(decimals)` filled with every contour of the glyph. */
  method GlyphPathData(decimals: int, g: Glyph, scale: real) returns (pathData: PathData)
    requires GlyphDrawable(g)
    ensures fresh(pathData)
    ensures pathData.decimals == decimals && pathData.commands == GlyphCommands(g.contours, scale)
  {
    pathData := new PathData(decimals);
    for k := 0 to |g.contours|
      invariant pathData.decimals == decimals
      invariant pathData.commands == GlyphCommands(g.contours[..k], scale)
    {
      GlyphCommandsSnoc(g.contours, k, scale);
      AddContour(pathData, g.contours[k], scale);
    }
    assert g.contours[..|g.contours|] == g.contours;
  }

  /** The loop over `referenced_glyphs`: one `path` with id `g{index}` each. */
  method DefinePaths(decimals: int, gs: seq<Glyph>, scale: real, debugColor: nat -> string) returns (defs: seq<Element>)
    requires forall i :: 0 <= i < |gs| ==> GlyphDrawable(gs[i])
    ensures defs == DefinedPaths(decimals, gs, scale, debugColor)
  {
    ghost var f := DefinedPathAt(decimals, gs, scale, debugColor);
    defs := [];
    for index := 0 to |gs|
      invariant defs == Tabulate(index, f)
    {
      var pathData := GlyphPathData(decimals, gs[index], scale);
      var path := Element("path", [("id", Text(GlyphId(index))), ("d", Data(pathData.decimals, pathData.commands)),
                                   ("fill", Text(debugColor(index)))], []);
      assert path == f(index);
      defs := defs + [path];
    }
  }

  /** The loop over `drawing.glyphs`: one `path` each, without id. */
  method DrawPaths(decimals: int, gs: seq<Glyph>, scale: real) returns (paths: seq<Element>)
    requires forall i :: 0 <= i < |gs| ==> GlyphDrawable(gs[i])
    ensures paths == DirectPaths(decimals, gs, scale)
  {
    ghost var f := DirectPathOf(decimals, scale);
    paths := [];
    for i := 0 to |gs|
      invariant paths == Seqs.Map(f, gs[..i])
    {
      var pathData := GlyphPathData(decimals, gs[i], scale);
      var path := Element("path", [("d", Data(pathData.decimals, pathData.commands))], []);
      assert path == f(gs[i]);
      Seqs.MapSnoc(f, gs, i);
      paths := paths + [path];
    }
    assert gs[..|gs|] == gs;
  }

  /** The loop over `drawing.references`: one `use` each. */
  method UseReferences(decimals: int, rs: seq<Reference>, fixed: real -> string) returns (uses: seq<Element>)
    ensures uses == Uses(decimals, rs, fixed)
  {
    ghost var f := UseOfReference(decimals, fixed);
    uses := [];
    for i := 0 to |rs|
      invariant uses == Seqs.Map(f, rs[..i])
    {
      var r := rs[i];
      var use := Element("use", [("xlink__href", Text("#" + GlyphId(r.index))),
                                 ("x", Text(FormatValue(decimals, fixed(r.offset.x)))),
                                 ("y", Text(FormatValue(decimals, fixed(r.offset.y))))], []);
      assert use == f(r);
      Seqs.MapSnoc(f, rs, i);
      uses := uses + [use];
    }
    assert rs[..|rs|] == rs;
  }

  /** `SvgDocument`: the root `svg` element being built. */
  class SvgDocument {
    const decimals: int
    var svg: Element

    constructor (width: real, height: real, decimals: int)
      ensures this.decimals == decimals
      ensures svg == Element("svg", [("width", Number(width)), ("height", Number(height)),
                                     ("xmlns", Text(SvgNamespace)), ("xmlns__xlink", Text(XlinkNamespace))], [])
    {
      this.decimals := decimals;
      svg := Element("svg", [("width", Number(width)), ("height", Number(height)),
                             ("xmlns", Text(SvgNamespace)), ("xmlns__xlink", Text(XlinkNamespace))], []);
    }

    /**
     * `_add_drawing`: appends a `defs` block if the drawing has references,
     * then the group. A scale of 0 would divide by zero.
     */
    method AddDrawing(drawing: Drawing, scale: real, floatText: real -> string, fixed: real -> string,
                      debugColor: nat -> string)
      requires scale != 0.0 && DrawingDrawable(drawing)
      modifies this
      ensures svg == old(svg).(children := old(svg).children +
                DrawingElements(decimals, drawing, scale, floatText, fixed, debugColor))
    {
      var attributes := if scale != 1.0 then [("transform", Text("scale(" + floatText(1.0 / scale) + ")"))] else [];
      var added: seq<Element> := [];
      if |drawing.references| > 0 {
        var defs := DefinePaths(decimals, drawing.referencedGlyphs, scale, debugColor);
        added := [Element("defs", [], defs)];
      }
      var paths := DrawPaths(decimals, drawing.glyphs, scale);
      var uses := UseReferences(decimals, drawing.references, fixed);
      var group := Element("g", attributes, paths + uses);
      assert group == Group(decimals, drawing, scale, floatText, fixed);
      added := added + [group];
      svg := svg.(children := svg.children + added);
    }

    /** `add_line_drawing`. */
    method AddLineDrawing(drawing: Drawing, scale: real, floatText: real -> string, fixed: real -> string,
                          debugColor: nat -> string)
      requires scale != 0.0 && DrawingDrawable(drawing)
      modifies this
      ensures svg == old(svg).(children := old(svg).children +
                DrawingElements(decimals, drawing, scale, floatText, fixed, debugColor))
    {
      AddDrawing(drawing, scale, floatText, fixed, debugColor);
    }

    /** `add_cubic_drawing`. */
    method AddCubicDrawing(drawing: Drawing, scale: real, floatText: real -> string, fixed: real -> string,
                           debugColor: nat -> string)
      requires scale != 0.0 && DrawingDrawable(drawing)
      modifies this
      ensures svg == old(svg).(children := old(svg).children +
                DrawingElements(decimals, drawing, scale, floatText, fixed, debugColor))
    {
      AddDrawing(drawing, scale, floatText, fixed, debugColor);
    }
  }

  const SvgNamespace := "http://www.w3.org/2000/svg"
  const XlinkNamespace := "http://www.w3.org/1999/xlink"

  // ---------------------------------------------------------------------
  // What a drawing becomes
  // ---------------------------------------------------------------------

  /** `defs` comes iff the drawing has references, and before the group, which comes last. */
  lemma DrawingLayout(decimals: int, d: Drawing, scale: real,
                      floatText: real -> string, fixed: real -> string, debugColor: nat -> string)
    requires scale != 0.0 && DrawingDrawable(d)
    ensures var es := DrawingElements(decimals, d, scale, floatText, fixed, debugColor);
      && |es| == (if |d.references| > 0 then 2 else 1)
      && (|d.references| > 0 ==> es[0] == Defs(decimals, d, scale, debugColor))
      && es[|es| - 1] == Group(decimals, d, scale, floatText, fixed)
  {
  }

  /** `defs` holds one path per referenced glyph, with id `g{index}`, in table order. */
  lemma DefsLayout(decimals: int, d: Drawing, scale: real, debugColor: nat -> string)
    requires DrawingDrawable(d)
    ensures var defs := Defs(decimals, d, scale, debugColor);
      && defs.tag == "defs"
      && |defs.children| == |d.referencedGlyphs|
      && (forall i :: 0 <= i < |d.referencedGlyphs| ==>
            defs.children[i].tag == "path" &&
            defs.children[i].attributes[0] == ("id", Text(GlyphId(i))) &&
            defs.children[i].attributes[1] == ("d", Data(decimals, GlyphCommands(d.referencedGlyphs[i].contours, scale))))
  {
  }

  /**
   * The group has a `transform` iff the scale is not 1; it holds a path per
   * direct glyph, then a `use` per reference, both in drawing order.
   */
  lemma GroupLayout(decimals: int, d: Drawing, scale: real, floatText: real -> string, fixed: real -> string)
    requires scale != 0.0 && DrawingDrawable(d)
    ensures var group := Group(decimals, d, scale, floatText, fixed);
      && group.tag == "g"
      && (|group.attributes| > 0 <==> scale != 1.0)
      && |group.children| == |d.glyphs| + |d.references|
      && (forall i :: 0 <= i < |d.glyphs| ==>
            group.children[i] == Element("path", [("d", Data(decimals, GlyphCommands(d.glyphs[i].contours, scale)))], []))
      && (forall j :: 0 <= j < |d.references| ==>
            group.children[|d.glyphs| + j].tag == "use" &&
            group.children[|d.glyphs| + j].attributes[0] == ("xlink__href", Text("#" + GlyphId(d.references[j].index))))
  {
    var paths := DirectPaths(decimals, d.glyphs, scale);
    var uses := Uses(decimals, d.references, fixed);
    forall j | 0 <= j < |d.references|
      ensures (paths + uses)[|d.glyphs| + j] == uses[j]
    {
    }
  }

  /** The ids `g{index}` of the defined paths are pairwise distinct. */
  lemma GlyphIdInjective(a: nat, b: nat)
    ensures GlyphId(a) == GlyphId(b) <==> a == b
  {
    if GlyphId(a) == GlyphId(b) {
      assert GlyphId(a)[1..] == Text.NatToString(a);
      assert GlyphId(b)[1..] == Text.NatToString(b);
      Text.NatRoundTrip(a);
      Text.NatRoundTrip(b);
    }
  }

  /**
   * The `use` of a reference points at defined path j (its href is `#` and
   * the id of that path) iff j is the reference's index.
   */
  lemma UseResolves(decimals: int, d: Drawing, scale: real, fixed: real -> string, debugColor: nat -> string,
                    k: nat, j: nat)
    requires DrawingDrawable(d) && k < |d.references| && j < |d.referencedGlyphs|
    ensures var href := UseOf(decimals, d.references[k], fixed).attributes[0].1;
      var id := DefinedPaths(decimals, d.referencedGlyphs, scale, debugColor)[j].attributes[0].1;
      href == Text("#" + id.text) <==> j == d.references[k].index
  {
    var a := GlyphId(d.references[k].index);
    var b := GlyphId(j);
    assert ("#" + a)[1..] == a && ("#" + b)[1..] == b;
    GlyphIdInjective(j, d.references[k].index);
  }
}
