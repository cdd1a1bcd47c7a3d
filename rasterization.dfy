/**
 * src/geometry/rasterization.rs: scan-line filling of orthopolygons by the
 * even-odd rule. Only the vertical edges matter. Each is recorded as
 * (y0, x, y1) with y0 <= y1, and the records are sorted. Scan line y then
 * keeps the ordered set of (x, y1) of the edges that are active on it, and
 * fills every second span between consecutive x values.
 */
module Rasterization {
  import opened Geometry
  import MoreItertools
  import Orthopolygon
  import Polygon

  const I32_MIN: int := -0x8000_0000

  /** A vertical edge record `(y0, x, y1)`; tuples are ordered lexicographically. */
  datatype EdgeRecord = EdgeRecord(y0: int, x: int, y1: int)

  /** Entries `(x, y1)` of the active-edge set. */
  type Entry = (int, int)

  /**
   * The record for an even-vertex pair (u, v). It is the vertical edge
   * that ends at v, so it lies at v.x and spans from u.y to v.y.
   */
  function RecordOf(u: Point, v: Point): (e: EdgeRecord)
    ensures e.y0 <= e.y1 && e.x == v.x
    ensures (e.y0 == u.y && e.y1 == v.y) || (e.y0 == v.y && e.y1 == u.y)
  {
    if u.y < v.y then EdgeRecord(u.y, v.x, v.y) else EdgeRecord(v.y, v.x, u.y)
  }

  /** The records of one orthopolygon, one per pair of consecutive even vertices. */
  function PolygonRecords(o: Orthopolygon.Orthopolygon): (r: seq<EdgeRecord>)
    ensures |r| == |o.evenVertices|
  {
    var pairs := MoreItertools.CircularPairs(o.evenVertices);
    seq(|pairs|, i requires 0 <= i < |pairs| => RecordOf(pairs[i].0, pairs[i].1))
  }

  /** The records of all orthopolygons, polygon by polygon (the `flat_map`). */
  function Records(polygons: seq<Orthopolygon.Orthopolygon>): seq<EdgeRecord>
  {
    if |polygons| == 0 then []
    else Records(polygons[..|polygons| - 1]) + PolygonRecords(polygons[|polygons| - 1])
  }

  /**
   * Record i of an orthopolygon is the vertical edge 2i + 1 of its expanded
   * vertex list, with its ends ordered by y.
   */
  lemma RecordIsOddEdge(o: Orthopolygon.Orthopolygon, i: nat)
    requires i < |o.evenVertices|
    ensures var edge := Polygon.Edges(Orthopolygon.Vertices(o))[2 * i + 1];
      var r := PolygonRecords(o)[i];
      r.x == edge.0.x == edge.1.x &&
      ((r.y0 == edge.0.y && r.y1 == edge.1.y) || (r.y0 == edge.1.y && r.y1 == edge.0.y))
  {
    var n := |o.evenVertices|;
    MoreItertools.CircularPairsNext(o.evenVertices, i);
    Orthopolygon.VerticesAt(o, i);
    Polygon.EdgesAt(Orthopolygon.Vertices(o), 2 * i + 1);
    if i + 1 < n {
      Orthopolygon.VerticesAt(o, i + 1);
    } else {
      Orthopolygon.VerticesAt(o, 0);
    }
  }

  /** Every record comes from a pair of even vertices of one of the polygons. */
  lemma {:induction false} RecordsFromVertices(polygons: seq<Orthopolygon.Orthopolygon>, k: nat)
    requires k < |Records(polygons)|
    ensures exists p, u, v ::
      0 <= p < |polygons| && u in polygons[p].evenVertices &&
      v in polygons[p].evenVertices && Records(polygons)[k] == RecordOf(u, v)
  {
    var n := |polygons|;
    var front := Records(polygons[..n - 1]);
    var last := polygons[n - 1];
    if k < |front| {
      RecordsFromVertices(polygons[..n - 1], k);
      var p, u, v :| 0 <= p < n - 1 && u in polygons[..n - 1][p].evenVertices &&
        v in polygons[..n - 1][p].evenVertices && front[k] == RecordOf(u, v);
      assert polygons[..n - 1][p] == polygons[p];
    } else {
      var i := k - |front|;
      MoreItertools.CircularPairsNext(last.evenVertices, i);
      var pair := MoreItertools.CircularPairs(last.evenVertices)[i];
      assert Records(polygons)[k] == RecordOf(pair.0, pair.1);
      assert pair.0 in last.evenVertices && pair.1 in last.evenVertices;
    }
  }

  // Ordering

  predicate RecordLe(a: EdgeRecord, b: EdgeRecord)
  {
    a.y0 < b.y0 || (a.y0 == b.y0 && (a.x < b.x || (a.x == b.x && a.y1 <= b.y1)))
  }

  predicate RecordsSorted(s: seq<EdgeRecord>)
  {
    forall i, j :: 0 <= i < j < |s| ==> RecordLe(s[i], s[j])
  }

  predicate EntryLt(a: Entry, b: Entry)
  {
    a.0 < b.0 || (a.0 == b.0 && a.1 < b.1)
  }

  /** The iteration order of a `BTreeSet<(x, y1)>`: strictly increasing. */
  predicate EntriesSorted(s: seq<Entry>)
  {
    forall i, j :: 0 <= i < j < |s| ==> EntryLt(s[i], s[j])
  }

  lemma SortedSnoc(s: seq<Entry>, e: Entry)
    requires EntriesSorted(s)
    requires |s| > 0 ==> EntryLt(s[|s| - 1], e)
    ensures EntriesSorted(s + [e])
  {
    var t := s + [e];
    forall i, j | 0 <= i < j < |t| ensures EntryLt(t[i], t[j]) {
      if j == |s| && i < |s| - 1 {
        assert EntryLt(s[i], s[|s| - 1]);
      }
    }
  }

  function InsertRecord(s: seq<EdgeRecord>, e: EdgeRecord): (r: seq<EdgeRecord>)
    requires RecordsSorted(s)
    ensures RecordsSorted(r)
    ensures |r| == |s| + 1 && (r[0] == e || (|s| > 0 && r[0] == s[0]))
    ensures multiset(r) == multiset(s) + multiset{e}
  {
    if |s| == 0 then [e]
    else if RecordLe(e, s[0]) then [e] + s
    else
      var rest := InsertRecord(s[1..], e);
      assert RecordLe(s[0], rest[0]);
      assert forall j :: 0 <= j < |rest| ==> RecordLe(rest[0], rest[j]);
      assert s == [s[0]] + s[1..];
      [s[0]] + rest
  }

  /** `sorted()`: the records in lexicographic order. */
  function SortRecords(s: seq<EdgeRecord>): (r: seq<EdgeRecord>)
    ensures RecordsSorted(r)
    ensures multiset(r) == multiset(s)
  {
    if |s| == 0 then []
    else
      assert s == s[..|s| - 1] + [s[|s| - 1]];
      InsertRecord(SortRecords(s[..|s| - 1]), s[|s| - 1])
  }

  /** `BTreeSet::insert`: an ordered set with `a` added (once). */
  function InsertEntry(s: seq<Entry>, a: Entry): (r: seq<Entry>)
    requires EntriesSorted(s)
    ensures EntriesSorted(r)
    ensures forall b :: b in r <==> b in s || b == a
    ensures |s| > 0 ==> |r| > 0 && (r[0] == a || r[0] == s[0])
  {
    if |s| == 0 then [a]
    else if a == s[0] then s
    else if EntryLt(a, s[0]) then [a] + s
    else
      assert s == [s[0]] + s[1..];
      var r := InsertEntry(s[1..], a);
      assert EntryLt(s[0], r[0]);
      [s[0]] + r
  }

  // The even-odd rule

  /** The (x, y1) of the edges that cover scan line y: y0 <= y < y1. */
  function ActiveSet(edges: seq<EdgeRecord>, y: int): set<Entry>
  {
    set k | 0 <= k < |edges| && edges[k].y0 <= y < edges[k].y1 :: (edges[k].x, edges[k].y1)
  }

  /** Pixel (x, y) is filled iff an odd number of active entries of line y lie at or left of x. */
  predicate Filled(edges: seq<EdgeRecord>, x: int, y: int)
  {
    |set a | a in ActiveSet(edges, y) && a.0 <= x| % 2 == 1
  }

  /** The precondition `debug_assert!(!parity)` at every scan line demands. */
  ghost predicate EvenScanLines(edges: seq<EdgeRecord>)
  {
    forall y :: |ActiveSet(edges, y)| % 2 == 0
  }

  predicate RecordsInCanvas(edges: seq<EdgeRecord>, width: int, height: int)
  {
    forall k :: 0 <= k < |edges| ==>
      0 <= edges[k].x <= width && 0 <= edges[k].y0 <= edges[k].y1 <= height
  }

  /** The x coordinates of a list of entries. */
  function Xs(s: seq<Entry>): (r: seq<int>)
    ensures |r| == |s|
    ensures forall i :: 0 <= i < |s| ==> r[i] == s[i].0
  {
    seq(|s|, i requires 0 <= i < |s| => s[i].0)
  }

  /** How many of `xs` are at most x. */
  function CountLe(xs: seq<int>, x: int): (c: nat)
    ensures c <= |xs|
  {
    if |xs| == 0 then 0 else CountLe(xs[..|xs| - 1], x) + (if xs[|xs| - 1] <= x then 1 else 0)
  }

  /**
   * x lies in one of the closed spans [xs[0], xs[1]), [xs[2], xs[3]), ...
   * of the entries seen so far on a line (an unfinished last span does not count).
   */
  predicate InSpan(xs: seq<int>, x: int)
  {
    CountLe(xs, x) % 2 == 1 && CountLe(xs, x) < |xs|
  }

  predicate NonDecreasing(xs: seq<int>)
  {
    forall i, j :: 0 <= i < j < |xs| ==> xs[i] <= xs[j]
  }

  /** Behind the last value, every value counts. */
  lemma {:induction false} CountLeAll(xs: seq<int>, x: int)
    requires NonDecreasing(xs)
    requires |xs| > 0 && xs[|xs| - 1] <= x
    ensures CountLe(xs, x) == |xs|
  {
    var front := xs[..|xs| - 1];
    if |front| > 0 {
      assert front[|front| - 1] == xs[|xs| - 2];
      CountLeAll(front, x);
    }
  }

  /** Appending v (not smaller than the others) extends the spans by [last, v) in odd position. */
  lemma SpanStep(xs: seq<int>, v: int, x: int)
    requires NonDecreasing(xs)
    requires |xs| > 0 ==> xs[|xs| - 1] <= v
    ensures InSpan(xs + [v], x) ==
      if |xs| % 2 == 1 && xs[|xs| - 1] <= x < v then true else InSpan(xs, x)
    ensures |xs| % 2 == 1 && xs[|xs| - 1] <= x < v ==> !InSpan(xs, x)
  {
    var ys := xs + [v];
    assert ys[..|ys| - 1] == xs;
    if |xs| > 0 && xs[|xs| - 1] <= x {
      CountLeAll(xs, x);
    }
  }

  /** On a line with an even number of entries, the spans are exactly the odd counts. */
  lemma InSpanEven(xs: seq<int>, x: int)
    requires |xs| % 2 == 0
    ensures InSpan(xs, x) == (CountLe(xs, x) % 2 == 1)
  {
  }

  /** The entries of `s` at or left of x, in order. */
  function LeftOf(s: seq<Entry>, x: int): (r: seq<Entry>)
    ensures forall a :: a in r <==> a in s && a.0 <= x
  {
    if |s| == 0 then []
    else LeftOf(s[..|s| - 1], x) + (if s[|s| - 1].0 <= x then [s[|s| - 1]] else [])
  }

  lemma {:induction false} LeftOfCount(s: seq<Entry>, x: int)
    requires EntriesSorted(s)
    ensures EntriesSorted(LeftOf(s, x))
    ensures |LeftOf(s, x)| == CountLe(Xs(s), x)
  {
    if |s| > 0 {
      var front := s[..|s| - 1];
      var last := s[|s| - 1];
      var xs := Xs(s);
      assert xs[..|xs| - 1] == Xs(front);
      assert xs[|xs| - 1] == last.0;
      LeftOfCount(front, x);
      var l := LeftOf(front, x);
      assert LeftOf(s, x) == l + (if last.0 <= x then [last] else []);
      if last.0 <= x {
        forall i | 0 <= i < |l| ensures EntryLt(l[i], last) {
          assert l[i] in front;
          var k :| 0 <= k < |front| && front[k] == l[i];
          assert EntryLt(s[k], s[|s| - 1]);
        }
        SortedSnoc(l, last);
      }
    }
  }

  /** Distinct (strictly ordered) entries: the set has as many elements as the list. */
  lemma {:induction false} CardinalityOfSorted(s: seq<Entry>)
    requires EntriesSorted(s)
    ensures |set a | a in s| == |s|
  {
    if |s| > 0 {
      var front := s[..|s| - 1];
      var last := s[|s| - 1];
      CardinalityOfSorted(front);
      assert last !in front by {
        forall i | 0 <= i < |front| ensures front[i] != last {
          assert EntryLt(s[i], s[|s| - 1]);
        }
      }
      assert s == front + [last];
      assert (set a | a in s) == (set a | a in front) + {last};
    }
  }

  /** For strictly ordered entries, counting the x values at or left of x counts the set. */
  lemma CountLeIsCardinality(s: seq<Entry>, x: int)
    requires EntriesSorted(s)
    ensures |set a | a in s && a.0 <= x| == CountLe(Xs(s), x)
  {
    LeftOfCount(s, x);
    CardinalityOfSorted(LeftOf(s, x));
    assert (set a | a in s && a.0 <= x) == (set a | a in LeftOf(s, x));
  }

  lemma NoActiveNotFilled(edges: seq<EdgeRecord>, x: int, y: int)
    requires forall k :: 0 <= k < |edges| ==> !(edges[k].y0 <= y < edges[k].y1)
    ensures !Filled(edges, x, y)
  {
    assert ActiveSet(edges, y) == {};
    assert (set a | a in ActiveSet(edges, y) && a.0 <= x) == {};
  }

  /** Sorting does not change what is filled. */
  lemma SortKeepsActiveSet(s: seq<EdgeRecord>, r: seq<EdgeRecord>, y: int)
    requires multiset(r) == multiset(s)
    ensures ActiveSet(r, y) == ActiveSet(s, y)
  {
    forall a | a in ActiveSet(r, y) ensures a in ActiveSet(s, y) {
      var k :| 0 <= k < |r| && r[k].y0 <= y < r[k].y1 && a == (r[k].x, r[k].y1);
      assert r[k] in multiset(s);
      var m :| 0 <= m < |s| && s[m] == r[k];
    }
    forall a | a in ActiveSet(s, y) ensures a in ActiveSet(r, y) {
      var k :| 0 <= k < |s| && s[k].y0 <= y < s[k].y1 && a == (s[k].x, s[k].y1);
      assert s[k] in multiset(r);
      var m :| 0 <= m < |r| && r[m] == s[k];
    }
  }

  // The drawing

  /** `draw_horizontal_line`: applies `drawPixel` to the pixels x0 <= x < x1 of row y. */
  method DrawHorizontalLine(canvas: array2<Byte>, drawPixel: Byte -> Byte, y: int, x0: int, x1: int)
    requires x0 < x1 ==> 0 <= x0 && x1 <= canvas.Length0 && 0 <= y < canvas.Length1
    modifies canvas
    ensures forall x, y' :: 0 <= x < canvas.Length0 && 0 <= y' < canvas.Length1 ==>
      canvas[x, y'] == if y' == y && x0 <= x < x1 then drawPixel(old(canvas[x, y'])) else old(canvas[x, y'])
  {
    var x := x0;
    while x < x1
      invariant x0 <= x && (x <= x1 || x == x0)
      invariant forall i, j :: 0 <= i < canvas.Length0 && 0 <= j < canvas.Length1 ==>
        canvas[i, j] == if j == y && x0 <= i < x then drawPixel(old(canvas[i, j])) else old(canvas[i, j])
    {
      canvas[x, y] := drawPixel(canvas[x, y]);
      x := x + 1;
    }
  }

  /** The entries `retain` keeps on line y, in order. */
  function Keep(s: seq<Entry>, y: int): (r: seq<Entry>)
  {
    if |s| == 0 then []
    else Keep(s[..|s| - 1], y) + (if s[|s| - 1].1 > y then [s[|s| - 1]] else [])
  }

  lemma {:induction false} KeepMembers(s: seq<Entry>, y: int)
    ensures forall a :: a in Keep(s, y) <==> a in s && a.1 > y
  {
    if |s| > 0 {
      KeepMembers(s[..|s| - 1], y);
      assert s == s[..|s| - 1] + [s[|s| - 1]];
    }
  }

  lemma ParityFlip(n: nat)
    ensures ((n + 1) % 2 == 1) == !(n % 2 == 1)
  {
  }

  lemma KeepStep(s: seq<Entry>, i: nat, y: int)
    requires i < |s|
    ensures Keep(s[..i + 1], y) == Keep(s[..i], y) + (if s[i].1 > y then [s[i]] else [])
  {
    assert s[..i + 1][..i] == s[..i];
  }

  lemma SortedXs(s: seq<Entry>)
    requires EntriesSorted(s)
    ensures NonDecreasing(Xs(s))
  {
    forall p, q | 0 <= p < q < |s| ensures Xs(s)[p] <= Xs(s)[q] {
      assert EntryLt(s[p], s[q]);
    }
  }

  /** Appending a value never removes an x from the spans. */
  lemma SpanGrows(xs: seq<int>, v: int)
    requires NonDecreasing(xs)
    requires |xs| > 0 ==> xs[|xs| - 1] <= v
    ensures forall x :: InSpan(xs, x) ==> InSpan(xs + [v], x)
  {
    forall x | InSpan(xs, x)
      ensures InSpan(xs + [v], x)
    {
      SpanStep(xs, v, x);
    }
  }

  /**
   * The `retain` closure for an entry that stays on line y: with `parity`
   * set it fills from the previous x up to this x; then it flips `parity`
   * and remembers x. What it fills is what appending x adds to the spans.
   */
  method RetainKept(canvas: array2<Byte>, drawPixel: Byte -> Byte, y: int, xs: seq<int>, parity: bool, prevX: int, x: int)
    returns (parity': bool, prevX': int)
    requires NonDecreasing(xs) && parity == (|xs| % 2 == 1)
    requires |xs| > 0 ==> prevX == xs[|xs| - 1] && 0 <= prevX <= x
    requires x <= canvas.Length0 && 0 <= y < canvas.Length1
    modifies canvas
    ensures parity' == !parity && prevX' == x
    ensures forall x', y' :: 0 <= x' < canvas.Length0 && 0 <= y' < canvas.Length1 ==>
      canvas[x', y'] ==
        if y' == y && InSpan(xs + [x], x') && !InSpan(xs, x') then drawPixel(old(canvas[x', y'])) else old(canvas[x', y'])
  {
    if parity {
      DrawHorizontalLine(canvas, drawPixel, y, prevX, x);
    }
    forall x' | 0 <= x' < canvas.Length0
      ensures (InSpan(xs + [x], x') && !InSpan(xs, x')) == (parity && prevX <= x' < x)
    {
      SpanStep(xs, x, x');
    }
    parity', prevX' := !parity, x;
  }

  /** `kept` is what `retain` keeps of the first i entries, and it stays below entry i. */
  ghost predicate KeptPrefix(active: seq<Entry>, i: nat, y: int, kept: seq<Entry>)
    requires i <= |active|
  {
    && kept == Keep(active[..i], y)
    && EntriesSorted(kept)
    && (|kept| > 0 && i < |active| ==> EntryLt(kept[|kept| - 1], active[i]))
  }

  lemma KeptAdvance(active: seq<Entry>, i: nat, y: int, kept: seq<Entry>, kept': seq<Entry>)
    requires EntriesSorted(active) && i < |active|
    requires KeptPrefix(active, i, y, kept)
    requires kept' == if active[i].1 > y then kept + [active[i]] else kept
    ensures KeptPrefix(active, i + 1, y, kept')
  {
    KeepStep(active, i, y);
    if active[i].1 > y {
      SortedSnoc(kept, active[i]);
      assert kept'[|kept'| - 1] == active[i];
    }
    if i + 1 < |active| {
      assert EntryLt(active[i], active[i + 1]);
    }
  }

  /**
   * The `retain` closure applied to entry i: an entry ending above y is kept
   * (and fills, through `RetainKept`), any other is dropped. Only the newly
   * covered pixels change.
   */
  method RetainEntry(canvas: array2<Byte>, drawPixel: Byte -> Byte, y: int, active: seq<Entry>, i: nat,
                     kept: seq<Entry>, parity: bool, prevX: int)
    returns (kept': seq<Entry>, parity': bool, prevX': int)
    requires EntriesSorted(active) && i < |active|
    requires active[i].1 > y ==> 0 <= active[i].0 <= canvas.Length0 && 0 <= y < canvas.Length1
    requires KeptPrefix(active, i, y, kept)
    requires parity == (|kept| % 2 == 1)
    requires |kept| > 0 ==> prevX == kept[|kept| - 1].0 && 0 <= prevX
    modifies canvas
    ensures KeptPrefix(active, i + 1, y, kept')
    ensures parity' == (|kept'| % 2 == 1)
    ensures |kept'| > 0 ==> prevX' == kept'[|kept'| - 1].0 && 0 <= prevX'
    ensures forall x :: InSpan(Xs(kept), x) ==> InSpan(Xs(kept'), x)
    ensures forall x, y' :: 0 <= x < canvas.Length0 && 0 <= y' < canvas.Length1 ==>
      canvas[x, y'] ==
        if y' == y && InSpan(Xs(kept'), x) && !InSpan(Xs(kept), x) then drawPixel(old(canvas[x, y'])) else old(canvas[x, y'])
  {
    var (x, y1) := active[i];
    kept' := if y1 > y then kept + [active[i]] else kept;
    KeptAdvance(active, i, y, kept, kept');
    if y1 > y {
      var xs := Xs(kept);
      SortedXs(kept);
      assert Xs(kept') == xs + [x];
      SpanGrows(xs, x);
      ParityFlip(|kept|);
      parity', prevX' := RetainKept(canvas, drawPixel, y, xs, parity, prevX, x);
      assert kept'[|kept'| - 1] == active[i];
    } else {
      parity', prevX' := parity, prevX;
    }
  }

  /**
   * The `retain` pass of one scan line, entered with `parity` false: drops
   * the entries ending at or above y and fills the spans between the kept ones.
   */
  method RetainLine(canvas: array2<Byte>, drawPixel: Byte -> Byte, y: int, active: seq<Entry>)
    returns (kept: seq<Entry>, parity: bool)
    requires EntriesSorted(active)
    requires forall i :: 0 <= i < |active| && active[i].1 > y ==>
      0 <= active[i].0 <= canvas.Length0 && 0 <= y < canvas.Length1
    modifies canvas
    ensures kept == Keep(active, y) && EntriesSorted(kept)
    ensures parity == (|kept| % 2 == 1)
    ensures forall x, y' :: 0 <= x < canvas.Length0 && 0 <= y' < canvas.Length1 ==>
      canvas[x, y'] == if y' == y && InSpan(Xs(kept), x) then drawPixel(old(canvas[x, y'])) else old(canvas[x, y'])
  {
    kept := [];
    parity := false;
    var prevX := I32_MIN;
    for i := 0 to |active|
      invariant KeptPrefix(active, i, y, kept)
      invariant parity == (|kept| % 2 == 1)
      invariant |kept| > 0 ==> prevX == kept[|kept| - 1].0 && 0 <= prevX
      invariant forall x, y' :: 0 <= x < canvas.Length0 && 0 <= y' < canvas.Length1 ==>
        canvas[x, y'] == if y' == y && InSpan(Xs(kept), x) then drawPixel(old(canvas[x, y'])) else old(canvas[x, y'])
    {
      kept, parity, prevX := RetainEntry(canvas, drawPixel, y, active, i, kept, parity, prevX);
    }
    assert active[..|active|] == active;
  }

  /** The scan over the sorted records: one iteration per scan line. */
  method ScanRecords(canvas: array2<Byte>, drawPixel: Byte -> Byte, edges: seq<EdgeRecord>)
    requires RecordsSorted(edges)
    requires RecordsInCanvas(edges, canvas.Length0, canvas.Length1)
    requires EvenScanLines(edges)
    modifies canvas
    ensures forall x, y :: 0 <= x < canvas.Length0 && 0 <= y < canvas.Length1 ==>
      canvas[x, y] == if Filled(edges, x, y) then drawPixel(old(canvas[x, y])) else old(canvas[x, y])
  {
    if |edges| == 0 {
      forall x, y | 0 <= x < canvas.Length0 && 0 <= y < canvas.Length1 {
        NoActiveNotFilled(edges, x, y);
      }
      return;
    }
    var parity := false;
    var edgeIndex := 0;
    var active: seq<Entry> := [];
    var y := edges[0].y0;
    ghost var top := MaxY1(edges);
    forall x, y' | 0 <= x < canvas.Length0 && 0 <= y' < canvas.Length1 && y' < y {
      NoActiveNotFilled(edges, x, y');
    }
    while edgeIndex < |edges| || |active| > 0
      invariant 0 <= edgeIndex <= |edges|
      invariant y <= top + 1
      invariant !parity
      invariant forall k :: 0 <= k < edgeIndex ==> edges[k].y0 < y
      invariant forall k :: edgeIndex <= k < |edges| ==> edges[k].y0 >= y
      invariant EntriesSorted(active)
      invariant forall a :: a in active <==> Inserted(edges, edgeIndex, y, a)
      invariant forall x, y' :: 0 <= x < canvas.Length0 && 0 <= y' < canvas.Length1 ==>
        canvas[x, y'] == if y' < y && Filled(edges, x, y') then drawPixel(old(canvas[x, y'])) else old(canvas[x, y'])
      decreases top + 1 - y
    {
      assert !parity;
      if edgeIndex < |edges| {
        MaxY1Bound(edges, edgeIndex);
      } else {
        assert Inserted(edges, edgeIndex, y, active[0]);
        var k :| 0 <= k < edgeIndex && edges[k].y1 >= y && active[0] == (edges[k].x, edges[k].y1);
        MaxY1Bound(edges, k);
      }
      edgeIndex, active := InsertStartingEdges(edges, edgeIndex, y, active);
      forall i | 0 <= i < |active| && active[i].1 > y
        ensures 0 <= active[i].0 <= canvas.Length0 && 0 <= y < canvas.Length1
      {
        assert Inserted(edges, edgeIndex, y, active[i]);
      }
      label before:
      var kept;
      kept, parity := RetainLine(canvas, drawPixel, y, active);
      ActiveLine(edges, edgeIndex, y, active, kept);
      LineFilled(edges, y, kept);
      forall x, y' | 0 <= x < canvas.Length0 && 0 <= y' < canvas.Length1
        ensures canvas[x, y'] ==
          if y' < y + 1 && Filled(edges, x, y') then drawPixel(old(canvas[x, y'])) else old(canvas[x, y'])
      {
        assert old@before(canvas[x, y']) ==
          if y' < y && Filled(edges, x, y') then drawPixel(old(canvas[x, y'])) else old(canvas[x, y']);
      }
      active := kept;
      y := y + 1;
    }
    forall x, y' | 0 <= x < canvas.Length0 && 0 <= y' < canvas.Length1 && y' >= y
      ensures !Filled(edges, x, y')
    {
      AllEndedNotFilled(edges, y, x, y');
    }
  }

  lemma AllEndedNotFilled(edges: seq<EdgeRecord>, y: int, x: int, y': int)
    requires forall k :: 0 <= k < |edges| ==> edges[k].y0 < y
    requires forall a :: !Inserted(edges, |edges|, y, a)
    requires y' >= y
    ensures !Filled(edges, x, y')
  {
    forall k | 0 <= k < |edges| ensures !(edges[k].y0 <= y' < edges[k].y1) {
      if edges[k].y1 >= y {
        assert Inserted(edges, |edges|, y, (edges[k].x, edges[k].y1));
      }
    }
    NoActiveNotFilled(edges, x, y');
  }

  /** The inner loop: inserts the entries of the records that start on line y. */
  method InsertStartingEdges(edges: seq<EdgeRecord>, n0: int, y: int, active0: seq<Entry>)
    returns (n: int, active: seq<Entry>)
    requires RecordsSorted(edges) && 0 <= n0 <= |edges|
    requires forall k :: 0 <= k < |edges| ==> edges[k].y0 <= edges[k].y1
    requires forall k :: 0 <= k < n0 ==> edges[k].y0 < y
    requires forall k :: n0 <= k < |edges| ==> edges[k].y0 >= y
    requires EntriesSorted(active0)
    requires forall a :: a in active0 <==> Inserted(edges, n0, y, a)
    ensures n0 <= n <= |edges|
    ensures forall k :: 0 <= k < n ==> edges[k].y0 <= y
    ensures forall k :: n <= k < |edges| ==> edges[k].y0 > y
    ensures EntriesSorted(active)
    ensures forall a :: a in active <==> Inserted(edges, n, y, a)
  {
    n, active := n0, active0;
    while n < |edges| && edges[n].y0 == y
      invariant n0 <= n <= |edges|
      invariant forall k :: 0 <= k < n ==> edges[k].y0 <= y
      invariant forall k :: n <= k < |edges| ==> edges[k].y0 >= y
      invariant EntriesSorted(active)
      invariant forall a :: a in active <==> Inserted(edges, n, y, a)
    {
      var e := edges[n];
      assert Inserted(edges, n + 1, y, (e.x, e.y1));
      active := InsertEntry(active, (e.x, e.y1));
      n := n + 1;
    }
    forall k | n <= k < |edges| ensures edges[k].y0 > y {
      assert RecordLe(edges[n], edges[k]) || k == n;
    }
  }

  /** On a scan line with an even active set, the spans of the kept entries are the filled pixels. */
  lemma LineFilled(edges: seq<EdgeRecord>, y: int, kept: seq<Entry>)
    requires EvenScanLines(edges)
    requires EntriesSorted(kept)
    requires forall a :: a in kept <==> a in ActiveSet(edges, y)
    ensures |kept| % 2 == 0
    ensures forall x :: InSpan(Xs(kept), x) == Filled(edges, x, y)
  {
    assert (set a | a in kept) == ActiveSet(edges, y);
    CardinalityOfSorted(kept);
    assert |ActiveSet(edges, y)| % 2 == 0;
    forall x ensures InSpan(Xs(kept), x) == Filled(edges, x, y) {
      CountLeIsCardinality(kept, x);
      assert (set a | a in kept && a.0 <= x) == (set a | a in ActiveSet(edges, y) && a.0 <= x);
      InSpanEven(Xs(kept), x);
    }
  }

  /** Entry a comes from one of the first n records, and that record ends at or above line y. */
  ghost predicate Inserted(edges: seq<EdgeRecord>, n: int, y: int, a: Entry)
  {
    exists k :: 0 <= k < n && k < |edges| && edges[k].y1 >= y && a == (edges[k].x, edges[k].y1)
  }

  /** After the insertions of line y, the kept entries are the line's active set. */
  lemma ActiveLine(edges: seq<EdgeRecord>, n: int, y: int, active: seq<Entry>, kept: seq<Entry>)
    requires 0 <= n <= |edges|
    requires forall k :: 0 <= k < n ==> edges[k].y0 <= y
    requires forall k :: n <= k < |edges| ==> edges[k].y0 > y
    requires forall a :: a in active <==> Inserted(edges, n, y, a)
    requires kept == Keep(active, y)
    ensures forall a :: a in kept <==> a in ActiveSet(edges, y)
    ensures forall a :: a in kept <==> Inserted(edges, n, y + 1, a)
  {
    KeepMembers(active, y);
    forall a | a in ActiveSet(edges, y) ensures a in kept {
      var k :| 0 <= k < |edges| && edges[k].y0 <= y < edges[k].y1 && a == (edges[k].x, edges[k].y1);
      assert Inserted(edges, n, y, a);
    }
    forall a | Inserted(edges, n, y + 1, a) ensures a in kept {
      var k :| 0 <= k < n && k < |edges| && edges[k].y1 >= y + 1 && a == (edges[k].x, edges[k].y1);
      assert Inserted(edges, n, y, a);
    }
  }

  ghost function MaxY1(edges: seq<EdgeRecord>): int
    requires |edges| > 0
  {
    if |edges| == 1 then edges[0].y1
    else
      var m := MaxY1(edges[1..]);
      if edges[0].y1 > m then edges[0].y1 else m
  }

  lemma {:induction false} MaxY1Bound(edges: seq<EdgeRecord>, k: nat)
    requires k < |edges|
    ensures edges[k].y1 <= MaxY1(edges)
  {
    if k > 0 {
      MaxY1Bound(edges[1..], k - 1);
    }
  }

  predicate VerticesInCanvas(polygons: seq<Orthopolygon.Orthopolygon>, width: int, height: int)
  {
    forall p, v :: 0 <= p < |polygons| && v in polygons[p].evenVertices ==>
      0 <= v.x <= width && 0 <= v.y <= height
  }

  /**
   * `draw_orthopolygons`: every canvas pixel that the even-odd rule puts
   * inside the orthopolygons goes through `drawPixel` once; all others keep
   * their value.
   */
  method DrawOrthopolygons(canvas: array2<Byte>, drawPixel: Byte -> Byte,
                           polygons: seq<Orthopolygon.Orthopolygon>)
    requires VerticesInCanvas(polygons, canvas.Length0, canvas.Length1)
    requires EvenScanLines(Records(polygons))
    modifies canvas
    ensures forall x, y :: 0 <= x < canvas.Length0 && 0 <= y < canvas.Length1 ==>
      canvas[x, y] == if Filled(Records(polygons), x, y) then drawPixel(old(canvas[x, y])) else old(canvas[x, y])
  {
    var records := Records(polygons);
    var edges := SortRecords(records);
    forall y {
      SortKeepsActiveSet(records, edges, y);
    }
    forall k | 0 <= k < |edges|
      ensures 0 <= edges[k].x <= canvas.Length0 && 0 <= edges[k].y0 <= edges[k].y1 <= canvas.Length1
    {
      assert edges[k] in multiset(records);
      var m :| 0 <= m < |records| && records[m] == edges[k];
      RecordsFromVertices(polygons, m);
    }
    ScanRecords(canvas, drawPixel, edges);
    forall x, y | 0 <= x < canvas.Length0 && 0 <= y < canvas.Length1
      ensures Filled(edges, x, y) == Filled(records, x, y)
    {
      assert ActiveSet(edges, y) == ActiveSet(records, y);
    }
  }
}
