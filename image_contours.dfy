/**
 * src/image_contours.rs: the older tracer. It runs the same row-pair loop
 * and queue dispatch as the newer one, with the older row changes (the
 * 128 threshold) and a table builder that behaves as the point list
 * builder, and reads the result through the table's Child and Sibling
 * links.
 */
module ImageContours {
  import opened Geometry
  import opened RowChanges
  import opened PointList
  import ICC = ImageContourCollection
  import FA = FeatureAutomaton
  import LRC = LegacyRowChanges
  import LC = LegacyContours

  /** The older change list of a row narrower than END has an even number of changes before END. */
  lemma LegacyChangeListOf(pixels: seq<Byte>)
    requires |pixels| < END
    ensures ICC.EvenChangeList(LRC.LegacyChanges(pixels) + [END])
  {
    ICC.RowChangeListOf(LRC.Binarize(pixels));
  }

  /**
   * The loop of `ImageContours::new`: the empty change list above the
   * first row, each row's change list in turn, and an empty one below the
   * last, every adjacent pair traced with `y` the index of the lower row.
   * The queue is empty at the end (the debug-build check after the loop).
   */
  method TraceLegacyImage(builder: PointListBuilder, rows: seq<seq<Byte>>, width: nat) returns (queue: seq<ICC.OpenEnd>)
    requires width < END && ICC.Rectangular(rows, width)
    requires builder.Valid() && ICC.Tracing(builder.pointList, builder.currentContour, []) && ICC.Oriented(builder.pointList, [], 0)
    modifies builder
    ensures builder.Valid() && ICC.Tracing(builder.pointList, builder.currentContour, queue)
    ensures ICC.SameRoot(old(builder.pointList), builder.pointList)
    ensures queue == [] && Traced(builder.pointList)
  {
    var automaton := new FA.FeatureAutomaton();
    queue := [];
    var runTop: seq<int> := [];
    var runBottom := LRC.EmptyChanges();
    for rowIndex := 0 to |rows| + 1
      invariant automaton.Valid() && automaton.state == 0
      invariant builder.Valid() && ICC.Tracing(builder.pointList, builder.currentContour, queue)
      invariant ICC.Oriented(builder.pointList, queue, 0)
      invariant ICC.SameRoot(old(builder.pointList), builder.pointList)
      invariant ICC.EvenChangeList(runBottom) && |queue| == |runBottom| - 1
      invariant rowIndex == |rows| + 1 ==> runBottom == [END]
    {
      runTop := runBottom;
      if rowIndex < |rows| {
        runBottom := LRC.CollectLegacyRowChanges(rows[rowIndex]);
        LegacyChangeListOf(rows[rowIndex]);
      } else {
        runBottom := LRC.EmptyChanges();
      }
      queue := ICC.TraceRowPair(automaton, builder, queue, runTop, runBottom, rowIndex);
    }
    ICC.OrientedTraced(builder.pointList, 0);
  }

  /**
   * `ImageContours`: the finished table of an image. The table as the
   * tracer left it, before `into` turned the parent links round, is kept
   * as a ghost.
   */
  class ImageContours {
    var table: seq<PointListItem>
    ghost var traced: seq<PointListItem>
    ghost const width: nat
    ghost const height: nat

    ghost predicate Valid()
      reads this
    {
      && |table| > 0 && table[0].x == width && table[0].y == height
      && HeadLinks(traced) && NextsInRange(traced)
      && SamePoints(traced, table)
      && Traced(traced) && ArrangedBelow(traced, |traced|, table)
    }

    /** `ImageContours::new`: traces every row pair of the image and finishes the table. */
    constructor (rows: seq<seq<Byte>>, width: nat)
      requires width < END && ICC.Rectangular(rows, width)
      ensures Valid() && this.width == width && height == |rows|
    {
      var builder := new PointListBuilder(width, |rows|);
      var queue := TraceLegacyImage(builder, rows, width);
      ghost var list0 := builder.pointList;
      var list := builder.Into();
      this.width, height := width, |rows|;
      table, traced := list, list0;
    }

    /** `dimensions`: the width and height of the image, held by the root item. */
    function Dimensions(): (r: (int, int))
      reads this
      requires Valid()
      ensures r == (width, height)
    {
      (table[0].x, table[0].y)
    }

    /**
     * `outermost_contours`: the Sibling chain from the root's Child, or
     * nothing when the root holds no Child; that is, the children of the
     * root from the highest index down.
     */
    method OutermostContours() returns (iter: LC.SiblingContourIter)
      requires Valid()
      ensures fresh(iter) && iter.Valid() && iter.table == table
      ensures iter.Pending() == LC.ChildChain(traced, 0, |traced|)
    {
      LC.RootChild(traced, table);
      if table[0].relation.Child? {
        LC.ArrangedSiblingLinks(traced, table);
        iter := new LC.SiblingContourIter(table, false, table[0].relation.index, traced, 0);
      } else {
        iter := new LC.SiblingContourIter.Empty(table);
      }
    }
  }
}
