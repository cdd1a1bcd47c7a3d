/**
 * src/image_contour_collection/contour_collection_builder.rs: the newer
 * driver of the tracer. Each change of a row pair is fed to the feature
 * automaton, and the feature it emits is turned into calls to a point
 * list builder and a hierarchy builder, taking open contour ends from the
 * front of a queue and putting new ones at its back.
 *
 * The two builders are seen through their interface only: the calls this
 * driver makes to them are recorded in order. The point list builder
 * starts empty and numbers its points in the order they are added; what
 * the hierarchy builder's `add_contour` returns for a head is a parameter.
 */
module ContourCollectionBuilding {
  import RowPairChanges
  import FA = FeatureAutomaton

  /** A call to the point list builder. */
  datatype PointCall =
    | Add(x: int, y: int)
    | AddWithNext(x: int, y: int, to: nat)
    | AddWithPrevious(x: int, y: int, from: nat)
    | AddWithNextAndPrevious(x: int, y: int, to: nat, from: nat)

  /** A call to the hierarchy builder. */
  datatype HierarchyCall =
    | AddContour(head: nat)
    | CrossContour(contour: nat)
    | MergeContours(contour: nat)

  /** A queue entry: the point at an open end of a contour and the contour to its right. */
  datatype OpenEnd = OpenEnd(point: nat, contour: nat)

  /** What one feature does: the queue after it and the calls it makes to the two builders. */
  datatype Effect = Effect(queue: seq<OpenEnd>, points: seq<PointCall>, hierarchy: seq<HierarchyCall>)

  /** The feature kinds that add a point: all but None and Vertical. */
  predicate AddsPoint(kind: FA.FeatureKind)
  {
    kind != FA.None && kind != FA.Vertical
  }

  /**
   * The effect of a feature of the given kind at (x, y), with the point
   * list holding `pointCount` points and `contours` the pair the hierarchy
   * builder returns for a new head. The queue keeps the entries the
   * feature does not take, in order, at its front.
   */
  function FeatureEffect(kind: FA.FeatureKind, x: int, y: int, queue: seq<OpenEnd>, pointCount: nat, contours: (nat, nat)): (r: Effect)
    requires |queue| >= FA.QueueTaken(kind)
    ensures |r.queue| == |queue| + FA.QueueChange(kind)
    ensures r.queue[..|queue| - FA.QueueTaken(kind)] == queue[FA.QueueTaken(kind)..]
    ensures |r.points| == (if AddsPoint(kind) then 1 else 0)
    ensures |r.hierarchy| == (if kind == FA.None then 0 else 1)
  {
    match kind
    case Head =>
      Effect(queue + [OpenEnd(pointCount, contours.0), OpenEnd(pointCount, contours.1)], [Add(x, y)], [AddContour(pointCount)])
    case Vertical =>
      Effect(queue[1..] + [queue[0]], [], [CrossContour(queue[0].contour)])
    case LeftShelf =>
      Effect(queue[1..] + [OpenEnd(pointCount, queue[0].contour)], [AddWithNext(x, y, queue[0].point)], [CrossContour(queue[0].contour)])
    case RightShelf =>
      Effect(queue[1..] + [OpenEnd(pointCount, queue[0].contour)], [AddWithPrevious(x, y, queue[0].point)], [CrossContour(queue[0].contour)])
    case InnerFoot =>
      Effect(queue[2..], [AddWithNextAndPrevious(x, y, queue[1].point, queue[0].point)], [MergeContours(queue[1].contour)])
    case OuterFoot =>
      Effect(queue[2..], [AddWithNextAndPrevious(x, y, queue[0].point, queue[1].point)], [MergeContours(queue[1].contour)])
    case None =>
      Effect(queue, [], [])
  }

  /** Every feature changes the queue length by an even number, so an even queue stays even. */
  lemma EvenQueue(kind: FA.FeatureKind, x: int, y: int, queue: seq<OpenEnd>, pointCount: nat, contours: (nat, nat))
    requires |queue| >= FA.QueueTaken(kind) && |queue| % 2 == 0
    ensures |FeatureEffect(kind, x, y, queue, pointCount, contours).queue| % 2 == 0
  {
    var n := |FeatureEffect(kind, x, y, queue, pointCount, contours).queue|;
    assert n == |queue| + FA.QueueChange(kind);
    assert FA.QueueChange(kind) in {-2, 0, 2};
  }

  /** A Vertical moves the front entry to the back unchanged: the queue holds the same entries. */
  lemma VerticalKeepsEntries(x: int, y: int, queue: seq<OpenEnd>, pointCount: nat, contours: (nat, nat))
    requires |queue| >= 1
    ensures var r := FeatureEffect(FA.Vertical, x, y, queue, pointCount, contours);
      multiset(r.queue) == multiset(queue) && r.queue[|queue| - 1] == queue[0]
  {
    var r := FeatureEffect(FA.Vertical, x, y, queue, pointCount, contours);
    assert queue == [queue[0]] + queue[1..];
    calc {
      multiset(r.queue);
      multiset(queue[1..]) + multiset([queue[0]]);
      multiset([queue[0]] + queue[1..]);
    }
  }

  /**
   * The entries a feature puts at the back: a Head both ends of the new
   * point, a Shelf the new point with the contour of the entry it took,
   * a Vertical the entry it took, a Foot and None nothing.
   */
  lemma NewEntries(kind: FA.FeatureKind, x: int, y: int, queue: seq<OpenEnd>, pointCount: nat, contours: (nat, nat))
    requires |queue| >= FA.QueueTaken(kind)
    ensures var r := FeatureEffect(kind, x, y, queue, pointCount, contours);
      var added := r.queue[|queue| - FA.QueueTaken(kind)..];
      && (kind == FA.Head ==> added == [OpenEnd(pointCount, contours.0), OpenEnd(pointCount, contours.1)])
      && (kind == FA.LeftShelf || kind == FA.RightShelf ==> added == [OpenEnd(pointCount, queue[0].contour)])
      && (kind == FA.Vertical ==> added == [queue[0]])
      && (kind == FA.InnerFoot || kind == FA.OuterFoot || kind == FA.None ==> added == [])
  {
  }

  /**
   * A Foot joins the two open ends it takes with one new point: InnerFoot
   * from the first to the second, OuterFoot from the second to the first;
   * either way the contour to the right of the second is merged.
   */
  lemma FootJoins(kind: FA.FeatureKind, x: int, y: int, queue: seq<OpenEnd>, pointCount: nat, contours: (nat, nat))
    requires (kind == FA.InnerFoot || kind == FA.OuterFoot) && |queue| >= 2
    ensures var r := FeatureEffect(kind, x, y, queue, pointCount, contours);
      var (from, to) := if kind == FA.InnerFoot then (queue[0].point, queue[1].point) else (queue[1].point, queue[0].point);
      r.points == [AddWithNextAndPrevious(x, y, to, from)] && r.hierarchy == [MergeContours(queue[1].contour)]
  {
  }

  /** What `into` hands over: the image size and what each builder was told. */
  datatype Collection = Collection(width: int, height: int, points: seq<PointCall>, hierarchy: seq<HierarchyCall>)

  /**
   * `ContourCollectionBuilder`: the image size, the automaton, the queue
   * of open ends and the calls made so far to the two builders.
   */
  class ContourCollectionBuilder {
    const width: int
    const height: int
    const automaton: FA.FeatureAutomaton
    var pointCalls: seq<PointCall>
    var hierarchyCalls: seq<HierarchyCall>
    var queue: seq<OpenEnd>

    ghost predicate Valid()
      reads this, automaton
    {
      automaton.Valid()
    }

    /** `ContourCollectionBuilder::new`: a fresh automaton, an empty queue and no calls yet. */
    constructor (width: int, height: int)
      ensures Valid() && fresh(automaton) && automaton.state == 0 && automaton.featureX == 0
      ensures this.width == width && this.height == height
      ensures pointCalls == [] && hierarchyCalls == [] && queue == []
    {
      this.width, this.height := width, height;
      automaton := new FA.FeatureAutomaton();
      pointCalls, hierarchyCalls, queue := [], [], [];
    }

    /** `into`: the queue must be empty; the size and the builders' results are handed over. */
    method Into() returns (collection: Collection)
      requires |queue| == 0
      ensures collection.width == width && collection.height == height
      ensures collection.points == pointCalls && collection.hierarchy == hierarchyCalls
    {
      collection := Collection(width, height, pointCalls, hierarchyCalls);
    }

    /**
     * `add_row_pair_change`: steps the automaton with the change and
     * applies the effect of the feature it emits at its x and the row y.
     * The queue must hold the entries the feature takes; `contours` is
     * what the hierarchy builder returns for a new head.
     */
    method AddRowPairChange(y: int, change: RowPairChanges.RowPairChange, contours: (nat, nat))
      requires Valid() && |queue| >= FA.QueueTaken(FA.TransitionOf(change.kind, automaton.state).kind)
      modifies this, automaton
      ensures Valid()
      ensures automaton.state == FA.TransitionOf(change.kind, old(automaton.state)).newState
      ensures automaton.featureX == if FA.TransitionOf(change.kind, old(automaton.state)).updateX then change.x else old(automaton.featureX)
      ensures var e := FeatureEffect(FA.TransitionOf(change.kind, old(automaton.state)).kind, automaton.featureX, y, old(queue), |old(pointCalls)|, contours);
        && queue == e.queue
        && pointCalls == old(pointCalls) + e.points
        && hierarchyCalls == old(hierarchyCalls) + e.hierarchy
    {
      var feature := automaton.Step(change);
      var x := feature.x;
      var newIndex := |pointCalls|;
      match feature.kind
      case Head =>
        pointCalls := pointCalls + [Add(x, y)];
        hierarchyCalls := hierarchyCalls + [AddContour(newIndex)];
        queue := queue + [OpenEnd(newIndex, contours.0)];
        queue := queue + [OpenEnd(newIndex, contours.1)];
      case Vertical =>
        var front := queue[0];
        queue := queue[1..];
        hierarchyCalls := hierarchyCalls + [CrossContour(front.contour)];
        queue := queue + [front];
      case LeftShelf =>
        var front := queue[0];
        queue := queue[1..];
        pointCalls := pointCalls + [AddWithNext(x, y, front.point)];
        hierarchyCalls := hierarchyCalls + [CrossContour(front.contour)];
        queue := queue + [OpenEnd(newIndex, front.contour)];
      case RightShelf =>
        var front := queue[0];
        queue := queue[1..];
        pointCalls := pointCalls + [AddWithPrevious(x, y, front.point)];
        hierarchyCalls := hierarchyCalls + [CrossContour(front.contour)];
        queue := queue + [OpenEnd(newIndex, front.contour)];
      case InnerFoot =>
        var first := queue[0];
        var second := queue[1];
        queue := queue[2..];
        pointCalls := pointCalls + [AddWithNextAndPrevious(x, y, second.point, first.point)];
        hierarchyCalls := hierarchyCalls + [MergeContours(second.contour)];
      case OuterFoot =>
        var first := queue[0];
        var second := queue[1];
        queue := queue[2..];
        pointCalls := pointCalls + [AddWithNextAndPrevious(x, y, first.point, second.point)];
        hierarchyCalls := hierarchyCalls + [MergeContours(second.contour)];
      case None =>
    }
  }
}
