/**
 * src/image_contour_collection.rs: the tracer. The rows of the image are
 * turned into change lists, each pair of adjacent lists is merged, the
 * merged changes drive the feature automaton, and each feature adds points
 * to the point list and takes open contour ends from, or gives them to, a
 * queue. An empty change list goes before the first row and after the
 * last, so every contour is closed.
 */
module ImageContourCollection {
  import opened Wrappers
  import opened Geometry
  import opened RowChanges
  import RowPairChanges
  import FA = FeatureAutomaton
  import opened PointList
  import H = HierarchyBuilding
  import C = Contours

  /** A queue entry: the point at an open end of a contour and the head of the contour to its right. */
  datatype OpenEnd = OpenEnd(point: nat, head: nat)

  /** The contour the scan is inside: the root or a Parent head. */
  predicate Inside(list: seq<PointListItem>, current: nat)
  {
    current == 0 || (IsHead(list, current) && list[current].relation.Parent?)
  }

  /** Every queue entry names a point and a head of the list. */
  predicate EndsIn(list: seq<PointListItem>, queue: seq<OpenEnd>)
  {
    forall k :: 0 <= k < |queue| ==> queue[k].point < |list| && IsHead(list, queue[k].head)
  }

  /**
   * What the tracer keeps true of the point list builder and the queue:
   * head links, every next point in the list, the current contour the
   * root or a Parent head, and every queue entry naming a point and a head.
   */
  ghost predicate Tracing(list: seq<PointListItem>, current: nat, queue: seq<OpenEnd>)
  {
    HeadLinks(list) && NextsInRange(list) && Inside(list, current) && EndsIn(list, queue)
  }

  /** Both lists have a root, and it holds the same image size. */
  predicate SameRoot(a: seq<PointListItem>, b: seq<PointListItem>)
  {
    |a| > 0 && |b| > 0 && a[0].x == b[0].x && a[0].y == b[0].y
  }

  /**
   * A head's next point is 0 until the contour is traced on from the head;
   * once set, it is a plain point that no other head's next point is.
   */
  ghost predicate HeadNexts(list: seq<PointListItem>)
  {
    && (forall h :: IsHead(list, h) && list[h].next != 0 ==> list[h].next < |list| && list[list[h].next].relation == Relation.None)
    && (forall h, g {:trigger HeadPair(list, h, g)} :: HeadPair(list, h, g) && list[h].next != 0 ==> list[h].next != list[g].next)
  }

  /** Two distinct heads of the list: the pairs whose next points HeadNexts keeps apart. */
  predicate HeadPair(list: seq<PointListItem>, h: int, g: int)
  {
    IsHead(list, h) && IsHead(list, g) && h != g
  }

  /** Position k of the queue holds an outgoing open end when k + parity is odd. */
  predicate Outgoing(k: nat, parity: nat)
  {
    (k + parity) % 2 == 1
  }

  /** The points of the outgoing open ends of the queue. */
  function OutgoingPoints(queue: seq<OpenEnd>, parity: nat): set<nat>
    decreases |queue|
  {
    if |queue| == 0 then {}
    else (if Outgoing(0, parity) then {queue[0].point} else {}) + OutgoingPoints(queue[1..], (parity + 1) % 2)
  }

  /** An end put at the back of the queue adds its point to the outgoing points exactly when its position is outgoing. */
  lemma {:induction false} OutgoingAppend(queue: seq<OpenEnd>, end: OpenEnd, parity: nat)
    ensures OutgoingPoints(queue + [end], parity) ==
      OutgoingPoints(queue, parity) + (if Outgoing(|queue|, parity) then {end.point} else {})
    decreases |queue|
  {
    if |queue| > 0 {
      assert (queue + [end])[1..] == queue[1..] + [end];
      OutgoingAppend(queue[1..], end, (parity + 1) % 2);
    }
  }

  /**
   * The orientation of the open ends: heads' next points as HeadNexts
   * says, and every head whose next point is not yet set is the point of
   * an outgoing open end of the queue.
   */
  ghost predicate Oriented(list: seq<PointListItem>, queue: seq<OpenEnd>, parity: nat)
  {
    && HeadNexts(list)
    && forall h :: IsHead(list, h) && list[h].next == 0 ==> h in OutgoingPoints(queue, parity)
  }

  /** With no open end left, every Parent head is followed by a plain point of its own. */
  lemma OrientedTraced(list: seq<PointListItem>, parity: nat)
    requires HeadLinks(list) && NextsInRange(list) && Oriented(list, [], parity)
    ensures Traced(list)
  {
    forall i | 0 <= i < |list| && list[i].relation.Parent?
      ensures 1 <= list[i].next < |list| && list[list[i].next].relation == Relation.None
    {
      assert IsHead(list, i);
    }
    forall i, j | 0 <= i < j < |list| && list[i].relation.Parent? && list[j].relation.Parent?
      ensures list[i].next != list[j].next
    {
      assert HeadPair(list, i, j);
    }
  }

  /** Changing only relations other than None, and keeping the heads, keeps the orientation. */
  lemma OrientedRelabel(a: seq<PointListItem>, b: seq<PointListItem>, queue: seq<OpenEnd>, parity: nat)
    requires Oriented(a, queue, parity) && |a| == |b|
    requires forall i :: 0 <= i < |a| ==> a[i].next == b[i].next
    requires forall i :: 0 <= i < |a| ==> (IsHead(a, i) <==> IsHead(b, i))
    requires forall i :: 0 <= i < |a| ==> (a[i].relation == Relation.None <==> b[i].relation == Relation.None)
    ensures Oriented(b, queue, parity)
  {
    forall h | IsHead(b, h) && b[h].next != 0
      ensures b[h].next < |b| && b[b[h].next].relation == Relation.None
    {
      assert IsHead(a, h);
    }
    forall h, g | HeadPair(b, h, g) && b[h].next != 0
      ensures b[h].next != b[g].next
    {
      assert HeadPair(a, h, g);
    }
    forall h | IsHead(b, h) && b[h].next == 0
      ensures h in OutgoingPoints(queue, parity)
    {
      assert IsHead(a, h);
    }
  }

  /**
   * Adding a head whose next point is not set, or plain points, keeps the
   * heads' next points as HeadNexts says, where `p` is the only old item
   * whose next point changes, to the new plain point `n`.
   */
  lemma HeadNextsGrow(list: seq<PointListItem>, list': seq<PointListItem>, p: nat)
    requires HeadNexts(list) && NextsInRange(list) && |list'| == |list| + 1
    requires forall i :: 0 <= i < |list| ==> list'[i].relation == list[i].relation
    requires forall i :: 0 <= i < |list| && i != p ==> list'[i].next == list[i].next
    requires p < |list| ==> list'[p].next == |list|
    requires list'[|list|].relation == Relation.None || (list'[|list|].relation.Parent? && list'[|list|].next == 0)
    requires list'[|list|].relation.Parent? ==> p >= |list|
    ensures HeadNexts(list')
    ensures forall h :: IsHead(list', h) && list'[h].next == 0 && h < |list| ==> IsHead(list, h) && list[h].next == 0 && h != p
  {
    var n := |list|;
    assert forall i :: 0 <= i < n ==> (IsHead(list', i) <==> IsHead(list, i));
    forall h | IsHead(list', h) && list'[h].next != 0
      ensures list'[h].next < |list'| && list'[list'[h].next].relation == Relation.None
    {
      if h != p {
        assert IsHead(list, h);
      }
    }
    forall h, g | HeadPair(list', h, g) && list'[h].next != 0
      ensures list'[h].next != list'[g].next
    {
      if h != p && g != p && g < n {
        assert HeadPair(list, h, g);
      } else if g < n && g != p {
        assert IsHead(list, g);
      } else if g < n {
        assert IsHead(list, h);
      }
    }
  }

  /** A Head appends a head whose next point is not set, and queues it at two adjacent positions, one of them outgoing. */
  lemma OrientedHead(list: seq<PointListItem>, queue: seq<OpenEnd>, parity: nat, x: int, y: int, current: nat)
    requires Oriented(list, queue, parity) && NextsInRange(list) && |list| > 0
    ensures var n := |list|;
      Oriented(list + [PointListItem(x, y, 0, Parent(current))], queue + [OpenEnd(n, n), OpenEnd(n, n)], parity)
  {
    var n := |list|;
    var list' := list + [PointListItem(x, y, 0, Parent(current))];
    var queue' := queue + [OpenEnd(n, n), OpenEnd(n, n)];
    HeadNextsGrow(list, list', n);
    OutgoingAppend(queue, OpenEnd(n, n), parity);
    assert queue' == (queue + [OpenEnd(n, n)]) + [OpenEnd(n, n)];
    OutgoingAppend(queue + [OpenEnd(n, n)], OpenEnd(n, n), parity);
    assert n in OutgoingPoints(queue', parity);
    assert OutgoingPoints(queue, parity) <= OutgoingPoints(queue', parity);
  }

  /** A Vertical moves the front end to the back of an even queue; every other end moves up one, and the parity flips. */
  lemma OrientedVertical(list: seq<PointListItem>, queue: seq<OpenEnd>, parity: nat)
    requires Oriented(list, queue, parity) && |queue| >= 1 && |queue| % 2 == 0 && parity < 2
    ensures Oriented(list, queue[1..] + [queue[0]], 1 - parity)
  {
    OutgoingAppend(queue[1..], queue[0], 1 - parity);
    assert OutgoingPoints(queue[1..] + [queue[0]], 1 - parity) == OutgoingPoints(queue, parity);
  }

  /** A LeftShelf takes an incoming front end and queues a new plain point, whose next point is set. */
  lemma OrientedLeftShelf(list: seq<PointListItem>, queue: seq<OpenEnd>, x: int, y: int)
    requires Oriented(list, queue, 0) && NextsInRange(list) && |queue| >= 1
    ensures Oriented(list + [PointListItem(x, y, queue[0].point, Relation.None)], queue[1..] + [OpenEnd(|list|, queue[0].head)], 1)
  {
    var n := |list|;
    var list' := list + [PointListItem(x, y, queue[0].point, Relation.None)];
    HeadNextsGrow(list, list', n);
    OutgoingAppend(queue[1..], OpenEnd(n, queue[0].head), 1);
    assert !IsHead(list', n);
  }

  /**
   * A RightShelf takes an outgoing front end, sets its point's next point
   * to a new plain point, and queues that point.
   */
  lemma OrientedRightShelf(list: seq<PointListItem>, queue: seq<OpenEnd>, x: int, y: int)
    requires Oriented(list, queue, 1) && NextsInRange(list) && |queue| >= 1 && queue[0].point < |list|
    ensures var p := queue[0].point;
      Oriented(list[p := list[p].(next := |list|)] + [PointListItem(x, y, 0, Relation.None)], queue[1..] + [OpenEnd(|list|, queue[0].head)], 0)
  {
    var n, p := |list|, queue[0].point;
    var list' := list[p := list[p].(next := n)] + [PointListItem(x, y, 0, Relation.None)];
    HeadNextsGrow(list, list', p);
    OutgoingAppend(queue[1..], OpenEnd(n, queue[0].head), 0);
    assert !IsHead(list', n);
  }

  /**
   * A foot takes the outgoing end `from` and the incoming end `to` from the
   * front, in the order the parity gives, and sets the next point of
   * `from`'s point to a new plain point followed by `to`'s point.
   */
  lemma OrientedJoin(list: seq<PointListItem>, queue: seq<OpenEnd>, parity: nat, x: int, y: int, from: OpenEnd, to: OpenEnd)
    requires Oriented(list, queue, parity) && NextsInRange(list) && |queue| >= 2 && parity < 2 && from.point < |list|
    requires parity == 1 ==> queue[0] == from && queue[1] == to
    requires parity == 0 ==> queue[0] == to && queue[1] == from
    ensures Oriented(list[from.point := list[from.point].(next := |list|)] + [PointListItem(x, y, to.point, Relation.None)], queue[2..], parity)
  {
    var n, p := |list|, from.point;
    var list' := list[p := list[p].(next := n)] + [PointListItem(x, y, to.point, Relation.None)];
    HeadNextsGrow(list, list', p);
    assert queue[1..][1..] == queue[2..];
    assert OutgoingPoints(queue, parity) == {p} + OutgoingPoints(queue[2..], parity);
    assert !IsHead(list', n);
  }

  /** Combining two contours turns a Parent head into an Alias head, which keeps the orientation. */
  lemma OrientedCombine(list: seq<PointListItem>, current: nat, queue: seq<OpenEnd>, parity: nat, fromHead: nat, toHead: nat)
    requires HeadLinks(list) && IsHead(list, fromHead) && IsHead(list, toHead) && Oriented(list, queue, parity)
    ensures Oriented(Combined(list, current, fromHead, toHead).0, queue, parity)
  {
    UnaliasHead(list, fromHead);
    UnaliasHead(list, toHead);
    var f, t := UnaliasOf(list, fromHead), UnaliasOf(list, toHead);
    if f != t {
      var hi, lo := (if f < t then t else f), (if f < t then f else t);
      MergeLinks(list, hi, lo);
      var list' := list[hi := list[hi].(relation := Alias(lo))];
      assert forall i :: 0 <= i < |list| && i != hi ==> list'[i] == list[i];
      OrientedRelabel(list, list', queue, parity);
    }
  }

  /** Appending an item whose next point is in the list keeps everything the tracer relies on. */
  lemma TracingAppend(list: seq<PointListItem>, current: nat, queue: seq<OpenEnd>, item: PointListItem)
    requires Tracing(list, current, queue) && item.next <= |list|
    requires item.relation == Relation.None || item.relation == Parent(current)
    ensures Tracing(list + [item], current, queue)
  {
    AppendLinks(list, item);
  }

  /** Relinking the next point of one item to an item of the list keeps everything the tracer relies on. */
  lemma TracingRelink(list: seq<PointListItem>, current: nat, queue: seq<OpenEnd>, p: nat, n: nat)
    requires Tracing(list, current, queue) && p < |list| && n < |list|
    ensures Tracing(list[p := list[p].(next := n)], current, queue)
  {
    RelinkLinks(list, list[p := list[p].(next := n)]);
  }

  /** Relinking an item to a point appended after it keeps everything the tracer relies on. */
  lemma TracingRelinkAppend(list: seq<PointListItem>, current: nat, queue: seq<OpenEnd>, p: nat, item: PointListItem)
    requires Tracing(list, current, queue) && p < |list| && item.next < |list| && item.relation == Relation.None
    ensures Tracing(list[p := list[p].(next := |list|)] + [item], current, queue)
    ensures SameRoot(list, list[p := list[p].(next := |list|)] + [item])
  {
    var relinked := list[p := list[p].(next := |list|)];
    RelinkLinks(list, relinked);
    AppendLinks(relinked, item);
    assert forall i :: 0 <= i < |relinked| ==> (relinked + [item])[i] == relinked[i];
  }

  /** The contour the scan is in after crossing the contour of `head`, if it is the current contour or another. */
  ghost predicate CrossedTo(list: seq<PointListItem>, current: nat, head: nat, current': nat)
  {
    && Downward(list) && current < |list| && head < |list|
    && (current == UnaliasOf(list, head) ==> list[current].relation.Parent? && current' == UnaliasOf(list, list[current].relation.index))
    && (current != UnaliasOf(list, head) ==> current' == UnaliasOf(list, head))
  }

  /** Crossing the contour of a head is allowed, and the scan stays inside the root or a Parent head. */
  lemma TracingCross(list: seq<PointListItem>, current: nat, queue: seq<OpenEnd>, head: nat)
    requires Tracing(list, current, queue) && IsHead(list, head)
    ensures current == UnaliasOf(list, head) ==> list[current].relation.Parent?
    ensures Tracing(list, Crossed(list, current, head), queue) && CrossedTo(list, current, head, Crossed(list, current, head))
  {
    UnaliasHead(list, head);
    if current == UnaliasOf(list, head) {
      UnaliasHead(list, list[current].relation.index);
    }
  }

  /** Combining the contours of two heads keeps everything the tracer relies on. */
  lemma TracingCombine(list: seq<PointListItem>, current: nat, queue: seq<OpenEnd>, fromHead: nat, toHead: nat)
    requires Tracing(list, current, queue) && IsHead(list, fromHead) && IsHead(list, toHead)
    ensures Tracing(Combined(list, current, fromHead, toHead).0, Combined(list, current, fromHead, toHead).1, queue)
    ensures SameRoot(list, Combined(list, current, fromHead, toHead).0)
  {
    UnaliasHead(list, fromHead);
    UnaliasHead(list, toHead);
    var f, t := UnaliasOf(list, fromHead), UnaliasOf(list, toHead);
    if f != t {
      var hi, lo := (if f < t then t else f), (if f < t then f else t);
      MergeLinks(list, hi, lo);
      var list' := list[hi := list[hi].(relation := Alias(lo))];
      assert forall i :: 0 <= i < |list| && i != hi ==> list'[i] == list[i];
    }
  }

  /** Head: the new point starts a contour inside the current one, and both its open ends are queued. */
  method StartContour(builder: PointListBuilder, queue: seq<OpenEnd>, x: int, y: int, ghost parity: nat) returns (queue': seq<OpenEnd>)
    requires builder.Valid() && Tracing(builder.pointList, builder.currentContour, queue)
    requires Oriented(builder.pointList, queue, parity)
    modifies builder
    ensures builder.Valid() && Tracing(builder.pointList, builder.currentContour, queue')
    ensures Oriented(builder.pointList, queue', parity)
    ensures SameRoot(old(builder.pointList), builder.pointList)
    ensures builder.pointList == old(builder.pointList) + [PointListItem(x, y, 0, Parent(old(builder.currentContour)))]
    ensures builder.currentContour == old(builder.currentContour)
    ensures queue' == queue + [OpenEnd(|old(builder.pointList)|, |old(builder.pointList)|), OpenEnd(|old(builder.pointList)|, |old(builder.pointList)|)]
  {
    ghost var list := builder.pointList;
    TracingAppend(list, builder.currentContour, queue, PointListItem(x, y, 0, Parent(builder.currentContour)));
    OrientedHead(list, queue, parity, x, y, builder.currentContour);
    var newIndex := builder.AddWithNewContour(x, y);
    queue' := queue + [OpenEnd(newIndex, newIndex)];
    queue' := queue' + [OpenEnd(newIndex, newIndex)];
    assert queue' == queue + [OpenEnd(newIndex, newIndex), OpenEnd(newIndex, newIndex)];
    assert EndsIn(builder.pointList, queue') by {
      assert IsHead(builder.pointList, newIndex);
    }
  }

  /** Vertical: the front open end goes to the back unchanged, crossing its contour. */
  method PassVertical(builder: PointListBuilder, queue: seq<OpenEnd>, ghost parity: nat) returns (queue': seq<OpenEnd>)
    requires builder.Valid() && Tracing(builder.pointList, builder.currentContour, queue) && |queue| >= 1
    requires Oriented(builder.pointList, queue, parity) && |queue| % 2 == 0 && parity < 2
    modifies builder
    ensures builder.Valid() && Tracing(builder.pointList, builder.currentContour, queue')
    ensures Oriented(builder.pointList, queue', 1 - parity)
    ensures SameRoot(old(builder.pointList), builder.pointList)
    ensures builder.pointList == old(builder.pointList)
    ensures CrossedTo(builder.pointList, old(builder.currentContour), queue[0].head, builder.currentContour)
    ensures queue' == queue[1..] + [queue[0]]
  {
    var end := queue[0];
    queue' := queue[1..];
    queue' := queue' + [end];
    OrientedVertical(builder.pointList, queue, parity);
    TracingCross(builder.pointList, builder.currentContour, queue', end.head);
    builder.CrossContour(end.head);
  }

  /** LeftShelf: the new point is followed by the front open end, and becomes the open end of that contour. */
  method AddLeftShelf(builder: PointListBuilder, queue: seq<OpenEnd>, x: int, y: int) returns (queue': seq<OpenEnd>)
    requires builder.Valid() && Tracing(builder.pointList, builder.currentContour, queue) && |queue| >= 1
    requires Oriented(builder.pointList, queue, 0)
    modifies builder
    ensures builder.Valid() && Tracing(builder.pointList, builder.currentContour, queue')
    ensures Oriented(builder.pointList, queue', 1)
    ensures SameRoot(old(builder.pointList), builder.pointList)
    ensures builder.pointList == old(builder.pointList) + [PointListItem(x, y, queue[0].point, Relation.None)]
    ensures CrossedTo(builder.pointList, old(builder.currentContour), queue[0].head, builder.currentContour)
    ensures queue' == queue[1..] + [OpenEnd(|old(builder.pointList)|, queue[0].head)]
  {
    ghost var list := builder.pointList;
    var end := queue[0];
    queue' := queue[1..];
    TracingAppend(list, builder.currentContour, queue', PointListItem(x, y, end.point, Relation.None));
    OrientedLeftShelf(list, queue, x, y);
    var newIndex := builder.AddWithNext(x, y, end.point);
    assert IsHead(builder.pointList, end.head);
    TracingCross(builder.pointList, builder.currentContour, queue', end.head);
    builder.CrossContour(end.head);
    queue' := queue' + [OpenEnd(newIndex, end.head)];
  }

  /** RightShelf: the new point follows the front open end, and becomes the open end of that contour. */
  method AddRightShelf(builder: PointListBuilder, queue: seq<OpenEnd>, x: int, y: int) returns (queue': seq<OpenEnd>)
    requires builder.Valid() && Tracing(builder.pointList, builder.currentContour, queue) && |queue| >= 1
    requires Oriented(builder.pointList, queue, 1)
    modifies builder
    ensures builder.Valid() && Tracing(builder.pointList, builder.currentContour, queue')
    ensures Oriented(builder.pointList, queue', 0)
    ensures SameRoot(old(builder.pointList), builder.pointList)
    ensures var list, p := old(builder.pointList), queue[0].point;
      builder.pointList == list[p := list[p].(next := |list|)] + [PointListItem(x, y, 0, Relation.None)]
    ensures CrossedTo(builder.pointList, old(builder.currentContour), queue[0].head, builder.currentContour)
    ensures queue' == queue[1..] + [OpenEnd(|old(builder.pointList)|, queue[0].head)]
  {
    ghost var list := builder.pointList;
    var end := queue[0];
    queue' := queue[1..];
    TracingRelinkAppend(list, builder.currentContour, queue', end.point, PointListItem(x, y, 0, Relation.None));
    OrientedRightShelf(list, queue, x, y);
    var newIndex := builder.AddWithPrevious(x, y, end.point);
    assert IsHead(builder.pointList, end.head);
    TracingCross(builder.pointList, builder.currentContour, queue', end.head);
    builder.CrossContour(end.head);
    queue' := queue' + [OpenEnd(newIndex, end.head)];
  }

  /**
   * A foot: the new point joins the open ends `from` (before it) and `to`
   * (after it), and the contours of `combineFrom` and `combineTo` are
   * combined; the open ends have already left the queue.
   */
  method JoinEnds(builder: PointListBuilder, queue: seq<OpenEnd>, x: int, y: int, from: OpenEnd, to: OpenEnd, combineFrom: nat, combineTo: nat,
                  ghost whole: seq<OpenEnd>, ghost parity: nat)
    requires builder.Valid() && Tracing(builder.pointList, builder.currentContour, queue)
    requires from.point < |builder.pointList| && to.point < |builder.pointList|
    requires IsHead(builder.pointList, combineFrom) && IsHead(builder.pointList, combineTo)
    requires Oriented(builder.pointList, whole, parity) && |whole| >= 2 && whole[2..] == queue && parity < 2
    requires parity == 1 ==> whole[0] == from && whole[1] == to
    requires parity == 0 ==> whole[0] == to && whole[1] == from
    modifies builder
    ensures builder.Valid() && Tracing(builder.pointList, builder.currentContour, queue)
    ensures Oriented(builder.pointList, queue, parity)
    ensures SameRoot(old(builder.pointList), builder.pointList)
    ensures var list := old(builder.pointList);
      var joined := list[from.point := list[from.point].(next := |list|)] + [PointListItem(x, y, to.point, Relation.None)];
      Downward(joined) && combineFrom < |joined| && combineTo < |joined| &&
      (builder.pointList, builder.currentContour) == Combined(joined, old(builder.currentContour), combineFrom, combineTo)
  {
    ghost var list := builder.pointList;
    TracingRelinkAppend(list, builder.currentContour, queue, from.point, PointListItem(x, y, to.point, Relation.None));
    OrientedJoin(list, whole, parity, x, y, from, to);
    builder.AddWithNextAndPrevious(x, y, to.point, from.point);
    assert IsHead(builder.pointList, combineFrom) && IsHead(builder.pointList, combineTo);
    TracingCombine(builder.pointList, builder.currentContour, queue, combineFrom, combineTo);
    OrientedCombine(builder.pointList, builder.currentContour, queue, parity, combineFrom, combineTo);
    builder.CombineContours(combineFrom, combineTo);
  }

  /** The two shelves: the front end is taken, a left shelf finding an incoming end and a right shelf an outgoing one. */
  method AddShelf(builder: PointListBuilder, queue: seq<OpenEnd>, x: int, y: int, right: bool, ghost parity: nat) returns (queue': seq<OpenEnd>)
    requires builder.Valid() && Tracing(builder.pointList, builder.currentContour, queue) && |queue| >= 1
    requires Oriented(builder.pointList, queue, parity) && parity == (if right then 1 else 0)
    modifies builder
    ensures builder.Valid() && Tracing(builder.pointList, builder.currentContour, queue')
    ensures Oriented(builder.pointList, queue', 1 - parity)
    ensures SameRoot(old(builder.pointList), builder.pointList)
    ensures queue' == queue[1..] + [OpenEnd(|old(builder.pointList)|, queue[0].head)]
  {
    if right {
      queue' := AddRightShelf(builder, queue, x, y);
    } else {
      queue' := AddLeftShelf(builder, queue, x, y);
    }
  }

  /**
   * The two feet: the two front ends are taken, an inner foot finding the
   * outgoing end first and an outer foot the incoming one, and in both the
   * contour of the second is combined into the contour of the first.
   */
  method AddFoot(builder: PointListBuilder, queue: seq<OpenEnd>, x: int, y: int, inner: bool, ghost parity: nat) returns (queue': seq<OpenEnd>)
    requires builder.Valid() && Tracing(builder.pointList, builder.currentContour, queue) && |queue| >= 2
    requires Oriented(builder.pointList, queue, parity) && parity == (if inner then 1 else 0)
    modifies builder
    ensures builder.Valid() && Tracing(builder.pointList, builder.currentContour, queue')
    ensures Oriented(builder.pointList, queue', parity)
    ensures SameRoot(old(builder.pointList), builder.pointList)
    ensures queue' == queue[2..]
  {
    var first, second := queue[0], queue[1];
    queue' := queue[2..];
    if inner {
      JoinEnds(builder, queue', x, y, first, second, second.head, first.head, queue, parity);
    } else {
      JoinEnds(builder, queue', x, y, second, first, second.head, first.head, queue, parity);
    }
  }

  /**
   * The queue dispatch of one feature: Head adds two open ends, Vertical and
   * the shelves keep the queue length, the feet take two away, and None
   * changes nothing. The root keeps the image size.
   */
  method ApplyFeature(builder: PointListBuilder, queue: seq<OpenEnd>, feature: FA.Feature, y: int, ghost parity: nat, ghost parity': nat)
    returns (queue': seq<OpenEnd>)
    requires builder.Valid() && Tracing(builder.pointList, builder.currentContour, queue)
    requires |queue| >= FA.QueueTaken(feature.kind)
    requires Oriented(builder.pointList, queue, parity) && parity < 2 && parity' == (parity + FA.QueueTaken(feature.kind)) % 2
    requires feature.kind == FA.LeftShelf || feature.kind == FA.OuterFoot ==> parity == 0
    requires feature.kind == FA.RightShelf || feature.kind == FA.InnerFoot ==> parity == 1
    requires feature.kind == FA.Vertical ==> |queue| % 2 == 0
    modifies builder
    ensures builder.Valid() && Tracing(builder.pointList, builder.currentContour, queue')
    ensures Oriented(builder.pointList, queue', parity')
    ensures SameRoot(old(builder.pointList), builder.pointList)
    ensures |queue'| == |queue| + FA.QueueChange(feature.kind)
    ensures feature.kind == FA.None ==> queue' == queue && builder.pointList == old(builder.pointList) && builder.currentContour == old(builder.currentContour)
    ensures feature.kind == FA.Vertical ==> queue' == queue[1..] + [queue[0]] && builder.pointList == old(builder.pointList)
    ensures feature.kind == FA.InnerFoot || feature.kind == FA.OuterFoot ==> queue' == queue[2..]
  {
    var x := feature.x;
    match feature.kind {
      case Head =>
        assert parity' == parity;
        queue' := StartContour(builder, queue, x, y, parity);
      case Vertical =>
        assert parity' == 1 - parity;
        queue' := PassVertical(builder, queue, parity);
      case LeftShelf | RightShelf =>
        assert parity' == 1 - parity;
        queue' := AddShelf(builder, queue, x, y, feature.kind == FA.RightShelf, parity);
      case InnerFoot | OuterFoot =>
        assert parity' == parity;
        queue' := AddFoot(builder, queue, x, y, feature.kind == FA.InnerFoot, parity);
      case None =>
        assert parity' == parity;
        queue' := queue;
    }
  }

  /** A change list as a row gives it, with an even number of changes before END. */
  predicate EvenChangeList(s: seq<int>)
  {
    RowPairChanges.RowChangeList(s) && (|s| - 1) % 2 == 0
  }

  /** The change list of a row narrower than END, bordered by background. */
  lemma RowChangeListOf(pixels: seq<Byte>)
    requires |pixels| < END
    ensures EvenChangeList(Changes(pixels, false) + [END])
  {
    var s := Changes(pixels, false) + [END];
    ChangesShape(pixels, false);
    assert forall i :: 0 <= i < |s| - 1 ==> s[i] in Changes(pixels, false);
  }

  /**
   * The queue balance within a row pair once `ti` top and `bi` bottom
   * changes are read: the state's top and bottom values are the parities
   * of the changes read in each row, and the queue holds the top changes
   * still to read, the bottom changes read, and the state's potential.
   */
  predicate Balanced(state: nat, ti: nat, bi: nat, topCount: nat, queueLength: nat)
    requires state < 6
  {
    && FA.TopValue(state) == (ti % 2 == 1)
    && FA.BottomValue(state) == (bi % 2 == 1)
    && (state == 2 || state == 5 ==> bi >= 1)
    && ti <= topCount
    && queueLength == (topCount - ti) + bi + FA.Potential(state)
  }

  /** Reading one change keeps the balance, and the queue holds what the feature takes from it. */
  lemma BalanceStep(kind: RowPairChanges.RowPairChangeKind, state: nat, ti: nat, bi: nat, topCount: nat, queueLength: nat)
    requires state < 6 && Balanced(state, ti, bi, topCount, queueLength)
    requires kind != RowPairChanges.Bottom ==> ti < topCount
    ensures var t := FA.TransitionOf(kind, state);
      var ti', bi' := (if kind != RowPairChanges.Bottom then ti + 1 else ti), (if kind != RowPairChanges.Top then bi + 1 else bi);
      && t.newState < 6
      && FA.QueueTaken(t.kind) <= queueLength
      && queueLength + FA.QueueChange(t.kind) >= 0
      && Balanced(t.newState, ti', bi', topCount, queueLength + FA.QueueChange(t.kind))
  {
    FA.QueueBalance(kind, state, topCount - ti, bi);
    FA.TransitionFlipsValues(kind, state);
    FA.TransitionStaysInStates(kind, state);
  }

  /** Once both rows are read to END, the balance puts the automaton back in state 0 with one open end per bottom change. */
  lemma BalancedAtEnd(state: nat, ti: nat, bi: nat, topCount: nat, bottomCount: nat, queueLength: nat)
    requires state < 6 && Balanced(state, ti, bi, topCount, queueLength)
    requires ti == topCount && bi == bottomCount && topCount % 2 == 0 && bottomCount % 2 == 0
    ensures state == 0 && queueLength == bottomCount
  {
    FA.TransitionFlipsValues(RowPairChanges.Top, state);
  }

  /** One merged change through the automaton and the dispatch, keeping the queue balance and the orientation of the open ends. */
  method TraceFeature(automaton: FA.FeatureAutomaton, builder: PointListBuilder, change: RowPairChanges.RowPairChange, queue: seq<OpenEnd>, y: int,
                      ghost ti: nat, ghost bi: nat, ghost topCount: nat)
    returns (queue': seq<OpenEnd>)
    requires automaton.Valid() && builder.Valid() && Tracing(builder.pointList, builder.currentContour, queue)
    requires Balanced(automaton.state, ti, bi, topCount, |queue|)
    requires change.kind != RowPairChanges.Bottom ==> ti < topCount
    requires topCount % 2 == 0 && Oriented(builder.pointList, queue, FA.EndParity(automaton.state))
    modifies automaton, builder
    ensures automaton.Valid() && builder.Valid() && Tracing(builder.pointList, builder.currentContour, queue')
    ensures Oriented(builder.pointList, queue', FA.EndParity(automaton.state))
    ensures SameRoot(old(builder.pointList), builder.pointList)
    ensures Balanced(automaton.state, if change.kind != RowPairChanges.Bottom then ti + 1 else ti,
      if change.kind != RowPairChanges.Top then bi + 1 else bi, topCount, |queue'|)
  {
    ghost var state := automaton.state;
    BalanceStep(change.kind, state, ti, bi, topCount, |queue|);
    FA.TransitionEndParity(change.kind, state);
    assert FA.TransitionOf(change.kind, state).kind == FA.Vertical ==> |queue| % 2 == 0;
    var feature := automaton.Step(change);
    queue' := ApplyFeature(builder, queue, feature, y, FA.EndParity(state), FA.EndParity(automaton.state));
  }

  /** One turn of the loop over a row pair: the next merged change, if any, through the automaton and the dispatch. */
  method TraceChange(automaton: FA.FeatureAutomaton, builder: PointListBuilder, changes: RowPairChanges.RowPairChangeIter, queue: seq<OpenEnd>, y: int)
    returns (queue': seq<OpenEnd>, done: bool)
    requires changes.Valid() && automaton.Valid() && builder.Valid() && Tracing(builder.pointList, builder.currentContour, queue)
    requires Balanced(automaton.state, changes.topIndex, changes.bottomIndex, |changes.topChanges| - 1, |queue|)
    requires (|changes.topChanges| - 1) % 2 == 0 && Oriented(builder.pointList, queue, FA.EndParity(automaton.state))
    modifies automaton, builder, changes
    ensures changes.Valid() && automaton.Valid() && builder.Valid() && Tracing(builder.pointList, builder.currentContour, queue')
    ensures Oriented(builder.pointList, queue', FA.EndParity(automaton.state))
    ensures SameRoot(old(builder.pointList), builder.pointList)
    ensures Balanced(automaton.state, changes.topIndex, changes.bottomIndex, |changes.topChanges| - 1, |queue'|)
    ensures done ==> changes.topChanges[changes.topIndex] == END && changes.bottomChanges[changes.bottomIndex] == END
    ensures !done ==> |changes.Pending()| < |old(changes.Pending())|
  {
    ghost var state, ti, bi := automaton.state, changes.topIndex, changes.bottomIndex;
    var change := changes.Next();
    if change.None? {
      assert Oriented(builder.pointList, queue, FA.EndParity(automaton.state));
      return queue, true;
    }
    queue' := TraceFeature(automaton, builder, change.value, queue, y, ti, bi, |changes.topChanges| - 1);
    done := false;
  }

  /**
   * The changes of one row pair, merged, through the automaton and the
   * queue dispatch. The automaton starts and ends in state 0 (background
   * in both rows), and the queue goes from one open end per top change to
   * one per bottom change, so no feature finds the queue too short.
   */
  method TraceRowPair(automaton: FA.FeatureAutomaton, builder: PointListBuilder, queue: seq<OpenEnd>, top: seq<int>, bottom: seq<int>, y: int)
    returns (queue': seq<OpenEnd>)
    requires automaton.Valid() && automaton.state == 0
    requires builder.Valid() && Tracing(builder.pointList, builder.currentContour, queue)
    requires EvenChangeList(top) && EvenChangeList(bottom) && |queue| == |top| - 1
    requires Oriented(builder.pointList, queue, 0)
    modifies automaton, builder
    ensures automaton.Valid() && automaton.state == 0
    ensures builder.Valid() && Tracing(builder.pointList, builder.currentContour, queue')
    ensures Oriented(builder.pointList, queue', 0)
    ensures SameRoot(old(builder.pointList), builder.pointList)
    ensures |queue'| == |bottom| - 1
  {
    var changes := new RowPairChanges.RowPairChangeIter(top, bottom);
    queue' := TraceChanges(automaton, builder, changes, queue, y);
    RowPairChanges.EndOnlyLast(top);
    RowPairChanges.EndOnlyLast(bottom);
    BalancedAtEnd(automaton.state, changes.topIndex, changes.bottomIndex, |top| - 1, |bottom| - 1, |queue'|);
  }

  /** The loop over the merged changes of a row pair, until both rows are read to END. */
  method TraceChanges(automaton: FA.FeatureAutomaton, builder: PointListBuilder, changes: RowPairChanges.RowPairChangeIter, queue: seq<OpenEnd>, y: int)
    returns (queue': seq<OpenEnd>)
    requires changes.Valid() && automaton.Valid() && builder.Valid() && Tracing(builder.pointList, builder.currentContour, queue)
    requires Balanced(automaton.state, changes.topIndex, changes.bottomIndex, |changes.topChanges| - 1, |queue|)
    requires (|changes.topChanges| - 1) % 2 == 0 && Oriented(builder.pointList, queue, FA.EndParity(automaton.state))
    modifies automaton, builder, changes
    ensures changes.Valid() && automaton.Valid() && builder.Valid() && Tracing(builder.pointList, builder.currentContour, queue')
    ensures Oriented(builder.pointList, queue', FA.EndParity(automaton.state))
    ensures SameRoot(old(builder.pointList), builder.pointList)
    ensures Balanced(automaton.state, changes.topIndex, changes.bottomIndex, |changes.topChanges| - 1, |queue'|)
    ensures changes.topChanges[changes.topIndex] == END && changes.bottomChanges[changes.bottomIndex] == END
  {
    queue' := queue;
    var done := false;
    while !done
      invariant changes.Valid() && automaton.Valid() && builder.Valid() && Tracing(builder.pointList, builder.currentContour, queue')
      invariant Oriented(builder.pointList, queue', FA.EndParity(automaton.state))
      invariant SameRoot(old(builder.pointList), builder.pointList)
      invariant Balanced(automaton.state, changes.topIndex, changes.bottomIndex, |changes.topChanges| - 1, |queue'|)
      invariant done ==> changes.topChanges[changes.topIndex] == END && changes.bottomChanges[changes.bottomIndex] == END
      decreases !done, |changes.Pending()|
    {
      queue', done := TraceChange(automaton, builder, changes, queue', y);
    }
  }

  /** Every row of the image is `width` pixels wide. */
  predicate Rectangular(rows: seq<seq<Byte>>, width: nat)
  {
    forall i :: 0 <= i < |rows| ==> |rows[i]| == width
  }

  /**
   * The loop of `ImageContourCollection::new`: an empty change list above
   * the first row, each row's change list in turn, and an empty one below
   * the last, every adjacent pair traced with `y` the index of the lower
   * row. Every contour is closed at the end, so the queue is empty (the
   * debug-build check after the loop).
   */
  method TraceImage(builder: PointListBuilder, rows: seq<seq<Byte>>, width: nat) returns (queue: seq<OpenEnd>)
    requires width < END && Rectangular(rows, width)
    requires builder.Valid() && Tracing(builder.pointList, builder.currentContour, []) && Oriented(builder.pointList, [], 0)
    modifies builder
    ensures builder.Valid() && Tracing(builder.pointList, builder.currentContour, queue)
    ensures SameRoot(old(builder.pointList), builder.pointList)
    ensures queue == [] && Traced(builder.pointList)
  {
    var automaton := new FA.FeatureAutomaton();
    queue := [];
    var runTop: seq<int> := [];
    var runBottom := CollectEmpty();
    for rowIndex := 0 to |rows| + 1
      invariant automaton.Valid() && automaton.state == 0
      invariant builder.Valid() && Tracing(builder.pointList, builder.currentContour, queue)
      invariant Oriented(builder.pointList, queue, 0)
      invariant SameRoot(old(builder.pointList), builder.pointList)
      invariant EvenChangeList(runBottom) && |queue| == |runBottom| - 1
      invariant rowIndex == |rows| + 1 ==> runBottom == [END]
    {
      runTop := runBottom;
      if rowIndex < |rows| {
        runBottom := CollectRowChanges(rows[rowIndex], false);
        RowChangeListOf(rows[rowIndex]);
      } else {
        runBottom := CollectEmpty();
      }
      queue := TraceRowPair(automaton, builder, queue, runTop, runBottom, rowIndex);
    }
    OrientedTraced(builder.pointList, 0);
  }

  /**
   * `ImageContourCollection`: the finished point list of an image. The
   * list as the tracer left it, before `into` turned the parent links
   * round, is kept as a ghost.
   */
  class ImageContourCollection {
    var pointList: seq<PointListItem>
    ghost var traced: seq<PointListItem>
    ghost const width: nat
    ghost const height: nat

    ghost predicate Valid()
      reads this
    {
      && |pointList| > 0 && pointList[0].x == width && pointList[0].y == height
      && HeadLinks(traced) && NextsInRange(traced)
      && SamePoints(traced, pointList)
      && Traced(traced) && ArrangedBelow(traced, |traced|, pointList)
    }

    /** `ImageContourCollection::new`: traces every row pair of the image and finishes the point list. */
    constructor (rows: seq<seq<Byte>>, width: nat)
      requires width < END && Rectangular(rows, width)
      ensures Valid() && this.width == width && height == |rows|
    {
      var builder := new PointListBuilder(width, |rows|);
      var queue := TraceImage(builder, rows, width);
      ghost var list0 := builder.pointList;
      var list := builder.Into();
      this.width, height := width, |rows|;
      pointList, traced := list, list0;
    }

    /** `dimensions`: the width and height of the image, held by the root item. */
    function Dimensions(): (r: (int, int))
      reads this
      requires Valid()
      ensures r == (width, height)
    {
      (pointList[0].x, pointList[0].y)
    }

    /** `outermost_contours`: the children of the root, none of them a hole. */
    method OutermostContours(hierarchy: seq<H.HierarchyItem>) returns (iter: C.ChildContourIter)
      requires Valid() && H.Tree(hierarchy)
      ensures fresh(iter) && iter.Valid() && iter.hierarchy == hierarchy && iter.pointList == pointList
      ensures !iter.isHole && iter.Pending() == C.ChildrenBelow(hierarchy, 0, |hierarchy|)
    {
      iter := new C.ChildContourIter(hierarchy, pointList, 0, true);
    }

    /** `all_contours`: every item below the root in preorder, the children of the root not holes. */
    method AllContours(hierarchy: seq<H.HierarchyItem>) returns (iter: C.DescendantContourIter)
      requires Valid() && H.Tree(hierarchy)
      ensures fresh(iter) && iter.Valid() && iter.hierarchy == hierarchy && iter.pointList == pointList
      ensures iter.rootIndex == 0 && iter.Pending() == C.Descendants(hierarchy, 0, true)
    {
      iter := new C.DescendantContourIter(hierarchy, pointList, 0, true);
    }

    /**
     * `non_hole_contours`: the contours of `all_contours` that are not
     * holes, that is exactly the items below the root at an odd depth,
     * in the preorder of `all_contours`.
     */
    method NonHoleContours(hierarchy: seq<H.HierarchyItem>) returns (contours: seq<C.Contour>)
      requires Valid() && H.Tree(hierarchy)
      ensures forall contour :: contour in contours <==>
        && contour.hierarchy == hierarchy && contour.pointList == pointList && !contour.isHole
        && contour.index < |hierarchy| && C.Below(hierarchy, 0, contour.index)
        && C.Depth(hierarchy, 0, contour.index) % 2 == 1
      ensures contours == C.NonHoles(C.ContoursOf(hierarchy, pointList, C.Descendants(hierarchy, 0, true)))
    {
      var all := C.CollectDescendants(hierarchy, pointList, 0, true);
      assert all == C.ContoursOf(hierarchy, pointList, C.Descendants(hierarchy, 0, true));
      contours := C.NonHoles(all);
      forall contour: C.Contour
        ensures contour in contours <==>
          && contour.hierarchy == hierarchy && contour.pointList == pointList && !contour.isHole
          && contour.index < |hierarchy| && C.Below(hierarchy, 0, contour.index)
          && C.Depth(hierarchy, 0, contour.index) % 2 == 1
      {
        C.DescendantsMembers(hierarchy, 0, true, contour.index, contour.isHole);
        ghost var d := C.Descendants(hierarchy, 0, true);
        if contour in all {
          var i :| 0 <= i < |all| && all[i] == contour;
          assert d[i] == (contour.index, contour.isHole);
        }
        if (contour.index, contour.isHole) in d && contour.hierarchy == hierarchy && contour.pointList == pointList {
          var i :| 0 <= i < |d| && d[i] == (contour.index, contour.isHole);
          assert all[i] == contour;
        }
        if contour.index < |hierarchy| && C.Below(hierarchy, 0, contour.index) {
          C.FlagParity(hierarchy, 0, true, contour.index);
        }
      }
    }
  }
}
