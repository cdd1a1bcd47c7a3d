/**
 * src/image_contours/contours.rs: reading the older, table-based contour
 * collection. After `parents_to_children` a contour head's parent holds
 * Child(its last child), and the point after each child head holds
 * Sibling(the child before it). A contour is read as the cycle of `next`
 * links from its start, and the children of a contour along the Sibling
 * chain.
 */
module LegacyContours {
  import opened Wrappers
  import opened PointList
  import C = Contours
  import RowChanges

  /** `Contour`: a start item of the table and whether the contour is a hole. */
  datatype Contour = Contour(table: seq<PointListItem>, isHole: bool, startIndex: nat)

  /**
   * `ControlPointIter`: walks the cycle from `startIndex`, yielding each
   * item's coordinates and stopping before the link back to the start.
   * `period` and `taken` are ghost: the cycle's length and the points
   * already yielded.
   */
  class ControlPointIter {
    const table: seq<PointListItem>
    const startIndex: nat
    var currentIndex: Option<nat>
    ghost const period: nat
    ghost var taken: nat

    ghost predicate Valid()
      reads this
    {
      && NextsInRange(table) && startIndex < |table| && C.ReturnsAfter(table, startIndex, period)
      && taken <= period
      && currentIndex == if taken < period then Some(C.Follow(table, startIndex, taken)) else Option.None
    }

    /** The points still to come. */
    ghost function Pending(): seq<(int, int)>
      reads this
      requires Valid()
    {
      C.CyclePoints(table, C.Follow(table, startIndex, taken), period - taken)
    }

    /** `Contour::control_points`: the walk starts at the contour's start item. */
    constructor (contour: Contour, ghost period: nat)
      requires NextsInRange(contour.table) && contour.startIndex < |contour.table|
      requires C.ReturnsAfter(contour.table, contour.startIndex, period)
      ensures Valid() && table == contour.table && startIndex == contour.startIndex && this.period == period
      ensures Pending() == C.CyclePoints(contour.table, contour.startIndex, period)
    {
      table, startIndex, this.period := contour.table, contour.startIndex, period;
      currentIndex := Some(contour.startIndex);
      taken := 0;
    }

    /** `next`: the next point of the cycle, or None once it has come round. */
    method Next() returns (point: Option<(int, int)>)
      requires Valid()
      modifies this
      ensures Valid()
      ensures old(Pending()) == [] ==> point == Option.None && Pending() == []
      ensures old(Pending()) != [] ==> point == Some(old(Pending())[0]) && Pending() == old(Pending())[1..]
    {
      match currentIndex
      case None =>
        point := Option.None;
      case Some(index) =>
        var item := table[index];
        currentIndex := if item.next != startIndex then Some(item.next) else Option.None;
        taken := taken + 1;
        point := Some(C.PointOf(item));
    }
  }

  /** The points of a contour: the whole cycle from its start, once each, in link order (CyclePointsAll). */
  method CollectControlPoints(contour: Contour, ghost period: nat) returns (points: seq<(int, int)>)
    requires NextsInRange(contour.table) && contour.startIndex < |contour.table|
    requires C.ReturnsAfter(contour.table, contour.startIndex, period)
    ensures points == C.CyclePoints(contour.table, contour.startIndex, period)
  {
    var iter := new ControlPointIter(contour, period);
    points := [];
    while true
      invariant iter.Valid() && iter.table == contour.table && iter.startIndex == contour.startIndex && iter.period == period
      invariant points + iter.Pending() == C.CyclePoints(contour.table, contour.startIndex, period)
      decreases |iter.Pending()|
    {
      ghost var pending := iter.Pending();
      var point := iter.Next();
      if point.None? {
        break;
      }
      RowChanges.DrainStep(points, pending, iter.Pending());
      points := points + [point.value];
    }
  }

  /** Each point of a cycle is the point of the item that many links on from the start. */
  lemma CyclePointsAll(table: seq<PointListItem>, start: nat, n: nat)
    requires NextsInRange(table) && start < |table|
    ensures forall k :: 0 <= k < n ==> C.CyclePoints(table, start, n)[k] == C.PointOf(table[C.Follow(table, start, k)])
  {
    forall k | 0 <= k < n
      ensures C.CyclePoints(table, start, n)[k] == C.PointOf(table[C.Follow(table, start, k)])
    {
      C.CyclePointsAt(table, start, n, k);
    }
  }

  // ---------------------------------------------------------------------
  // The Sibling chain of an arranged table
  // ---------------------------------------------------------------------

  /** The children of contour q below k in the traced table, from the highest index down. */
  ghost function ChildChain(list0: seq<PointListItem>, q: nat, k: nat): seq<nat>
    requires Downward(list0) && k <= |list0|
    decreases k
  {
    match LastChildBelow(list0, q, k)
    case None => []
    case Some(c) => [c] + ChildChain(list0, q, c)
  }

  /** The chain holds exactly the children of q below k, in strictly decreasing order. */
  lemma {:induction false} ChildChainAre(list0: seq<PointListItem>, q: nat, k: nat)
    requires Downward(list0) && k <= |list0|
    ensures forall j :: j in ChildChain(list0, q, k) <==> j < k && ChildOf(list0, j, q)
    ensures forall a, b :: 0 <= a < b < |ChildChain(list0, q, k)| ==> ChildChain(list0, q, k)[a] > ChildChain(list0, q, k)[b]
    decreases k
  {
    match LastChildBelow(list0, q, k)
    case None =>
      NoneBelow(list0, q, k);
    case Some(c) =>
      ChildChainAre(list0, q, c);
      var rest := ChildChain(list0, q, c);
      assert ChildChain(list0, q, k) == [c] + rest;
      assert forall a :: 0 <= a < |rest| ==> rest[a] in rest;
      LastBelow(list0, q, k, c);
  }

  /** No last child below k means no child below k. */
  lemma {:induction false} NoneBelow(list0: seq<PointListItem>, q: nat, k: nat)
    requires Downward(list0) && k <= |list0| && LastChildBelow(list0, q, k) == Option.None
    ensures forall j :: j < k ==> !ChildOf(list0, j, q)
    decreases k
  {
    if k > 1 {
      NoneBelow(list0, q, k - 1);
    }
  }

  /** The last child c below k is the only child between c and k. */
  lemma {:induction false} LastBelow(list0: seq<PointListItem>, q: nat, k: nat, c: nat)
    requires Downward(list0) && k <= |list0| && LastChildBelow(list0, q, k) == Some(c)
    ensures forall j :: c < j < k ==> !ChildOf(list0, j, q)
    decreases k
  {
    if !ChildOf(list0, k - 1, q) {
      LastBelow(list0, q, k - 1, c);
    }
  }

  /** In a traced table, the Parent head whose next point is that of head c is c itself. */
  lemma {:induction false} HeadWithNextIs(list0: seq<PointListItem>, c: nat, k: nat)
    requires Traced(list0) && 1 <= c < k <= |list0| && list0[c].relation.Parent?
    ensures HeadWithNextBelow(list0, list0[c].next, k) == Some(c)
    decreases k
  {
    if k - 1 != c {
      HeadWithNextIs(list0, c, k - 1);
    }
  }

  /**
   * In the arranged table, the point after child c of q holds Sibling(s)
   * exactly when s is the child of q before c, and no Sibling when c is
   * the first child.
   */
  lemma SiblingOf(list0: seq<PointListItem>, list: seq<PointListItem>, c: nat, q: nat)
    requires Traced(list0) && ArrangedBelow(list0, |list0|, list) && ChildOf(list0, c, q)
    ensures c < |list| && list[c].next < |list|
    ensures list[list[c].next].relation.Sibling? <==> LastChildBelow(list0, q, c).Some?
    ensures list[list[c].next].relation.Sibling? ==> Some(list[list[c].next].relation.index) == LastChildBelow(list0, q, c)
  {
    var j := list0[c].next;
    assert list[c] == list0[c].(relation := ArrangedRelation(list0, |list0|, c));
    NoChildren(list0, j, |list0|);
    HeadWithNextIs(list0, c, |list0|);
    assert list[j] == list0[j].(relation := ArrangedRelation(list0, |list0|, j));
  }

  /** In the arranged table, the root holds Child(f) exactly when f is the last child of the root, and no Child otherwise. */
  lemma RootChild(list0: seq<PointListItem>, list: seq<PointListItem>)
    requires Traced(list0) && ArrangedBelow(list0, |list0|, list)
    ensures |list| > 0
    ensures list[0].relation.Child? <==> LastChildBelow(list0, 0, |list0|).Some?
    ensures list[0].relation.Child? ==> Some(list[0].relation.index) == LastChildBelow(list0, 0, |list0|)
  {
    assert list[0] == list0[0].(relation := ArrangedRelation(list0, |list0|, 0));
    NotANext(list0, 0, |list0|);
    assert InRange(list0[0].relation, 0, |list0|);
  }

  /** After the child c of q, the next point holds Sibling(the child of q before c), or no Sibling when c is the first. */
  ghost predicate SiblingAfter(list0: seq<PointListItem>, list: seq<PointListItem>, c: nat, q: nat)
    requires Downward(list0) && ChildOf(list0, c, q) && |list| == |list0|
  {
    && list[c].next < |list|
    && (list[list[c].next].relation.Sibling? <==> LastChildBelow(list0, q, c).Some?)
    && (list[list[c].next].relation.Sibling? ==> Some(list[list[c].next].relation.index) == LastChildBelow(list0, q, c))
  }

  /** The Sibling links of `list` follow the children of every contour of `list0`. */
  ghost predicate SiblingLinks(list0: seq<PointListItem>, list: seq<PointListItem>)
  {
    Downward(list0) && |list| == |list0| && forall c, q {:trigger SiblingAfter(list0, list, c, q)} :: ChildOf(list0, c, q) ==> SiblingAfter(list0, list, c, q)
  }

  /** An arranged table has the Sibling links of the traced table it came from. */
  lemma ArrangedSiblingLinks(list0: seq<PointListItem>, list: seq<PointListItem>)
    requires Traced(list0) && ArrangedBelow(list0, |list0|, list)
    ensures SiblingLinks(list0, list)
  {
    forall c, q | ChildOf(list0, c, q) ensures SiblingAfter(list0, list, c, q) {
      SiblingOf(list0, list, c, q);
    }
  }

  /** The chain below the child c + 1 starts with c. */
  lemma ChainStart(list0: seq<PointListItem>, q: nat, c: nat)
    requires Downward(list0) && ChildOf(list0, c, q)
    ensures LastChildBelow(list0, q, c + 1) == Some(c)
    ensures ChildChain(list0, q, c + 1) == [c] + ChildChain(list0, q, c)
  {
  }

  /** A chain is its last child followed by the chain below that child. */
  lemma ChainStep(list0: seq<PointListItem>, q: nat, k: nat, c: nat)
    requires Downward(list0) && k <= |list0| && LastChildBelow(list0, q, k) == Some(c)
    ensures ChildChain(list0, q, k) == [c] + ChildChain(list0, q, c)
    ensures c < k && ChildOf(list0, c, q)
  {
  }

  /**
   * `SiblingContourIter`: walks a Sibling chain, yielding each contour
   * with the same hole flag. Ghost: the traced table the arranged one came
   * from, the parent contour of the chain, and the bound below which the
   * children still to come lie.
   */
  class SiblingContourIter {
    const table: seq<PointListItem>
    const isHole: bool
    var currentIndex: Option<nat>
    ghost const traced: seq<PointListItem>
    ghost const parent: nat
    ghost var bound: nat

    ghost predicate Valid()
      reads this
    {
      currentIndex.Some? ==>
        && SiblingLinks(traced, table) && bound <= |traced|
        && currentIndex == LastChildBelow(traced, parent, bound)
    }

    /** The indices of the contours still to come. */
    ghost function Pending(): seq<nat>
      reads this
      requires Valid()
    {
      if currentIndex.None? then [] else ChildChain(traced, parent, bound)
    }

    /** `SiblingContourIter::empty`: yields nothing. */
    constructor Empty(table: seq<PointListItem>)
      ensures Valid() && this.table == table && !isHole && Pending() == []
    {
      this.table, isHole := table, false;
      currentIndex := Option.None;
      bound := 0;
    }

    /**
     * `SiblingContourIter::new`: starts at the child `startIndex` of
     * contour `parent`, in a table with the Sibling links of `traced`, as
     * `parents_to_children` leaves it (ArrangedSiblingLinks).
     */
    constructor (table: seq<PointListItem>, isHole: bool, startIndex: nat, ghost traced: seq<PointListItem>, ghost parent: nat)
      requires SiblingLinks(traced, table) && ChildOf(traced, startIndex, parent)
      ensures Valid() && this.table == table && this.isHole == isHole && this.traced == traced && this.parent == parent
      ensures Pending() == [startIndex] + ChildChain(traced, parent, startIndex)
    {
      this.table, this.isHole, this.traced, this.parent := table, isHole, traced, parent;
      currentIndex := Some(startIndex);
      bound := startIndex + 1;
      ChainStart(traced, parent, startIndex);
    }

    /**
     * `next`: yields the current contour and goes on at the Sibling held
     * by the point after it, or stops when there is none.
     */
    method Next() returns (contour: Option<Contour>)
      requires Valid()
      modifies this
      ensures Valid()
      ensures old(Pending()) == [] ==> contour == Option.None && Pending() == []
      ensures old(Pending()) != [] ==>
        contour == Some(Contour(table, isHole, old(Pending())[0])) && Pending() == old(Pending())[1..]
    {
      match currentIndex
      case None =>
        contour := Option.None;
      case Some(index) =>
        assert SiblingAfter(traced, table, index, parent);
        ChainStep(traced, parent, bound, index);
        var point := table[index];
        var nextPoint := table[point.next];
        currentIndex := if nextPoint.relation.Sibling? then Some(nextPoint.relation.index) else Option.None;
        bound := index;
        contour := Some(Contour(table, isHole, index));
    }
  }

  /** What a `SiblingContourIter` yields: its pending children, in order, all with its hole flag. */
  method CollectSiblings(iter: SiblingContourIter) returns (contours: seq<Contour>)
    requires iter.Valid()
    modifies iter
    ensures |contours| == |old(iter.Pending())|
    ensures forall i :: 0 <= i < |contours| ==> contours[i] == Contour(iter.table, iter.isHole, old(iter.Pending())[i])
  {
    ghost var all := iter.Pending();
    ghost var yielded: seq<nat> := [];
    contours := [];
    while true
      invariant iter.Valid() && yielded + iter.Pending() == all && |contours| == |yielded|
      invariant forall i :: 0 <= i < |contours| ==> contours[i] == Contour(iter.table, iter.isHole, yielded[i])
      decreases |iter.Pending()|
    {
      ghost var pending := iter.Pending();
      var contour := iter.Next();
      if contour.None? {
        break;
      }
      RowChanges.DrainStep(yielded, pending, iter.Pending());
      yielded := yielded + [pending[0]];
      contours := contours + [contour.value];
    }
  }
}
