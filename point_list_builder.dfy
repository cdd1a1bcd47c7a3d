/**
 * src/image_contour_collection/point_list_builder.rs: the point list the
 * tracer builds. Item 0 is the root and holds the image size; every other
 * item is an even point of a contour, linked to the next one by `next`.
 * Contour heads carry the nesting: Parent while tracing, Alias once merged
 * into another contour, and finally Child/Sibling links.
 */
module PointList {
  import opened Wrappers

  datatype Relation = None | Alias(index: nat) | Parent(index: nat) | Child(index: nat) | Sibling(index: nat)

  datatype PointListItem = PointListItem(x: int, y: int, next: nat, relation: Relation)

  /** Alias and Parent links of item i point below i; Child and Sibling links into the list. */
  predicate InRange(r: Relation, i: nat, n: nat)
  {
    match r
    case None => true
    case Alias(t) => t < i
    case Parent(p) => p < i
    case Child(c) => c < n
    case Sibling(s) => s < n
  }

  predicate Downward(list: seq<PointListItem>)
  {
    forall i :: 0 <= i < |list| ==> InRange(list[i].relation, i, |list|)
  }

  /** The contour an item stands for: follow Alias links down to an item that is not an alias. */
  function UnaliasOf(list: seq<PointListItem>, i: nat): (r: nat)
    requires Downward(list) && i < |list|
    ensures r <= i && !list[r].relation.Alias?
    decreases i
  {
    match list[i].relation
    case Alias(t) => UnaliasOf(list, t)
    case _ => i
  }

  /** A non-alias is its own contour, so unaliasing twice is unaliasing once. */
  lemma UnaliasResult(list: seq<PointListItem>, i: nat)
    requires Downward(list) && i < |list|
    ensures UnaliasOf(list, UnaliasOf(list, i)) == UnaliasOf(list, i)
    ensures !list[i].relation.Alias? ==> UnaliasOf(list, i) == i
  {
  }

  /** Two lists with the same Alias links unalias alike. */
  lemma {:induction false} UnaliasSameAliases(a: seq<PointListItem>, b: seq<PointListItem>, i: nat)
    requires Downward(a) && Downward(b) && |a| == |b| && i < |a|
    requires forall j :: 0 <= j < |a| ==> (a[j].relation.Alias? <==> b[j].relation.Alias?)
    requires forall j :: 0 <= j < |a| && a[j].relation.Alias? ==> a[j].relation == b[j].relation
    ensures UnaliasOf(a, i) == UnaliasOf(b, i)
    decreases i
  {
    if a[i].relation.Alias? {
      UnaliasSameAliases(a, b, a[i].relation.index);
    }
  }

  /**
   * Making the non-alias `hi` an Alias of the non-alias `lo < hi` merges
   * the two contours: whatever unaliased to `hi` now unaliases to `lo`,
   * and nothing else changes.
   */
  lemma {:induction false} CombineMerges(list: seq<PointListItem>, hi: nat, lo: nat, i: nat)
    requires Downward(list) && lo < hi < |list| && i < |list|
    requires !list[hi].relation.Alias? && !list[lo].relation.Alias?
    ensures Downward(list[hi := list[hi].(relation := Alias(lo))])
    ensures UnaliasOf(list[hi := list[hi].(relation := Alias(lo))], i) ==
      if UnaliasOf(list, i) == hi then lo else UnaliasOf(list, i)
    decreases i
  {
    var list' := list[hi := list[hi].(relation := Alias(lo))];
    assert Downward(list') by {
      forall j | 0 <= j < |list'| ensures InRange(list'[j].relation, j, |list'|) {
        if j != hi {
          assert list'[j] == list[j];
        }
      }
    }
    if i == hi {
      assert list'[lo] == list[lo];
    } else if list[i].relation.Alias? {
      CombineMerges(list, hi, lo, list[i].relation.index);
    }
  }

  /** A head item: one that records a Parent or, once merged, an Alias. */
  predicate IsHead(list: seq<PointListItem>, i: int)
  {
    1 <= i < |list| && (list[i].relation.Parent? || list[i].relation.Alias?)
  }

  /**
   * The links of the point list while the tracer runs: no Child or
   * Sibling links yet, and Alias and Parent links lead to heads (or a
   * Parent to the root).
   */
  ghost predicate HeadLinks(list: seq<PointListItem>)
  {
    && |list| > 0 && Downward(list)
    && (forall i :: 0 <= i < |list| ==> !list[i].relation.Child? && !list[i].relation.Sibling?)
    && (forall i :: 0 <= i < |list| && list[i].relation.Alias? ==> IsHead(list, list[i].relation.index))
    && (forall i :: 0 <= i < |list| && list[i].relation.Parent? ==> list[i].relation.index == 0 || IsHead(list, list[i].relation.index))
  }

  /**
   * The point list as the tracer leaves it before turning the parent links
   * round: its links are head links, and every Parent head is followed by
   * a plain point of its own.
   */
  ghost predicate Traced(list: seq<PointListItem>)
  {
    && HeadLinks(list)
    && (forall i :: 0 <= i < |list| && list[i].relation.Parent? ==> 1 <= list[i].next < |list| && list[list[i].next].relation == Relation.None)
    && (forall i, j :: 0 <= i < j < |list| && list[i].relation.Parent? && list[j].relation.Parent? ==> list[i].next != list[j].next)
  }

  /** Under head links, a head unaliases to a Parent head, and the root to itself. */
  lemma {:induction false} UnaliasHead(list: seq<PointListItem>, i: nat)
    requires HeadLinks(list) && (i == 0 || IsHead(list, i))
    ensures i == 0 ==> UnaliasOf(list, i) == 0
    ensures i != 0 ==> IsHead(list, UnaliasOf(list, i)) && list[UnaliasOf(list, i)].relation.Parent?
    decreases i
  {
    if list[i].relation.Alias? {
      UnaliasHead(list, list[i].relation.index);
    }
  }

  /** In a traced list, the root and heads unalias to the root or to a Parent head. */
  lemma UnaliasTraced(list: seq<PointListItem>, i: nat)
    requires Traced(list) && (i == 0 || IsHead(list, i))
    ensures UnaliasOf(list, i) == 0 || list[UnaliasOf(list, i)].relation.Parent?
  {
    UnaliasHead(list, i);
  }

  /** Item i is a head whose parent contour is q. */
  ghost predicate ChildOf(list: seq<PointListItem>, i: int, q: nat)
    requires Downward(list)
  {
    1 <= i < |list| && list[i].relation.Parent? && UnaliasOf(list, list[i].relation.index) == q
  }

  /** The highest-index head below k whose parent contour is q. */
  ghost function LastChildBelow(list: seq<PointListItem>, q: nat, k: nat): (r: Option<nat>)
    requires Downward(list) && k <= |list|
    ensures r.Some? ==> r.value < k && ChildOf(list, r.value, q)
    decreases k
  {
    if k <= 1 then Option.None
    else if ChildOf(list, k - 1, q) then Some(k - 1)
    else LastChildBelow(list, q, k - 1)
  }

  /** The highest-index Parent head below k whose next point is j. */
  ghost function HeadWithNextBelow(list: seq<PointListItem>, j: nat, k: nat): (r: Option<nat>)
    requires k <= |list|
    ensures r.Some? ==> 1 <= r.value < k && list[r.value].relation.Parent? && list[r.value].next == j
    decreases k
  {
    if k <= 1 then Option.None
    else if list[k - 1].relation.Parent? && list[k - 1].next == j then Some(k - 1)
    else HeadWithNextBelow(list, j, k - 1)
  }

  /** The sibling before head i: the previous head with the same parent contour. */
  ghost function PreviousChild(list: seq<PointListItem>, i: nat): Option<nat>
    requires Downward(list) && i < |list| && list[i].relation.Parent?
  {
    LastChildBelow(list, UnaliasOf(list, list[i].relation.index), i)
  }

  /**
   * The relation of item j once the heads below k are turned round: a
   * contour holds Child(its last child so far), the point after a head
   * holds Sibling(the previous child of the same parent), and everything
   * else keeps its relation.
   */
  ghost function ArrangedRelation(list: seq<PointListItem>, k: nat, j: nat): Relation
    requires Downward(list) && k <= |list| && j < |list|
  {
    match LastChildBelow(list, j, k)
    case Some(c) => Child(c)
    case None =>
      match HeadWithNextBelow(list, j, k)
      case Some(i) =>
        (match PreviousChild(list, i)
         case Some(s) => Sibling(s)
         case None => list[j].relation)
      case None => list[j].relation
  }

  /** `list` is `list0` with the relations of the heads below k turned round. */
  ghost predicate ArrangedBelow(list0: seq<PointListItem>, k: nat, list: seq<PointListItem>)
    requires Downward(list0) && k <= |list0|
  {
    |list| == |list0| &&
    forall j :: 0 <= j < |list| ==> list[j] == list0[j].(relation := ArrangedRelation(list0, k, j))
  }

  /** In a traced list, only the root and Parent heads can be parent contours. */
  lemma ParentContour(list: seq<PointListItem>, i: int, q: nat)
    requires Traced(list) && ChildOf(list, i, q)
    ensures q < i && (q == 0 || list[q].relation.Parent?)
  {
    UnaliasTraced(list, list[i].relation.index);
  }

  /** An item that is neither the root nor a Parent head has no children. */
  lemma NoChildren(list: seq<PointListItem>, j: nat, k: nat)
    requires Traced(list) && k <= |list| && 1 <= j < |list| && !list[j].relation.Parent?
    ensures LastChildBelow(list, j, k) == Option.None
  {
    if LastChildBelow(list, j, k).Some? {
      ParentContour(list, LastChildBelow(list, j, k).value, j);
    }
  }

  /** A head's next point is never the root, a head or an already arranged item. */
  lemma NotANext(list: seq<PointListItem>, j: nat, k: nat)
    requires Traced(list) && k <= |list| && j < |list| && (j == 0 || list[j].relation != Relation.None)
    ensures HeadWithNextBelow(list, j, k) == Option.None
  {
  }

  /** Item k keeps its relation until head k is reached. */
  lemma ArrangedUntouched(list: seq<PointListItem>, k: nat)
    requires Traced(list) && 1 <= k < |list|
    ensures ArrangedRelation(list, 1, k) == list[k].relation
    ensures list[k].relation.Parent? ==> ArrangedRelation(list, k, k) == list[k].relation
  {
    if list[k].relation.Parent? {
      if LastChildBelow(list, k, k).Some? {
        ParentContour(list, LastChildBelow(list, k, k).value, k);
      }
      NotANext(list, k, k);
    }
  }

  /** Arranged relations never make or change an Alias, so unaliasing is unaffected. */
  lemma ArrangedKeepsAliases(list: seq<PointListItem>, k: nat, j: nat)
    requires Traced(list) && k <= |list| && j < |list|
    ensures ArrangedRelation(list, k, j).Alias? <==> list[j].relation.Alias?
    ensures list[j].relation.Alias? ==> ArrangedRelation(list, k, j) == list[j].relation
  {
    if list[j].relation.Alias? {
      NoChildren(list, j, k);
      NotANext(list, j, k);
    }
  }

  /** A list arranged below k unaliases like the traced list it came from. */
  lemma ArrangedUnalias(list0: seq<PointListItem>, k: nat, list: seq<PointListItem>, p: nat)
    requires Traced(list0) && k <= |list0| && ArrangedBelow(list0, k, list) && Downward(list) && p < |list0|
    ensures UnaliasOf(list, p) == UnaliasOf(list0, p)
  {
    forall j | 0 <= j < |list0|
      ensures (list[j].relation.Alias? <==> list0[j].relation.Alias?)
      ensures list[j].relation.Alias? ==> list[j].relation == list0[j].relation
    {
      ArrangedKeepsAliases(list0, k, j);
    }
    UnaliasSameAliases(list, list0, p);
  }

  /** In a list arranged below k, item k is a Parent head exactly when it was one, with the same parent. */
  lemma ArrangedHeadRelation(list0: seq<PointListItem>, k: nat, list: seq<PointListItem>)
    requires Traced(list0) && 1 <= k < |list0| && ArrangedBelow(list0, k, list)
    ensures list[k].relation.Parent? <==> list0[k].relation.Parent?
    ensures list0[k].relation.Parent? ==> list[k].relation == list0[k].relation
  {
    ArrangedUntouched(list0, k);
  }

  /** Passing an item that is not a Parent head leaves the arrangement as it is. */
  lemma ArrangeSkipAll(list0: seq<PointListItem>, k: nat, list: seq<PointListItem>)
    requires Traced(list0) && 1 <= k < |list0| && !list0[k].relation.Parent? && ArrangedBelow(list0, k, list)
    ensures ArrangedBelow(list0, k + 1, list)
  {
    forall j | 0 <= j < |list0| ensures list[j] == list0[j].(relation := ArrangedRelation(list0, k + 1, j)) {
      ArrangeSkip(list0, k, j);
    }
  }

  /** Passing an item that is not a Parent head changes no arranged relation. */
  lemma ArrangeSkip(list: seq<PointListItem>, k: nat, j: nat)
    requires Traced(list) && 1 <= k < |list| && j < |list| && !list[k].relation.Parent?
    ensures ArrangedRelation(list, k + 1, j) == ArrangedRelation(list, k, j)
  {
  }

  /** Turning head k round makes its parent contour q hold Child(k). */
  lemma ArrangeAtParent(list: seq<PointListItem>, k: nat)
    requires Traced(list) && 1 <= k < |list| && list[k].relation.Parent?
    ensures var q := UnaliasOf(list, list[k].relation.index);
      && q < k && list[k].next != q && !list[q].relation.Child?
      && ArrangedRelation(list, k, q) == (if LastChildBelow(list, q, k).Some? then Child(LastChildBelow(list, q, k).value) else list[q].relation)
      && ArrangedRelation(list, k + 1, q) == Child(k)
  {
    var q := UnaliasOf(list, list[k].relation.index);
    ParentContour(list, k, q);
    NotANext(list, q, k);
  }

  /** No head below k shares its next point with head k. */
  lemma NextUnshared(list: seq<PointListItem>, k: nat)
    requires Traced(list) && 1 <= k < |list| && list[k].relation.Parent?
    ensures list[k].next < |list| && HeadWithNextBelow(list, list[k].next, k) == Option.None
  {
  }

  /** Until head k is reached, its next point keeps its relation. */
  lemma NextUntouched(list: seq<PointListItem>, k: nat)
    requires Traced(list) && 1 <= k < |list| && list[k].relation.Parent?
    ensures list[k].next < |list| && ArrangedRelation(list, k, list[k].next) == list[list[k].next].relation
  {
    NextUnshared(list, k);
    NoChildren(list, list[k].next, k);
  }

  /** Turning head k round makes its next point n hold Sibling(the child of q before k), if there is one, when n has no children. */
  lemma ArrangeAtNext(list: seq<PointListItem>, k: nat)
    requires Downward(list) && 1 <= k < |list| && list[k].relation.Parent? && list[k].next < |list|
    requires LastChildBelow(list, list[k].next, k + 1) == Option.None
    ensures var q, n := UnaliasOf(list, list[k].relation.index), list[k].next;
      ArrangedRelation(list, k + 1, n) ==
        (if LastChildBelow(list, q, k).Some? then Sibling(LastChildBelow(list, q, k).value) else list[n].relation)
  {
    var n := list[k].next;
    assert HeadWithNextBelow(list, n, k + 1) == Some(k);
  }

  /** Turning head k round changes nothing but its parent contour and its next point. */
  lemma ArrangeElsewhere(list: seq<PointListItem>, k: nat, j: nat)
    requires Traced(list) && 1 <= k < |list| && list[k].relation.Parent? && j < |list|
    requires j != UnaliasOf(list, list[k].relation.index) && j != list[k].next
    ensures ArrangedRelation(list, k + 1, j) == ArrangedRelation(list, k, j)
  {
  }

  /** The writes of one step of `parents_to_children` for the Parent head k of contour q. */
  function TurnHead(list: seq<PointListItem>, k: nat, q: nat): seq<PointListItem>
    requires k < |list| && q < |list| && list[k].next < |list|
  {
    var n := list[k].next;
    var withSibling := if list[q].relation.Child? then list[n := list[n].(relation := Sibling(list[q].relation.index))] else list;
    withSibling[q := withSibling[q].(relation := Child(k))]
  }

  /** One step of `parents_to_children` on a Parent head extends the arrangement by one head. */
  lemma ArrangeTurn(list0: seq<PointListItem>, k: nat, list: seq<PointListItem>)
    requires Traced(list0) && 1 <= k < |list0| && list0[k].relation.Parent? && ArrangedBelow(list0, k, list)
    ensures var q := UnaliasOf(list0, list0[k].relation.index);
      list[k].next < |list| && q < |list| && ArrangedBelow(list0, k + 1, TurnHead(list, k, q))
  {
    var q := UnaliasOf(list0, list0[k].relation.index);
    var n := list0[k].next;
    ArrangeAtParent(list0, k);
    NextUntouched(list0, k);
    NoChildren(list0, n, k + 1);
    ArrangeAtNext(list0, k);
    var turned := TurnHead(list, k, q);
    forall j | 0 <= j < |list0| ensures turned[j] == list0[j].(relation := ArrangedRelation(list0, k + 1, j)) {
      if j != q && j != n {
        ArrangeElsewhere(list0, k, j);
      }
    }
  }

  /** Two contours side by side in the root, with heads 1 and 3. */
  const SIDE_BY_SIDE: seq<PointListItem> := [
    PointListItem(9, 9, 0, Relation.None),
    PointListItem(1, 1, 2, Parent(0)), PointListItem(2, 1, 1, Relation.None),
    PointListItem(5, 1, 4, Parent(0)), PointListItem(6, 1, 3, Relation.None)
  ]

  lemma SideBySideTraced()
    ensures Traced(SIDE_BY_SIDE)
  {
    var list := SIDE_BY_SIDE;
    assert Downward(list);
    assert forall i :: 0 <= i < |list| && list[i].relation.Parent? ==> i == 1 || i == 3;
    assert forall i :: 0 <= i < |list| ==> !list[i].relation.Alias?;
  }

  /**
   * Arranged, the root ends with Child(3), the point after head 3 with
   * Sibling(1), and the point after head 1, the first child, keeps no
   * relation.
   */
  lemma SideBySideArranged()
    ensures ArrangedRelation(SIDE_BY_SIDE, 5, 0) == Child(3)
    ensures ArrangedRelation(SIDE_BY_SIDE, 5, 4) == Sibling(1)
    ensures ArrangedRelation(SIDE_BY_SIDE, 5, 2) == Relation.None
  {
    var list := SIDE_BY_SIDE;
    assert Downward(list);
    assert ChildOf(list, 3, 0) && ChildOf(list, 1, 0);
    assert LastChildBelow(list, 0, 5) == Some(3);
    assert LastChildBelow(list, 0, 3) == Some(1);
    assert LastChildBelow(list, 0, 1) == Option.None;
    assert LastChildBelow(list, 4, 5) == Option.None;
    assert LastChildBelow(list, 2, 5) == Option.None;
    assert HeadWithNextBelow(list, 4, 5) == Some(3);
    assert HeadWithNextBelow(list, 2, 5) == Some(1);
  }

  /** Two lists of the same points, whatever their relations. */
  predicate SamePoints(a: seq<PointListItem>, b: seq<PointListItem>)
  {
    |a| == |b| && forall j :: 0 <= j < |a| ==> a[j].x == b[j].x && a[j].y == b[j].y && a[j].next == b[j].next
  }

  /** Every next point of the list is in the list. */
  predicate NextsInRange(list: seq<PointListItem>)
  {
    forall i :: 0 <= i < |list| ==> list[i].next < |list|
  }

  /** Every Parent head's next point is in the list. */
  predicate HeadNextsInRange(list: seq<PointListItem>)
  {
    forall i :: 0 <= i < |list| && list[i].relation.Parent? ==> list[i].next < |list|
  }

  /** Writing a Child or Sibling relation keeps the points, the links in range and the heads' next points. */
  lemma SetRelation(list: seq<PointListItem>, j: nat, r: Relation)
    requires j < |list| && Downward(list) && HeadNextsInRange(list) && InRange(r, j, |list|) && !r.Parent?
    ensures var list' := list[j := list[j].(relation := r)];
      Downward(list') && HeadNextsInRange(list') && SamePoints(list, list')
  {
    var list' := list[j := list[j].(relation := r)];
    assert forall i :: 0 <= i < |list| && i != j ==> list'[i] == list[i];
  }

  /** Having the same points is transitive. */
  lemma SamePointsTrans(a: seq<PointListItem>, b: seq<PointListItem>, c: seq<PointListItem>)
    requires SamePoints(a, b) && SamePoints(b, c)
    ensures SamePoints(a, c)
  {
  }

  /** Appending a plain point, or a head inside the root or a Parent head, keeps the head links and the old heads. */
  lemma AppendLinks(list: seq<PointListItem>, item: PointListItem)
    requires HeadLinks(list)
    requires item.relation == Relation.None ||
      (item.relation.Parent? && (item.relation.index == 0 || (IsHead(list, item.relation.index) && list[item.relation.index].relation.Parent?)))
    ensures HeadLinks(list + [item])
    ensures forall i :: 0 <= i < |list| ==> (IsHead(list + [item], i) <==> IsHead(list, i)) && (list + [item])[i] == list[i]
  {
    var list' := list + [item];
    assert forall i :: 0 <= i < |list| ==> list'[i] == list[i];
  }

  /** Changing anything but relations keeps the head links and the heads. */
  lemma RelinkLinks(a: seq<PointListItem>, b: seq<PointListItem>)
    requires HeadLinks(a) && |a| == |b|
    requires forall i :: 0 <= i < |a| ==> a[i].relation == b[i].relation
    ensures HeadLinks(b)
    ensures forall i :: 0 <= i < |a| ==> (IsHead(b, i) <==> IsHead(a, i))
    ensures forall i :: 0 <= i < |a| ==> UnaliasOf(a, i) == UnaliasOf(b, i)
  {
    assert Downward(b) by {
      forall i | 0 <= i < |b| ensures InRange(b[i].relation, i, |b|) {
        assert InRange(a[i].relation, i, |a|);
      }
    }
    forall i | 0 <= i < |a| ensures UnaliasOf(a, i) == UnaliasOf(b, i) {
      UnaliasSameAliases(a, b, i);
    }
  }

  /** Making the Parent head `hi` an Alias of the Parent head `lo < hi` keeps the head links and the heads. */
  lemma MergeLinks(list: seq<PointListItem>, hi: nat, lo: nat)
    requires HeadLinks(list) && IsHead(list, hi) && IsHead(list, lo) && lo < hi
    requires list[hi].relation.Parent? && list[lo].relation.Parent?
    ensures HeadLinks(list[hi := list[hi].(relation := Alias(lo))])
    ensures forall i :: 0 <= i < |list| ==> (IsHead(list[hi := list[hi].(relation := Alias(lo))], i) <==> IsHead(list, i))
  {
    var list' := list[hi := list[hi].(relation := Alias(lo))];
    assert forall i :: 0 <= i < |list| && i != hi ==> list'[i] == list[i];
    CombineMerges(list, hi, lo, 0);
  }

  /** The contour `cross_contour(head)` moves to from `current`. */
  function Crossed(list: seq<PointListItem>, current: nat, head: nat): nat
    requires Downward(list) && current < |list| && head < |list|
    requires current == UnaliasOf(list, head) ==> list[current].relation.Parent?
  {
    if current == UnaliasOf(list, head) then UnaliasOf(list, list[current].relation.index) else UnaliasOf(list, head)
  }

  /** The point list and current contour after `combine_contours(fromHead, toHead)`. */
  function Combined(list: seq<PointListItem>, current: nat, fromHead: nat, toHead: nat): (seq<PointListItem>, nat)
    requires Downward(list) && fromHead < |list| && toHead < |list|
  {
    var f, t := UnaliasOf(list, fromHead), UnaliasOf(list, toHead);
    var hi, lo := (if f < t then t else f), (if f < t then f else t);
    if f == t then (list, current)
    else (list[hi := list[hi].(relation := Alias(lo))], if current == hi then lo else current)
  }

  /** `PointListBuilder`: the point list and the contour the scan is currently inside. */
  class PointListBuilder {
    var pointList: seq<PointListItem>
    var currentContour: nat

    ghost predicate Valid()
      reads this
    {
      |pointList| > 0 && Downward(pointList) && currentContour < |pointList|
    }

    /** `PointListBuilder::new`: the root item holds the image size; the scan starts in the root. */
    constructor (width: int, height: int)
      ensures Valid()
      ensures pointList == [PointListItem(width, height, 0, Relation.None)] && currentContour == 0
    {
      pointList := [PointListItem(width, height, 0, Relation.None)];
      currentContour := 0;
    }

    /** `add_with_new_contour`: appends a head inside the current contour and returns its index. */
    method AddWithNewContour(x: int, y: int) returns (index: nat)
      requires Valid()
      modifies this
      ensures Valid() && currentContour == old(currentContour)
      ensures index == |old(pointList)|
      ensures pointList == old(pointList) + [PointListItem(x, y, 0, Parent(currentContour))]
    {
      index := |pointList|;
      pointList := pointList + [PointListItem(x, y, 0, Parent(currentContour))];
      assert forall i :: 0 <= i < index ==> pointList[i] == old(pointList)[i];
    }

    /** `add_with_next`: appends a point followed by `next`; no existing item changes. */
    method AddWithNext(x: int, y: int, next: nat) returns (index: nat)
      requires Valid()
      modifies this
      ensures Valid() && currentContour == old(currentContour)
      ensures index == |old(pointList)|
      ensures pointList == old(pointList) + [PointListItem(x, y, next, Relation.None)]
    {
      index := |pointList|;
      pointList := pointList + [PointListItem(x, y, next, Relation.None)];
      assert forall i :: 0 <= i < index ==> pointList[i] == old(pointList)[i];
    }

    /** `add_with_previous`: appends a point and makes it the next of `previous`, the only other change. */
    method AddWithPrevious(x: int, y: int, previous: nat) returns (index: nat)
      requires Valid() && previous < |pointList|
      modifies this
      ensures Valid() && currentContour == old(currentContour)
      ensures index == |old(pointList)|
      ensures pointList == old(pointList)[previous := old(pointList)[previous].(next := index)] + [PointListItem(x, y, 0, Relation.None)]
    {
      index := |pointList|;
      pointList := pointList + [PointListItem(x, y, 0, Relation.None)];
      pointList := pointList[previous := pointList[previous].(next := index)];
      assert forall i :: 0 <= i < index && i != previous ==> pointList[i] == old(pointList)[i];
      assert pointList == old(pointList)[previous := old(pointList)[previous].(next := index)] + [PointListItem(x, y, 0, Relation.None)];
    }

    /** `add_with_next_and_previous`: appends a point between `previous` and `next`; only `previous.next` changes besides. */
    method AddWithNextAndPrevious(x: int, y: int, next: nat, previous: nat)
      requires Valid() && previous < |pointList|
      modifies this
      ensures Valid() && currentContour == old(currentContour)
      ensures pointList == old(pointList)[previous := old(pointList)[previous].(next := |old(pointList)|)] + [PointListItem(x, y, next, Relation.None)]
    {
      var index := |pointList|;
      pointList := pointList + [PointListItem(x, y, next, Relation.None)];
      pointList := pointList[previous := pointList[previous].(next := index)];
      assert forall i :: 0 <= i < index && i != previous ==> pointList[i] == old(pointList)[i];
      assert pointList == old(pointList)[previous := old(pointList)[previous].(next := index)] + [PointListItem(x, y, next, Relation.None)];
    }

    /** `unalias`: follows Alias links from `alias`. */
    method Unalias(alias: nat) returns (index: nat)
      requires Valid() && alias < |pointList|
      ensures index == UnaliasOf(pointList, alias)
    {
      index := alias;
      while pointList[index].relation.Alias?
        invariant index < |pointList| && UnaliasOf(pointList, index) == UnaliasOf(pointList, alias)
        decreases index
      {
        index := pointList[index].relation.index;
      }
    }

    /**
     * `cross_contour`: crossing the contour of `head`. Crossing the current
     * contour leaves it for its unaliased parent, which must be recorded;
     * crossing another contour enters it.
     */
    method CrossContour(head: nat)
      requires Valid() && head < |pointList|
      requires currentContour == UnaliasOf(pointList, head) ==> pointList[currentContour].relation.Parent?
      modifies this
      ensures Valid() && pointList == old(pointList)
      ensures old(currentContour) == UnaliasOf(pointList, head) ==>
        currentContour == UnaliasOf(pointList, pointList[old(currentContour)].relation.index)
      ensures old(currentContour) != UnaliasOf(pointList, head) ==> currentContour == UnaliasOf(pointList, head)
    {
      var index := Unalias(head);
      UnaliasResult(pointList, head);
      if currentContour == index {
        var parent := pointList[currentContour].relation.index;
        currentContour := Unalias(parent);
        UnaliasResult(pointList, parent);
      } else {
        currentContour := index;
      }
    }

    /**
     * `combine_contours`: nothing happens when both heads belong to one
     * contour; otherwise the contour with the larger index becomes an
     * Alias of the smaller, so Alias links point strictly downward, and a
     * current contour that was absorbed becomes the survivor.
     */
    method CombineContours(fromHead: nat, toHead: nat)
      requires Valid() && fromHead < |pointList| && toHead < |pointList|
      modifies this
      ensures Valid()
      ensures var f, t := UnaliasOf(old(pointList), fromHead), UnaliasOf(old(pointList), toHead);
        f == t ==> pointList == old(pointList) && currentContour == old(currentContour)
      ensures var f, t := UnaliasOf(old(pointList), fromHead), UnaliasOf(old(pointList), toHead);
        var hi, lo := (if f < t then t else f), (if f < t then f else t);
        f != t ==>
          && pointList == old(pointList)[hi := old(pointList)[hi].(relation := Alias(lo))]
          && currentContour == (if old(currentContour) == hi then lo else old(currentContour))
    {
      var fromIndex := Unalias(fromHead);
      var toIndex := Unalias(toHead);
      if fromIndex != toIndex {
        if fromIndex < toIndex {
          fromIndex, toIndex := toIndex, fromIndex;
        }
        UnaliasResult(pointList, fromHead);
        UnaliasResult(pointList, toHead);
        CombineMerges(pointList, fromIndex, toIndex, 0);
        pointList := pointList[fromIndex := pointList[fromIndex].(relation := Alias(toIndex))];
        if currentContour == fromIndex {
          currentContour := toIndex;
        }
      }
    }

    /**
     * `parents_to_children`: every head in index order is made the first
     * child of its unaliased parent contour, and the point after it
     * records the child it displaced as Sibling. On a traced list the
     * result is the arranged list: each contour ends with Child(its last
     * child) and each child's next point with Sibling(the child before).
     */
    method ParentsToChildren()
      requires Valid()
      requires HeadNextsInRange(pointList)
      modifies this
      ensures Valid() && currentContour == old(currentContour) && |pointList| == |old(pointList)|
      ensures SamePoints(old(pointList), pointList)
      ensures Traced(old(pointList)) ==> ArrangedBelow(old(pointList), |old(pointList)|, pointList)
    {
      ghost var list0 := pointList;
      if Traced(list0) {
        forall j | 0 <= j < |list0| ensures list0[j] == list0[j].(relation := ArrangedRelation(list0, 1, j)) {
          if j >= 1 {
            ArrangedUntouched(list0, j);
          }
        }
      }
      for index := 1 to |pointList|
        invariant Valid() && currentContour == old(currentContour) && |pointList| == |list0|
        invariant SamePoints(list0, pointList)
        invariant HeadNextsInRange(pointList)
        invariant Traced(list0) ==> ArrangedBelow(list0, index, pointList)
      {
        ArrangeHead(list0, index);
      }
    }

    /** One step of `parents_to_children`: head `index` is turned round. */
    method ArrangeHead(ghost list0: seq<PointListItem>, index: nat)
      requires Valid() && 1 <= index < |pointList| && |pointList| == |list0|
      requires SamePoints(list0, pointList)
      requires HeadNextsInRange(pointList)
      requires Traced(list0) ==> ArrangedBelow(list0, index, pointList)
      modifies this
      ensures Valid() && currentContour == old(currentContour) && |pointList| == |list0|
      ensures SamePoints(list0, pointList)
      ensures HeadNextsInRange(pointList)
      ensures Traced(list0) ==> ArrangedBelow(list0, index + 1, pointList)
    {
      ghost var before := pointList;
      if pointList[index].relation.Parent? {
        var p := pointList[index].relation.index;
        var parent := Unalias(p);
        var next := pointList[index].next;
        if pointList[parent].relation.Child? {
          var child := pointList[parent].relation.index;
          SetRelation(pointList, next, Sibling(child));
          pointList := pointList[next := pointList[next].(relation := Sibling(child))];
          SamePointsTrans(list0, before, pointList);
        }
        ghost var middle := pointList;
        SetRelation(pointList, parent, Child(index));
        pointList := pointList[parent := pointList[parent].(relation := Child(index))];
        SamePointsTrans(list0, middle, pointList);
        assert pointList == TurnHead(before, index, parent);
        assert Traced(list0) ==> ArrangedBelow(list0, index + 1, pointList) by {
          if Traced(list0) {
            ArrangedHeadRelation(list0, index, before);
            ArrangedUnalias(list0, index, before, p);
            ArrangeTurn(list0, index, before);
          }
        }
      } else {
        assert Traced(list0) ==> ArrangedBelow(list0, index + 1, pointList) by {
          if Traced(list0) {
            ArrangedHeadRelation(list0, index, before);
            ArrangeSkipAll(list0, index, before);
          }
        }
      }
    }

    /**
     * `into`: the point list with its parent links turned round. The
     * debug-build check that the scan has returned to the root is not a
     * precondition here (see README).
     */
    method Into() returns (list: seq<PointListItem>)
      requires Valid()
      requires HeadNextsInRange(pointList)
      modifies this
      ensures |list| == |old(pointList)| && list == pointList
      ensures SamePoints(old(pointList), list)
      ensures Traced(old(pointList)) ==> ArrangedBelow(old(pointList), |old(pointList)|, list)
    {
      ParentsToChildren();
      list := pointList;
    }
  }
}
