/**
 * src/image_contour_collection/hierarchy_builder.rs: the contour tree built
 * beside the point list. Each contour has a head; while tracing, a head
 * records its parent contour or, once merged, the contour it was merged
 * into. `into` numbers the unmerged contours and links each item to its
 * parent, its first child and its next sibling.
 */
module HierarchyBuilding {
  import opened Wrappers

  /** `NONE` (`usize::MAX`): no contour, standing for the image itself. */
  const NONE: nat := 0xFFFF_FFFF_FFFF_FFFF

  datatype Relation = Alias(index: nat) | Parent(index: nat)

  /** A head: the index of the contour's head point and its relation. */
  datatype Head = Head(index: nat, relation: Relation)

  /** An item of the finished hierarchy; children and siblings are nonzero item indices. */
  datatype HierarchyItem = HierarchyItem(headPoint: nat, parent: nat, nextSibling: Option<nat>, firstChild: Option<nat>)

  /** Alias links point below their head, Parent links below it or to NONE. */
  predicate Linked(heads: seq<Head>)
  {
    forall i :: 0 <= i < |heads| ==>
      match heads[i].relation
      case Alias(t) => t < i
      case Parent(p) => p == NONE || p < i
  }

  /** A contour reference: NONE or a head. */
  predicate Ref(heads: seq<Head>, c: nat)
  {
    c == NONE || c < |heads|
  }

  /** The contour a head stands for, following Alias links; NONE stays NONE. */
  function UnaliasOf(heads: seq<Head>, c: nat): (r: nat)
    requires Linked(heads) && |heads| < NONE && Ref(heads, c)
    ensures r == NONE <==> c == NONE
    ensures r != NONE ==> r <= c && heads[r].relation.Parent?
    decreases c
  {
    if c == NONE then NONE
    else match heads[c].relation
      case Alias(t) => UnaliasOf(heads, t)
      case Parent(_) => c
  }

  /** Making the unmerged `hi` an Alias of the unmerged `lo < hi` merges the two contours and nothing else. */
  lemma {:induction false} CombineMerges(heads: seq<Head>, hi: nat, lo: nat, c: nat)
    requires Linked(heads) && |heads| < NONE && lo < hi < |heads| && Ref(heads, c)
    requires heads[hi].relation.Parent? && heads[lo].relation.Parent?
    ensures Linked(heads[hi := heads[hi].(relation := Alias(lo))])
    ensures UnaliasOf(heads[hi := heads[hi].(relation := Alias(lo))], c) ==
      if UnaliasOf(heads, c) == hi then lo else UnaliasOf(heads, c)
    decreases c
  {
    var heads' := heads[hi := heads[hi].(relation := Alias(lo))];
    assert forall i :: 0 <= i < |heads| && i != hi ==> heads'[i] == heads[i];
    if c != NONE && c != hi && heads[c].relation.Alias? {
      CombineMerges(heads, hi, lo, heads[c].relation.index);
    }
  }

  /** The number of unmerged heads below k: the items that come before head k's. */
  function ItemCount(heads: seq<Head>, k: nat): (n: nat)
    requires k <= |heads|
    ensures n <= k
  {
    if k == 0 then 0 else ItemCount(heads, k - 1) + (if heads[k - 1].relation.Parent? then 1 else 0)
  }

  lemma {:induction false} ItemCountGrows(heads: seq<Head>, i: nat, k: nat)
    requires i < k <= |heads| && heads[i].relation.Parent?
    ensures ItemCount(heads, i) < ItemCount(heads, k)
    decreases k - i
  {
    if i + 1 < k {
      ItemCountGrows(heads, i, k - 1);
    }
  }

  /** The item an unmerged head becomes: item 0 is the root. */
  function ItemOf(heads: seq<Head>, i: nat): nat
    requires i <= |heads|
  {
    1 + ItemCount(heads, i)
  }

  /** The item of the parent of unmerged head i: the root for NONE, else the item of the unaliased parent. */
  function ParentItem(heads: seq<Head>, i: nat): nat
    requires Linked(heads) && |heads| < NONE && i < |heads| && heads[i].relation.Parent?
  {
    var p := heads[i].relation.index;
    if p == NONE then 0 else ItemOf(heads, UnaliasOf(heads, p))
  }

  /** The highest item below k whose parent is m. */
  function LastChild(items: seq<HierarchyItem>, m: nat, k: nat): Option<nat>
    requires k <= |items|
    decreases k
  {
    if k <= 1 then Option.None
    else if items[k - 1].parent == m then Some(k - 1)
    else LastChild(items, m, k - 1)
  }

  /** The last child found is an item below k whose parent is m, and no later item below k has parent m. */
  lemma {:induction false} LastChildIsChild(items: seq<HierarchyItem>, m: nat, k: nat)
    requires k <= |items|
    ensures LastChild(items, m, k).Some? ==>
      var c := LastChild(items, m, k).value;
      1 <= c < k && items[c].parent == m && forall j :: c < j < k ==> items[j].parent != m
    ensures LastChild(items, m, k).None? ==> forall j :: 1 <= j < k ==> items[j].parent != m
    decreases k
  {
    if k > 1 && items[k - 1].parent != m {
      LastChildIsChild(items, m, k - 1);
    }
  }

  /** Lists with the same parents below k have the same children below k. */
  lemma {:induction false} LastChildSameParents(a: seq<HierarchyItem>, b: seq<HierarchyItem>, m: nat, k: nat)
    requires k <= |a| && k <= |b|
    requires forall j :: 0 <= j < k ==> a[j].parent == b[j].parent
    ensures LastChild(a, m, k) == LastChild(b, m, k)
    decreases k
  {
    if k > 1 {
      LastChildSameParents(a, b, m, k - 1);
    }
  }

  /**
   * A hierarchy: every item after the root has a parent before it, every
   * item's first child is its last child, and every item's next sibling
   * is the child of the same parent just before it.
   */
  predicate Tree(items: seq<HierarchyItem>)
  {
    && |items| > 0 && items[0].nextSibling == Option.None
    && (forall m :: 1 <= m < |items| ==> items[m].parent < m)
    && (forall m :: 0 <= m < |items| ==> FirstChildLinked(items, m))
    && (forall m :: 1 <= m < |items| ==> NextSiblingLinked(items, m))
  }

  /** The first child of item m is its last child. */
  predicate FirstChildLinked(items: seq<HierarchyItem>, m: nat)
    requires m < |items|
  {
    items[m].firstChild == LastChild(items, m, |items|)
  }

  /** The next sibling of item m is the child of its parent just before it. */
  predicate NextSiblingLinked(items: seq<HierarchyItem>, m: nat)
    requires m < |items|
  {
    items[m].nextSibling == LastChild(items, items[m].parent, m)
  }

  /** `items` with a new last item that becomes the first child of q. */
  function Pushed(items: seq<HierarchyItem>, q: nat, headPoint: nat): (r: seq<HierarchyItem>)
    requires q < |items|
    ensures |r| == |items| + 1
  {
    items[q := items[q].(firstChild := Some(|items|))] + [HierarchyItem(headPoint, q, items[q].firstChild, Option.None)]
  }

  /** Pushing changes no head point or parent of the items already there. */
  lemma PushedKeeps(items: seq<HierarchyItem>, q: nat, headPoint: nat)
    requires q < |items|
    ensures forall j :: 0 <= j < |items| ==>
      Pushed(items, q, headPoint)[j].headPoint == items[j].headPoint && Pushed(items, q, headPoint)[j].parent == items[j].parent
    ensures Pushed(items, q, headPoint)[|items|] == HierarchyItem(headPoint, q, items[q].firstChild, Option.None)
    ensures forall j :: 0 <= j < |items| && j != q ==> Pushed(items, q, headPoint)[j] == items[j]
    ensures Pushed(items, q, headPoint)[q] == items[q].(firstChild := Some(|items|))
  {
  }

  lemma PushedFirstChild(items: seq<HierarchyItem>, q: nat, headPoint: nat, m: nat)
    requires Tree(items) && q < |items| && m <= |items|
    ensures var items' := Pushed(items, q, headPoint); items'[m].firstChild == LastChild(items', m, |items'|)
  {
    var items' := Pushed(items, q, headPoint);
    var e := |items|;
    PushedKeeps(items, q, headPoint);
    if m == q {
      assert LastChild(items', q, e + 1) == Some(e);
    } else {
      assert LastChild(items', m, e + 1) == LastChild(items', m, e);
      LastChildSameParents(items', items, m, e);
      if m == e {
        LastChildIsChild(items, m, e);
      } else {
        assert items'[m] == items[m] && FirstChildLinked(items, m);
      }
    }
  }

  lemma PushedNextSibling(items: seq<HierarchyItem>, q: nat, headPoint: nat, m: nat)
    requires Tree(items) && q < |items| && 1 <= m <= |items|
    ensures var items' := Pushed(items, q, headPoint); items'[m].nextSibling == LastChild(items', items'[m].parent, m)
  {
    var items' := Pushed(items, q, headPoint);
    PushedKeeps(items, q, headPoint);
    if m < |items| {
      var p := items[m].parent;
      assert items'[m].parent == p && items'[m].nextSibling == items[m].nextSibling;
      assert NextSiblingLinked(items, m);
      LastChildSameParents(items', items, p, m);
    } else {
      assert items'[m].parent == q && items'[m].nextSibling == items[q].firstChild;
      assert FirstChildLinked(items, q);
      LastChildSameParents(items', items, q, m);
    }
  }

  /** Appending an item as the new first child of q keeps a tree a tree. */
  lemma PushChild(items: seq<HierarchyItem>, q: nat, headPoint: nat)
    requires Tree(items) && q < |items|
    ensures Tree(Pushed(items, q, headPoint))
  {
    var items' := Pushed(items, q, headPoint);
    PushedKeeps(items, q, headPoint);
    forall m | 0 <= m < |items'| ensures items'[m].firstChild == LastChild(items', m, |items'|) {
      PushedFirstChild(items, q, headPoint, m);
    }
    forall m | 1 <= m < |items'| ensures items'[m].nextSibling == LastChild(items', items'[m].parent, m) {
      PushedNextSibling(items, q, headPoint, m);
    }
  }

  /**
   * The hierarchy `into` makes of the heads: the root, then one item per
   * unmerged head in head order, holding the head point and the item of
   * its parent contour, linked as a tree.
   */
  ghost predicate HierarchyOf(heads: seq<Head>, items: seq<HierarchyItem>)
    requires Linked(heads) && |heads| < NONE
  {
    && |items| == 1 + ItemCount(heads, |heads|)
    && items[0].headPoint == NONE && items[0].parent == NONE
    && Tree(items)
    && forall i :: 0 <= i < |heads| && heads[i].relation.Parent? ==>
      ItemOf(heads, i) < |items| &&
      items[ItemOf(heads, i)].headPoint == heads[i].index && items[ItemOf(heads, i)].parent == ParentItem(heads, i)
  }

  /**
   * A one-pixel image has one contour, whose head point is point 0 and
   * whose parent is the root. Its hierarchy is the root with that contour
   * as first child, then the contour's item with no sibling and no child,
   * and HierarchyOf admits no other.
   */
  lemma OnePixelHierarchy()
    ensures Linked([Head(0, Parent(NONE))])
    ensures HierarchyOf([Head(0, Parent(NONE))], [HierarchyItem(NONE, NONE, Option.None, Some(1)), HierarchyItem(0, 0, Option.None, Option.None)])
    ensures forall items :: HierarchyOf([Head(0, Parent(NONE))], items) ==>
      items == [HierarchyItem(NONE, NONE, Option.None, Some(1)), HierarchyItem(0, 0, Option.None, Option.None)]
  {
    var heads := [Head(0, Parent(NONE))];
    var expected := [HierarchyItem(NONE, NONE, Option.None, Some(1)), HierarchyItem(0, 0, Option.None, Option.None)];
    assert ItemOf(heads, 0) == 1 && ParentItem(heads, 0) == 0;
    assert LastChild(expected, 0, 2) == Some(1) && LastChild(expected, 1, 2) == Option.None;
    forall items | HierarchyOf(heads, items)
      ensures items == expected
    {
      assert FirstChildLinked(items, 0) && FirstChildLinked(items, 1) && NextSiblingLinked(items, 1);
      assert LastChild(items, 0, 2) == Some(1) && LastChild(items, 1, 2) == Option.None;
    }
  }

  /**
   * The state of `into` after the heads below k: those that are unmerged
   * hold their item numbers, and the hierarchy holds the root and their
   * items.
   */
  ghost predicate Placed(heads0: seq<Head>, k: nat, heads: seq<Head>, items: seq<HierarchyItem>)
    requires Linked(heads0) && |heads0| < NONE && k <= |heads0|
  {
    && |heads| == |heads0|
    && (forall i :: 0 <= i < |heads| ==> heads[i].relation == heads0[i].relation)
    && (forall i :: 0 <= i < |heads| ==>
      heads[i].index == if i < k && heads0[i].relation.Parent? then ItemOf(heads0, i) else heads0[i].index)
    && |items| == 1 + ItemCount(heads0, k)
    && items[0].headPoint == NONE && items[0].parent == NONE && Tree(items)
    && (forall i :: 0 <= i < k && heads0[i].relation.Parent? ==>
      ItemOf(heads0, i) < |items| &&
      items[ItemOf(heads0, i)].headPoint == heads0[i].index && items[ItemOf(heads0, i)].parent == ParentItem(heads0, i))
  }

  /** Before any head, the hierarchy is the root alone. */
  lemma PlacedStart(heads0: seq<Head>)
    requires Linked(heads0) && |heads0| < NONE
    ensures Placed(heads0, 0, heads0, [HierarchyItem(NONE, NONE, Option.None, Option.None)])
  {
    assert LastChild([HierarchyItem(NONE, NONE, Option.None, Option.None)], 0, 1) == Option.None;
  }

  /** After every head, the hierarchy is the one `into` promises. */
  lemma PlacedDone(heads0: seq<Head>, heads: seq<Head>, items: seq<HierarchyItem>)
    requires Linked(heads0) && |heads0| < NONE && Placed(heads0, |heads0|, heads, items)
    ensures HierarchyOf(heads0, items)
  {
  }

  /** An unmerged head below k is placed: its item number is stored in it and is an item. */
  lemma PlacedItem(heads0: seq<Head>, k: nat, heads: seq<Head>, items: seq<HierarchyItem>, u: nat)
    requires Linked(heads0) && |heads0| < NONE && k <= |heads0| && Placed(heads0, k, heads, items)
    requires u < k && heads0[u].relation.Parent?
    ensures ItemOf(heads0, u) < |items| && heads[u].index == ItemOf(heads0, u)
  {
  }

  /** The parent item of the next unmerged head is already placed. */
  lemma PlacedParent(heads0: seq<Head>, k: nat, heads: seq<Head>, items: seq<HierarchyItem>)
    requires Linked(heads0) && |heads0| < NONE && k < |heads0| && heads0[k].relation.Parent?
    requires Placed(heads0, k, heads, items)
    ensures ParentItem(heads0, k) < |items|
  {
    var p := heads0[k].relation.index;
    if p != NONE {
      PlacedItem(heads0, k, heads, items, UnaliasOf(heads0, p));
    }
  }

  /** Placing unmerged head k as the new first child of its parent item. */
  lemma PlaceStep(heads0: seq<Head>, k: nat, heads: seq<Head>, items: seq<HierarchyItem>)
    requires Linked(heads0) && |heads0| < NONE && k < |heads0| && heads0[k].relation.Parent?
    requires Placed(heads0, k, heads, items)
    ensures ParentItem(heads0, k) < |items|
    ensures Placed(heads0, k + 1, heads[k := heads[k].(index := |items|)], Pushed(items, ParentItem(heads0, k), heads0[k].index))
  {
    var q := ParentItem(heads0, k);
    PlacedParent(heads0, k, heads, items);
    PushChild(items, q, heads0[k].index);
    PushedKeeps(items, q, heads0[k].index);
    forall i | 0 <= i < k && heads0[i].relation.Parent? ensures ItemOf(heads0, i) < |items| {
      ItemCountGrows(heads0, i, k);
    }
  }

  /** Passing a merged head places nothing. */
  lemma PlaceSkip(heads0: seq<Head>, k: nat, heads: seq<Head>, items: seq<HierarchyItem>)
    requires Linked(heads0) && |heads0| < NONE && k < |heads0| && !heads0[k].relation.Parent?
    requires Placed(heads0, k, heads, items)
    ensures Placed(heads0, k + 1, heads, items)
  {
  }

  /** Heads that differ only in their head point indices unalias alike. */
  lemma {:induction false} UnaliasSameRelations(a: seq<Head>, b: seq<Head>, c: nat)
    requires Linked(a) && |a| < NONE && |a| == |b| && Ref(a, c)
    requires forall i :: 0 <= i < |a| ==> a[i].relation == b[i].relation
    ensures Linked(b) && UnaliasOf(a, c) == UnaliasOf(b, c)
    decreases c
  {
    if c != NONE && a[c].relation.Alias? {
      UnaliasSameRelations(a, b, a[c].relation.index);
    }
  }

  /** `HierarchyBuilder`: the heads and the contour the scan is in. */
  class HierarchyBuilder {
    var heads: seq<Head>
    var currentContour: nat

    ghost predicate Valid()
      reads this
    {
      Linked(heads) && |heads| < NONE && Ref(heads, currentContour)
    }

    /** `HierarchyBuilder::new`: no heads; the scan starts outside every contour. */
    constructor ()
      ensures Valid() && heads == [] && currentContour == NONE
    {
      heads, currentContour := [], NONE;
    }

    /** `add_contour`: appends a head inside the current contour and returns its index. */
    method AddContour(headIndex: nat) returns (newContour: nat)
      requires Valid() && |heads| + 1 < NONE
      modifies this
      ensures Valid() && currentContour == old(currentContour)
      ensures newContour == |old(heads)|
      ensures heads == old(heads) + [Head(headIndex, Parent(currentContour))]
    {
      newContour := |heads|;
      heads := heads + [Head(headIndex, Parent(currentContour))];
      assert forall i :: 0 <= i < newContour ==> heads[i] == old(heads)[i];
    }

    /** `unalias`: NONE for NONE, else the unmerged head reached by following Alias links. */
    method Unalias(alias: nat) returns (index: nat)
      requires Valid() && Ref(heads, alias)
      ensures index == UnaliasOf(heads, alias)
    {
      if alias == NONE {
        return NONE;
      }
      index := alias;
      while heads[index].relation.Alias?
        invariant index < |heads| && UnaliasOf(heads, index) == UnaliasOf(heads, alias)
        decreases index
      {
        index := heads[index].relation.index;
      }
    }

    /**
     * `cross_contour`: crossing the current contour leaves it for its
     * unaliased parent; crossing another contour enters it. Crossing when
     * outside every contour and the target is NONE indexes out of bounds.
     */
    method CrossContour(contour: nat)
      requires Valid() && Ref(heads, contour)
      requires currentContour == UnaliasOf(heads, contour) ==> currentContour != NONE
      modifies this
      ensures Valid() && heads == old(heads)
      ensures old(currentContour) == UnaliasOf(heads, contour) ==>
        currentContour == UnaliasOf(heads, heads[old(currentContour)].relation.index)
      ensures old(currentContour) != UnaliasOf(heads, contour) ==> currentContour == UnaliasOf(heads, contour)
    {
      var index := Unalias(contour);
      if currentContour == index {
        var parent := heads[currentContour].relation.index;
        currentContour := Unalias(parent);
      } else {
        currentContour := index;
      }
    }

    /**
     * `combine_contours`: nothing happens when both belong to one contour;
     * otherwise the larger head becomes an Alias of the smaller. A current
     * contour that is absorbed moves to the survivor, or to the survivor's
     * parent when the survivor was its own parent.
     */
    method CombineContours(fromContour: nat, toContour: nat)
      requires Valid() && Ref(heads, fromContour) && Ref(heads, toContour)
      requires UnaliasOf(heads, fromContour) != UnaliasOf(heads, toContour) ==>
        fromContour != NONE && toContour != NONE
      modifies this
      ensures Valid()
      ensures var f, t := UnaliasOf(old(heads), fromContour), UnaliasOf(old(heads), toContour);
        f == t ==> heads == old(heads) && currentContour == old(currentContour)
      ensures var f, t := UnaliasOf(old(heads), fromContour), UnaliasOf(old(heads), toContour);
        var hi, lo := (if f < t then t else f), (if f < t then f else t);
        f != t ==>
          && heads == old(heads)[hi := old(heads)[hi].(relation := Alias(lo))]
          && currentContour == (
            if old(currentContour) != hi then old(currentContour)
            else if UnaliasOf(old(heads), old(heads)[hi].relation.index) == lo then UnaliasOf(old(heads), old(heads)[lo].relation.index)
            else lo)
    {
      var fromIndex := Unalias(fromContour);
      var toIndex := Unalias(toContour);
      if fromIndex != toIndex {
        if fromIndex < toIndex {
          fromIndex, toIndex := toIndex, fromIndex;
        }
        if currentContour == fromIndex {
          currentContour := toIndex;
          var parent := heads[fromIndex].relation.index;
          var parentIndex := Unalias(parent);
          if parentIndex == toIndex {
            var grandparent := heads[parentIndex].relation.index;
            currentContour := Unalias(grandparent);
          }
        }
        CombineMerges(heads, fromIndex, toIndex, toIndex);
        heads := heads[fromIndex := heads[fromIndex].(relation := Alias(toIndex))];
      }
    }

    /**
     * `into`: the hierarchy of the traced contours. The debug-build check
     * that the scan has left every contour is not a precondition: the
     * hierarchy is built whatever the current contour is.
     */
    method Into() returns (hierarchy: seq<HierarchyItem>)
      requires Valid()
      modifies this
      ensures HierarchyOf(old(heads), hierarchy)
    {
      ghost var heads0 := heads;
      hierarchy := [HierarchyItem(NONE, NONE, Option.None, Option.None)];
      PlacedStart(heads0);
      for head := 0 to |heads|
        invariant Valid() && Placed(heads0, head, heads, hierarchy)
      {
        hierarchy := PlaceHead(heads0, head, hierarchy);
      }
      PlacedDone(heads0, heads, hierarchy);
    }

    /** One step of `into`: an unmerged head becomes the next item and the first child of its parent's item. */
    method PlaceHead(ghost heads0: seq<Head>, head: nat, hierarchy: seq<HierarchyItem>) returns (hierarchy': seq<HierarchyItem>)
      requires Valid() && Linked(heads0) && |heads0| < NONE && head < |heads0|
      requires Placed(heads0, head, heads, hierarchy)
      modifies this
      ensures Valid() && Placed(heads0, head + 1, heads, hierarchy')
    {
      hierarchy' := hierarchy;
      var headPoint := heads[head].index;
      if heads[head].relation.Parent? {
        var parentAlias := heads[head].relation.index;
        var newItem := |hierarchy|;
        ghost var before := heads;
        var parent := 0;
        if parentAlias != NONE {
          UnaliasSameRelations(heads0, heads, parentAlias);
          var parentHead := Unalias(parentAlias);
          PlacedItem(heads0, head, heads, hierarchy, parentHead);
          parent := heads[parentHead].index;
        }
        PlacedParent(heads0, head, heads, hierarchy);
        heads := heads[head := heads[head].(index := newItem)];
        var nextSibling := hierarchy[parent].firstChild;
        hierarchy' := hierarchy[parent := hierarchy[parent].(firstChild := Some(newItem))];
        hierarchy' := hierarchy' + [HierarchyItem(headPoint, parent, nextSibling, Option.None)];
        assert hierarchy' == Pushed(hierarchy, parent, headPoint);
        PlaceStep(heads0, head, before, hierarchy);
      } else {
        PlaceSkip(heads0, head, heads, hierarchy);
      }
    }
  }
}
