/**
 * src/image_contour_collection/contours.rs: reading the finished contour
 * collection. A contour is an item of the hierarchy; its even points are
 * the cycle of `next` links that starts at its head point. The children of
 * an item are read along the sibling chain, and all items below a root in
 * preorder, each flagged as a hole or not by its depth.
 */
module Contours {
  import opened Wrappers
  import opened PointList
  import H = HierarchyBuilding

  // ---------------------------------------------------------------------
  // The cycle of a contour's even points
  // ---------------------------------------------------------------------

  /** The item reached from item i after k `next` links. */
  function Follow(list: seq<PointListItem>, i: nat, k: nat): (r: nat)
    requires NextsInRange(list) && i < |list|
    ensures r < |list|
  {
    if k == 0 then i else list[Follow(list, i, k - 1)].next
  }

  /** Following a + b links is following a links, then b. */
  lemma {:induction false} FollowAdd(list: seq<PointListItem>, i: nat, a: nat, b: nat)
    requires NextsInRange(list) && i < |list|
    ensures Follow(list, i, a + b) == Follow(list, Follow(list, i, a), b)
    decreases b
  {
    if b > 0 {
      FollowAdd(list, i, a, b - 1);
    }
  }

  /** The links from `start` first come back to `start` after n steps. */
  predicate ReturnsAfter(list: seq<PointListItem>, start: nat, n: nat)
    requires NextsInRange(list) && start < |list|
  {
    n >= 1 && Follow(list, start, n) == start && forall k :: 0 < k < n ==> Follow(list, start, k) != start
  }

  /** The coordinates of an item. */
  function PointOf(item: PointListItem): (int, int)
  {
    (item.x, item.y)
  }

  /** The points of the n items from item i on, in link order. */
  function CyclePoints(list: seq<PointListItem>, i: nat, n: nat): (r: seq<(int, int)>)
    requires NextsInRange(list) && i < |list|
    ensures |r| == n
    decreases n
  {
    if n == 0 then [] else [PointOf(list[i])] + CyclePoints(list, list[i].next, n - 1)
  }

  /** The k-th of those points is the point k links on from i. */
  lemma {:induction false} CyclePointsAt(list: seq<PointListItem>, i: nat, n: nat, k: nat)
    requires NextsInRange(list) && i < |list| && k < n
    ensures CyclePoints(list, i, n)[k] == PointOf(list[Follow(list, i, k)])
    decreases k
  {
    if k > 0 {
      CyclePointsAt(list, list[i].next, n - 1, k - 1);
      FollowAdd(list, i, 1, k - 1);
    }
  }

  /** A cycle visits each of its items once: the first n items from `start` are distinct. */
  lemma CycleDistinct(list: seq<PointListItem>, start: nat, n: nat, i: nat, j: nat)
    requires NextsInRange(list) && start < |list| && ReturnsAfter(list, start, n)
    requires i < j < n
    ensures Follow(list, start, i) != Follow(list, start, j)
  {
    FollowAdd(list, start, i, n - j);
    FollowAdd(list, start, j, n - j);
  }

  /**
   * `EvenPointIter`: walks the cycle from `startIndex`, yielding the
   * coordinates of each item and stopping before the link back to the
   * start. `period` and `taken` are ghost: the cycle's length and the
   * points already yielded.
   */
  class EvenPointIter {
    const pointList: seq<PointListItem>
    const startIndex: nat
    var currentIndex: Option<nat>
    ghost const period: nat
    ghost var taken: nat

    ghost predicate Valid()
      reads this
    {
      && NextsInRange(pointList) && startIndex < |pointList| && ReturnsAfter(pointList, startIndex, period)
      && taken <= period
      && currentIndex == if taken < period then Some(Follow(pointList, startIndex, taken)) else Option.None
    }

    /** The points still to come. */
    ghost function Pending(): seq<(int, int)>
      reads this
      requires Valid()
    {
      CyclePoints(pointList, Follow(pointList, startIndex, taken), period - taken)
    }

    /** The iterator `even_points` makes: at the start of the cycle. */
    constructor (pointList: seq<PointListItem>, startIndex: nat, ghost period: nat)
      requires NextsInRange(pointList) && startIndex < |pointList| && ReturnsAfter(pointList, startIndex, period)
      ensures Valid() && this.pointList == pointList && this.startIndex == startIndex && this.period == period
      ensures Pending() == CyclePoints(pointList, startIndex, period)
    {
      this.pointList, this.startIndex, this.period := pointList, startIndex, period;
      currentIndex := Some(startIndex);
      taken := 0;
    }

    /** `next`: the next point of the cycle, or None once it has come round. */
    method Next() returns (point: Option<(int, int)>)
      requires Valid()
      modifies this
      ensures Valid()
      ensures old(Pending()) == [] ==> point == Option.None && Pending() == []
      ensures old(Pending()) != [] ==> point == Some(old(Pending())[0]) && Pending() == old(Pending())[1..]
    {
      match currentIndex
      case None =>
        point := Option.None;
      case Some(index) =>
        var item := pointList[index];
        currentIndex := if item.next != startIndex then Some(item.next) else Option.None;
        taken := taken + 1;
        point := Some(PointOf(item));
    }
  }

  /** The points `EvenPointIter` yields from `start`: the whole cycle, once each, in link order. */
  method CollectCycle(pointList: seq<PointListItem>, start: nat, ghost period: nat) returns (points: seq<(int, int)>)
    requires NextsInRange(pointList) && start < |pointList| && ReturnsAfter(pointList, start, period)
    ensures points == CyclePoints(pointList, start, period)
  {
    var iter := new EvenPointIter(pointList, start, period);
    points := [];
    while true
      invariant iter.Valid() && iter.pointList == pointList && iter.startIndex == start && iter.period == period
      invariant points + iter.Pending() == CyclePoints(pointList, start, period)
      decreases |iter.Pending()|
    {
      var point := iter.Next();
      if point.None? {
        break;
      }
      points := points + [point.value];
    }
  }

  // ---------------------------------------------------------------------
  // Contours and the children of an item
  // ---------------------------------------------------------------------

  /** `Contour`: an item of the hierarchy, read against the point list, and whether it is a hole. */
  datatype Contour = Contour(hierarchy: seq<H.HierarchyItem>, pointList: seq<PointListItem>, isHole: bool, index: nat)

  /** `even_points`: the points of the contour's cycle, from its head point. */
  method EvenPoints(contour: Contour, ghost period: nat) returns (points: seq<(int, int)>)
    requires contour.index < |contour.hierarchy| && NextsInRange(contour.pointList)
    requires contour.hierarchy[contour.index].headPoint < |contour.pointList|
    requires ReturnsAfter(contour.pointList, contour.hierarchy[contour.index].headPoint, period)
    ensures points == CyclePoints(contour.pointList, contour.hierarchy[contour.index].headPoint, period)
  {
    points := CollectCycle(contour.pointList, contour.hierarchy[contour.index].headPoint, period);
  }

  /** The children of item m below k, from the highest index down: the order of the sibling chain. */
  function ChildrenBelow(items: seq<H.HierarchyItem>, m: nat, k: nat): (r: seq<nat>)
    requires k <= |items|
    decreases k
  {
    H.LastChildIsChild(items, m, k);
    match H.LastChild(items, m, k)
    case None => []
    case Some(c) => [c] + ChildrenBelow(items, m, c)
  }

  /** The children below k are exactly the items below k whose parent is m, each once, in decreasing order. */
  lemma {:induction false} ChildrenBelowAre(items: seq<H.HierarchyItem>, m: nat, k: nat)
    requires k <= |items|
    ensures forall j :: j in ChildrenBelow(items, m, k) <==> 1 <= j < k && items[j].parent == m
    ensures forall a, b :: 0 <= a < b < |ChildrenBelow(items, m, k)| ==> ChildrenBelow(items, m, k)[a] > ChildrenBelow(items, m, k)[b]
    decreases k
  {
    H.LastChildIsChild(items, m, k);
    match H.LastChild(items, m, k)
    case None =>
    case Some(c) =>
      ChildrenBelowAre(items, m, c);
      var rest := ChildrenBelow(items, m, c);
      assert ChildrenBelow(items, m, k) == [c] + rest;
      assert forall a :: 0 <= a < |rest| ==> rest[a] in rest;
  }

  /**
   * `ChildContourIter`: walks the sibling chain from the first child of
   * `parent`, yielding each child as a contour with the same hole flag.
   * `bound` is ghost: the children still to come are those below it.
   */
  class ChildContourIter {
    const hierarchy: seq<H.HierarchyItem>
    const pointList: seq<PointListItem>
    const isHole: bool
    ghost const parent: nat
    var currentIndex: Option<nat>
    ghost var bound: nat

    ghost predicate Valid()
      reads this
    {
      H.Tree(hierarchy) && parent < |hierarchy| && bound <= |hierarchy| && currentIndex == H.LastChild(hierarchy, parent, bound)
    }

    /** The indices of the children still to come. */
    ghost function Pending(): seq<nat>
      reads this
      requires Valid()
    {
      ChildrenBelow(hierarchy, parent, bound)
    }

    /** `ChildContourIter::new`: at the first child of `parentIndex`; children are holes when the parent is not. */
    constructor (hierarchy: seq<H.HierarchyItem>, pointList: seq<PointListItem>, parentIndex: nat, isParentHole: bool)
      requires H.Tree(hierarchy) && parentIndex < |hierarchy|
      ensures Valid() && this.hierarchy == hierarchy && this.pointList == pointList && parent == parentIndex
      ensures isHole == !isParentHole
      ensures Pending() == ChildrenBelow(hierarchy, parentIndex, |hierarchy|)
    {
      this.hierarchy, this.pointList, parent := hierarchy, pointList, parentIndex;
      isHole := !isParentHole;
      currentIndex := hierarchy[parentIndex].firstChild;
      bound := |hierarchy|;
      assert H.FirstChildLinked(hierarchy, parentIndex);
    }

    /** `next`: the next child as a contour, or None after the last. */
    method Next() returns (contour: Option<Contour>)
      requires Valid()
      modifies this
      ensures Valid()
      ensures old(Pending()) == [] ==> contour == Option.None && Pending() == []
      ensures old(Pending()) != [] ==>
        contour == Some(Contour(hierarchy, pointList, isHole, old(Pending())[0])) && Pending() == old(Pending())[1..]
    {
      H.LastChildIsChild(hierarchy, parent, bound);
      match currentIndex
      case None =>
        contour := Option.None;
      case Some(index) =>
        assert H.NextSiblingLinked(hierarchy, index);
        currentIndex := hierarchy[index].nextSibling;
        bound := index;
        contour := Some(Contour(hierarchy, pointList, isHole, index));
    }
  }

  /** What `ChildContourIter` yields for `parentIndex`: its children from the highest index down, all with the opposite hole flag. */
  method CollectChildren(hierarchy: seq<H.HierarchyItem>, pointList: seq<PointListItem>, parentIndex: nat, isParentHole: bool)
    returns (contours: seq<Contour>)
    requires H.Tree(hierarchy) && parentIndex < |hierarchy|
    ensures |contours| == |ChildrenBelow(hierarchy, parentIndex, |hierarchy|)|
    ensures forall i :: 0 <= i < |contours| ==>
      contours[i] == Contour(hierarchy, pointList, !isParentHole, ChildrenBelow(hierarchy, parentIndex, |hierarchy|)[i])
  {
    var iter := new ChildContourIter(hierarchy, pointList, parentIndex, isParentHole);
    ghost var all := ChildrenBelow(hierarchy, parentIndex, |hierarchy|);
    contours := [];
    while true
      invariant iter.Valid() && iter.hierarchy == hierarchy && iter.pointList == pointList && iter.isHole == !isParentHole
      invariant |contours| + |iter.Pending()| == |all| && iter.Pending() == all[|contours|..]
      invariant forall i :: 0 <= i < |contours| ==> contours[i] == Contour(hierarchy, pointList, !isParentHole, all[i])
      decreases |iter.Pending()|
    {
      var contour := iter.Next();
      if contour.None? {
        break;
      }
      contours := contours + [contour.value];
    }
  }

  // ---------------------------------------------------------------------
  // All items below a root, in preorder
  // ---------------------------------------------------------------------

  /** Item c is a descendant of `root`: its chain of parents reaches `root`. */
  predicate Below(items: seq<H.HierarchyItem>, root: nat, c: nat)
    requires H.Tree(items) && c < |items|
    decreases c
  {
    c >= 1 && (items[c].parent == root || Below(items, root, items[c].parent))
  }

  /** The number of parent links from a descendant c up to `root`. */
  function Depth(items: seq<H.HierarchyItem>, root: nat, c: nat): (d: nat)
    requires H.Tree(items) && c < |items| && Below(items, root, c)
    ensures d >= 1
    decreases c
  {
    if items[c].parent == root then 1 else 1 + Depth(items, root, items[c].parent)
  }

  /** The hole flag of a descendant c when `root` is flagged `hole`: each generation flips it. */
  function Flag(items: seq<H.HierarchyItem>, root: nat, hole: bool, c: nat): bool
    requires H.Tree(items) && c < |items| && Below(items, root, c)
    decreases c
  {
    if items[c].parent == root then !hole else !Flag(items, root, hole, items[c].parent)
  }

  /** The child of `root` whose subtree holds the descendant c. */
  function Branch(items: seq<H.HierarchyItem>, root: nat, c: nat): (b: nat)
    requires H.Tree(items) && c < |items| && Below(items, root, c)
    ensures 1 <= b <= c && items[b].parent == root
    decreases c
  {
    if items[c].parent == root then c else Branch(items, root, items[c].parent)
  }

  /**
   * The descendants of m in the order `DescendantContourIter` yields them:
   * each child from the highest index down, followed by its own
   * descendants. Each comes with its hole flag: the children of m get the
   * opposite of `hole`, and each generation flips it again.
   */
  function Descendants(items: seq<H.HierarchyItem>, m: nat, hole: bool): seq<(nat, bool)>
    requires H.Tree(items) && m < |items|
    decreases |items| - m, 1, 0
  {
    Forest(items, m, |items|, !hole)
  }

  /** The children of m below k, each flagged `hole` and followed by its descendants. */
  function Forest(items: seq<H.HierarchyItem>, m: nat, k: nat, hole: bool): seq<(nat, bool)>
    requires H.Tree(items) && m < |items| && k <= |items|
    decreases |items| - m, 0, k
  {
    H.LastChildIsChild(items, m, k);
    match H.LastChild(items, m, k)
    case None => []
    case Some(c) => [(c, hole)] + Descendants(items, c, hole) + Forest(items, m, c, hole)
  }

  /**
   * What is left of the preorder of `root` once the subtree of its
   * descendant c is done: the remaining siblings of c and of each of its
   * ancestors below `root`; `hole` is the flag of c.
   */
  function Continue(items: seq<H.HierarchyItem>, root: nat, c: nat, hole: bool): seq<(nat, bool)>
    requires H.Tree(items) && c < |items| && Below(items, root, c)
    decreases c
  {
    var p := items[c].parent;
    Forest(items, p, c, hole) + (if p == root then [] else Continue(items, root, p, !hole))
  }

  /** A descendant has a higher index than its root. */
  lemma {:induction false} BelowAbove(items: seq<H.HierarchyItem>, root: nat, c: nat)
    requires H.Tree(items) && c < |items| && Below(items, root, c)
    ensures root < c
    decreases c
  {
    if items[c].parent != root {
      BelowAbove(items, root, items[c].parent);
    }
  }

  /** Regrouping a concatenation of four sequences. */
  lemma Regroup<T>(a: seq<T>, b: seq<T>, c: seq<T>, d: seq<T>)
    ensures a + b + c + d == a + b + (c + d)
    ensures (a + b + c)[|a|..] == b + c
  {
    assert (a + b + c)[|a|..] == b + c;
  }

  /** The first child of c is its last child, and few enough that it is an item. */
  lemma FirstChildLink(items: seq<H.HierarchyItem>, c: nat)
    requires H.Tree(items) && c < |items| && items[c].firstChild.Some?
    ensures H.LastChild(items, c, |items|) == items[c].firstChild
  {
    assert H.FirstChildLinked(items, c);
  }

  /** The next sibling of c is the previous child of its parent, which comes before c. */
  lemma SiblingLink(items: seq<H.HierarchyItem>, c: nat)
    requires H.Tree(items) && 1 <= c < |items|
    ensures items[c].parent < c && H.LastChild(items, items[c].parent, c) == items[c].nextSibling
  {
    assert H.NextSiblingLinked(items, c);
  }

  /** Going down to the first child of c: the rest of the preorder is the child's subtree and what follows it. */
  lemma DescendFirst(items: seq<H.HierarchyItem>, root: nat, c: nat, hole: bool)
    requires H.Tree(items) && c < |items| && Below(items, root, c) && items[c].firstChild.Some?
    ensures items[c].firstChild.value < |items| && Below(items, root, items[c].firstChild.value)
    ensures Descendants(items, c, hole) + Continue(items, root, c, hole) == PreorderFrom(items, root, items[c].firstChild, !hole)
  {
    var d := items[c].firstChild.value;
    FirstChildLink(items, c);
    ForestUnfold(items, c, |items|, d, !hole);
    BelowAbove(items, root, c);
    var tail := Forest(items, c, d, !hole);
    assert Descendants(items, c, hole) == [(d, !hole)] + Descendants(items, d, !hole) + tail;
    assert Continue(items, root, d, !hole) == tail + Continue(items, root, c, hole);
    Regroup([(d, !hole)], Descendants(items, d, !hole), tail, Continue(items, root, c, hole));
  }

  /** A leaf has no descendants. */
  lemma Leaf(items: seq<H.HierarchyItem>, c: nat, hole: bool)
    requires H.Tree(items) && c < |items| && items[c].firstChild.None?
    ensures Descendants(items, c, hole) == []
  {
    assert H.FirstChildLinked(items, c);
  }

  /** Moving on to the next sibling of c: the rest of the preorder is the sibling's subtree and what follows it. */
  lemma AscendSibling(items: seq<H.HierarchyItem>, root: nat, c: nat, hole: bool)
    requires H.Tree(items) && c < |items| && Below(items, root, c) && items[c].nextSibling.Some?
    ensures items[c].nextSibling.value < |items| && Below(items, root, items[c].nextSibling.value)
    ensures Continue(items, root, c, hole) == PreorderFrom(items, root, items[c].nextSibling, hole)
  {
    var p := items[c].parent;
    SiblingLink(items, c);
    var s := items[c].nextSibling.value;
    ForestUnfold(items, p, c, s, hole);
    var up := if p == root then [] else Continue(items, root, p, !hole);
    var tail := Forest(items, p, s, hole);
    assert Continue(items, root, c, hole) == [(s, hole)] + Descendants(items, s, hole) + tail + up;
    assert Continue(items, root, s, hole) == tail + up;
    Regroup([(s, hole)], Descendants(items, s, hole), tail, up);
  }

  /** With no next sibling, the rest of the preorder is what follows the parent, unless the parent is the root. */
  lemma AscendParent(items: seq<H.HierarchyItem>, root: nat, c: nat, hole: bool)
    requires H.Tree(items) && c < |items| && Below(items, root, c) && items[c].nextSibling.None?
    ensures items[c].parent != root ==>
      (Below(items, root, items[c].parent) && Continue(items, root, c, hole) == Continue(items, root, items[c].parent, !hole))
    ensures items[c].parent == root ==> Continue(items, root, c, hole) == []
  {
    SiblingLink(items, c);
    assert Forest(items, items[c].parent, c, hole) == [];
  }

  /** A child of m starts a branch of its own descendants and the descendants of m under it. */
  lemma {:induction false} BranchOf(items: seq<H.HierarchyItem>, m: nat, c: nat, j: nat, hole: bool)
    requires H.Tree(items) && 1 <= c < |items| && items[c].parent == m && j < |items|
    ensures Below(items, c, j) ==>
      Below(items, m, j) && Branch(items, m, j) == c && Flag(items, m, hole, j) == Flag(items, c, !hole, j)
    ensures Below(items, m, j) && Branch(items, m, j) == c && j != c ==> Below(items, c, j)
    decreases j
  {
    if j >= 1 && items[j].parent != c && items[j].parent != m {
      BranchOf(items, m, c, items[j].parent, hole);
    }
    if j >= 1 && items[j].parent == m && Below(items, c, j) {
      BelowAbove(items, c, j);
      BranchUnder(items, c, j);
    }
  }

  /** A descendant of c whose parent is m lies above c, so it cannot be a child of m when c is. */
  lemma {:induction false} BranchUnder(items: seq<H.HierarchyItem>, c: nat, j: nat)
    requires H.Tree(items) && j < |items| && Below(items, c, j)
    ensures c < items[j].parent || items[j].parent == c
    decreases j
  {
    if items[j].parent != c {
      BelowAbove(items, c, items[j].parent);
    }
  }

  /** Item j, flagged f, is a descendant of m in the branch of a child below k, with the flag of a forest flagged `hole`. */
  ghost predicate InForest(items: seq<H.HierarchyItem>, m: nat, k: nat, hole: bool, j: nat, f: bool)
    requires H.Tree(items)
  {
    j < |items| && Below(items, m, j) && Branch(items, m, j) < k && f == Flag(items, m, !hole, j)
  }

  /** Item j, flagged f, is a descendant of m with the flag of a preorder of m flagged `hole`. */
  ghost predicate InPreorder(items: seq<H.HierarchyItem>, m: nat, hole: bool, j: nat, f: bool)
    requires H.Tree(items)
  {
    j < |items| && Below(items, m, j) && f == Flag(items, m, hole, j)
  }

  /** A forest is its last child, that child's subtree and the forest below the child. */
  lemma ForestUnfold(items: seq<H.HierarchyItem>, m: nat, k: nat, c: nat, hole: bool)
    requires H.Tree(items) && m < |items| && k <= |items| && H.LastChild(items, m, k) == Some(c)
    ensures 1 <= c < k && items[c].parent == m && forall i :: c < i < k ==> items[i].parent != m
    ensures Forest(items, m, k, hole) == [(c, hole)] + Descendants(items, c, hole) + Forest(items, m, c, hole)
  {
    H.LastChildIsChild(items, m, k);
  }

  /** The last child c of m below k is in the forest below k, flagged `hole`. */
  lemma ForestHead(items: seq<H.HierarchyItem>, m: nat, k: nat, c: nat, hole: bool)
    requires H.Tree(items) && 1 <= c < k <= |items| && items[c].parent == m
    ensures InForest(items, m, k, hole, c, hole)
  {
    assert Below(items, m, c) && Branch(items, m, c) == c;
  }

  /** What is in the preorder of the child c of m, with c's flag, is in the forest below k of m. */
  lemma ForestBranch(items: seq<H.HierarchyItem>, m: nat, k: nat, c: nat, hole: bool, j: nat, f: bool)
    requires H.Tree(items) && 1 <= c < k <= |items| && items[c].parent == m
    requires InPreorder(items, c, hole, j, f)
    ensures InForest(items, m, k, hole, j, f)
  {
    BranchOf(items, m, c, j, !hole);
  }

  /** A member of the forest below k of m is its last child c, in c's preorder, or in the forest below c. */
  lemma ForestSplit(items: seq<H.HierarchyItem>, m: nat, k: nat, c: nat, hole: bool, j: nat, f: bool)
    requires H.Tree(items) && 1 <= c < k <= |items| && items[c].parent == m
    requires forall i :: c < i < k ==> items[i].parent != m
    requires InForest(items, m, k, hole, j, f)
    ensures (j, f) == (c, hole) || InPreorder(items, c, hole, j, f) || InForest(items, m, c, hole, j, f)
  {
    var b := Branch(items, m, j);
    if b == c && j == c {
    } else if b == c {
      BranchOf(items, m, c, j, !hole);
      assert InPreorder(items, c, hole, j, f);
    } else {
      assert items[b].parent == m && b < c;
      assert InForest(items, m, c, hole, j, f);
    }
  }

  /**
   * The members of a forest: the descendants of m in the branches of its
   * children below k, flagged `hole` at odd depth below m.
   */
  lemma {:induction false} ForestMembers(items: seq<H.HierarchyItem>, m: nat, k: nat, hole: bool, j: nat, f: bool)
    requires H.Tree(items) && m < |items| && k <= |items|
    ensures ((j, f) in Forest(items, m, k, hole)) == InForest(items, m, k, hole, j, f)
    decreases |items| - m, 0, k
  {
    H.LastChildIsChild(items, m, k);
    match H.LastChild(items, m, k)
    case None =>
    case Some(c) =>
      DescendantsMembers(items, c, hole, j, f);
      ForestMembers(items, m, c, hole, j, f);
      ForestUnfold(items, m, k, c, hole);
      if (j, f) == (c, hole) {
        ForestHead(items, m, k, c, hole);
      } else if (j, f) in Descendants(items, c, hole) {
        ForestBranch(items, m, k, c, hole, j, f);
      }
      if InForest(items, m, k, hole, j, f) {
        ForestSplit(items, m, k, c, hole, j, f);
      }
  }

  /**
   * The members of a preorder: exactly the descendants of m, each flagged
   * a hole when its depth below m is odd and m is not a hole, or even and
   * m is one.
   */
  lemma {:induction false} DescendantsMembers(items: seq<H.HierarchyItem>, m: nat, hole: bool, j: nat, f: bool)
    requires H.Tree(items) && m < |items|
    ensures ((j, f) in Descendants(items, m, hole)) == InPreorder(items, m, hole, j, f)
    decreases |items| - m, 1, 0
  {
    ForestMembers(items, m, |items|, !hole, j, f);
  }

  /** The rest of the preorder of `root` when the walk is at `current` with flag `hole`, or at the end. */
  function PreorderFrom(items: seq<H.HierarchyItem>, root: nat, current: Option<nat>, hole: bool): seq<(nat, bool)>
    requires H.Tree(items) && (current.Some? ==> current.value < |items| && Below(items, root, current.value))
  {
    match current
    case None => []
    case Some(c) => [(c, hole)] + Descendants(items, c, hole) + Continue(items, root, c, hole)
  }

  /** The flag of a descendant is the root's flag at even depth and the opposite at odd depth. */
  lemma {:induction false} FlagParity(items: seq<H.HierarchyItem>, root: nat, hole: bool, c: nat)
    requires H.Tree(items) && c < |items| && Below(items, root, c)
    ensures Flag(items, root, hole, c) == (hole == (Depth(items, root, c) % 2 == 0))
    decreases c
  {
    if items[c].parent != root {
      var p := items[c].parent;
      FlagParity(items, root, hole, p);
      Parity(Depth(items, root, p), hole, Flag(items, root, hole, p));
    }
  }

  /** One level deeper flips the parity, and so the flag. */
  lemma Parity(d: nat, hole: bool, f: bool)
    requires f == (hole == (d % 2 == 0))
    ensures !f == (hole == ((d + 1) % 2 == 0))
  {
  }

  /** The contour of each (index, hole flag) pair of `items`, in order. */
  function ContoursOf(hierarchy: seq<H.HierarchyItem>, pointList: seq<PointListItem>, items: seq<(nat, bool)>): (r: seq<Contour>)
    ensures |r| == |items|
    ensures forall i :: 0 <= i < |items| ==> r[i] == Contour(hierarchy, pointList, items[i].1, items[i].0)
  {
    seq(|items|, i requires 0 <= i < |items| => Contour(hierarchy, pointList, items[i].1, items[i].0))
  }

  /** The contours of a sequence that are not holes, in order. */
  function NonHoles(contours: seq<Contour>): (r: seq<Contour>)
    ensures forall c :: c in r <==> c in contours && !c.isHole
  {
    if contours == [] then []
    else (if contours[0].isHole then [] else [contours[0]]) + NonHoles(contours[1..])
  }

  /**
   * The climb of `DescendantContourIter::next` from a leaf: up the parents
   * to the first one with a next sibling, flipping the flag at each level,
   * or to the end below the root. Where it stops, the walk goes on with
   * exactly what was left after the leaf.
   */
  method Climb(items: seq<H.HierarchyItem>, root: nat, leaf: nat, hole: bool) returns (next: Option<nat>, hole': bool)
    requires H.Tree(items) && leaf < |items| && Below(items, root, leaf)
    ensures next.Some? ==> next.value < |items| && Below(items, root, next.value)
    ensures PreorderFrom(items, root, next, hole') == Continue(items, root, leaf, hole)
  {
    var current: nat := leaf;
    hole' := hole;
    while true
      invariant current < |items| && Below(items, root, current)
      invariant Continue(items, root, current, hole') == Continue(items, root, leaf, hole)
      decreases current
    {
      if items[current].nextSibling.Some? {
        AscendSibling(items, root, current, hole');
        return items[current].nextSibling, hole';
      } else if items[current].parent != root {
        AscendParent(items, root, current, hole');
        current := items[current].parent;
        hole' := !hole';
      } else {
        AscendParent(items, root, current, hole');
        return Option.None, hole';
      }
    }
  }

  /**
   * `DescendantContourIter`: walks the items below `rootIndex` in
   * preorder, going down to a first child when there is one and otherwise
   * up the parents to the first next sibling, flipping the hole flag at
   * each level.
   */
  class DescendantContourIter {
    const hierarchy: seq<H.HierarchyItem>
    const pointList: seq<PointListItem>
    const rootIndex: nat
    var isHole: bool
    var currentIndex: Option<nat>

    ghost predicate Valid()
      reads this
    {
      && H.Tree(hierarchy) && rootIndex < |hierarchy|
      && (currentIndex.Some? ==> currentIndex.value < |hierarchy| && Below(hierarchy, rootIndex, currentIndex.value))
    }

    /** The items still to come, with their hole flags. */
    ghost function Pending(): seq<(nat, bool)>
      reads this
      requires Valid()
    {
      PreorderFrom(hierarchy, rootIndex, currentIndex, isHole)
    }

    /** `DescendantContourIter::new`: at the first child of the root, flagged the opposite of the root. */
    constructor (hierarchy: seq<H.HierarchyItem>, pointList: seq<PointListItem>, rootIndex: nat, isRootHole: bool)
      requires H.Tree(hierarchy) && rootIndex < |hierarchy|
      ensures Valid() && this.hierarchy == hierarchy && this.pointList == pointList && this.rootIndex == rootIndex
      ensures Pending() == Descendants(hierarchy, rootIndex, isRootHole)
    {
      this.hierarchy, this.pointList, this.rootIndex := hierarchy, pointList, rootIndex;
      isHole := !isRootHole;
      currentIndex := hierarchy[rootIndex].firstChild;
      new;
      assert H.FirstChildLinked(hierarchy, rootIndex);
      H.LastChildIsChild(hierarchy, rootIndex, |hierarchy|);
    }

    /** `next`: the next item of the preorder as a contour, or None at the end. */
    method Next() returns (contour: Option<Contour>)
      requires Valid()
      modifies this
      ensures Valid()
      ensures old(Pending()) == [] ==> contour == Option.None && Pending() == []
      ensures old(Pending()) != [] ==>
        contour == Some(Contour(hierarchy, pointList, old(Pending())[0].1, old(Pending())[0].0)) && Pending() == old(Pending())[1..]
    {
      match currentIndex
      case None =>
        contour := Option.None;
      case Some(index) =>
        var hole := isHole;
        ghost var below, after := Descendants(hierarchy, index, hole), Continue(hierarchy, rootIndex, index, hole);
        Regroup([(index, hole)], below, after, []);
        if hierarchy[index].firstChild.Some? {
          DescendFirst(hierarchy, rootIndex, index, hole);
          currentIndex := hierarchy[index].firstChild;
          isHole := !hole;
        } else {
          Leaf(hierarchy, index, hole);
          assert below + after == after;
          currentIndex, isHole := Climb(hierarchy, rootIndex, index, hole);
        }
        contour := Some(Contour(hierarchy, pointList, hole, index));
    }
  }

  /** What `DescendantContourIter` yields: the preorder of the root's descendants, with their hole flags. */
  method CollectDescendants(hierarchy: seq<H.HierarchyItem>, pointList: seq<PointListItem>, rootIndex: nat, isRootHole: bool)
    returns (contours: seq<Contour>)
    requires H.Tree(hierarchy) && rootIndex < |hierarchy|
    ensures |contours| == |Descendants(hierarchy, rootIndex, isRootHole)|
    ensures forall i :: 0 <= i < |contours| ==>
      var (c, hole) := Descendants(hierarchy, rootIndex, isRootHole)[i]; contours[i] == Contour(hierarchy, pointList, hole, c)
  {
    var iter := new DescendantContourIter(hierarchy, pointList, rootIndex, isRootHole);
    ghost var all := Descendants(hierarchy, rootIndex, isRootHole);
    contours := [];
    while true
      invariant iter.Valid() && iter.hierarchy == hierarchy && iter.pointList == pointList && iter.rootIndex == rootIndex
      invariant |contours| + |iter.Pending()| == |all| && iter.Pending() == all[|contours|..]
      invariant forall i :: 0 <= i < |contours| ==> contours[i] == Contour(hierarchy, pointList, all[i].1, all[i].0)
      decreases |iter.Pending()|
    {
      var contour := iter.Next();
      if contour.None? {
        break;
      }
      contours := contours + [contour.value];
    }
  }
}
