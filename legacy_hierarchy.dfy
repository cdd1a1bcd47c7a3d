/**
 * src/image_contours/hierarchy.rs: the older hierarchy bookkeeping. The
 * contour points live in a slice owned by the caller; `Hierarchy` keeps
 * only the contour the scan is currently inside and writes Parent and
 * Alias relations into the slice.
 */
module LegacyHierarchy {
  import opened PointList

  /** Making head a Parent of a contour below it keeps every Alias and Parent link pointing down. */
  lemma ParentKeepsDownward(list: seq<PointListItem>, head: nat, current: nat)
    requires Downward(list) && current < head < |list|
    ensures Downward(list[head := list[head].(relation := Parent(current))])
  {
    var list' := list[head := list[head].(relation := Parent(current))];
    forall j | 0 <= j < |list'| ensures InRange(list'[j].relation, j, |list'|) {
      if j != head {
        assert list'[j] == list[j];
      }
    }
  }

  /** `unalias`: follows Alias links from `point` to the first item that is not an alias. */
  method Unalias(points: array<PointListItem>, point: nat) returns (index: nat)
    requires Downward(points[..]) && point < points.Length
    ensures index == UnaliasOf(points[..], point)
  {
    index := point;
    while points[index].relation.Alias?
      invariant index < points.Length && UnaliasOf(points[..], index) == UnaliasOf(points[..], point)
      decreases index
    {
      assert points[..][index] == points[index];
      index := points[index].relation.index;
    }
    assert points[..][index] == points[index];
  }

  /** `Hierarchy`: the contour the scan is currently inside. */
  class Hierarchy {
    var currentContour: nat

    /** `Hierarchy::new`: the scan starts inside the root. */
    constructor ()
      ensures currentContour == 0
    {
      currentContour := 0;
    }

    /**
     * `add_contour`: head becomes a contour inside the current one; only
     * its relation changes.
     */
    method AddContour(points: array<PointListItem>, head: nat)
      requires head < points.Length
      modifies points
      ensures points[..] == old(points[..])[head := old(points[head]).(relation := Parent(currentContour))]
    {
      points[head] := points[head].(relation := Parent(currentContour));
    }

    /**
     * `cross_contour`: crossing the current contour leaves it for its
     * unaliased parent, which must be recorded (the source panics
     * otherwise); crossing another contour enters it. The points are not
     * changed.
     */
    method CrossContour(points: array<PointListItem>, head: nat)
      requires Downward(points[..]) && head < points.Length && currentContour < points.Length
      requires currentContour == UnaliasOf(points[..], head) ==> points[currentContour].relation.Parent?
      modifies this
      ensures old(currentContour) == UnaliasOf(points[..], head) ==>
        currentContour == UnaliasOf(points[..], points[old(currentContour)].relation.index)
      ensures old(currentContour) != UnaliasOf(points[..], head) ==> currentContour == UnaliasOf(points[..], head)
      ensures currentContour < points.Length
    {
      var index := Unalias(points, head);
      if currentContour == index {
        var parent := points[currentContour].relation.index;
        assert points[..][currentContour] == points[currentContour];
        currentContour := Unalias(points, parent);
      } else {
        currentContour := index;
      }
    }

    /**
     * `combine_contours`: nothing happens when both heads belong to one
     * contour; otherwise the contour with the larger index becomes an
     * Alias of the smaller, and a current contour that was absorbed
     * becomes the survivor. Whatever belonged to the absorbed contour then
     * belongs to the survivor.
     */
    method CombineContours(points: array<PointListItem>, fromHead: nat, toHead: nat)
      requires Downward(points[..]) && fromHead < points.Length && toHead < points.Length
      modifies this, points
      ensures Downward(points[..])
      ensures var f, t := UnaliasOf(old(points[..]), fromHead), UnaliasOf(old(points[..]), toHead);
        f == t ==> points[..] == old(points[..]) && currentContour == old(currentContour)
      ensures var f, t := UnaliasOf(old(points[..]), fromHead), UnaliasOf(old(points[..]), toHead);
        var hi, lo := (if f < t then t else f), (if f < t then f else t);
        f != t ==>
          && points[..] == old(points[..])[hi := old(points[hi]).(relation := Alias(lo))]
          && currentContour == (if old(currentContour) == hi then lo else old(currentContour))
          && forall i :: 0 <= i < points.Length ==>
               UnaliasOf(points[..], i) == if UnaliasOf(old(points[..]), i) == hi then lo else UnaliasOf(old(points[..]), i)
    {
      ghost var list := points[..];
      var fromIndex := Unalias(points, fromHead);
      var toIndex := Unalias(points, toHead);
      if fromIndex != toIndex {
        if fromIndex < toIndex {
          fromIndex, toIndex := toIndex, fromIndex;
        }
        UnaliasResult(list, fromHead);
        UnaliasResult(list, toHead);
        forall i | 0 <= i < |list|
          ensures Downward(list[fromIndex := list[fromIndex].(relation := Alias(toIndex))])
          ensures UnaliasOf(list[fromIndex := list[fromIndex].(relation := Alias(toIndex))], i) ==
            if UnaliasOf(list, i) == fromIndex then toIndex else UnaliasOf(list, i)
        {
          CombineMerges(list, fromIndex, toIndex, i);
        }
        CombineMerges(list, fromIndex, toIndex, 0);
        points[fromIndex] := points[fromIndex].(relation := Alias(toIndex));
        assert points[..] == list[fromIndex := list[fromIndex].(relation := Alias(toIndex))];
        if currentContour == fromIndex {
          currentContour := toIndex;
        }
      }
    }
  }
}
