/**
 * src/image_contour_collection/row_pair_changes.rs: the changes of two
 * adjacent rows merged from left to right into Top, Bottom and Both events.
 */
module RowPairChanges {
  import opened Wrappers
  import opened RowChanges

  /** In which row of the pair a change has occurred. */
  datatype RowPairChangeKind = Top | Bottom | Both

  datatype RowPairChange = RowPairChange(kind: RowPairChangeKind, x: int)

  /** What the merge reads as a change list: END last and nothing above END. */
  predicate ChangeList(s: seq<int>)
  {
    |s| > 0 && s[|s| - 1] == END && forall i :: 0 <= i < |s| ==> s[i] <= END
  }

  /** A change list as a row produces it: also strictly increasing, so END occurs only at the end. */
  predicate RowChangeList(s: seq<int>)
  {
    ChangeList(s) && StrictlyIncreasing(s)
  }

  lemma ChangeListSuffix(s: seq<int>, i: int)
    requires ChangeList(s) && 0 <= i < |s|
    ensures ChangeList(s[i..])
  {
    assert s[i..][|s| - i - 1] == s[|s| - 1];
  }

  /**
   * The events still to come when the lists are read from their heads:
   * the smaller head is taken on its own, equal heads together, and two
   * END heads stop the merge.
   */
  function Merge(top: seq<int>, bottom: seq<int>): seq<RowPairChange>
    requires ChangeList(top) && ChangeList(bottom)
    decreases |top| + |bottom|
  {
    ChangeListSuffix(top, if |top| > 1 then 1 else 0);
    ChangeListSuffix(bottom, if |bottom| > 1 then 1 else 0);
    if top[0] < bottom[0] then [RowPairChange(Top, top[0])] + Merge(top[1..], bottom)
    else if top[0] > bottom[0] then [RowPairChange(Bottom, bottom[0])] + Merge(top, bottom[1..])
    else if top[0] != END then [RowPairChange(Both, top[0])] + Merge(top[1..], bottom[1..])
    else []
  }

  /** The x coordinates of a merge are strictly increasing. */
  predicate XsIncreasing(m: seq<RowPairChange>)
  {
    forall i, j :: 0 <= i < j < |m| ==> m[i].x < m[j].x
  }

  function Min(a: int, b: int): int { if a < b then a else b }

  /** The rest of a strictly increasing list lies right of its head. */
  lemma HeadBelowRest(s: seq<int>)
    requires StrictlyIncreasing(s) && |s| > 0
    ensures StrictlyIncreasing(s[1..])
    ensures forall v :: v in s[1..] ==> s[0] < v
    ensures forall v :: v in s ==> s[0] <= v
  {
    forall v | v in s ensures s[0] <= v {
      var k :| 0 <= k < |s| && s[k] == v;
    }
  }

  /** A change list as a row produces it has END only at its end. */
  lemma EndOnlyLast(s: seq<int>)
    requires RowChangeList(s)
    ensures forall i :: 0 <= i < |s| - 1 ==> s[i] < END
    ensures s[0] == END ==> |s| == 1
  {
  }

  lemma RowChangeListRest(s: seq<int>)
    requires RowChangeList(s) && s[0] != END
    ensures |s| > 1 && RowChangeList(s[1..])
  {
    EndOnlyLast(s);
    ChangeListSuffix(s, 1);
    HeadBelowRest(s);
  }

  /** Every event lies at or right of the smaller head, and before END. */
  lemma {:induction false} MergeBounds(top: seq<int>, bottom: seq<int>)
    requires RowChangeList(top) && RowChangeList(bottom)
    ensures forall k :: 0 <= k < |Merge(top, bottom)| ==> Min(top[0], bottom[0]) <= Merge(top, bottom)[k].x < END
    decreases |top| + |bottom|
  {
    var m := Merge(top, bottom);
    if top[0] < bottom[0] {
      RowChangeListRest(top);
      MergeBounds(top[1..], bottom);
      var rest := Merge(top[1..], bottom);
      assert m == [RowPairChange(Top, top[0])] + rest;
      forall k | 0 < k < |m| ensures top[0] <= m[k].x < END {
        assert m[k] == rest[k - 1];
      }
    } else if top[0] > bottom[0] {
      RowChangeListRest(bottom);
      MergeBounds(top, bottom[1..]);
      var rest := Merge(top, bottom[1..]);
      assert m == [RowPairChange(Bottom, bottom[0])] + rest;
      forall k | 0 < k < |m| ensures bottom[0] <= m[k].x < END {
        assert m[k] == rest[k - 1];
      }
    } else if top[0] != END {
      RowChangeListRest(top);
      RowChangeListRest(bottom);
      MergeBounds(top[1..], bottom[1..]);
      var rest := Merge(top[1..], bottom[1..]);
      assert m == [RowPairChange(Both, top[0])] + rest;
      forall k | 0 < k < |m| ensures top[0] <= m[k].x < END {
        assert m[k] == rest[k - 1];
      }
    }
  }

  /** For strictly increasing lists, the x coordinates of the merge are strictly increasing. */
  lemma {:induction false} MergeIncreasing(top: seq<int>, bottom: seq<int>)
    requires RowChangeList(top) && RowChangeList(bottom)
    ensures XsIncreasing(Merge(top, bottom))
    decreases |top| + |bottom|
  {
    var m := Merge(top, bottom);
    if top[0] < bottom[0] {
      RowChangeListRest(top);
      MergeIncreasing(top[1..], bottom);
      HeadAhead(RowPairChange(Top, top[0]), top[1..], bottom);
    } else if top[0] > bottom[0] {
      RowChangeListRest(bottom);
      MergeIncreasing(top, bottom[1..]);
      HeadAhead(RowPairChange(Bottom, bottom[0]), top, bottom[1..]);
    } else if top[0] != END {
      RowChangeListRest(top);
      RowChangeListRest(bottom);
      MergeIncreasing(top[1..], bottom[1..]);
      HeadAhead(RowPairChange(Both, top[0]), top[1..], bottom[1..]);
    }
  }

  /** An event left of both heads goes in front of their merge without breaking the order. */
  lemma HeadAhead(c: RowPairChange, top: seq<int>, bottom: seq<int>)
    requires RowChangeList(top) && RowChangeList(bottom)
    requires c.x < top[0] && c.x < bottom[0]
    requires XsIncreasing(Merge(top, bottom))
    ensures XsIncreasing([c] + Merge(top, bottom))
  {
    var rest := Merge(top, bottom);
    MergeBounds(top, bottom);
    var m := [c] + rest;
    forall i, j | 0 <= i < j < |m| ensures m[i].x < m[j].x {
      assert m[j] == rest[j - 1];
      if i > 0 {
        assert m[i] == rest[i - 1];
      }
    }
  }

  /** The kind of the event at x: Both when both rows change there. */
  function KindOf(x: int, top: seq<int>, bottom: seq<int>): RowPairChangeKind
  {
    if x in top && x in bottom then Both else if x in top then Top else Bottom
  }

  /**
   * For lists as rows produce them, an event is in the merge exactly when
   * its x is a change of either row other than END, and its kind says
   * which rows change there; as the merge is strictly increasing, each
   * such x is reported once.
   */
  lemma {:induction false} MergeMembers(top: seq<int>, bottom: seq<int>, c: RowPairChange)
    requires RowChangeList(top) && RowChangeList(bottom)
    ensures c in Merge(top, bottom) <==> Member(c, top, bottom)
    decreases |top| + |bottom|
  {
    if top[0] < bottom[0] {
      RowChangeListRest(top);
      MergeMembers(top[1..], bottom, c);
      MemberTakeTop(c, top, bottom);
    } else if top[0] > bottom[0] {
      RowChangeListRest(bottom);
      MergeMembers(top, bottom[1..], c);
      MemberTakeBottom(c, top, bottom);
    } else if top[0] != END {
      RowChangeListRest(top);
      RowChangeListRest(bottom);
      MergeMembers(top[1..], bottom[1..], c);
      MemberTakeBoth(c, top, bottom);
    } else {
      EndOnlyLast(top);
      EndOnlyLast(bottom);
      assert top == [END] && bottom == [END];
    }
  }

  /** The events a merge should hold: a change of either row other than END, of the kind the rows say. */
  predicate Member(c: RowPairChange, top: seq<int>, bottom: seq<int>)
  {
    c.x != END && (c.x in top || c.x in bottom) && c.kind == KindOf(c.x, top, bottom)
  }

  lemma MemberTakeTop(c: RowPairChange, top: seq<int>, bottom: seq<int>)
    requires RowChangeList(top) && RowChangeList(bottom) && top[0] < bottom[0]
    requires |top| > 1 && RowChangeList(top[1..])
    ensures Merge(top, bottom) == [RowPairChange(Top, top[0])] + Merge(top[1..], bottom)
    ensures Member(c, top, bottom) <==> c == RowPairChange(Top, top[0]) || Member(c, top[1..], bottom)
  {
    HeadBelowRest(top);
    HeadBelowRest(bottom);
    assert top == [top[0]] + top[1..];
  }

  lemma MemberTakeBottom(c: RowPairChange, top: seq<int>, bottom: seq<int>)
    requires RowChangeList(top) && RowChangeList(bottom) && top[0] > bottom[0]
    requires |bottom| > 1 && RowChangeList(bottom[1..])
    ensures Merge(top, bottom) == [RowPairChange(Bottom, bottom[0])] + Merge(top, bottom[1..])
    ensures Member(c, top, bottom) <==> c == RowPairChange(Bottom, bottom[0]) || Member(c, top, bottom[1..])
  {
    HeadBelowRest(top);
    HeadBelowRest(bottom);
    assert bottom == [bottom[0]] + bottom[1..];
  }

  lemma MemberTakeBoth(c: RowPairChange, top: seq<int>, bottom: seq<int>)
    requires RowChangeList(top) && RowChangeList(bottom) && top[0] == bottom[0] != END
    requires |top| > 1 && RowChangeList(top[1..]) && |bottom| > 1 && RowChangeList(bottom[1..])
    ensures Merge(top, bottom) == [RowPairChange(Both, top[0])] + Merge(top[1..], bottom[1..])
    ensures Member(c, top, bottom) <==> c == RowPairChange(Both, top[0]) || Member(c, top[1..], bottom[1..])
  {
    HeadBelowRest(top);
    HeadBelowRest(bottom);
    assert top == [top[0]] + top[1..];
    assert bottom == [bottom[0]] + bottom[1..];
  }

  /** The small test vectors: two END-only lists give nothing, a single change its one event. */
  lemma MergeSmallExamples()
    ensures Merge([END], [END]) == []
    ensures Merge([0, END], [END]) == [RowPairChange(Top, 0)]
    ensures Merge([END], [0, END]) == [RowPairChange(Bottom, 0)]
    ensures Merge([0, END], [0, END]) == [RowPairChange(Both, 0)]
  {
    assert [0, END][1..] == [END];
  }

  /** The test vector [1, 38, 39, 41] against [1, 2, 39, 42]. */
  lemma MergeExample()
    ensures Merge([1, 38, 39, 41, END], [1, 2, 39, 42, END]) ==
      [RowPairChange(Both, 1), RowPairChange(Bottom, 2), RowPairChange(Top, 38),
       RowPairChange(Both, 39), RowPairChange(Top, 41), RowPairChange(Bottom, 42)]
  {
    var t0, b0 := [1, 38, 39, 41, END], [1, 2, 39, 42, END];
    var t1, b1 := [38, 39, 41, END], [2, 39, 42, END];
    var t2, b2 := [39, 41, END], [39, 42, END];
    assert t0[1..] == t1 && b0[1..] == b1 && b1[1..] == b2 && t1[1..] == t2;
    MergeExampleTail();
    assert Merge(t1, b2) == [RowPairChange(Top, 38)] + Merge(t2, b2);
    assert Merge(t1, b1) == [RowPairChange(Bottom, 2)] + Merge(t1, b2);
    assert Merge(t0, b0) == [RowPairChange(Both, 1)] + Merge(t1, b1);
  }

  lemma MergeExampleTail()
    ensures Merge([39, 41, END], [39, 42, END]) == [RowPairChange(Both, 39), RowPairChange(Top, 41), RowPairChange(Bottom, 42)]
  {
    var t2, b2 := [39, 41, END], [39, 42, END];
    var t3, b3 := [41, END], [42, END];
    var t4, b4 := [END], [END];
    assert t2[1..] == t3 && b2[1..] == b3 && t3[1..] == t4 && b3[1..] == b4;
    assert Merge(t4, b4) == [];
    assert Merge(t4, b3) == [RowPairChange(Bottom, 42)];
    assert Merge(t3, b3) == [RowPairChange(Top, 41), RowPairChange(Bottom, 42)];
  }

  /** `RowPairChangeIter`: the two change lists and how far each has been read. */
  class RowPairChangeIter {
    const topChanges: seq<int>
    const bottomChanges: seq<int>
    var topIndex: nat
    var bottomIndex: nat

    ghost predicate Valid()
      reads this
    {
      ChangeList(topChanges) && ChangeList(bottomChanges) && topIndex < |topChanges| && bottomIndex < |bottomChanges|
    }

    /** What the iterator has still to yield. */
    ghost function Pending(): seq<RowPairChange>
      reads this
      requires Valid()
    {
      ChangeListSuffix(topChanges, topIndex);
      ChangeListSuffix(bottomChanges, bottomIndex);
      Merge(topChanges[topIndex..], bottomChanges[bottomIndex..])
    }

    /** `RowPairChangeIter::new`: both lists are read from their first change. */
    constructor (topChanges: seq<int>, bottomChanges: seq<int>)
      requires ChangeList(topChanges) && ChangeList(bottomChanges)
      ensures Valid() && Pending() == Merge(topChanges, bottomChanges)
      ensures this.topChanges == topChanges && this.bottomChanges == bottomChanges
      ensures topIndex == 0 && bottomIndex == 0
    {
      this.topChanges, this.bottomChanges := topChanges, bottomChanges;
      topIndex, bottomIndex := 0, 0;
      new;
      assert topChanges[0..] == topChanges && bottomChanges[0..] == bottomChanges;
    }

    /**
     * `next`: the head of `Pending()`. A Top event advances only the top
     * index, a Bottom event only the bottom index, a Both event both; at
     * END in both lists nothing is yielded and nothing moves.
     */
    method Next() returns (r: Option<RowPairChange>)
      requires Valid()
      modifies this
      ensures Valid()
      ensures (r == None) == (old(Pending()) == [])
      ensures old(Pending()) != [] ==> r == Some(old(Pending())[0]) && Pending() == old(Pending())[1..]
      ensures r == None ==> topIndex == old(topIndex) && bottomIndex == old(bottomIndex)
      ensures r == None ==> topChanges[topIndex] == END && bottomChanges[bottomIndex] == END
      ensures r.Some? && r.value.kind == Top ==> topIndex == old(topIndex) + 1 && bottomIndex == old(bottomIndex)
      ensures r.Some? && r.value.kind == Bottom ==> topIndex == old(topIndex) && bottomIndex == old(bottomIndex) + 1
      ensures r.Some? && r.value.kind == Both ==> topIndex == old(topIndex) + 1 && bottomIndex == old(bottomIndex) + 1
    {
      var topX := topChanges[topIndex];
      var bottomX := bottomChanges[bottomIndex];
      ghost var top, bottom := topChanges[topIndex..], bottomChanges[bottomIndex..];
      ChangeListSuffix(topChanges, topIndex);
      ChangeListSuffix(bottomChanges, bottomIndex);
      if topX < bottomX {
        assert top[1..] == topChanges[topIndex + 1..];
        topIndex := topIndex + 1;
        r := Some(RowPairChange(Top, topX));
      } else if topX > bottomX {
        assert bottom[1..] == bottomChanges[bottomIndex + 1..];
        bottomIndex := bottomIndex + 1;
        r := Some(RowPairChange(Bottom, bottomX));
      } else if topX != END {
        assert top[1..] == topChanges[topIndex + 1..];
        assert bottom[1..] == bottomChanges[bottomIndex + 1..];
        topIndex := topIndex + 1;
        bottomIndex := bottomIndex + 1;
        r := Some(RowPairChange(Both, topX));
      } else {
        r := None;
      }
    }
  }

  /** Draining a `RowPairChangeIter` gives the merge of the two lists. */
  method CollectRowPairChanges(topChanges: seq<int>, bottomChanges: seq<int>) returns (changes: seq<RowPairChange>)
    requires ChangeList(topChanges) && ChangeList(bottomChanges)
    ensures changes == Merge(topChanges, bottomChanges)
  {
    var iter := new RowPairChangeIter(topChanges, bottomChanges);
    ghost var all := Merge(topChanges, bottomChanges);
    changes := [];
    while true
      invariant iter.Valid()
      invariant changes + iter.Pending() == all
      decreases |iter.Pending()|
    {
      ghost var pending := iter.Pending();
      var next := iter.Next();
      if next.None? {
        break;
      }
      DrainStep(changes, pending, iter.Pending());
      changes := changes + [next.value];
    }
  }
}
