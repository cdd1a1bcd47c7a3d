/**
 * src/image_contours/row_changes.rs: the older row change iterator. A pixel
 * is foreground when its value is at least 128, and the row is bordered by
 * background on both sides.
 */
module LegacyRowChanges {
  import opened Wrappers
  import opened Geometry
  import opened RowChangeSpec = RowChanges

  /** The foreground test of this generation. */
  predicate IsForeground(b: Byte) { b >= 128 }

  /** The row as the newer foreground test (nonzero) sees it: 1 for a foreground pixel, 0 otherwise. */
  function Binarize(pixels: seq<Byte>): (r: seq<Byte>)
    ensures |r| == |pixels|
  {
    if |pixels| == 0 then [] else [if IsForeground(pixels[0]) then 1 else 0] + Binarize(pixels[1..])
  }

  lemma BinarizeAt(pixels: seq<Byte>, i: int)
    requires 0 <= i < |pixels|
    ensures Foreground(Binarize(pixels)[i]) == IsForeground(pixels[i])
  {
    if i > 0 {
      BinarizeAt(pixels[1..], i - 1);
    }
  }

  /** The change positions of a row, without END. */
  function LegacyChanges(pixels: seq<Byte>): seq<int>
  {
    Changes(Binarize(pixels), false)
  }

  /**
   * Position p is listed exactly when the pixel left of p (background at
   * the left border) and the pixel at p (background past the row) differ
   * in the 128 threshold test.
   */
  lemma LegacyChangesAt(pixels: seq<Byte>, p: int)
    requires 0 <= p <= |pixels|
    ensures p in LegacyChanges(pixels) <==>
      (p > 0 && IsForeground(pixels[p - 1])) != (p < |pixels| && IsForeground(pixels[p]))
  {
    ChangesAt(Binarize(pixels), false, p);
    if p > 0 {
      BinarizeAt(pixels, p - 1);
    }
    if p < |pixels| {
      BinarizeAt(pixels, p);
    }
  }

  /** The changes are strictly increasing, at most the width, and even in number. */
  lemma LegacyChangesShape(pixels: seq<Byte>)
    ensures StrictlyIncreasing(LegacyChanges(pixels))
    ensures forall p :: p in LegacyChanges(pixels) ==> 0 <= p <= |pixels|
    ensures |LegacyChanges(pixels)| % 2 == 0
  {
    ChangesShape(Binarize(pixels), false);
  }

  /** `RowChanges`: `row` is what the pixel iterator has still to yield. */
  class RowChanges {
    var row: seq<Byte>
    var canIterate: bool
    var previous: bool
    var x: int

    /** What the iterator has still to yield. */
    ghost function Pending(): seq<int>
      reads this
    {
      if canIterate then Tail(Binarize(row), x, previous, false) + [END]
      else if x != END then [END] else []
    }

    ghost predicate Valid()
      reads this
    {
      && 0 <= x
      && (canIterate ==> x + |row| < END)
      && (!canIterate ==> x <= END)
    }

    /** `RowChanges::from`: the previous value starts as background. */
    constructor From(pixels: seq<Byte>)
      requires |pixels| < END
      ensures Valid() && Pending() == LegacyChanges(pixels) + [END]
    {
      row, canIterate, previous, x := pixels, true, false, 0;
    }

    /** `next`: the head of `Pending()`; after END it yields nothing again. */
    method Next() returns (r: Option<int>)
      requires Valid()
      modifies this
      ensures Valid()
      ensures old(Pending()) == [] ==> r == None && Pending() == []
      ensures old(Pending()) != [] ==> r == Some(old(Pending())[0]) && Pending() == old(Pending())[1..]
    {
      if canIterate {
        r := NextInRow();
        if r.Some? {
          return;
        }
      }
      if x != END {
        x := END;
        r := Some(END);
        return;
      }
      r := None;
    }

    /** The part of `next` that reads the row: a change within or at the end of it, or None once the row is done. */
    method NextInRow() returns (r: Option<int>)
      requires Valid() && canIterate
      modifies this
      ensures Valid()
      ensures r.Some? ==> old(Pending()) != [] && r == Some(old(Pending())[0]) && Pending() == old(Pending())[1..]
      ensures r.None? ==> !canIterate && x < END && Pending() == old(Pending())
    {
      var found, change, rest, position, last := ReadPixelsUntilChange(row, x, previous);
      if found {
        ghost var tail := Tail(Binarize(rest), position, last, false);
        assert old(Pending()) == [change] + (tail + [END]);
        Cons(change, tail + [END]);
        row, x, previous := rest, position, last;
        r := Some(change);
        return;
      }
      row, x, previous, canIterate := rest, position, last, false;
      if previous {
        r := Some(x);
      } else {
        r := None;
      }
    }
  }

  /**
   * The pixel loop of `next`: reads pixels until one differs from the value
   * before it (`found`, at position `change`), or until the row is used up.
   */
  method ReadPixelsUntilChange(pixels: seq<Byte>, x: int, previous: bool)
    returns (found: bool, change: int, rest: seq<Byte>, position: int, last: bool)
    requires 0 <= x && x + |pixels| < END
    ensures 0 <= position && position + |rest| < END
    ensures found ==> Tail(Binarize(pixels), x, previous, false) == [change] + Tail(Binarize(rest), position, last, false)
    ensures !found ==> rest == [] && Tail(Binarize(pixels), x, previous, false) == Tail([], position, last, false)
  {
    rest, position, last := pixels, x, previous;
    while |rest| > 0
      invariant 0 <= position && position + |rest| < END
      invariant Tail(Binarize(rest), position, last, false) == Tail(Binarize(pixels), x, previous, false)
      decreases |rest|
    {
      var pixel := rest[0];
      var value := pixel >= 128;
      var after := rest[1..];
      ghost var binary := Binarize(rest);
      assert binary == [if value then 1 else 0] + Binarize(after);
      Cons(binary[0], Binarize(after));
      assert Tail(binary, position, last, false) ==
        (if value != last then [position] else []) + Tail(Binarize(after), position + 1, value, false);
      if value != last {
        found, change := true, position;
        rest, position, last := after, position + 1, value;
        return;
      }
      rest, position, last := after, position + 1, value;
    }
    found, change := false, position;
  }

  /** Draining `RowChanges::from`: the changes of the row, then END. */
  method CollectLegacyRowChanges(pixels: seq<Byte>) returns (xs: seq<int>)
    requires |pixels| < END
    ensures xs == LegacyChanges(pixels) + [END]
  {
    var iter := new RowChanges.From(pixels);
    ghost var all := LegacyChanges(pixels) + [END];
    xs := [];
    while true
      invariant iter.Valid()
      invariant xs + iter.Pending() == all
      decreases |iter.Pending()|
    {
      ghost var pending := iter.Pending();
      var next := iter.Next();
      if next.None? {
        break;
      }
      DrainStep(xs, pending, iter.Pending());
      xs := xs + [next.value];
    }
  }

  /** `RunChanges::empty` (src/image_contours/run_changes.rs): END alone, the change list of a row without pixels. */
  function EmptyChanges(): (r: seq<int>)
    ensures r == LegacyChanges([]) + [END]
  {
    [END]
  }
}
