/**
 * src/image_contour_collection/row_changes.rs: the positions in a pixel row
 * where the foreground value (pixel != 0) changes, the row being bordered
 * on both sides by `edgeValue`; the list ends with the sentinel END.
 */
module RowChanges {
  import opened Wrappers
  import opened Geometry

  /** `END`, `u32::MAX`. */
  const END: int := 0xFFFF_FFFF

  predicate Foreground(b: Byte) { b != 0 }

  /**
   * The changes from position x on, the value before x being `previous`:
   * x + i is listed when pixel i differs from the one before it, and
   * x + |pixels| when the last value differs from the edge.
   */
  function Tail(pixels: seq<Byte>, x: int, previous: bool, edgeValue: bool): seq<int>
  {
    if |pixels| == 0 then (if previous != edgeValue then [x] else [])
    else (if Foreground(pixels[0]) != previous then [x] else []) + Tail(pixels[1..], x + 1, Foreground(pixels[0]), edgeValue)
  }

  /** The change positions of a row, without END. */
  function Changes(pixels: seq<Byte>, edgeValue: bool): seq<int>
  {
    Tail(pixels, 0, edgeValue, edgeValue)
  }

  /** The value left of position i: `previous` at 0, else pixel i - 1. */
  function Before(pixels: seq<Byte>, previous: bool, i: int): bool
    requires 0 <= i <= |pixels|
  {
    if i == 0 then previous else Foreground(pixels[i - 1])
  }

  /** The value at position i: the pixel, or the edge past the row. */
  function At(pixels: seq<Byte>, edgeValue: bool, i: int): bool
    requires 0 <= i <= |pixels|
  {
    if i < |pixels| then Foreground(pixels[i]) else edgeValue
  }

  predicate StrictlyIncreasing(s: seq<int>)
  {
    forall i, j :: 0 <= i < j < |s| ==> s[i] < s[j]
  }

  /** The listed positions are strictly increasing and within [x, x + |pixels|]. */
  lemma {:induction false} TailBounds(pixels: seq<Byte>, x: int, previous: bool, edgeValue: bool)
    ensures StrictlyIncreasing(Tail(pixels, x, previous, edgeValue))
    ensures forall p :: p in Tail(pixels, x, previous, edgeValue) ==> x <= p <= x + |pixels|
  {
    if |pixels| > 0 {
      var value := Foreground(pixels[0]);
      var rest := Tail(pixels[1..], x + 1, value, edgeValue);
      TailBounds(pixels[1..], x + 1, value, edgeValue);
      var head := if value != previous then [x] else [];
      var t := head + rest;
      assert Tail(pixels, x, previous, edgeValue) == t;
      forall i, j | 0 <= i < j < |t|
        ensures t[i] < t[j]
      {
        assert t[j] == rest[j - |head|];
        if i < |head| {
          assert rest[j - |head|] in rest;
        }
      }
    }
  }

  /** Position p is listed exactly when the value left of it differs from the value at it. */
  lemma {:induction false} TailAt(pixels: seq<Byte>, x: int, previous: bool, edgeValue: bool, p: int)
    requires x <= p <= x + |pixels|
    ensures p in Tail(pixels, x, previous, edgeValue) <==> Before(pixels, previous, p - x) != At(pixels, edgeValue, p - x)
  {
    if |pixels| > 0 {
      var value := Foreground(pixels[0]);
      var rest := Tail(pixels[1..], x + 1, value, edgeValue);
      var head := if value != previous then [x] else [];
      assert Tail(pixels, x, previous, edgeValue) == head + rest;
      TailBounds(pixels[1..], x + 1, value, edgeValue);
      if p == x {
        assert x !in rest;
      } else {
        TailAt(pixels[1..], x + 1, value, edgeValue, p);
        assert Before(pixels[1..], value, p - x - 1) == Before(pixels, previous, p - x);
        assert At(pixels[1..], edgeValue, p - x - 1) == At(pixels, edgeValue, p - x);
      }
    }
  }

  /** The number of changes is odd iff `previous` differs from the edge; a whole row has an even number. */
  lemma {:induction false} TailParity(pixels: seq<Byte>, x: int, previous: bool, edgeValue: bool)
    ensures |Tail(pixels, x, previous, edgeValue)| % 2 == (if previous != edgeValue then 1 else 0)
  {
    if |pixels| > 0 {
      TailParity(pixels[1..], x + 1, Foreground(pixels[0]), edgeValue);
    }
  }

  /** The changes of a row are strictly increasing, at most its width, and even in number. */
  lemma ChangesShape(pixels: seq<Byte>, edgeValue: bool)
    ensures StrictlyIncreasing(Changes(pixels, edgeValue))
    ensures forall p :: p in Changes(pixels, edgeValue) ==> 0 <= p <= |pixels|
    ensures |Changes(pixels, edgeValue)| % 2 == 0
  {
    TailBounds(pixels, 0, edgeValue, edgeValue);
    TailParity(pixels, 0, edgeValue, edgeValue);
  }

  /** Position p is a change iff the value left of p differs from the value at p (the row bordered by the edge). */
  lemma ChangesAt(pixels: seq<Byte>, edgeValue: bool, p: int)
    requires 0 <= p <= |pixels|
    ensures p in Changes(pixels, edgeValue) <==> Before(pixels, edgeValue, p) != At(pixels, edgeValue, p)
  {
    TailAt(pixels, 0, edgeValue, edgeValue, p);
  }

  /** The test vectors: [1] on a background edge gives 0, 1; [0, 1, 0] on a foreground edge gives 0, 1, 2, 3. */
  lemma ChangesExamples()
    ensures Changes([1], false) == [0, 1]
    ensures Changes([1], true) == []
    ensures Changes([0, 0], true) == [0, 2]
    ensures Changes([0, 1, 0], false) == [1, 2]
    ensures Changes([0, 1, 0], true) == [0, 1, 2, 3]
  {
    assert [0, 0][1..] == [0];
    assert [0, 1, 0][1..] == [1, 0] && [1, 0][1..] == [0];
  }

  /** `RowChangeIter`: `row` is what the pixel iterator has still to yield, None once it is done. */
  class RowChangeIter {
    var row: Option<seq<Byte>>
    var edgeValue: bool
    var previous: bool
    var x: int

    /** What the iterator has still to yield. */
    ghost function Pending(): seq<int>
      reads this
    {
      match row
      case Some(pixels) => Tail(pixels, x, previous, edgeValue) + [END]
      case None => if x != END then [END] else []
    }

    /** x counts the pixels read, and stays below END while there are pixels. */
    ghost predicate Valid()
      reads this
    {
      && 0 <= x
      && (row.Some? ==> x + |row.value| < END)
      && (row.None? ==> x <= END)
    }

    /** `RowChangeIter::empty`: yields END only. */
    constructor Empty()
      ensures Valid() && Pending() == [END]
    {
      row, edgeValue, previous, x := None, false, false, 0;
    }

    /** `RowChangeIter::from`; a row as wide as END would make its width read as the sentinel. */
    constructor From(pixels: seq<Byte>, edgeValue: bool)
      requires |pixels| < END
      ensures Valid() && Pending() == Changes(pixels, edgeValue) + [END]
    {
      row, this.edgeValue, previous, x := Some(pixels), edgeValue, edgeValue, 0;
    }

    /** `next`: the head of `Pending()`; after END it yields nothing again. */
    method Next() returns (r: Option<int>)
      requires Valid()
      modifies this
      ensures Valid() && edgeValue == old(edgeValue)
      ensures old(Pending()) == [] ==> r == None && Pending() == []
      ensures old(Pending()) != [] ==> r == Some(old(Pending())[0]) && Pending() == old(Pending())[1..]
    {
      if row.Some? {
        r := NextInRow();
        if r.Some? {
          return;
        }
      }
      r := NextAfterRow();
    }

    /** The part of `next` that reads the row: a change within or at the end of it, or None (and no row) after. */
    method NextInRow() returns (r: Option<int>)
      requires Valid() && row.Some?
      modifies this
      ensures Valid() && edgeValue == old(edgeValue)
      ensures r.Some? ==> old(Pending()) != [] && r == Some(old(Pending())[0]) && Pending() == old(Pending())[1..]
      ensures r.None? ==> row.None? && Pending() == old(Pending())
    {
      var found, change, rest, position, last := ReadUntilChange(row.value, x, previous, edgeValue);
      if found {
        ghost var tail := Tail(rest, position, last, edgeValue);
        assert old(Pending()) == [change] + (tail + [END]);
        Cons(change, tail + [END]);
        row, x, previous := Some(rest), position, last;
        r := Some(change);
        return;
      }
      row, x, previous := None, position, last;
      if previous != edgeValue {
        r := Some(x);
      } else {
        r := None;
      }
    }

    /** The part of `next` once the row is done: END once, then nothing. */
    method NextAfterRow() returns (r: Option<int>)
      requires Valid() && row.None?
      modifies this
      ensures Valid() && edgeValue == old(edgeValue)
      ensures old(Pending()) == [] ==> r == None && Pending() == []
      ensures old(Pending()) != [] ==> r == Some(old(Pending())[0]) && Pending() == old(Pending())[1..]
    {
      if x != END {
        x := END;
        r := Some(END);
      } else {
        r := None;
      }
    }
  }

  /**
   * The pixel loop of `next`: reads pixels until one differs from the value
   * before it (`found`, at position `change`), or until the row is used up.
   */
  method ReadUntilChange(pixels: seq<Byte>, x: int, previous: bool, edgeValue: bool)
    returns (found: bool, change: int, rest: seq<Byte>, position: int, last: bool)
    requires 0 <= x && x + |pixels| < END
    ensures 0 <= position && position + |rest| < END
    ensures found ==> Tail(pixels, x, previous, edgeValue) == [change] + Tail(rest, position, last, edgeValue)
    ensures !found ==> rest == [] && Tail(pixels, x, previous, edgeValue) == Tail([], position, last, edgeValue)
  {
    rest, position, last := pixels, x, previous;
    while |rest| > 0
      invariant 0 <= position && position + |rest| < END
      invariant Tail(rest, position, last, edgeValue) == Tail(pixels, x, previous, edgeValue)
      decreases |rest|
    {
      var pixel := rest[0];
      var value := pixel != 0;
      var after := rest[1..];
      assert Tail(rest, position, last, edgeValue) ==
        (if value != last then [position] else []) + Tail(after, position + 1, value, edgeValue);
      if value != last {
        found, change := true, position;
        rest, position, last := after, position + 1, value;
        return;
      }
      rest, position, last := after, position + 1, value;
    }
    found, change := false, position;
  }

  lemma Cons<T>(head: T, tail: seq<T>)
    ensures ([head] + tail)[0] == head && ([head] + tail)[1..] == tail
  {
  }

  /** Moving the head of what an iterator has still to yield onto what it yielded. */
  lemma DrainStep<T>(xs: seq<T>, pending: seq<T>, rest: seq<T>)
    requires |pending| > 0 && rest == pending[1..]
    ensures (xs + [pending[0]]) + rest == xs + pending
  {
    assert pending == [pending[0]] + rest;
  }

  /** Draining `RowChangeIter::from`: the changes of the row, then END. */
  method CollectRowChanges(pixels: seq<Byte>, edgeValue: bool) returns (xs: seq<int>)
    requires |pixels| < END
    ensures xs == Changes(pixels, edgeValue) + [END]
  {
    var iter := new RowChangeIter.From(pixels, edgeValue);
    ghost var all := Changes(pixels, edgeValue) + [END];
    xs := [];
    while true
      invariant iter.Valid()
      invariant xs + iter.Pending() == all
      decreases |iter.Pending()|
    {
      ghost var pending := iter.Pending();
      var next := iter.Next();
      if next.None? {
        break;
      }
      DrainStep(xs, pending, iter.Pending());
      xs := xs + [next.value];
    }
  }

  /** Draining `RowChangeIter::empty`: END alone. */
  method CollectEmpty() returns (xs: seq<int>)
    ensures xs == [END]
  {
    var iter := new RowChangeIter.Empty();
    xs := [];
    while true
      invariant iter.Valid()
      invariant xs + iter.Pending() == [END]
      decreases |iter.Pending()|
    {
      ghost var pending := iter.Pending();
      var next := iter.Next();
      if next.None? {
        break;
      }
      DrainStep(xs, pending, iter.Pending());
      xs := xs + [next.value];
    }
  }
}
