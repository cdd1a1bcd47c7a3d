/**
 * `circular_pairs` of src/more_itertools.rs: the pairs of consecutive items
 * of a sequence, closed by the pair (last, first).
 */
module MoreItertools {
  import opened Wrappers

  /** The pairs `circular_pairs` yields, in order. */
  function CircularPairs<T>(s: seq<T>): (r: seq<(T, T)>)
    ensures |r| == |s|
  {
    if |s| == 0 then [] else Chain(s[0], s[1..], s[0])
  }

  /** Pairs starting with `previous`, through the rest `s`, closing at `first`. */
  function Chain<T>(previous: T, s: seq<T>, first: T): (r: seq<(T, T)>)
    ensures |r| == |s| + 1
  {
    if |s| == 0 then [(previous, first)] else [(previous, s[0])] + Chain(s[0], s[1..], first)
  }

  lemma {:induction false} ChainAt<T>(previous: T, s: seq<T>, first: T, k: nat)
    requires k <= |s|
    ensures Chain(previous, s, first)[k] ==
      ((if k == 0 then previous else s[k - 1]), (if k == |s| then first else s[k]))
  {
    if k > 0 && |s| > 0 {
      ChainAt(s[0], s[1..], first, k - 1);
    }
  }

  /** Pair i is (s[i], s[i + 1]), and the last pair is (last, first). */
  lemma CircularPairsNext<T>(s: seq<T>, i: nat)
    requires i < |s|
    ensures CircularPairs(s)[i] == (s[i], if i + 1 < |s| then s[i + 1] else s[0])
  {
    ChainAt(s[0], s[1..], s[0], i);
  }

  /** Pair i is (s[i], s[(i + 1) % n]): n pairs, the last one wrapping around. */
  lemma CircularPairsAt<T>(s: seq<T>, i: nat)
    requires i < |s|
    ensures CircularPairs(s)[i] == (s[i], s[(i + 1) % |s|])
  {
    ChainAt(s[0], s[1..], s[0], i);
    if i + 1 < |s| {
      assert (i + 1) % |s| == i + 1;
    } else {
      assert (i + 1) % |s| == 0;
    }
  }

  /** The second item of each pair is the first item of the next one (cyclically). */
  lemma CircularPairsLinked<T>(s: seq<T>, i: nat)
    requires i < |s|
    ensures CircularPairs(s)[i].1 == CircularPairs(s)[(i + 1) % |s|].0
  {
    CircularPairsAt(s, i);
    CircularPairsAt(s, (i + 1) % |s|);
  }

  lemma CircularPairsEmpty<T>(s: seq<T>)
    ensures CircularPairs(s) == [] <==> s == []
  {
  }

  lemma CircularPairsSingleton<T>(a: T)
    ensures CircularPairs([a]) == [(a, a)]
  {
  }

  /**
   * `CircularPairIter`: the iterator fields. `rest` is what the wrapped
   * iterator has still to yield.
   */
  class CircularPairIter<T> {
    var rest: seq<T>
    var firstItem: Option<T>
    var previousItem: Option<T>

    /** The pairs this iterator has still to yield. */
    ghost function Pending(): seq<(T, T)>
      reads this
    {
      match previousItem
      case None => []
      case Some(p) => if firstItem.Some? then Chain(p, rest, firstItem.value) else []
    }

    ghost predicate Valid()
      reads this
    {
      && (previousItem.None? ==> rest == [])
      && (previousItem.Some? ==> firstItem.Some?)
    }

    /** `circular_pairs`: takes the first item, if any. */
    constructor (items: seq<T>)
      ensures Valid() && Pending() == CircularPairs(items)
    {
      if |items| == 0 {
        rest, firstItem, previousItem := [], None, None;
      } else {
        rest, firstItem, previousItem := items[1..], Some(items[0]), Some(items[0]);
      }
    }

    /** `next`: the head of `Pending()`; after the wrap-around pair it stays exhausted. */
    method Next() returns (r: Option<(T, T)>)
      requires Valid()
      modifies this
      ensures Valid()
      ensures old(Pending()) == [] ==> r == None && Pending() == []
      ensures old(Pending()) != [] ==> r == Some(old(Pending())[0]) && Pending() == old(Pending())[1..]
    {
      if |rest| > 0 {
        var current := rest[0];
        rest := rest[1..];
        var previous := previousItem.value;
        previousItem := Some(current);
        r := Some((previous, current));
      } else {
        match previousItem
        case None =>
          r := None;
        case Some(previous) =>
          var current := firstItem.value;
          previousItem := None;
          r := Some((previous, current));
      }
    }
  }

  /** Draining the iterator yields exactly `CircularPairs(items)`. */
  method CollectCircularPairs<T>(items: seq<T>) returns (pairs: seq<(T, T)>)
    ensures pairs == CircularPairs(items)
  {
    var iter := new CircularPairIter(items);
    pairs := [];
    while true
      invariant iter.Valid()
      invariant pairs + iter.Pending() == CircularPairs(items)
      decreases |iter.Pending()|
    {
      ghost var pending := iter.Pending();
      var next := iter.Next();
      if next.None? {
        break;
      }
      assert pending == [next.value] + iter.Pending();
      assert (pairs + [next.value]) + iter.Pending() == pairs + pending;
      pairs := pairs + [next.value];
    }
  }
}
