/**
 * src/image_contour_collection/feature_automaton.rs: the six-state automaton
 * (Miyatake's RD-code states, numbered from 0) that turns row pair changes
 * into contour features.
 */
module FeatureAutomaton {
  import RowPairChanges

  /** Contour feature kinds; Miyatake's codes: Head (1)/(9), Vertical (2)/(6), LeftShelf (3)/(4), RightShelf (7)/(8), InnerFoot (10), OuterFoot (5). */
  datatype FeatureKind = None | Head | Vertical | LeftShelf | RightShelf | InnerFoot | OuterFoot

  /** A feature and the x of its representative point. */
  datatype Feature = Feature(kind: FeatureKind, x: int)

  /** One table entry: the new state, whether the feature x takes the change's x, and the feature emitted. */
  datatype Transition = Transition(newState: nat, updateX: bool, kind: FeatureKind)

  const STEP_IF_TOP: seq<Transition> := [
    Transition(1, false, None),
    Transition(0, true, OuterFoot),
    Transition(3, false, LeftShelf),
    Transition(4, true, None),
    Transition(3, false, InnerFoot),
    Transition(0, true, RightShelf)
  ]

  const STEP_IF_BOTTOM: seq<Transition> := [
    Transition(2, true, None),
    Transition(3, true, LeftShelf),
    Transition(0, false, Head),
    Transition(5, false, None),
    Transition(0, false, RightShelf),
    Transition(3, true, Head)
  ]

  const STEP_IF_BOTH: seq<Transition> := [
    Transition(3, false, Vertical),
    Transition(4, true, LeftShelf),
    Transition(5, false, LeftShelf),
    Transition(0, false, Vertical),
    Transition(5, false, InnerFoot),
    Transition(4, true, Head)
  ]

  /** The table entry a change of the given kind selects in the given state. */
  function TransitionOf(kind: RowPairChanges.RowPairChangeKind, state: nat): Transition
    requires state < 6
  {
    match kind
    case Top => STEP_IF_TOP[state]
    case Bottom => STEP_IF_BOTTOM[state]
    case Both => STEP_IF_BOTH[state]
  }

  /** The automaton never leaves the states 0 to 5. */
  lemma TransitionStaysInStates(kind: RowPairChanges.RowPairChangeKind, state: nat)
    requires state < 6
    ensures TransitionOf(kind, state).newState < 6
  {
  }

  /** A Head is emitted only on Bottom in state 2 or 5, or on Both in state 5. */
  lemma HeadOnly(kind: RowPairChanges.RowPairChangeKind, state: nat)
    requires state < 6
    ensures TransitionOf(kind, state).kind == Head <==>
      (kind == RowPairChanges.Bottom && (state == 2 || state == 5)) || (kind == RowPairChanges.Both && state == 5)
  {
  }

  /** A Vertical is emitted only on Both in state 0 or 3. */
  lemma VerticalOnly(kind: RowPairChanges.RowPairChangeKind, state: nat)
    requires state < 6
    ensures TransitionOf(kind, state).kind == Vertical <==> kind == RowPairChanges.Both && (state == 0 || state == 3)
  {
  }

  /** The pixel value of the top row left of the scan position that a state stands for. */
  predicate TopValue(state: nat) { state == 1 || state == 3 || state == 5 }

  /** The pixel value of the bottom row left of the scan position that a state stands for. */
  predicate BottomValue(state: nat) { state == 2 || state == 3 || state == 4 }

  /**
   * The states encode the two pixel values left of the scan position: a
   * change in a row flips that row's value, and the pair (background,
   * background) is state 0 alone.
   */
  lemma TransitionFlipsValues(kind: RowPairChanges.RowPairChangeKind, state: nat)
    requires state < 6
    ensures TopValue(TransitionOf(kind, state).newState) == (TopValue(state) != (kind != RowPairChanges.Bottom))
    ensures BottomValue(TransitionOf(kind, state).newState) == (BottomValue(state) != (kind != RowPairChanges.Top))
    ensures !TopValue(state) && !BottomValue(state) <==> state == 0
  {
  }

  /** How many open ends a feature adds to the queue of the tracer: a Head two, a Foot takes two away. */
  function QueueChange(kind: FeatureKind): int
  {
    match kind
    case Head => 2
    case InnerFoot => -2
    case OuterFoot => -2
    case _ => 0
  }

  /** How many open ends a feature takes from the front of the queue before putting any back. */
  function QueueTaken(kind: FeatureKind): nat
  {
    match kind
    case Vertical => 1
    case LeftShelf => 1
    case RightShelf => 1
    case InnerFoot => 2
    case OuterFoot => 2
    case _ => 0
  }

  /** The potential of a state in the queue balance. */
  function Potential(state: nat): int
    requires state < 6
  {
    [0, 1, -1, 0, 1, -1][state]
  }

  /**
   * The queue balance: with T top changes still to read and B bottom
   * changes read in the row pair, the tracer's queue holds T + B +
   * Potential(state) open ends. Each transition keeps that balance, and the
   * queue holds enough entries for what the feature takes from it, given
   * that a change being read from a row is there to read and that states 2
   * and 5 are reached only after a bottom change.
   */
  lemma QueueBalance(kind: RowPairChanges.RowPairChangeKind, state: nat, remainingTop: int, readBottom: int)
    requires state < 6
    requires remainingTop >= 0 && readBottom >= 0
    requires kind != RowPairChanges.Bottom ==> remainingTop >= 1
    requires state == 2 || state == 5 ==> readBottom >= 1
    ensures var t := TransitionOf(kind, state);
      var remainingTop' := if kind != RowPairChanges.Bottom then remainingTop - 1 else remainingTop;
      var readBottom' := if kind != RowPairChanges.Top then readBottom + 1 else readBottom;
      && remainingTop + readBottom + Potential(state) + QueueChange(t.kind) == remainingTop' + readBottom' + Potential(t.newState)
      && QueueTaken(t.kind) <= remainingTop + readBottom + Potential(state)
      && (t.newState == 2 || t.newState == 5 ==> readBottom' >= 1)
  {
  }

  /**
   * The open ends in the tracer's queue alternate between incoming ends,
   * whose point still waits for the point before it, and outgoing ends,
   * whose point's next point is still to come. Which positions are
   * outgoing depends only on the state: position k is outgoing exactly
   * when k + EndParity(state) is odd.
   */
  function EndParity(state: nat): nat
  {
    if 3 <= state <= 5 then 1 else 0
  }

  /**
   * Every feature finds the open ends it takes facing the way it links
   * them: a LeftShelf and an OuterFoot find an incoming end at the front,
   * a RightShelf and an InnerFoot an outgoing one, and a Vertical occurs
   * only where both rows hold the same value. Dropping the ends taken from
   * the front gives the parity of the new state.
   */
  lemma TransitionEndParity(kind: RowPairChanges.RowPairChangeKind, state: nat)
    requires state < 6
    ensures var t := TransitionOf(kind, state);
      && EndParity(t.newState) == (EndParity(state) + QueueTaken(t.kind)) % 2
      && (t.kind == LeftShelf || t.kind == OuterFoot ==> EndParity(state) == 0)
      && (t.kind == RightShelf || t.kind == InnerFoot ==> EndParity(state) == 1)
      && (t.kind == Vertical ==> state == 0 || state == 3)
  {
  }

  /** `FeatureAutomaton`: the state and the x of the representative point of the feature. */
  class FeatureAutomaton {
    var state: nat
    var featureX: int

    ghost predicate Valid()
      reads this
    {
      state < 6
    }

    /** `FeatureAutomaton::new`: state 0, feature x 0. */
    constructor ()
      ensures Valid() && state == 0 && featureX == 0
    {
      state, featureX := 0, 0;
    }

    /**
     * `step`: a table lookup on the change kind and the state; the feature
     * x becomes the change's x exactly when the entry says so, and the
     * emitted feature carries the feature x after the step.
     */
    method Step(change: RowPairChanges.RowPairChange) returns (feature: Feature)
      requires Valid()
      modifies this
      ensures Valid()
      ensures state == TransitionOf(change.kind, old(state)).newState
      ensures featureX == if TransitionOf(change.kind, old(state)).updateX then change.x else old(featureX)
      ensures feature == Feature(TransitionOf(change.kind, old(state)).kind, featureX)
    {
      var transition := match change.kind
        case Top => STEP_IF_TOP[state]
        case Bottom => STEP_IF_BOTTOM[state]
        case Both => STEP_IF_BOTH[state];
      state := transition.newState;
      if transition.updateX {
        featureX := change.x;
      }
      feature := Feature(transition.kind, featureX);
    }
  }
}
