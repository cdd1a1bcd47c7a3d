/**
 * src/image_contours/state_machine.rs: the older generation of the feature
 * automaton, selecting its table by the ordering of the top and bottom
 * change positions instead of by a change kind.
 */
module StateMachine {
  import RowPairChanges
  import opened FeatureAutomaton

  /** `std::cmp::Ordering` of the top change position against the bottom one. */
  datatype Ordering = Less | Equal | Greater

  const STEP_IF_GREATER: seq<Transition> := [
    Transition(1, false, None),
    Transition(0, true, OuterFoot),
    Transition(3, false, LeftShelf),
    Transition(4, true, None),
    Transition(3, false, InnerFoot),
    Transition(0, true, RightShelf)
  ]

  const STEP_IF_EQUAL: seq<Transition> := [
    Transition(3, false, Vertical),
    Transition(4, true, LeftShelf),
    Transition(5, false, LeftShelf),
    Transition(0, false, Vertical),
    Transition(5, false, InnerFoot),
    Transition(4, true, Head)
  ]

  const STEP_IF_LESS: seq<Transition> := [
    Transition(2, true, None),
    Transition(3, true, LeftShelf),
    Transition(0, false, Head),
    Transition(5, false, None),
    Transition(0, false, RightShelf),
    Transition(3, true, Head)
  ]

  /** The table entry an ordering selects in a state. */
  function OrderingTransition(ordering: Ordering, state: nat): Transition
    requires state < 6
  {
    match ordering
    case Less => STEP_IF_LESS[state]
    case Equal => STEP_IF_EQUAL[state]
    case Greater => STEP_IF_GREATER[state]
  }

  /** The change kind an ordering stands for in the newer automaton. */
  function KindOfOrdering(ordering: Ordering): RowPairChanges.RowPairChangeKind
  {
    match ordering
    case Greater => RowPairChanges.Top
    case Less => RowPairChanges.Bottom
    case Equal => RowPairChanges.Both
  }

  /** The three tables are those of the newer automaton, with Greater for Top, Less for Bottom and Equal for Both. */
  lemma TablesAgree()
    ensures STEP_IF_GREATER == STEP_IF_TOP
    ensures STEP_IF_LESS == STEP_IF_BOTTOM
    ensures STEP_IF_EQUAL == STEP_IF_BOTH
    ensures forall ordering: Ordering, state: nat :: state < 6 ==>
      OrderingTransition(ordering, state) == TransitionOf(KindOfOrdering(ordering), state)
  {
  }

  /** `StateMachine`: the state and the stored x. */
  class StateMachine {
    var state: nat
    var x: int

    ghost predicate Valid()
      reads this
    {
      state < 6
    }

    /** `StateMachine::new`: state 0, x 0. */
    constructor ()
      ensures Valid() && state == 0 && x == 0
    {
      state, x := 0, 0;
    }

    /** `step`: the ordering selects the table; x is updated exactly when the entry says so, and the stored x is returned. */
    method Step(ordering: Ordering, newX: int) returns (storedX: int, feature: FeatureKind)
      requires Valid()
      modifies this
      ensures Valid()
      ensures state == OrderingTransition(ordering, old(state)).newState
      ensures x == if OrderingTransition(ordering, old(state)).updateX then newX else old(x)
      ensures storedX == x && feature == OrderingTransition(ordering, old(state)).kind
    {
      var transition := match ordering
        case Less => STEP_IF_LESS[state]
        case Equal => STEP_IF_EQUAL[state]
        case Greater => STEP_IF_GREATER[state];
      state := transition.newState;
      if transition.updateX {
        x := newX;
      }
      storedX, feature := x, transition.kind;
    }
  }
}
