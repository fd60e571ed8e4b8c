/**
 The arithmetic on the visual's current-image index: how an update with a new
 gallery length pulls it back into range, how the two arrows move it without
 wrapping, and when each arrow is hidden.
 */
module Cursor {

  /**
   The states the index can be in. With items, it designates one of them.
   Without items it is -1 after an update, or 0 before the first update
   (the constructor's value).
   */
  predicate Consistent(index: int, length: nat) {
    if length == 0 then index == -1 || index == 0 else 0 <= index < length
  }

  /** The two successive range checks of an update: a negative index is
      raised to 0, then an index at or past the end drops to the last item. */
  function Clamp(index: int, length: nat): (r: int)
    ensures Consistent(r, length) && (length == 0 ==> r == -1)
    ensures 0 <= index < length ==> r == index
    ensures index < 0 && length > 0 ==> r == 0
    ensures index >= length ==> r == length - 1
  {
    var raised := if index < 0 then 0 else index;
    if raised >= length then length - 1 else raised
  }

  /** The right arrow's effect: one step forward unless on the last item. */
  function StepRight(index: int, length: nat): int {
    if index < length - 1 then index + 1 else index
  }

  /** The left arrow's effect: one step back unless on the first item. */
  function StepLeft(index: int): int {
    if index > 0 then index - 1 else index
  }

  /** The left arrow is not displayed on the first item. */
  predicate LeftHidden(index: int) {
    index == 0
  }

  /** The right arrow is not displayed on the last item. */
  predicate RightHidden(index: int, length: nat) {
    index == length - 1
  }

  /** A right click moves by exactly one or not at all, never past the last
      item, and keeps the index consistent. */
  lemma StepRightSaturates(index: int, length: nat)
    requires Consistent(index, length)
    ensures StepRight(index, length) == index + 1 || StepRight(index, length) == index
    ensures StepRight(index, length) == index + 1 <==> index < length - 1
    ensures length > 0 ==> StepRight(index, length) <= length - 1
    ensures Consistent(StepRight(index, length), length)
  {
  }

  /** A left click moves by exactly one or not at all, never below the first
      item, and keeps the index consistent. */
  lemma StepLeftSaturates(index: int, length: nat)
    requires Consistent(index, length)
    ensures StepLeft(index) == index - 1 || StepLeft(index) == index
    ensures StepLeft(index) == index - 1 <==> index > 0
    ensures length > 0 ==> StepLeft(index) >= 0
    ensures Consistent(StepLeft(index), length)
  {
  }

  /** Away from the ends, a left click undoes a right click and vice versa. */
  lemma StepsUndoEachOther(index: int, length: nat)
    requires 0 <= index < length
    ensures index < length - 1 ==> StepLeft(StepRight(index, length)) == index
    ensures index > 0 ==> StepRight(StepLeft(index), length) == index
  {
  }

  /** On a non-empty gallery an arrow is hidden exactly when clicking it
      would do nothing. */
  lemma HiddenArrowIsInert(index: int, length: nat)
    requires length > 0 && Consistent(index, length)
    ensures LeftHidden(index) <==> StepLeft(index) == index
    ensures RightHidden(index, length) <==> StepRight(index, length) == index
  {
  }

  /** Both arrows are hidden at once exactly when the gallery has one item. */
  lemma BothHiddenIffSingleItem(index: int, length: nat)
    requires length > 0 && Consistent(index, length)
    ensures LeftHidden(index) && RightHidden(index, length) <==> length == 1
  {
  }

  /** After an update that emptied the gallery (index -1), the next update
      with items starts at the first item. */
  lemma EmptyThenRefilled(index: int, length: nat)
    requires length > 0
    ensures Clamp(index, 0) == -1
    ensures Clamp(Clamp(index, 0), length) == 0
  {
  }

  /** k right clicks in a row. */
  function StepRightTimes(index: int, length: nat, k: nat): int
    decreases k
  {
    if k == 0 then index else StepRightTimes(StepRight(index, length), length, k - 1)
  }

  /** k left clicks in a row. */
  function StepLeftTimes(index: int, k: nat): int
    decreases k
  {
    if k == 0 then index else StepLeftTimes(StepLeft(index), k - 1)
  }

  /** Repeated right clicks advance one item per click and then stay on the last item. */
  lemma {:induction false} RightClicksSaturate(index: int, length: nat, k: nat)
    requires length > 0 && Consistent(index, length)
    ensures StepRightTimes(index, length, k) == if index + k < length then index + k else length - 1
    decreases k
  {
    if k > 0 {
      RightClicksSaturate(StepRight(index, length), length, k - 1);
    }
  }

  /** Repeated left clicks go back one item per click and then stay on the first item. */
  lemma {:induction false} LeftClicksSaturate(index: int, length: nat, k: nat)
    requires length > 0 && Consistent(index, length)
    ensures StepLeftTimes(index, k) == if index - k > 0 then index - k else 0
    decreases k
  {
    if k > 0 {
      LeftClicksSaturate(StepLeft(index), length, k - 1);
    }
  }

  /** The events the visual reacts to, with the new gallery length for an update. */
  datatype Event = Updated(length: nat) | ClickedRight | ClickedLeft

  /** The index together with the length of the gallery it points into. */
  datatype Position = Position(index: int, length: nat)

  /** Where the visual stands when constructed: index 0, no items yet. */
  const INITIAL: Position := Position(0, 0)

  /** The effect of one event on the position. */
  function Apply(p: Position, e: Event): Position {
    match e
    case Updated(n) => Position(Clamp(p.index, n), n)
    case ClickedRight => Position(StepRight(p.index, p.length), p.length)
    case ClickedLeft => Position(StepLeft(p.index), p.length)
  }

  /** The effect of a series of events, applied in order. */
  function Run(p: Position, events: seq<Event>): Position
    decreases |events|
  {
    if events == [] then p else Run(Apply(p, events[0]), events[1..])
  }

  /** Every sequence of updates and clicks keeps the index consistent with
      the gallery, and a right or left click never changes the gallery. */
  lemma {:induction false} RunStaysConsistent(p: Position, events: seq<Event>)
    requires Consistent(p.index, p.length)
    ensures Consistent(Run(p, events).index, Run(p, events).length)
    ensures (forall i :: 0 <= i < |events| ==> !events[i].Updated?) ==> Run(p, events).length == p.length
    decreases |events|
  {
    if events != [] {
      var next := Apply(p, events[0]);
      StepRightSaturates(p.index, p.length);
      StepLeftSaturates(p.index, p.length);
      RunStaysConsistent(next, events[1..]);
    }
  }

  /** From construction, any history of events leaves the index consistent. */
  lemma {:induction false} ReachableIsConsistent(events: seq<Event>)
    ensures Consistent(Run(INITIAL, events).index, Run(INITIAL, events).length)
  {
    RunStaysConsistent(INITIAL, events);
  }
}
