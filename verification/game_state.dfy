/**
 * The top-level screen machine: which screen is active, and which one was
 * active before the last change so that it can be returned to.
 */
module GameStates {
  import opened Wrappers

  /** The four state constants TITLE_SCREEN = 0 .. PAUSED = 3. */
  datatype Screen = TitleScreen | CharacterSelect | Playing | Paused

  /** The two fields of the machine as one value. */
  datatype Snapshot = Snapshot(current: Screen, previous: Option<Screen>)

  /** The state after `change_state(next)`. */
  function AfterChange(s: Snapshot, next: Screen): Snapshot
  {
    Snapshot(next, Some(s.current))
  }

  /** The state after `return_to_previous_state()`: a swap, or nothing without a previous state. */
  function AfterReturn(s: Snapshot): Snapshot
  {
    if s.previous.Some? then Snapshot(s.previous.value, Some(s.current)) else s
  }

  class GameState {
    var currentState: Screen
    var previousState: Option<Screen>

    function State(): Snapshot
      reads this
    {
      Snapshot(currentState, previousState)
    }

    constructor ()
      ensures currentState == TitleScreen && previousState == None
    {
      currentState := TitleScreen;
      previousState := None;
    }

    method ChangeState(next: Screen)
      modifies this
      ensures State() == AfterChange(old(State()), next)
    {
      previousState := Some(currentState);
      currentState := next;
    }

    method ReturnToPreviousState()
      modifies this
      ensures State() == AfterReturn(old(State()))
    {
      if previousState.Some? {
        var temp := currentState;
        currentState := previousState.value;
        previousState := Some(temp);
      }
    }

    predicate IsTitleScreen() reads this { currentState == TitleScreen }
    predicate IsCharacterSelect() reads this { currentState == CharacterSelect }
    predicate IsPlaying() reads this { currentState == Playing }
    predicate IsPaused() reads this { currentState == Paused }
  }

  /** Changing state records the state that was left. */
  lemma ChangeRecordsPrevious(s: Snapshot, next: Screen)
    ensures AfterChange(s, next).current == next
    ensures AfterChange(s, next).previous == Some(s.current)
  {
  }

  /** A change followed by a return lands back on the screen that was left. */
  lemma ChangeThenReturnRestores(s: Snapshot, next: Screen)
    ensures AfterReturn(AfterChange(s, next)) == Snapshot(s.current, Some(next))
  {
  }

  /** Returning twice in a row changes nothing. */
  lemma ReturnTwiceIsIdentity(s: Snapshot)
    ensures AfterReturn(AfterReturn(s)) == s
  {
  }

  /** With no previous state, a return leaves both fields as they were. */
  lemma ReturnWithoutPreviousIsNoop(s: Snapshot)
    requires s.previous == None
    ensures AfterReturn(s) == s
  {
  }

  /** Exactly one of the four screen predicates holds. */
  lemma ExactlyOneScreen(g: GameState)
    ensures (if g.IsTitleScreen() then 1 else 0) + (if g.IsCharacterSelect() then 1 else 0)
          + (if g.IsPlaying() then 1 else 0) + (if g.IsPaused() then 1 else 0) == 1
    ensures g.IsTitleScreen() <==> g.currentState == TitleScreen
    ensures g.IsCharacterSelect() <==> g.currentState == CharacterSelect
    ensures g.IsPlaying() <==> g.currentState == Playing
    ensures g.IsPaused() <==> g.currentState == Paused
  {
  }
}
