/**
 * The title menu: start the game, open the help screen or quit. Unlike
 * the pause menu it has no Escape shortcut.
 */
module TitleMenu {
  import opened Wrappers
  import opened Input
  import MenuCursor

  datatype Button = Button(text: string, action: string)

  /** The button table, in display order. */
  function TitleButtons(): seq<Button>
  {
    [ Button("Iniciar Jogo", "start_game"),
      Button("Ajuda", "help"),
      Button("Sair", "quit") ]
  }

  /** What one call of `handle_event` leaves behind: the cursor and the returned action. */
  datatype Outcome = Outcome(index: int, action: Option<string>)

  /** The effect of one event on a cursor at `i`. */
  function Step(i: int, e: Event): Outcome
    requires 0 <= i < |TitleButtons()|
  {
    var n := |TitleButtons()|;
    if e.KeyDown? then
      match e.key
      case ArrowUp => Outcome(MenuCursor.Prev(i, n), None)
      case ArrowDown => Outcome(MenuCursor.Next(i, n), None)
      case Return => Outcome(i, Some(TitleButtons()[i].action))
      case _ => Outcome(i, None)
    else
      Outcome(i, None)
  }

  class TitleScreen {
    const screenWidth: int
    const screenHeight: int
    const buttons: seq<Button>
    var selectedIndex: int

    ghost predicate Valid()
      reads this
    {
      buttons == TitleButtons() && 0 <= selectedIndex < |buttons|
    }

    constructor (screenWidth: int, screenHeight: int)
      ensures Valid()
      ensures this.screenWidth == screenWidth && this.screenHeight == screenHeight
      ensures selectedIndex == 0
    {
      this.screenWidth := screenWidth;
      this.screenHeight := screenHeight;
      buttons := TitleButtons();
      selectedIndex := 0;
    }

    method HandleEvent(e: Event) returns (action: Option<string>)
      requires Valid()
      modifies this`selectedIndex
      ensures Valid()
      ensures Outcome(selectedIndex, action) == Step(old(selectedIndex), e)
    {
      if e.KeyDown? {
        if e.key == ArrowUp {
          selectedIndex := (selectedIndex - 1) % |buttons|;
        } else if e.key == ArrowDown {
          selectedIndex := (selectedIndex + 1) % |buttons|;
        } else if e.key == Return {
          return Some(buttons[selectedIndex].action);
        }
      }
      return None;
    }
  }

  /** The cursor never leaves the button table. */
  lemma StepStaysInRange(i: int, e: Event)
    requires 0 <= i < 3
    ensures 0 <= Step(i, e).index < 3
  {
  }

  /** Enter returns the highlighted button's action, one of the three tokens, and keeps the cursor. */
  lemma ReturnGivesSelectedAction(i: int)
    requires 0 <= i < 3
    ensures Step(i, KeyDown(Return)) == Outcome(i, Some(TitleButtons()[i].action))
    ensures Step(i, KeyDown(Return)).action.value in {"start_game", "help", "quit"}
  {
  }

  /** On a freshly built title screen, Enter starts the game. */
  lemma FirstReturnStartsGame()
    ensures Step(0, KeyDown(Return)).action == Some("start_game")
  {
  }

  /** Up then down, or down then up, puts the cursor back; three downs go round once. */
  lemma ArrowsUndoEachOther(i: int)
    requires 0 <= i < 3
    ensures Step(Step(i, KeyDown(ArrowUp)).index, KeyDown(ArrowDown)).index == i
    ensures Step(Step(i, KeyDown(ArrowDown)).index, KeyDown(ArrowUp)).index == i
    ensures Step(Step(Step(i, KeyDown(ArrowDown)).index, KeyDown(ArrowDown)).index, KeyDown(ArrowDown)).index == i
  {
  }

  /** Escape, any other key, and any event that is not a key press, is ignored. */
  lemma OtherInputIgnored(i: int, e: Event)
    requires 0 <= i < 3
    requires !(e.KeyDown? && e.key in {ArrowUp, ArrowDown, Return})
    ensures Step(i, e) == Outcome(i, None)
  {
  }
}
