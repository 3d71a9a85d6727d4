/**
 * The character-select screen: three characters side by side, a cyclic
 * cursor moved with the left and right arrows, Enter to choose.
 */
module CharacterMenu {
  import opened Wrappers
  import opened Input
  import MenuCursor

  datatype Color = Rgb(r: int, g: int, b: int)

  datatype Character = Character(name: string, color: Color, speed: int)

  /** The character table, in display order. */
  function Characters(): seq<Character>
  {
    [ Character("Guerreiro", Rgb(255, 0, 0), 5),
      Character("Arqueiro", Rgb(0, 255, 0), 6),
      Character("Mago", Rgb(0, 0, 255), 4) ]
  }

  /** What one call of `handle_event` leaves behind: the cursor and the returned choice. */
  datatype Outcome = Outcome(index: int, choice: Option<Character>)

  /** The effect of one event on a cursor at `i`. */
  function Step(i: int, e: Event): Outcome
    requires 0 <= i < |Characters()|
  {
    var n := |Characters()|;
    if e.KeyDown? then
      match e.key
      case ArrowLeft => Outcome(MenuCursor.Prev(i, n), None)
      case ArrowRight => Outcome(MenuCursor.Next(i, n), None)
      case Return => Outcome(i, Some(Characters()[i]))
      case _ => Outcome(i, None)
    else
      Outcome(i, None)
  }

  class CharacterSelect {
    const screenWidth: int
    const screenHeight: int
    const characters: seq<Character>
    var selectedIndex: int

    ghost predicate Valid()
      reads this
    {
      characters == Characters() && 0 <= selectedIndex < |characters|
    }

    constructor (screenWidth: int, screenHeight: int)
      ensures Valid()
      ensures this.screenWidth == screenWidth && this.screenHeight == screenHeight
      ensures selectedIndex == 0
    {
      this.screenWidth := screenWidth;
      this.screenHeight := screenHeight;
      characters := Characters();
      selectedIndex := 0;
    }

    /** The character under the cursor. */
    method GetSelectedCharacter() returns (c: Character)
      requires Valid()
      ensures c in Characters()
      ensures c == Characters()[selectedIndex]
    {
      c := characters[selectedIndex];
    }

    method HandleEvent(e: Event) returns (choice: Option<Character>)
      requires Valid()
      modifies this`selectedIndex
      ensures Valid()
      ensures Outcome(selectedIndex, choice) == Step(old(selectedIndex), e)
    {
      if e.KeyDown? {
        if e.key == ArrowLeft {
          selectedIndex := (selectedIndex - 1) % |characters|;
        } else if e.key == ArrowRight {
          selectedIndex := (selectedIndex + 1) % |characters|;
        } else if e.key == Return {
          var c := GetSelectedCharacter();
          return Some(c);
        }
      }
      return None;
    }
  }

  /** The cursor never leaves the character table. */
  lemma StepStaysInRange(i: int, e: Event)
    requires 0 <= i < 3
    ensures 0 <= Step(i, e).index < 3
  {
  }

  /** Enter returns the highlighted character and keeps the cursor. */
  lemma ReturnChoosesSelected(i: int)
    requires 0 <= i < 3
    ensures Step(i, KeyDown(Return)) == Outcome(i, Some(Characters()[i]))
  {
  }

  /** The table holds Guerreiro (speed 5), Arqueiro (speed 6) and Mago (speed 4), in that order. */
  lemma CharacterTable()
    ensures |Characters()| == 3
    ensures Characters()[0].name == "Guerreiro" && Characters()[0].speed == 5
    ensures Characters()[1].name == "Arqueiro" && Characters()[1].speed == 6
    ensures Characters()[2].name == "Mago" && Characters()[2].speed == 4
  {
  }

  /** Left then right, or right then left, puts the cursor back; three rights go round once. */
  lemma ArrowsUndoEachOther(i: int)
    requires 0 <= i < 3
    ensures Step(Step(i, KeyDown(ArrowLeft)).index, KeyDown(ArrowRight)).index == i
    ensures Step(Step(i, KeyDown(ArrowRight)).index, KeyDown(ArrowLeft)).index == i
    ensures Step(Step(Step(i, KeyDown(ArrowRight)).index, KeyDown(ArrowRight)).index, KeyDown(ArrowRight)).index == i
  {
  }

  /** Up, down, any other key, and any event that is not a key press, is ignored. */
  lemma OtherInputIgnored(i: int, e: Event)
    requires 0 <= i < 3
    requires !(e.KeyDown? && e.key in {ArrowLeft, ArrowRight, Return})
    ensures Step(i, e) == Outcome(i, None)
  {
  }
}
