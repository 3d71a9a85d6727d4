/**
 * The keyboard as the game code sees it: pygame key identities and the
 * events delivered to the screens' `handle_event`.
 */
module Input {

  /** Keys the core reacts to; every other key is `OtherKey`. */
  datatype Key =
    | ArrowUp | ArrowDown | ArrowLeft | ArrowRight
    | LetterW | LetterA | LetterS | LetterD
    | Return | Escape
    | OtherKey(code: int)

  /** A KEYDOWN event carries its key; any other event type is `OtherEvent`. */
  datatype Event = KeyDown(key: Key) | OtherEvent
}
