/**
 * The slice of pygame's event model that the widgets and the map view read: the event kinds
 * they test, the keys they name, and `Rect.collidepoint`.
 */
module Input {

  /** The keys the handlers compare `event.key` against; every other key is `OtherKey`. */
  datatype Key = Backspace | Delete | Left | Right | Home | End | Return | Up | Down | OtherKey

  /**
   * A pygame event. `unicode` is the text a key press types ("" for keys that type nothing);
   * a wheel event carries the mouse position that `pygame.mouse.get_pos()` reports.
   */
  datatype UiEvent =
    | MouseDown(button: int, x: int, y: int)
    | MouseUp(button: int, x: int, y: int)
    | MouseMotion(x: int, y: int)
    | MouseWheel(dy: int, mouseX: int, mouseY: int)
    | KeyDown(key: Key, unicode: string)
    | KeyUp(key: Key)
    | OtherEvent

  datatype Rect = Rect(left: int, top: int, width: int, height: int)

  /** `Rect.collidepoint`: the right and bottom edges are outside the rectangle. */
  predicate Collides(r: Rect, x: int, y: int) {
    r.left <= x < r.left + r.width && r.top <= y < r.top + r.height
  }
}
