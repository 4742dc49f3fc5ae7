/** The four focus directions of android.view.View (FOCUS_UP, FOCUS_DOWN,
    FOCUS_LEFT, FOCUS_RIGHT). The source takes them as ints and throws
    IllegalArgumentException for any other value; as a closed datatype that
    case cannot arise. */
module Directions {

  datatype Direction = Up | Down | Left | Right {

    /** Left and right travel along the X axis; up and down along the Y axis. */
    predicate IsHorizontal() {
      this == Left || this == Right
    }
  }

  /** getOppositeDirection: up and down swap, and so do left and right. */
  function Opposite(direction: Direction): (r: Direction)
    ensures r != direction
    ensures r.IsHorizontal() == direction.IsHorizontal()
  {
    match direction
    case Left => Right
    case Right => Left
    case Up => Down
    case Down => Up
  }
}
