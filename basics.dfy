/** Small shared value types, an optional value and the pixel box `(left, top, right, bottom)`
    that both the legacy board and the GUI geometry hand to the capture primitive, and the
    one arithmetic fact the other modules share. */
module Basics {

  datatype Option<T> = None | Some(value: T)

  /** A rectangle on screen, `Bbox = tuple[int, int, int, int]` in the program. */
  datatype Bbox = Bbox(left: int, top: int, right: int, bottom: int) {

    /** The box is a square with side `n`. */
    predicate IsSquare(n: int) {
      right - left == n && bottom - top == n
    }
  }

  /** Multiplying by a non-negative factor keeps the order. */
  lemma MulMonotone(a: int, b: int, d: int)
    requires d >= 0
    ensures a <= b ==> a * d <= b * d
  {
    if a <= b {
      assert (b - a) * d >= 0;
      assert (b - a) * d == b * d - a * d;
    }
  }
}
