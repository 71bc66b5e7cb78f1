/**
 * Board coordinates: a Location is a (row, column) pair, a Move an ordered
 * pair of Locations. Locations are bounds-checked against the 8x8 board.
 */
module Geometry {

  /** Number of rows and of columns of the board. */
  const Size: int := 8

  datatype Location = Location(row: int, col: int)

  predicate OnBoard(row: int, col: int)
  {
    0 <= row < Size && 0 <= col < Size
  }

  /** A Location that lies on the board. */
  type Loc = l: Location | OnBoard(l.row, l.col) witness Location(0, 0)

  /** A proposed move from `start` to `end`; never changed after construction. */
  datatype Move = Move(start: Loc, end: Loc)

  function Abs(x: int): (a: nat)
    ensures a == x || a == -x
  {
    if x < 0 then -x else x
  }

  /** The integer sign of `x`: the value `(int) Math.signum(x)` takes for an integer `x`. */
  function Sign(x: int): (s: int)
    ensures -1 <= s <= 1
    ensures s > 0 <==> x > 0
    ensures s < 0 <==> x < 0
    ensures s * Abs(x) == x
  {
    if x > 0 then 1 else if x < 0 then -1 else 0
  }

  /** The number of king steps from `s` to `e` (the larger of the two coordinate distances). */
  function Span(s: Loc, e: Loc): (n: nat)
    ensures n >= Abs(e.row - s.row) && n >= Abs(e.col - s.col)
    ensures n == Abs(e.row - s.row) || n == Abs(e.col - s.col)
    ensures n < Size
    ensures n == 0 <==> s == e
  {
    var dr, dc := Abs(e.row - s.row), Abs(e.col - s.col);
    if dr < dc then dc else dr
  }
}
