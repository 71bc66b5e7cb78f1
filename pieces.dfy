/**
 * The parts of the common Piece base class that the rook and the pawn call.
 * Their implementation is not part of this model; each is stated here as the
 * assumption the two pieces rely on.
 */
module Pieces {

  import opened Geometry
  import opened Boards

  /**
   * Piece.isValidEnd(start, end, board), supplied by the caller as a total
   * function of the two squares and the board's contents.
   */
  type EndCheck = (Loc, Loc, Grid) -> bool

  /** Piece.isSame: the two squares are the same square. */
  predicate IsSame(a: Loc, b: Loc)
  {
    a == b
  }

  /** The square `k` steps from `s` along (rowDir, colDir) is on the board and holds no piece. */
  predicate EmptyStep(g: Grid, s: Loc, rowDir: int, colDir: int, k: int)
  {
    EmptyAt(g, s.row + k * rowDir, s.col + k * colDir)
  }

  /**
   * Piece.checkInLine(start, end, board, rowDir, colDir): every square
   * strictly between `s` and `e`, walking from `s` along (rowDir, colDir),
   * holds no piece.
   */
  predicate CheckInLine(s: Loc, e: Loc, g: Grid, rowDir: int, colDir: int)
  {
    forall k :: 0 < k < Span(s, e) ==> EmptyStep(g, s, rowDir, colDir, k)
  }
}
