/**
 * The pawn's move-legality rule (Article 3.7 of the FIDE Laws of Chess):
 * a single step forward onto an empty square, a double step forward on the
 * pawn's first move across two empty squares, and a diagonal step forward
 * onto an occupied square that `isValidEnd` accepts. En passant is modelled
 * only as taking a piece of rank GhostPawn, which the board (not modelled
 * here) is assumed to present on the square a double step passed over.
 * House rule: a diagonal step forward onto a square holding a power object
 * is always allowed.
 *
 * The pawn's predicate has side effects: it stores its direction of travel,
 * latches `ghostCaptured` (the source's `ghost` field) when it takes a GhostPawn, and arms its own en-passant
 * marker on the board whenever it accepts a double step, on every call.
 */
module Pawns {

  import opened Wrappers
  import opened Geometry
  import opened Boards
  import opened Pieces

  /** Rows are counted from White's side: a white pawn moves up (+1), a black pawn down (-1). */
  function Direction(c: Color): (d: int)
    ensures d == 1 <==> c.White?
    ensures d == -1 <==> c.Black?
  {
    if c.White? then 1 else -1
  }

  /** What checkMove returns and the square on which it arms a ghost marker, if any. */
  datatype AdvanceResult = AdvanceResult(accepted: bool, armed: Option<Loc>)

  /** What checkAttack returns and whether it latches the pawn's `ghostCaptured` flag. */
  datatype AttackResult = AttackResult(accepted: bool, capturesGhost: bool)

  /** Pawn.checkMove for a pawn of colour `c` whose moved flag is `moved`, on the board `g`. */
  function Advance(c: Color, moved: bool, s: Loc, e: Loc, g: Grid): AdvanceResult
  {
    var d := Direction(c);
    var rowDif, colDif := e.row - s.row, e.col - s.col;
    if colDif != 0 then AdvanceResult(false, None)
    else if rowDif == d then AdvanceResult(PieceAt(g, e).None?, None)
    else if rowDif == 2 * d && !moved then
      if !EmptyAt(g, s.row + d, s.col) then AdvanceResult(false, None)
      else if PieceAt(g, e).None? then AdvanceResult(true, Some(Location(s.row + d, s.col)))
      else AdvanceResult(false, None)
    else AdvanceResult(false, None)
  }

  /** Pawn.checkAttack for a pawn of colour `c` on the board `g`. */
  function Attack(c: Color, s: Loc, e: Loc, g: Grid, validEnd: EndCheck): AttackResult
  {
    var d := Direction(c);
    var rowDif, colDif := e.row - s.row, e.col - s.col;
    if Abs(colDif) != 1 || rowDif != d then AttackResult(false, false)
    else
      var check: Loc := Location(s.row + d, s.col + colDif);
      if PowerObjectAt(g, check).Some? then AttackResult(true, false)
      else if !validEnd(s, check, g) then AttackResult(false, false)
      else match PieceAt(g, check)
        case None => AttackResult(false, false)
        case Some(p) => AttackResult(true, p.rank == GhostPawn)
  }

  /** The verdict of Pawn.move on the board as it was when the call began. */
  predicate Accepts(c: Color, moved: bool, m: Move, g: Grid, validEnd: EndCheck)
  {
    m.start != m.end &&
    (Advance(c, moved, m.start, m.end, g).accepted || Attack(c, m.start, m.end, g, validEnd).accepted)
  }

  /** The board after an optional ghost marker of colour `c` is armed. */
  function WithGhost(g: Grid, armed: Option<Loc>, c: Color): Grid
  {
    match armed
    case None => g
    case Some(l) => MarkGhost(g, l, c)
  }

  /** The row `k` squares ahead of `s` for a pawn of colour `c`. */
  function AheadRow(s: Loc, c: Color, k: int): int
  {
    s.row + k * Direction(c)
  }

  /**
   * Reference definition, Article 3.7 (a) and (b): the pawn moves forward on
   * its file one square, or two on its first move, and every square it
   * passes over or lands on is unoccupied.
   */
  predicate FideAdvance(c: Color, moved: bool, s: Loc, e: Loc, g: Grid)
  {
    e.col == s.col &&
    exists k :: 1 <= k <= (if moved then 1 else 2) && e.row == AheadRow(s, c, k) &&
      forall j :: 1 <= j <= k ==> EmptyAt(g, AheadRow(s, c, j), s.col)
  }

  /**
   * The source's diagonal rule stated on the end square: the pawn steps
   * diagonally forward onto a square that holds a power object, or onto an
   * occupied square that `isValidEnd` accepts. Whether the piece taken is
   * an opponent's, and en passant, are left to `isValidEnd` and the board.
   */
  predicate DiagonalOnEnd(c: Color, s: Loc, e: Loc, g: Grid, validEnd: EndCheck)
  {
    e.row == AheadRow(s, c, 1) && Abs(e.col - s.col) == 1 &&
    (PowerObjectAt(g, e).Some? || (validEnd(s, e, g) && PieceAt(g, e).Some?))
  }

  /** checkMove accepts exactly the forward moves of Article 3.7 (a) and (b). */
  lemma {:induction false} AdvanceMatchesFide(c: Color, moved: bool, s: Loc, e: Loc, g: Grid)
    ensures Advance(c, moved, s, e, g).accepted <==> FideAdvance(c, moved, s, e, g)
  {
    var d := Direction(c);
    if Advance(c, moved, s, e, g).accepted {
      var k := if e.row - s.row == d then 1 else 2;
      assert e.row == AheadRow(s, c, k);
      assert Location(e.row, e.col) == e;
      assert forall j :: 1 <= j <= k ==> EmptyAt(g, AheadRow(s, c, j), s.col);
    }
    if FideAdvance(c, moved, s, e, g) {
      var k :| 1 <= k <= (if moved then 1 else 2) && e.row == AheadRow(s, c, k) &&
        forall j :: 1 <= j <= k ==> EmptyAt(g, AheadRow(s, c, j), s.col);
      assert EmptyAt(g, AheadRow(s, c, k), s.col);
      assert EmptyAt(g, AheadRow(s, c, 1), s.col);
      assert Location(e.row, e.col) == e;
    }
  }

  /** checkAttack accepts exactly the diagonal steps of `DiagonalOnEnd`: the square it inspects is the end square. */
  lemma AttackMatchesCapture(c: Color, s: Loc, e: Loc, g: Grid, validEnd: EndCheck)
    ensures Attack(c, s, e, g, validEnd).accepted <==> DiagonalOnEnd(c, s, e, g, validEnd)
  {
  }

  /**
   * Pawn.move accepts exactly the forward advances of Article 3.7 (a) and (b)
   * and the diagonal steps of `DiagonalOnEnd`; in particular every accepted
   * move leaves its square.
   */
  lemma {:induction false} PawnMoveMatchesFide(c: Color, moved: bool, m: Move, g: Grid, validEnd: EndCheck)
    ensures Accepts(c, moved, m, g, validEnd) <==>
      FideAdvance(c, moved, m.start, m.end, g) || DiagonalOnEnd(c, m.start, m.end, g, validEnd)
  {
    AdvanceMatchesFide(c, moved, m.start, m.end, g);
    AttackMatchesCapture(c, m.start, m.end, g, validEnd);
    if FideAdvance(c, moved, m.start, m.end, g) {
      var k :| 1 <= k <= (if moved then 1 else 2) && m.end.row == AheadRow(m.start, c, k) &&
        forall j :: 1 <= j <= k ==> EmptyAt(g, AheadRow(m.start, c, j), m.start.col);
      assert m.end.row != m.start.row;
    }
  }

  /** A straight step of one square is accepted exactly when no piece stands on the end square; it arms nothing. */
  lemma SingleStep(c: Color, moved: bool, m: Move, g: Grid, validEnd: EndCheck)
    requires m.end.col == m.start.col && m.end.row == m.start.row + Direction(c)
    ensures Accepts(c, moved, m, g, validEnd) <==> PieceAt(g, m.end).None?
    ensures Advance(c, moved, m.start, m.end, g).armed == None
  {
  }

  /**
   * A straight step of two squares is accepted exactly when the pawn has not
   * moved, the skipped square is empty and no piece stands on the end square;
   * exactly then it arms a marker, on the skipped square.
   */
  lemma DoubleStep(c: Color, moved: bool, m: Move, g: Grid, validEnd: EndCheck)
    requires m.end.col == m.start.col && m.end.row == m.start.row + 2 * Direction(c)
    ensures var skipped := Location(m.start.row + Direction(c), m.start.col);
      OnBoard(skipped.row, skipped.col) &&
      (Accepts(c, moved, m, g, validEnd) <==> !moved && IsEmpty(g, skipped) && PieceAt(g, m.end).None?) &&
      Advance(c, moved, m.start, m.end, g).armed ==
        (if Accepts(c, moved, m, g, validEnd) then Some(skipped) else None)
  {
  }

  /** Any other straight distance, backwards included, is rejected. */
  lemma OtherStraightRejected(c: Color, moved: bool, m: Move, g: Grid, validEnd: EndCheck)
    requires m.end.col == m.start.col
    requires m.end.row - m.start.row != Direction(c) && m.end.row - m.start.row != 2 * Direction(c)
    ensures !Accepts(c, moved, m, g, validEnd)
  {
  }

  /** A marker is armed only by an accepted double step, on the skipped square. */
  lemma ArmedOnlyByDoubleStep(c: Color, moved: bool, s: Loc, e: Loc, g: Grid)
    ensures Advance(c, moved, s, e, g).armed.Some? ==>
      Advance(c, moved, s, e, g).accepted && !moved &&
      e.col == s.col && e.row == s.row + 2 * Direction(c) &&
      Advance(c, moved, s, e, g).armed.value == Location(s.row + Direction(c), s.col)
  {
  }

  /** checkMove and checkAttack never both accept: one needs colDif = 0, the other |colDif| = 1. */
  lemma AdvanceAttackExclusive(c: Color, moved: bool, s: Loc, e: Loc, g: Grid, validEnd: EndCheck)
    ensures !(Advance(c, moved, s, e, g).accepted && Attack(c, s, e, g, validEnd).accepted)
  {
  }

  /**
   * A diagonal step forward onto a power object is accepted even with no
   * piece there; otherwise it needs a valid end with a piece on it.
   */
  lemma DiagonalStep(c: Color, moved: bool, m: Move, g: Grid, validEnd: EndCheck)
    requires Abs(m.end.col - m.start.col) == 1 && m.end.row == m.start.row + Direction(c)
    ensures PowerObjectAt(g, m.end).Some? ==> Accepts(c, moved, m, g, validEnd)
    ensures PowerObjectAt(g, m.end).None? ==>
      (Accepts(c, moved, m, g, validEnd) <==> validEnd(m.start, m.end, g) && PieceAt(g, m.end).Some?)
  {
  }

  /** The ghost flag is latched exactly by an accepted diagonal capture of a GhostPawn that is not on a power object. */
  lemma GhostLatchedOnlyByGhostCapture(c: Color, s: Loc, e: Loc, g: Grid, validEnd: EndCheck)
    ensures Attack(c, s, e, g, validEnd).capturesGhost <==>
      Attack(c, s, e, g, validEnd).accepted && PowerObjectAt(g, e).None? &&
      PieceAt(g, e).Some? && PieceAt(g, e).value.rank == GhostPawn
  {
  }

  /** A pawn piece: its colour, the moved flag it inherits, and the two fields its move rule writes. */
  class Pawn {

    const color: Color
    var moved: bool
    var direction: int
    var ghostCaptured: bool

    constructor (color: Color)
      ensures this.color == color && !moved && direction == 0 && !ghostCaptured
    {
      this.color := color;
      moved := false;
      direction := 0;
      ghostCaptured := false;
    }

    /**
     * Pawn.move. A same-square move is rejected and changes nothing. Any
     * other call sets `direction` from the colour, runs both checks, arms a
     * marker when it accepts a double step and latches `ghostCaptured` (the source's `ghost` field) when it takes
     * a GhostPawn, whether or not the caller goes on to play the move.
     */
    method Move(m: Move, board: Board, validEnd: EndCheck) returns (ok: bool)
      modifies this`direction, this`ghostCaptured, board
      ensures ok == Accepts(color, moved, m, old(board.cells), validEnd)
      ensures m.start == m.end ==>
        direction == old(direction) && ghostCaptured == old(ghostCaptured) && board.cells == old(board.cells)
      ensures m.start != m.end ==>
        direction == Direction(color) &&
        ghostCaptured == (old(ghostCaptured) || Attack(color, m.start, m.end, old(board.cells), validEnd).capturesGhost) &&
        board.cells == WithGhost(old(board.cells), Advance(color, moved, m.start, m.end, old(board.cells)).armed, color)
    {
      var start, end := m.start, m.end;
      if start == end {
        return false;
      }
      if color.White? {
        direction := 1;
      } else {
        direction := -1;
      }
      var rowDif := end.row - start.row;
      var colDif := end.col - start.col;
      var moveBool := CheckMove(start, end, board, rowDif, colDif);
      var attackBool := CheckAttack(start, end, board, rowDif, colDif, validEnd);
      ok := moveBool || attackBool;
    }

    /** Pawn.checkMove: the straight single and double steps; arms the marker on an accepted double step. */
    method CheckMove(start: Loc, end: Loc, board: Board, rowDif: int, colDif: int) returns (ok: bool)
      requires direction == Direction(color)
      requires rowDif == end.row - start.row && colDif == end.col - start.col
      modifies board
      ensures ok == Advance(color, moved, start, end, old(board.cells)).accepted
      ensures board.cells == WithGhost(old(board.cells), Advance(color, moved, start, end, old(board.cells)).armed, color)
    {
      if colDif != 0 {
        return false;
      }
      if rowDif == direction {
        var p := PieceAt(board.cells, end);
        return p.None?;
      }
      if rowDif == 2 * direction && !moved {
        var check: Loc := Location(start.row + direction, start.col);
        if !IsEmpty(board.cells, check) {
          return false;
        }
        var p := PieceAt(board.cells, end);
        if p.None? {
          var ghostPos: Loc := Location(start.row + direction, start.col);
          board.SetGhost(ghostPos, color);
          return true;
        }
        return false;
      }
      return false;
    }

    /** Pawn.checkAttack: the diagonal step forward; latches `ghostCaptured` (the source's `ghost` field) on taking a GhostPawn. */
    method CheckAttack(start: Loc, end: Loc, board: Board, rowDif: int, colDif: int, validEnd: EndCheck)
      returns (ok: bool)
      requires direction == Direction(color)
      requires rowDif == end.row - start.row && colDif == end.col - start.col
      modifies this`ghostCaptured
      ensures ok == Attack(color, start, end, board.cells, validEnd).accepted
      ensures ghostCaptured == (old(ghostCaptured) || Attack(color, start, end, board.cells, validEnd).capturesGhost)
    {
      if Abs(colDif) != 1 || rowDif != direction {
        return false;
      }
      var check: Loc := Location(start.row + direction, start.col + colDif);
      var pwr := PowerObjectAt(board.cells, check);
      if pwr.Some? {
        return true;
      }
      if !validEnd(start, check, board.cells) {
        return false;
      }
      var p := PieceAt(board.cells, check);
      if p.None? {
        return false;
      }
      if p.value.rank == GhostPawn {
        ghostCaptured := true;
      }
      return true;
    }

    /** Pawn.getGhost: whether this pawn has taken a GhostPawn since the flag was last reset. */
    method GetGhost() returns (g: bool)
      ensures g == ghostCaptured
    {
      return ghostCaptured;
    }

    /** Pawn.resetGhost: clears the flag at the end of the turn; nothing else changes. */
    method ResetGhost()
      modifies this`ghostCaptured
      ensures !ghostCaptured
    {
      ghostCaptured := false;
    }
  }

  /**
   * A white pawn on (1,4) that has not moved, asked about (3,4) on an empty
   * board, accepts and leaves a white marker on (2,4).
   */
  method DoubleAdvanceArmsMarker() returns (ok: bool, cells: Grid)
    ensures ok && cells == MarkGhost(map[], Location(2, 4), White)
  {
    var board := new Board(map[]);
    var pawn := new Pawn(White);
    ok := pawn.Move(Move(Location(1, 4), Location(3, 4)), board, (a: Loc, b: Loc, g: Grid) => true);
    cells := board.cells;
  }
}
