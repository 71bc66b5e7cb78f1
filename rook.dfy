/**
 * The rook's move-legality rule (Article 3.3 of the FIDE Laws of Chess): the
 * rook moves along its rank or its file, to any square, as long as every
 * square it passes over is unoccupied.
 */
module Rooks {

  import opened Geometry
  import opened Boards
  import opened Pieces

  /** The move stays on one row or on one column. */
  predicate Orthogonal(m: Move)
  {
    m.start.row == m.end.row || m.start.col == m.end.col
  }

  function Min(a: int, b: int): int { if a < b then a else b }

  function Max(a: int, b: int): int { if a < b then b else a }

  /** `l` lies on the row or column segment from `s` to `e`, excluding both ends. */
  predicate StrictlyBetween(s: Loc, e: Loc, l: Loc)
  {
    (l.row == s.row == e.row && Min(s.col, e.col) < l.col < Max(s.col, e.col)) ||
    (l.col == s.col == e.col && Min(s.row, e.row) < l.row < Max(s.row, e.row))
  }

  /** Reference definition: no piece stands on any square strictly between `s` and `e`. */
  ghost predicate PathClear(s: Loc, e: Loc, g: Grid)
  {
    forall l: Loc :: StrictlyBetween(s, e, l) ==> IsEmpty(g, l)
  }

  /** Rook.move: rejects off-line and same-square moves, then walks the path along the unit direction. */
  function RookMove(m: Move, g: Grid): (ok: bool)
    ensures ok ==> Orthogonal(m) && m.start != m.end
  {
    var s, e := m.start, m.end;
    if s.row != e.row && s.col != e.col then false
    else if IsSame(s, e) then false
    else
      var colDir := Sign(e.col - s.col);
      var rowDir := Sign(e.row - s.row);
      if rowDir != 0 && colDir != 0 then false
      else CheckInLine(s, e, g, rowDir, colDir)
  }

  /**
   * Once a move is orthogonal and leaves its square, exactly one of the two
   * signs is non-zero (so the third check of Rook.move never rejects), and
   * `Span` steps along that unit direction land exactly on the end square.
   */
  lemma UnitDirection(m: Move)
    requires Orthogonal(m) && m.start != m.end
    ensures var rowDir, colDir := Sign(m.end.row - m.start.row), Sign(m.end.col - m.start.col);
      (rowDir == 0) != (colDir == 0) &&
      m.end.row == m.start.row + Span(m.start, m.end) * rowDir &&
      m.end.col == m.start.col + Span(m.start, m.end) * colDir
  {
  }

  /**
   * Rook.move accepts exactly the orthogonal moves to another square whose
   * path is clear: the walk of checkInLine visits precisely the squares
   * strictly between start and end.
   */
  lemma {:induction false} RookMoveMeansClearPath(m: Move, g: Grid)
    ensures RookMove(m, g) <==> Orthogonal(m) && m.start != m.end && PathClear(m.start, m.end, g)
  {
    var s, e := m.start, m.end;
    if Orthogonal(m) && s != e {
      var rowDir, colDir := Sign(e.row - s.row), Sign(e.col - s.col);
      var n := Span(s, e);
      UnitDirection(m);
      assert RookMove(m, g) == CheckInLine(s, e, g, rowDir, colDir);
      if CheckInLine(s, e, g, rowDir, colDir) {
        forall l: Loc | StrictlyBetween(s, e, l)
          ensures IsEmpty(g, l)
        {
          var k := if rowDir == 0 then Abs(l.col - s.col) else Abs(l.row - s.row);
          StepReaches(s, e, l, k);
          assert EmptyStep(g, s, rowDir, colDir, k);
        }
      }
      if PathClear(s, e, g) {
        forall k | 0 < k < n
          ensures EmptyStep(g, s, rowDir, colDir, k)
        {
          StepBetween(s, e, k);
        }
      }
    }
  }

  /** A square strictly between the ends is the `k`-th step of the walk, for its distance `k` from the start. */
  lemma StepReaches(s: Loc, e: Loc, l: Loc, k: int)
    requires (s.row == e.row || s.col == e.col) && s != e
    requires StrictlyBetween(s, e, l)
    requires k == if s.row == e.row then Abs(l.col - s.col) else Abs(l.row - s.row)
    ensures 0 < k < Span(s, e)
    ensures l.row == s.row + k * Sign(e.row - s.row)
    ensures l.col == s.col + k * Sign(e.col - s.col)
  {
  }

  /** The `k`-th step of the walk, for 0 < k < Span, is a square strictly between the ends. */
  lemma StepBetween(s: Loc, e: Loc, k: int)
    requires (s.row == e.row || s.col == e.col) && s != e
    requires 0 < k < Span(s, e)
    ensures var r, c := s.row + k * Sign(e.row - s.row), s.col + k * Sign(e.col - s.col);
      OnBoard(r, c) && StrictlyBetween(s, e, Location(r, c))
  {
  }

  /** A rook on (0,0) cannot reach (0,5) past a piece on (0,3). */
  lemma BlockedPath(g: Grid)
    requires PieceAt(g, Location(0, 3)).Some?
    ensures !RookMove(Move(Location(0, 0), Location(0, 5)), g)
  {
    assert !EmptyStep(g, Location(0, 0), 0, 1, 3);
  }
}
