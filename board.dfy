/**
 * The board: an 8x8 grid of cells. Each cell holds at most one piece and may
 * also hold a power object and en-passant ("ghost") markers, one per colour.
 */
module Boards {

  import opened Wrappers
  import opened Geometry

  datatype Color = White | Black

  /** The kind of a piece; a GhostPawn is what an en-passant capture takes. */
  datatype Rank = King | Queen | Rook | Bishop | Knight | Pawn | GhostPawn

  datatype Piece = Piece(rank: Rank, color: Color)

  datatype Rarity = Common | Rare | Legendary

  datatype PowerObject = PowerObject(rarity: Rarity)

  /** What one square holds: an optional piece, an optional power object and the colours whose ghost marker is there. */
  datatype Cell = Cell(piece: Option<Piece>, power: Option<PowerObject>, ghosts: set<Color>)

  const EmptyCell: Cell := Cell(None, None, {})

  /** The contents of the board; a square without an entry is an empty cell. */
  type Grid = map<Loc, Cell>

  function CellAt(g: Grid, l: Loc): Cell
  {
    if l in g then g[l] else EmptyCell
  }

  /** Board.getPieceAt: the piece on `l`, if any. */
  function PieceAt(g: Grid, l: Loc): Option<Piece>
  {
    CellAt(g, l).piece
  }

  /** Board.isEmpty: no piece stands on `l` (overlays do not count). */
  predicate IsEmpty(g: Grid, l: Loc)
  {
    PieceAt(g, l).None?
  }

  /** Board.getPowerObjectAt: the power object on `l`, if any. */
  function PowerObjectAt(g: Grid, l: Loc): Option<PowerObject>
  {
    CellAt(g, l).power
  }

  function GhostsAt(g: Grid, l: Loc): set<Color>
  {
    CellAt(g, l).ghosts
  }

  /** The square at (row, col) is on the board and holds no piece. */
  predicate EmptyAt(g: Grid, row: int, col: int)
  {
    OnBoard(row, col) && IsEmpty(g, Location(row, col))
  }

  /** The board after a ghost marker of colour `c` is set on `l`. */
  function MarkGhost(g: Grid, l: Loc, c: Color): (g': Grid)
    ensures GhostsAt(g', l) == GhostsAt(g, l) + {c}
    ensures forall x: Loc :: PieceAt(g', x) == PieceAt(g, x)
    ensures forall x: Loc :: PowerObjectAt(g', x) == PowerObjectAt(g, x)
    ensures forall x: Loc :: x != l ==> CellAt(g', x) == CellAt(g, x)
  {
    var cell := CellAt(g, l);
    g[l := cell.(ghosts := cell.ghosts + {c})]
  }

  /** The mutable board the pieces consult and the pawn marks. */
  class Board {

    var cells: Grid

    constructor (cells: Grid)
      ensures this.cells == cells
    {
      this.cells := cells;
    }

    /** Board.setGhost: arms the en-passant marker of colour `c` on `l`. */
    method SetGhost(l: Loc, c: Color)
      modifies this
      ensures cells == MarkGhost(old(cells), l, c)
    {
      cells := MarkGhost(cells, l, c);
    }
  }
}
