# Power-Chess: pawn and rook move rules

A Dafny model of the move-legality rules of two pieces of Power-Chess, a
chess variant with power-up objects on the board:

- **Rook** (`Rook.move`): Article 3.3 of the FIDE Laws of Chess. A rook move
  must stay on one row or column, must leave its square, and every square it
  passes over must be empty. The model is a pure function, `Rooks.RookMove`,
  over the board's contents. It follows the source's checks in order: off-line,
  same square, the integer signs of the two differences, then the path walk.
- **Pawn** (`Pawn.move`, `checkMove`, `checkAttack`, `getGhost`,
  `resetGhost`): Article 3.7. The moves are the single step, the double step
  on the first move, the diagonal capture and en passant. There is one house
  rule: a pawn may step diagonally forward onto a square holding a power
  object. The pawn is the class `Pawns.Pawn`, and the board it marks is the
  class `Boards.Board`. The side effects of the source's predicate are modelled
  on every call, including calls made only to scan for check:
  - `direction` is set from the colour;
  - the en-passant marker is armed on the board when a double step is accepted;
  - the `ghost` flag is latched when a GhostPawn is taken.

  Both checks are evaluated on every call with distinct squares. Pure
  functions specify them: `Advance` for `checkMove` (verdict and armed square)
  and `Attack` for `checkAttack` (verdict and ghost latch). Lemmas tie these
  functions to the forward advance of Article 3.7 (a) and (b) (`FideAdvance`)
  and to the source's diagonal rule stated on the end square (`DiagonalOnEnd`).
  En passant is modelled only as taking a piece of rank GhostPawn, which the
  board is assumed to present on the square a double step passed over.

The marker is armed inside the predicate itself, not in a separate commit
step taken once the game has confirmed a move. A call made only to test
whether a pawn attacks a square therefore arms it too, and `Pawn.Move`
states this. The diagonal rule does not check that the captured piece is an
enemy piece or that a GhostPawn belongs to the other colour. Both questions
are left to `isValidEnd`.

Collaborators whose code is not part of this model are stated as assumptions:

- `Location` is a bounded (row, col) pair on the 8x8 board (`Geometry.Loc`).
  `Move` is a pair of Locations.
- The board's contents (`Boards.Grid`) map each square to its cell. A cell holds
  an optional piece, an optional power object and the set of colours whose
  en-passant marker is on it. A square with no entry is an empty cell.
- `getPieceAt`, `isEmpty` and `getPowerObjectAt` read the cell. `isEmpty` means
  that no piece is on the square; overlays do not count.
- `setGhost(l, c)` adds colour `c`'s marker to the cell at `l` (`MarkGhost`).
  It changes no piece and no power object.
- `Piece.checkInLine(start, end, rowDir, colDir)`: every square strictly between
  start and end, walking from start along the direction, is on the board and empty.
- `Piece.isSame` is equality of squares. `Piece.getMoved` is the pawn's `moved` field.
- `Piece.isValidEnd` is a total function of the two squares and the board,
  supplied by the caller (`Pieces.EndCheck`).
- `Math.signum` followed by the `(int)` cast is the integer sign function `Geometry.Sign`.

The source's field `ghost` is named `ghostCaptured`, because `ghost` is a Dafny keyword.

## Model

| member | source | states |
|---|---|---|
| Geometry.Sign | src/main/java/pieces/Rook.java:31-32 | the integer sign of a difference lies in {-1, 0, 1}, is positive or negative exactly when the difference is, and times the distance gives back the difference |
| Geometry.Span | src/main/java/pieces/Rook.java:36 | the number of steps the line walk takes is the larger coordinate distance, is below 8, and is zero exactly for a same-square move |
| Boards.MarkGhost | src/main/java/pieces/Pawn.java:70 | arming a marker adds the colour to that square's markers and leaves every piece, every power object and every other square unchanged |
| Boards.Board.SetGhost | src/main/java/pieces/Pawn.java:70 | the board's new contents are the old ones with the marker armed |
| Rooks.RookMove | src/main/java/pieces/Rook.java:25-30 | an accepted rook move stays on one row or column and leaves its square |
| Rooks.UnitDirection | src/main/java/pieces/Rook.java:31-35 | for an orthogonal move to another square exactly one of rowDir and colDir is non-zero, so the check at line 33 never rejects, and Span steps along them land on the end square |
| Rooks.RookMoveMeansClearPath | src/main/java/pieces/Rook.java:25-36 | Rook.move accepts exactly the orthogonal moves to another square with no piece on any square strictly between (Article 3.3), both directions |
| Rooks.BlockedPath | src/main/java/pieces/Rook.java:36 | a rook on (0,0) cannot move to (0,5) when a piece stands on (0,3) |
| Pawns.Direction | src/main/java/pieces/Pawn.java:38-42 | the direction is +1 exactly for White and -1 exactly for Black |
| Pawns.AdvanceMatchesFide | src/main/java/pieces/Pawn.java:52-76 | checkMove accepts exactly a forward move on the file of one square, or of two when the pawn has not moved, with every square passed or landed on empty, both directions |
| Pawns.AttackMatchesCapture | src/main/java/pieces/Pawn.java:78-100 | checkAttack accepts exactly a diagonal step forward onto a power object, or onto an occupied square that isValidEnd accepts; the square it inspects is the end square |
| Pawns.PawnMoveMatchesFide | src/main/java/pieces/Pawn.java:31-50 | Pawn.move accepts exactly the forward advances of Article 3.7 (a) and (b) and the source's diagonal steps (onto a power object, or onto an occupied square isValidEnd accepts), both directions |
| Pawns.SingleStep | src/main/java/pieces/Pawn.java:57-60 | a straight single step is accepted exactly when no piece is on the end square, and arms no marker |
| Pawns.DoubleStep | src/main/java/pieces/Pawn.java:61-75 | a straight double step is accepted exactly when the pawn has not moved, the skipped square is empty and no piece is on the end square; exactly then a marker is armed, on the skipped square |
| Pawns.OtherStraightRejected | src/main/java/pieces/Pawn.java:54-75 | any other straight distance, backwards included, is rejected |
| Pawns.ArmedOnlyByDoubleStep | src/main/java/pieces/Pawn.java:66-71 | a marker is armed only on an accepted double step by an unmoved pawn, at (start.row + direction, start.col) |
| Pawns.AdvanceAttackExclusive | src/main/java/pieces/Pawn.java:54-82 | checkMove and checkAttack never both accept |
| Pawns.DiagonalStep | src/main/java/pieces/Pawn.java:80-99 | a diagonal step forward onto a power object is accepted even with no piece there; without a power object it is accepted exactly when the end is valid and a piece stands on it |
| Pawns.GhostLatchedOnlyByGhostCapture | src/main/java/pieces/Pawn.java:92-98 | the ghost flag is latched exactly by an accepted diagonal step onto a GhostPawn on a square without a power object |
| Pawns.Pawn.constructor | src/main/java/pieces/Pawn.java:26-28 | a new pawn has the given colour, has not moved, and has direction 0 and the ghost flag clear |
| Pawns.Pawn.Move | src/main/java/pieces/Pawn.java:31-50 | the result is the verdict on the board as the call found it; a same-square move changes nothing; otherwise direction is set from the colour, the ghost flag is kept and possibly latched (never cleared), and the board changes only by the marker of an accepted double step |
| Pawns.Pawn.CheckMove | src/main/java/pieces/Pawn.java:52-76 | returns the straight-step verdict and arms exactly the marker that verdict names, in the pawn's own colour |
| Pawns.Pawn.CheckAttack | src/main/java/pieces/Pawn.java:78-100 | returns the diagonal verdict and latches the ghost flag exactly on taking a GhostPawn, leaving the board unchanged |
| Pawns.Pawn.GetGhost | src/main/java/pieces/Pawn.java:107-109 | reports the ghost flag |
| Pawns.Pawn.ResetGhost | src/main/java/pieces/Pawn.java:114-116 | clears the ghost flag and changes nothing else |
| Pawns.DoubleAdvanceArmsMarker | src/main/java/pieces/Pawn.java:61-71 | an unmoved white pawn on (1,4) asked about (3,4) on an empty board accepts and leaves a white marker on (2,4) |

## Left out

- src/main/java/websockets/ChessWebSocket.java is not part of this model. It covers network sessions, JSON encoding, process-wide registries and wire tags.
- Game-level behaviour is not modelled: the turn state machine, check and mate detection, promotion, power actions, power spawning, and setting a piece's `moved` flag. None of it is in the pawn or rook code.
- Board internals are not modelled. This covers how an armed marker is presented to `getPieceAt` as a GhostPawn, when markers are cleared, and removing the pawn taken en passant. A GhostPawn is only a rank a piece on a square can have.
- The cell's `ghosts` set records each `setGhost` call, and no operation of the model reads it. So the model does not accept an en-passant capture on a square that carries only a marker; it accepts one only where a GhostPawn piece stands.
- `setGhost` is assumed to add a marker, not to replace that colour's earlier one (`MarkGhost`). The board is meant to keep at most one marker per colour, and the model does not enforce that. Several calls, including calls that only test for check, can leave several markers of one colour.
- The second argument of Pawn.java:27 (`super(color, 1)`) is not modelled. The Piece constructor that receives it is not part of this model, and neither pawn rule reads it.
- The internals of `checkInLine`, `isValidEnd`, `isSame` and `getMoved` are not modelled. They are replaced by the assumptions stated above.
- `Math.signum` works on floating point. It is modelled as the integer sign, which agrees with it for every integer difference on the board.
- The Java `Location` constructor's out-of-range failure is not modelled. Every Location the two pieces construct lies between or on squares of the move, so it is on the board; the model proves this wherever it builds one.
- The other pieces (King, Queen, Bishop, Knight) are not modelled.
