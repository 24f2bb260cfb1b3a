# Chess rules engine — a Dafny model

This project models the rules engine of a small Python chess program, as it stands in
this revision, and proves properties of it. The engine has these parts:

- **Value types.** A `Square` is a (row, column) pair. It can be off the board, it has a
  validity test and an algebraic name such as `e2`. There are piece colours, piece kinds
  and pieces. A `Move` is a (start, end) pair with a printed form.
- **The board.** A dictionary from each of the 64 valid squares to an optional piece.
  Reading or writing an off-board square raises `KeyError`.
- **The game.** It holds the board, the side to move, a `double_pawn_push` field and
  castling flags. The last two are set up and never touched again. The game sets up the
  starting position, makes a move (relocate the piece, pass the turn) and simulates a
  move on a copy of the board.
- **Move generation.** Pseudo-legal moves per piece kind: pawn pushes and diagonal
  captures, knight and king offsets, bishop and rook rays, and the queen as bishop then
  rook. The moves of a side are these lists joined over the side's pieces. Nothing is
  filtered for king safety, because check detection is only a stub in this revision.
- **Pixel/square conversion.** The `Coordinates` class of the graphical front end.

Layout, one module per source file:

| file | module | models |
|---|---|---|
| wrappers.dfy | `Wrappers` | `Option`, `Result`, `Outcome` for the source's `None` results and exceptions |
| square.dfy | `Squares` | square.py |
| piece.dfy | `Pieces` | piece.py |
| move.dfy | `Moves` | move.py |
| board.dfy | `Boards` | board.py, plus the two board queries the rules call |
| game.dfy | `Games` | game.py |
| game_rules_spec.dfy | `GameRulesSpec` | what game_rules.py computes, as functions of a board snapshot, and the lemmas about it |
| game_rules.dfy | `GameRules` | game_rules.py as the source runs it: loops that append to lists, each proved equal to its function in `GameRulesSpec` |
| coordinates.dfy | `Coordinates` | the `Coordinates` class of graphics.py |

Two loops that game_rules.py writes inline are methods of their own here:
`GameRules.GetPawnCaptures` (the pawn's capture loop) and `GameRules.GetRayMoves` (the
`while True` loop of one sliding direction). The setup loop's eight back-rank assignments
(game.py:20-27) are `Games.PlaceBackRank`. Each computes what the inline code computes.

`Board` and `Game` are classes because the source updates their fields in place. The
board's dictionary is a `map` field that `Set` reassigns. The generation methods only
read the board. Their contracts say the board is unchanged because none of them has a
`modifies` clause.

`Board.get_squares_with_pieces(color)` and `Board.get_empty_squares()` are called by the
rules and by the drawing code, but board.py does not define them. They are modelled from
their use. Each returns the valid squares that hold a piece of that colour (or hold
nothing), as a list. The list order is taken to be the insertion order of the board's
dictionary (board.py:7): column by column, each column from row 0 upwards. That order
only fixes the order of the moves a side gets, not which moves they are.

## Model

| member | source | states |
|---|---|---|
| `Squares.Square.ToString` | square.py:6-9 | defined only for a valid square (an off-board one raises `KeyError`); the name has two characters |
| `Squares.Square.IsValid` | square.py:17-18 | holds iff 0 <= row < 8 and 0 <= column < 8, which are exactly the keys of the two name tables |
| `Squares.ToStringSpelling` | square.py:6-9 | the name is the letter `'a' + column` followed by the digit `'1' + row` |
| `Squares.ToStringInjective` | square.py:6-9 | two valid squares have the same name iff they are the same square |
| `Squares.Equals` | square.py:11-12 | comparing rows and columns holds iff the two squares are the same value, so it is reflexive and symmetric and equal squares are the same map key |
| `Pieces.Opposing` | piece.py:9-10 | the opposing colour differs from the colour; with two colours this gives WHITE to BLACK and BLACK to WHITE |
| `Pieces.OpposingInvolutive` | piece.py:9-10 | taking the opposing colour twice gives the colour back |
| `Moves.Move.ToString` | move.py:8-9 | defined for moves between valid squares; the text has 16 characters |
| `Moves.ToStringLayout` | move.py:8-9 | the text is `From: `, the start's name, `, To: `, the end's name, in those positions |
| `Moves.ToStringInjective` | move.py:8-9 | two moves between valid squares print alike iff they are the same move |
| `Boards.AllSquaresAreTheValidSquares` | board.py:7 | the board's square list holds exactly the 64 valid squares, each once |
| `Boards.SelectMembers` | game_rules.py:32-33 | a square is in a board query's result iff it is listed and is valid, is a key and is empty (or holds a piece of the asked colour) |
| `Boards.QueriesPartitionBoard` | graphics.py:82 | on a full board the empty squares, the white squares and the black squares are pairwise disjoint and together are the 64 valid squares |
| `Boards.Board.constructor` | board.py:6-8 | a new board has exactly the 64 valid squares as keys, each mapped to no piece |
| `Boards.Board.Copy` | game.py:39 | the copy holds the same map as the original and is a new object |
| `Boards.Board.Get` | board.py:10-14 | a valid square yields its entry; an off-board square yields the `InvalidSquare` error |
| `Boards.Board.Set` | board.py:16-20 | a valid square gets the piece and `Get` then returns it; every other square and the key set stay as they were; an off-board square is refused with `InvalidSquare` and nothing changes |
| `Boards.Board.GetSquaresWithPieces` | game_rules.py:14 | returns, in scan order, the valid squares holding a piece of the colour |
| `Boards.Board.GetEmptySquares` | game_rules.py:33 | returns, in scan order, the valid squares holding no piece |
| `Games.Relocate` | game.py:34-35 | after moving start to end: the start is empty, the end holds the old start's piece (when the squares differ), every other square is as before, the key set is unchanged |
| `Games.BackRankPlaced` | game.py:19-27 | placing R N B Q K B N R on a back rank extends the partial starting position by that rank |
| `Games.PlaceBackRank` | game.py:20-27 | the eight assignments of one back rank leave the board full and change exactly those eight squares, to R N B Q K B N R from column 0 |
| `Games.Game.constructor` | game.py:9-31 | rows 0 and 7 hold R N B Q K B N R (white, black), rows 1 and 6 hold pawns, all else is empty; white to move, no double pawn push, all four castling flags true |
| `Games.Game.MakeMove` | game.py:33-36 | with both squares valid the board becomes `Relocate` of the old board and the turn passes to the opponent; with an off-board square the `InvalidSquare` error is returned and board and turn are untouched; `double_pawn_push` and the castling flags never change |
| `Games.Game.SimulateMove` | game.py:38-43 | returns a fresh board equal to `Relocate` of the game's board, the board `MakeMove` would leave; the game's own board and turn are untouched; an off-board square gives the `InvalidSquare` error |
| `GameRulesSpec.ShiftBound` | game_rules.py:73 | from a valid square, a valid square along a ray is at most 7 steps away, so each ray loop ends |
| `GameRulesSpec.ShiftIsScaled` | game_rules.py:73 | the square a ray reaches after `steps` steps is (row + d[0] * steps, column + d[1] * steps), as the source computes it |
| `GameRulesSpec.TargetMovesMembers` | game_rules.py:55-57 | a target move is produced iff the target is listed and admitted (enemy-held for captures, empty or enemy-held otherwise), and it starts at the piece's square |
| `GameRulesSpec.TargetMovesCount` | game_rules.py:63-66 | an admitted target listed n times gives its move n times; an unadmitted one never |
| `GameRulesSpec.LeaperMovesCount` | game_rules.py:63-66 | a leaper's move by an offset appears as often as that offset is listed when its square is empty or enemy-held, and never otherwise |
| `GameRulesSpec.KnightOffsetsRepeat` | game_rules.py:61 | the knight's offset list holds (-2, 1) twice |
| `GameRulesSpec.LeaperMembers` | game_rules.py:59-66 | a knight or king move is exactly a move by one of the listed offsets onto an empty or enemy-held square |
| `GameRulesSpec.KnightNeverMovesMinusTwoMinusOne` | game_rules.py:61 | no knight move goes by (-2, -1), because that offset is missing from the list |
| `GameRulesSpec.KnightRepeatsMinusTwoPlusOne` | game_rules.py:61-66 | the knight move by (-2, 1) appears exactly twice when its square is empty or enemy-held, and otherwise not at all |
| `GameRulesSpec.KingOffsetsAreUnitSteps` | game_rules.py:110 | the king's offset list holds exactly the eight steps of at most one row and one column |
| `GameRulesSpec.KingMoves` | game_rules.py:108-115 | a king move is exactly a move to one of the eight neighbouring squares that is empty or enemy-held |
| `GameRulesSpec.PawnPushRule` | game_rules.py:37-48 | the single push appears iff the square one step in the pawn's direction is empty; the double push appears iff in addition the pawn is on row 1 (white) or 6 (black) and the square two steps ahead is empty |
| `GameRulesSpec.PawnCaptureRule` | game_rules.py:51-57 | a move to a forward diagonal appears iff that square holds an enemy piece |
| `GameRulesSpec.PawnMovesShape` | game_rules.py:36-57 | every pawn move is a single push, a double push from the starting row, or a capture onto an enemy piece on a forward diagonal |
| `GameRulesSpec.RayShape` | game_rules.py:68-83 | a ray's moves go to steps k, k+1, ... in order; all but the last land on empty squares and the last on an empty or enemy-held one; the ray ends at an enemy piece or because the next square is own-held or off the board; its last square is at most 7 steps out |
| `GameRulesSpec.SlidingMovesEnds` | game_rules.py:68-100 | every bishop or rook move starts at the piece's square and lands on an empty or enemy-held square |
| `GameRulesSpec.SlidingMovesAppend` | game_rules.py:102-106 | sliding along two direction lists in turn equals sliding along their concatenation |
| `GameRulesSpec.QueenIsBishopThenRook` | game_rules.py:102-106 | the queen's move list (its eight lines) is exactly the bishop's list followed by the rook's list for the same colour and square |
| `GameRulesSpec.PseudoLegalEnds` | game_rules.py:28-117 | every move of every piece kind starts at the piece's square and lands on a valid square that is empty or enemy-held, never off the board and never on an own piece |
| `GameRulesSpec.SelectOccupied` | game_rules.py:14-18 | every square the own-piece query returns is valid and holds a piece |
| `GameRulesSpec.MovesOfMembers` | game_rules.py:16-21 | a move is in the joined list iff it belongs to the piece on one of the listed squares |
| `GameRulesSpec.AllPseudoLegalMembers` | game_rules.py:9-21 | a move is offered iff it is a pseudo-legal move of some piece of the side to move; no king-safety filtering |
| `GameRulesSpec.AllPseudoLegalEnds` | game_rules.py:9-21 | every offered move starts on a square holding a piece of the side to move and lands on an empty or enemy-held square |
| `GameRules.GetAllLegalMoves` | game_rules.py:9-10 | returns the side to move's pseudo-legal moves unfiltered, and changes nothing |
| `GameRules.GetAllPseudoLegalMoves` | game_rules.py:13-21 | the loop over own squares returns the moves of each own piece, square after square in scan order |
| `GameRules.GetPseudoLegalMoves` | game_rules.py:28-117 | returns the pseudo-legal moves of the piece on the square, by kind; the queen arm joins the bishop and rook lists |
| `GameRules.GetPawnMoves` | game_rules.py:36-57 | the pushes and then the diagonal captures, as `PawnMoves` |
| `GameRules.GetPawnCaptures` | game_rules.py:55-57 | the capture loop returns one move per listed square holding an enemy piece, in list order |
| `GameRules.GetLeaperMoves` | game_rules.py:59-66 | one move per offset whose square is empty or enemy-held, in offset order, as `LeaperMoves` |
| `GameRules.GetSlidingMoves` | game_rules.py:68-100 | the `while True` ray loops return, direction after direction, exactly the rays of `RayShape` |
| `GameRules.GetRayMoves` | game_rules.py:71-83 | the `while True` loop of one direction returns exactly `Ray` from step 1: it steps on over empty squares, takes one enemy-held square and stops, and stops at anything else |
| `Coordinates.GetSquare` | graphics.py:167-175 | any square it returns is valid; otherwise it returns None |
| `Coordinates.GetCoordinates` | graphics.py:158-164 | the corner is x = column * S and y = 8S - (row + 1) * S = (7 - row) * S: columns run left to right and rows bottom-up; `CoordinatesOnGrid` adds the grid facts for a valid square |
| `Coordinates.CoordinatesOnGrid` | graphics.py:158-164 | a valid square's corner is (column * S, (7 - row) * S): both in 0..7 * S and multiples of S |
| `Coordinates.GetSquareInsideCell` | graphics.py:167-175 | for 0 <= dx < S and 0 < dy <= S, the pixel (c * S + dx, (7 - r) * S + dy) maps to Square(r, c) |
| `Coordinates.GetSquareRegion` | graphics.py:167-175 | a square is found exactly for 0 <= x < 8 * S and 0 < y <= 8 * S |
| `Coordinates.GetSquareAtCornerIsSquareAbove` | graphics.py:158-175 | at the corner `get_coordinates` returns, the square found is the one a row up (None for row 7), never the square itself |
| `Coordinates.GetSquareCorrected` | graphics.py:171 | the corrected conversion: any square it returns is valid |
| `Coordinates.GetSquareCorrectedInsideCell` | graphics.py:167-175 | with the corrected row, every pixel of a drawn cell, its top line included, maps to that cell's square |
| `Coordinates.GetSquareCorrectedRoundTrip` | graphics.py:158-175 | the corrected conversion maps the corner of every valid square back to that square |
| `Coordinates.GetSquareCorrectedRegion` | graphics.py:167-175 | the corrected conversion finds a square exactly on the window's pixels, 0 <= x, y < 8 * S |

## Left out

- `__is_check` (game_rules.py:24-25) is `pass`: it returns None and nobody calls it. There is no check detection to model.
- Check, legality filtering, en passant, castling, promotion, move kinds and game results are not implemented in this revision. They are not modelled, so as not to invent behaviour.
- `double_pawn_push` and the castling flags are modelled as fields that are set up and then never changed, as in the code.
- `Square.__hash__` (square.py:14-15): squares are value-typed map keys in the model, so equal squares are the same key. Python's hash values themselves are not modelled.
- `PieceType`'s enum values (piece.py:13-17) are, through trailing commas, one-element tuples in Python. The model uses a plain enumeration. Python object identity of `Piece` and `Move` is replaced by value equality.
- `copy.deepcopy` (game.py:39) is modelled as a value copy of the board's map (`Board.Copy`).
- `GameRules.GetPseudoLegalMoves`: requires a valid start square, which the source does not demand. Its callers, the all-moves loop and the queen arm's two calls on the same square, pass squares the own-piece query returned. The source's `while True` loops stop from any start, because only valid squares are ever listed as empty; the model's termination measure for a ray (`decreases 8 - steps`, bounded through `ShiftBound`) is what needs the valid start.
- `Squares.Square.ToString` and `Moves.Move.ToString`: an off-board square makes the source raise `KeyError`. The model states this as a precondition, not as an error value.
- `SQUARE_SIZE` is defined in settings.py, which is not part of this model. It is a positive parameter of the `Coordinates` functions.
- graphics.py apart from `Coordinates` (drawing, images, cursor, fonts, click handling, result display) is pygame user interface code. main.py is the event loop, and it reads `game.legal_moves`, which `Game` does not define. Neither is modelled.
- The result type imported by graphics.py (graphics.py:3) does not exist in game_rules.py. It is not modelled.

## Findings

| source | as written | input that shows it | evidently intended | confidence | as-written member | corrected member |
|---|---|---|---|---|---|---|
| graphics.py:171 | `row = (height - y) // SQUARE_SIZE` | the corner pixel `get_coordinates(Square(r, c))`, the top-left pixel of the cell where that square is drawn, gives `Square(r + 1, c)`, or None for r = 7 | `row = (height - 1 - y) // SQUARE_SIZE`, so that each drawn cell, top pixel line included, maps to its own square | not executed; the derivation is proved for every positive square size | `Coordinates.GetSquareAtCornerIsSquareAbove` | `Coordinates.GetSquareCorrected` (round trip: `Coordinates.GetSquareCorrectedRoundTrip`) |
