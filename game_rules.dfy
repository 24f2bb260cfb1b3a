/** The move generator of game_rules.py, written as the source runs it: lists built
    by appending inside loops. Each method is proved to compute the corresponding
    function of module GameRulesSpec. */
module GameRules {
  import opened Wrappers
  import opened Squares
  import opened Pieces
  import opened Moves
  import opened Boards
  import opened Games
  import opened GameRulesSpec

  /** The moves offered to the side to move: its pseudo-legal moves, unfiltered. */
  method GetAllLegalMoves(game: Game) returns (moves: seq<Move>)
    requires game.Valid()
    ensures moves == AllPseudoLegal(game.board.cells, game.turn)
  {
    moves := GetAllPseudoLegalMoves(game);
  }

  /** The moves of every piece of the side to move, its squares in scan order. */
  method GetAllPseudoLegalMoves(game: Game) returns (moves: seq<Move>)
    requires game.Valid()
    ensures moves == AllPseudoLegal(game.board.cells, game.turn)
  {
    var board := game.board;
    var ownSquares := board.GetSquaresWithPieces(game.turn);
    SelectOccupied(board.cells, game.turn);
    moves := [];
    for i := 0 to |ownSquares|
      invariant moves == MovesOf(board.cells, ownSquares[..i])
    {
      var square := ownSquares[i];
      assert ownSquares[..i + 1][..i] == ownSquares[..i];
      var piece := board.Get(square).value.value;
      var pieceMoves := GetPseudoLegalMoves(piece, square, board);
      moves := moves + pieceMoves;
    }
    assert ownSquares[..|ownSquares|] == ownSquares;
  }

  /** The moves of `piece` standing on `start`, by kind; the queen's are the moves of a
      bishop and then of a rook of its colour on the same square. */
  method GetPseudoLegalMoves(piece: Piece, start: Square, board: Board) returns (moves: seq<Move>)
    requires board.Valid() && start.IsValid()
    ensures moves == PseudoLegal(board.cells, piece, start)
    decreases if piece.kind == Queen then 1 else 0
  {
    var opponentColor := if piece.color == White then Black else White;
    var opponentSquares := board.GetSquaresWithPieces(opponentColor);
    var emptySquares := board.GetEmptySquares();
    SelectMembers(board.cells, OccupiedBy(opponentColor), AllSquares());
    SelectMembers(board.cells, Vacant, AllSquares());
    AllSquaresAreTheValidSquares();

    match piece.kind
    case Pawn =>
      moves := GetPawnMoves(piece.color, start, emptySquares, opponentSquares, board.cells);
    case Knight =>
      moves := GetLeaperMoves(piece.color, start, KnightOffsets, emptySquares + opponentSquares, board.cells);
    case Bishop =>
      moves := GetSlidingMoves(piece.color, start, BishopDirections, emptySquares, opponentSquares, board.cells);
    case Rook =>
      moves := GetSlidingMoves(piece.color, start, RookDirections, emptySquares, opponentSquares, board.cells);
    case Queen =>
      var bishopMoves := GetPseudoLegalMoves(Piece(piece.color, Bishop), start, board);
      var rookMoves := GetPseudoLegalMoves(Piece(piece.color, Rook), start, board);
      moves := bishopMoves + rookMoves;
      QueenIsBishopThenRook(board.cells, piece.color, start);
    case King =>
      moves := GetLeaperMoves(piece.color, start, KingOffsets, emptySquares + opponentSquares, board.cells);
  }

  /** Pushes while the squares ahead are empty, then the diagonal captures. */
  method GetPawnMoves(color: Color, start: Square, emptySquares: seq<Square>, opponentSquares: seq<Square>,
                      ghost cells: Cells) returns (moves: seq<Move>)
    requires forall sq :: sq in emptySquares <==> IsVacant(cells, sq)
    requires forall sq :: sq in opponentSquares <==> IsOpponent(cells, color, sq)
    ensures moves == PawnMoves(cells, color, start)
  {
    var direction := if color == White then 1 else -1;
    moves := [];

    var oneSquareForward := Square(start.row + direction, start.column);
    if oneSquareForward in emptySquares {
      moves := moves + [Move(start, oneSquareForward)];

      var startingRow := if color == White then 1 else 6;
      var twoSquaresForward := Square(start.row + 2 * direction, start.column);
      if start.row == startingRow && twoSquaresForward in emptySquares {
        moves := moves + [Move(start, twoSquaresForward)];
      }
    }

    assert moves == PawnPushes(cells, color, start);

    var captureSquares := [Square(start.row + direction, start.column - 1), Square(start.row + direction, start.column + 1)];
    var captures := GetPawnCaptures(color, start, captureSquares, opponentSquares, cells);
    moves := moves + captures;
  }

  /** The capture loop of the pawn arm: one move per listed square that holds an enemy
      piece, in list order. */
  method GetPawnCaptures(color: Color, start: Square, captureSquares: seq<Square>, opponentSquares: seq<Square>,
                         ghost cells: Cells) returns (moves: seq<Move>)
    requires forall sq :: sq in opponentSquares <==> IsOpponent(cells, color, sq)
    ensures moves == TargetMoves(cells, color, start, captureSquares, true)
  {
    moves := [];
    for i := 0 to |captureSquares|
      invariant moves == TargetMoves(cells, color, start, captureSquares[..i], true)
    {
      assert captureSquares[..i + 1][..i] == captureSquares[..i];
      if captureSquares[i] in opponentSquares {
        moves := moves + [Move(start, captureSquares[i])];
      }
    }
    assert captureSquares[..|captureSquares|] == captureSquares;
  }

  /** One move per offset whose square is listed as available. */
  method GetLeaperMoves(color: Color, start: Square, offsets: seq<(int, int)>, availableSquares: seq<Square>,
                        ghost cells: Cells) returns (moves: seq<Move>)
    requires forall sq :: sq in availableSquares <==> IsAvailable(cells, color, sq)
    ensures moves == LeaperMoves(cells, color, start, offsets)
  {
    moves := [];
    for i := 0 to |offsets|
      invariant moves == TargetMoves(cells, color, start, OffsetSquares(start, offsets[..i]), false)
    {
      var endSquare := Square(start.row + offsets[i].0, start.column + offsets[i].1);
      ghost var targets := OffsetSquares(start, offsets[..i]);
      assert OffsetSquares(start, offsets[..i + 1]) == targets + [endSquare] by {
        assert offsets[..i + 1][..i] == offsets[..i];
      }
      assert TargetMoves(cells, color, start, targets + [endSquare], false) ==
        moves + (if IsAvailable(cells, color, endSquare) then [Move(start, endSquare)] else []) by {
        assert (targets + [endSquare])[..|targets|] == targets;
      }
      if endSquare in availableSquares {
        moves := moves + [Move(start, endSquare)];
      }
    }
    assert offsets[..|offsets|] == offsets;
  }

  /** Along each direction in turn: step while the square is empty, take one enemy
      piece, stop at anything else. */
  method GetSlidingMoves(color: Color, start: Square, directions: seq<Direction>,
                         emptySquares: seq<Square>, opponentSquares: seq<Square>,
                         ghost cells: Cells) returns (moves: seq<Move>)
    requires start.IsValid()
    requires forall sq :: sq in emptySquares <==> IsVacant(cells, sq)
    requires forall sq :: sq in opponentSquares <==> IsOpponent(cells, color, sq)
    ensures moves == SlidingMoves(cells, color, start, directions)
  {
    moves := [];
    for i := 0 to |directions|
      invariant moves == SlidingMoves(cells, color, start, directions[..i])
    {
      assert directions[..i + 1][..i] == directions[..i];
      var ray := GetRayMoves(color, start, directions[i], emptySquares, opponentSquares, cells);
      moves := moves + ray;
    }
    assert directions[..|directions|] == directions;
  }

  /** The `while True` loop of one direction: the steps go on while the square reached
      is empty, the loop takes an enemy-held square and stops, and it stops at anything
      else. */
  method GetRayMoves(color: Color, start: Square, direction: Direction,
                     emptySquares: seq<Square>, opponentSquares: seq<Square>,
                     ghost cells: Cells) returns (moves: seq<Move>)
    requires start.IsValid()
    requires forall sq :: sq in emptySquares <==> IsVacant(cells, sq)
    requires forall sq :: sq in opponentSquares <==> IsOpponent(cells, color, sq)
    ensures moves == Ray(cells, color, start, direction, 1)
  {
    moves := [];
    var steps := 1;
    while true
      invariant 1 <= steps <= 8
      invariant Ray(cells, color, start, direction, 1) == moves + Ray(cells, color, start, direction, steps)
      decreases 8 - steps
    {
      var endSquare := Square(start.row + direction.0 * steps, start.column + direction.1 * steps);
      ShiftIsScaled(start, direction, steps);
      if endSquare in emptySquares {
        assert IsVacant(cells, Shift(start, direction, steps));
        ShiftBound(start, direction, steps);
        assert Ray(cells, color, start, direction, steps) ==
          [Move(start, endSquare)] + Ray(cells, color, start, direction, steps + 1);
        moves := moves + [Move(start, endSquare)];
        steps := steps + 1;
      } else if endSquare in opponentSquares {
        assert !IsVacant(cells, endSquare) && IsOpponent(cells, color, endSquare);
        assert Ray(cells, color, start, direction, steps) == [Move(start, endSquare)];
        moves := moves + [Move(start, endSquare)];
        break;
      } else {
        assert !IsVacant(cells, endSquare) && !IsOpponent(cells, color, endSquare);
        assert Ray(cells, color, start, direction, steps) == [];
        break;
      }
    }
  }
}
