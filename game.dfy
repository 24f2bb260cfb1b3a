/** Game session state (game.py): the board, the side to move and two fields this
    revision initialises and never updates. */
module Games {
  import opened Wrappers
  import opened Squares
  import opened Pieces
  import opened Moves
  import opened Boards

  /** The back rank from column 0 to column 7. */
  const BackRank: seq<PieceType> := [Rook, Knight, Bishop, Queen, King, Bishop, Knight, Rook]

  /** The piece standing on a square in the standard starting position. */
  function StartingPiece(sq: Square): Option<Piece>
    requires sq.IsValid()
  {
    if sq.row == 0 then Some(Piece(White, BackRank[sq.column]))
    else if sq.row == 7 then Some(Piece(Black, BackRank[sq.column]))
    else if sq.row == 1 then Some(Piece(White, Pawn))
    else if sq.row == 6 then Some(Piece(Black, Pawn))
    else None
  }

  /** Castling flags per colour, keyed by the rook's file as in the source. */
  const InitialCastlingRights: map<Color, map<string, bool>> :=
    map[White := map["a" := true, "h" := true], Black := map["a" := true, "h" := true]]

  /** The board after moving whatever is on `m.start` to `m.end` and clearing `m.start`. */
  function Relocate(cells: Cells, m: Move): (after: Cells)
    requires Full(cells) && m.start.IsValid() && m.end.IsValid()
    ensures Full(after)
    ensures after[m.start] == None
    ensures m.start != m.end ==> after[m.end] == cells[m.start]
    ensures forall sq :: sq in cells && sq != m.start && sq != m.end ==> after[sq] == cells[sq]
  {
    cells[m.end := cells[m.start]][m.start := None]
  }

  /** What the board of a game under construction holds once `ranks` of the two back
      ranks (white first) and the pawns of the first `columns` columns are placed. */
  ghost predicate PlacedSoFar(cells: Cells, ranks: nat, columns: nat)
  {
    && Full(cells)
    && forall sq :: sq in cells ==>
         cells[sq] ==
           if (sq.row == 0 && ranks >= 1) || (sq.row == 7 && ranks >= 2) then StartingPiece(sq)
           else if (sq.row == 1 || sq.row == 6) && sq.column < columns then StartingPiece(sq)
           else None
  }

  /** The board after the eight assignments of `PlaceBackRank`. */
  function WithBackRank(cells: Cells, row: int, color: Color): Cells
  {
    cells[Square(row, 0) := Some(Piece(color, Rook))][Square(row, 1) := Some(Piece(color, Knight))]
         [Square(row, 2) := Some(Piece(color, Bishop))][Square(row, 3) := Some(Piece(color, Queen))]
         [Square(row, 4) := Some(Piece(color, King))][Square(row, 5) := Some(Piece(color, Bishop))]
         [Square(row, 6) := Some(Piece(color, Knight))][Square(row, 7) := Some(Piece(color, Rook))]
  }

  /** Placing the two pawns of the next column extends the setup by that column. */
  lemma PawnsPlaced(cells: Cells, column: nat)
    requires column < 8 && PlacedSoFar(cells, 2, column)
    ensures PlacedSoFar(cells[Square(1, column) := Some(Piece(White, Pawn))][Square(6, column) := Some(Piece(Black, Pawn))], 2, column + 1)
  {
  }

  /** Once both back ranks and all eight columns of pawns are placed, the board is the
      starting position. */
  lemma SetupComplete(cells: Cells)
    requires PlacedSoFar(cells, 2, 8)
    ensures forall sq: Square :: sq.IsValid() ==> sq in cells && cells[sq] == StartingPiece(sq)
  {
  }

  /** The eight assignments put `BackRank` on `row` and leave the other rows alone. */
  lemma WithBackRankRow(cells: Cells, row: int, color: Color)
    requires Full(cells) && 0 <= row < 8
    ensures Full(WithBackRank(cells, row, color))
    ensures forall sq :: sq in cells ==>
      WithBackRank(cells, row, color)[sq] == if sq.row == row then Some(Piece(color, BackRank[sq.column])) else cells[sq]
  {
  }

  /** Filling the back rank of the next colour extends the setup by one rank. */
  lemma BackRankPlaced(cells: Cells, i: nat)
    requires i < 2 && PlacedSoFar(cells, i, 0)
    ensures PlacedSoFar(WithBackRank(cells, if i == 0 then 0 else 7, if i == 0 then White else Black), i + 1, 0)
  {
    WithBackRankRow(cells, if i == 0 then 0 else 7, if i == 0 then White else Black);
  }

  /** The eight assignments that put one colour's back rank on `row`. */
  method PlaceBackRank(b: Board, row: int, color: Color)
    requires b.Valid() && 0 <= row < 8
    modifies b
    ensures b.Valid()
    ensures b.cells == WithBackRank(old(b.cells), row, color)
  {
    var placed := b.Set(Square(row, 0), Some(Piece(color, Rook)));
    placed := b.Set(Square(row, 1), Some(Piece(color, Knight)));
    placed := b.Set(Square(row, 2), Some(Piece(color, Bishop)));
    placed := b.Set(Square(row, 3), Some(Piece(color, Queen)));
    placed := b.Set(Square(row, 4), Some(Piece(color, King)));
    placed := b.Set(Square(row, 5), Some(Piece(color, Bishop)));
    placed := b.Set(Square(row, 6), Some(Piece(color, Knight)));
    placed := b.Set(Square(row, 7), Some(Piece(color, Rook)));
  }

  class Game {
    var board: Board
    var turn: Color
    var doublePawnPush: Option<Square>
    var castlingRights: map<Color, map<string, bool>>

    ghost predicate Valid()
      reads this, board
    {
      board.Valid()
    }

    /** The standard starting position, white to move, no double pawn push recorded
        and all four castling flags set. */
    constructor ()
      ensures Valid() && fresh(board)
      ensures forall sq: Square :: sq.IsValid() ==> board.cells[sq] == StartingPiece(sq)
      ensures turn == White && doublePawnPush == None
      ensures castlingRights == InitialCastlingRights
    {
      var b := new Board();
      for i := 0 to 2
        invariant b.Valid() && PlacedSoFar(b.cells, i, 0)
      {
        BackRankPlaced(b.cells, i);
        PlaceBackRank(b, if i == 0 then 0 else 7, if i == 0 then White else Black);
      }
      for column := 0 to 8
        invariant b.Valid() && PlacedSoFar(b.cells, 2, column)
      {
        PawnsPlaced(b.cells, column);
        var placed := b.Set(Square(1, column), Some(Piece(White, Pawn)));
        placed := b.Set(Square(6, column), Some(Piece(Black, Pawn)));
      }
      SetupComplete(b.cells);
      board := b;
      turn := White;
      doublePawnPush := None;
      castlingRights := InitialCastlingRights;
    }

    /** Moves the piece on `m.start` to `m.end`, clears `m.start` and passes the turn.
        An off-board square raises before anything changes. No rule is checked: the
        caller is trusted to pass a generated move. */
    method MakeMove(m: Move) returns (outcome: Outcome<Error>)
      requires Valid()
      modifies this, board
      ensures Valid() && board == old(board)
      ensures outcome.Pass? <==> m.start.IsValid() && m.end.IsValid()
      ensures outcome.Pass? ==> board.cells == Relocate(old(board.cells), m) && turn == Opposing(old(turn))
      ensures outcome.Fail? ==> board.cells == old(board.cells) && turn == old(turn)
      ensures outcome.Fail? ==> outcome.error == InvalidSquare(if m.start.IsValid() then m.end else m.start)
      ensures doublePawnPush == old(doublePawnPush) && castlingRights == old(castlingRights)
    {
      var moving := board.Get(m.start);
      if moving.Failure? {
        return Fail(moving.error);
      }
      outcome := board.Set(m.end, moving.value);
      if outcome.Fail? {
        return;
      }
      outcome := board.Set(m.start, None);
      turn := Opposing(turn);
    }

    /** A fresh board equal to the one `MakeMove(m)` would leave; the game itself is
        not touched. */
    method SimulateMove(m: Move) returns (r: Result<Board, Error>)
      requires Valid()
      ensures r.Success? <==> m.start.IsValid() && m.end.IsValid()
      ensures r.Success? ==> fresh(r.value) && r.value.Valid() && r.value.cells == Relocate(board.cells, m)
      ensures r.Failure? ==> r.error == InvalidSquare(if m.start.IsValid() then m.end else m.start)
    {
      var simulated := new Board.Copy(board);
      var moving := simulated.Get(m.start);
      if moving.Failure? {
        return Failure(moving.error);
      }
      var placed := simulated.Set(m.end, moving.value);
      if placed.Fail? {
        return Failure(placed.error);
      }
      placed := simulated.Set(m.start, None);
      return Success(simulated);
    }
  }
}
