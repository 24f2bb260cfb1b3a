/** The 8x8 board (board.py): a map from every valid square to an optional piece. */
module Boards {
  import opened Wrappers
  import opened Squares
  import opened Pieces

  /** The error the source raises as `KeyError` for an off-board square. */
  datatype Error = InvalidSquare(square: Square)

  type Cells = map<Square, Option<Piece>>

  /** The 64 squares in the order the board's dictionary is built:
      column by column, and within a column from row 0 upwards. */
  function AllSquares(): seq<Square>
  {
    seq(64, i => Square(i % 8, i / 8))
  }

  /** Exactly the 64 valid squares are keys. */
  ghost predicate Full(cells: Cells)
  {
    forall sq :: sq in cells <==> sq.IsValid()
  }

  /** What a board query asks of a square: that it is empty, or holds a piece of a colour. */
  datatype Occupancy = Vacant | OccupiedBy(color: Color)

  predicate Holds(cells: Cells, sq: Square, q: Occupancy)
  {
    && sq.IsValid()
    && sq in cells
    && match q
       case Vacant => cells[sq].None?
       case OccupiedBy(c) => cells[sq].Some? && cells[sq].value.color == c
  }

  /** The squares of `s`, in order, that satisfy the query. */
  function Select(cells: Cells, q: Occupancy, s: seq<Square>): seq<Square>
  {
    if s == [] then []
    else
      var last := s[|s| - 1];
      Select(cells, q, s[..|s| - 1]) + (if Holds(cells, last, q) then [last] else [])
  }

  lemma AllSquaresIndex(sq: Square)
    requires sq.IsValid()
    ensures 0 <= sq.column * 8 + sq.row < 64 && AllSquares()[sq.column * 8 + sq.row] == sq
  {
  }

  /** The scan order lists exactly the valid squares, each once. */
  lemma AllSquaresAreTheValidSquares()
    ensures forall sq :: sq in AllSquares() <==> sq.IsValid()
    ensures forall i, j :: 0 <= i < j < |AllSquares()| ==> AllSquares()[i] != AllSquares()[j]
  {
    forall sq: Square | sq.IsValid()
      ensures sq in AllSquares()
    {
      AllSquaresIndex(sq);
    }
  }

  /** A square is selected iff it is listed and satisfies the query. */
  lemma {:induction false} SelectMembers(cells: Cells, q: Occupancy, s: seq<Square>)
    ensures forall sq :: sq in Select(cells, q, s) <==> sq in s && Holds(cells, sq, q)
  {
    if s != [] {
      SelectMembers(cells, q, s[..|s| - 1]);
      assert s == s[..|s| - 1] + [s[|s| - 1]];
    }
  }

  /** The empty squares, the white squares and the black squares of a full board are
      pairwise disjoint and together make up the 64 valid squares. */
  lemma QueriesPartitionBoard(cells: Cells)
    requires Full(cells)
    ensures forall sq: Square :: sq.IsValid() <==>
      (sq in Select(cells, Vacant, AllSquares()) || sq in Select(cells, OccupiedBy(White), AllSquares())
       || sq in Select(cells, OccupiedBy(Black), AllSquares()))
    ensures forall sq :: !(sq in Select(cells, Vacant, AllSquares()) && sq in Select(cells, OccupiedBy(White), AllSquares()))
    ensures forall sq :: !(sq in Select(cells, Vacant, AllSquares()) && sq in Select(cells, OccupiedBy(Black), AllSquares()))
    ensures forall sq :: !(sq in Select(cells, OccupiedBy(White), AllSquares()) && sq in Select(cells, OccupiedBy(Black), AllSquares()))
  {
    AllSquaresAreTheValidSquares();
    SelectMembers(cells, Vacant, AllSquares());
    SelectMembers(cells, OccupiedBy(White), AllSquares());
    SelectMembers(cells, OccupiedBy(Black), AllSquares());
  }

  class Board {
    var cells: Cells

    ghost predicate Valid()
      reads this
    {
      Full(cells)
    }

    /** A new board maps every valid square to no piece. */
    constructor ()
      ensures Valid()
      ensures forall sq :: sq in cells ==> cells[sq] == None
    {
      AllSquaresAreTheValidSquares();
      cells := map sq | sq in AllSquares() :: None;
    }

    /** A value copy of another board (the source's `deepcopy`). */
    constructor Copy(other: Board)
      requires other.Valid()
      ensures Valid() && cells == other.cells
    {
      cells := other.cells;
    }

    /** `board[sq]`: the entry of a valid square, or the error for an off-board one. */
    function Get(sq: Square): (r: Result<Option<Piece>, Error>)
      reads this
      requires Valid()
      ensures r.Success? <==> sq.IsValid()
      ensures r.Success? ==> r.value == cells[sq]
      ensures r.Failure? ==> r.error == InvalidSquare(sq)
    {
      if 0 <= sq.row < 8 && 0 <= sq.column < 8 then Success(cells[sq]) else Failure(InvalidSquare(sq))
    }

    /** `board[sq] = piece`: overwrites one valid square and nothing else; an off-board
        square is refused and the board is left as it was. */
    method Set(sq: Square, piece: Option<Piece>) returns (outcome: Outcome<Error>)
      requires Valid()
      modifies this
      ensures Valid()
      ensures outcome.Pass? <==> sq.IsValid()
      ensures outcome.Fail? ==> outcome.error == InvalidSquare(sq) && cells == old(cells)
      ensures outcome.Pass? ==> cells == old(cells)[sq := piece]
      ensures outcome.Pass? ==> Get(sq) == Success(piece)
      ensures forall other :: other != sq ==> Get(other) == old(Get(other))
    {
      if 0 <= sq.row < 8 && 0 <= sq.column < 8 {
        cells := cells[sq := piece];
        outcome := Pass;
      } else {
        outcome := Fail(InvalidSquare(sq));
      }
    }

    /** The valid squares holding a piece of `color`, in scan order. */
    method GetSquaresWithPieces(color: Color) returns (squares: seq<Square>)
      requires Valid()
      ensures squares == Select(cells, OccupiedBy(color), AllSquares())
    {
      squares := Scan(OccupiedBy(color));
    }

    /** The valid squares holding no piece, in scan order. */
    method GetEmptySquares() returns (squares: seq<Square>)
      requires Valid()
      ensures squares == Select(cells, Vacant, AllSquares())
    {
      squares := Scan(Vacant);
    }

    /** One read-only pass over the board in scan order. */
    method Scan(q: Occupancy) returns (squares: seq<Square>)
      requires Valid()
      ensures squares == Select(cells, q, AllSquares())
    {
      squares := [];
      for i := 0 to |AllSquares()|
        invariant squares == Select(cells, q, AllSquares()[..i])
      {
        var sq := AllSquares()[i];
        assert AllSquares()[..i + 1][..i] == AllSquares()[..i];
        if Holds(cells, sq, q) {
          squares := squares + [sq];
        }
      }
      assert AllSquares()[..|AllSquares()|] == AllSquares();
    }
  }
}
