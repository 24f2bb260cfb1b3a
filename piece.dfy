/** Piece colours, kinds and pieces (piece.py). */
module Pieces {

  datatype Color = White | Black

  /** The other side. */
  function Opposing(color: Color): (other: Color)
    ensures other != color
  {
    if color == White then Black else White
  }

  /** Taking the opposing colour twice gives the colour back. */
  lemma OpposingInvolutive(color: Color)
    ensures Opposing(Opposing(color)) == color
  {
  }

  datatype PieceType = Pawn | Knight | Bishop | Rook | Queen | King

  datatype Piece = Piece(color: Color, kind: PieceType)
}
