/** Pieces, colours and board cells of the chess rule engine. */
module Pieces {

  datatype Option<+T> = None | Some(value: T)

  datatype Color = White | Black

  /** The six piece types; the source reads them from the piece's CSS class. */
  datatype PieceType = Pawn | Rook | Knight | Bishop | Queen | King

  datatype Piece = Piece(kind: PieceType, color: Color)

  /** One square of the board: empty, or holding a piece. */
  type Cell = Option<Piece>

  /** The other side; `changeTurn` swaps the side to move with it. */
  function Opponent(c: Color): (r: Color)
    ensures r != c
  {
    if c == White then Black else White
  }

  /** The cell holds a king (of either colour). */
  predicate HoldsKing(cell: Cell)
  {
    cell.Some? && cell.value.kind == King
  }
}
