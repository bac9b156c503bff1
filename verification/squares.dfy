/**
 * The board as the source sees it: a flat list of squares, indexed
 * `row * 8 + col`, each empty or holding one piece.  The list has 64 squares
 * while a game is on and none once the board has been cleared.
 */
module Squares {
  import opened Pieces

  /** A (row, col) pair; row 0 is the top of the board. */
  type Square = (int, int)

  /** The square lies on the 8 x 8 board; its index then names one of the 64 list positions. */
  predicate IsValidSquare(row: int, col: int)
    ensures IsValidSquare(row, col) ==> 0 <= Index(row, col) < 64
  {
    0 <= row < 8 && 0 <= col < 8
  }

  /** The single conversion from (row, col) to a position in the square list. */
  function Index(row: int, col: int): int
  {
    row * 8 + col
  }

  /**
   * The square at `Index(row, col)` exists and holds no piece.  A position
   * outside the list (negative, or past its end) is not empty: the source
   * finds no square there.
   */
  predicate IsEmptySquare(b: seq<Cell>, row: int, col: int)
    ensures |b| == 0 ==> !IsEmptySquare(b, row, col)
    ensures IsEmptySquare(b, row, col) ==> 0 <= Index(row, col) < |b| && !HoldsKing(b[Index(row, col)])
  {
    var index := Index(row, col);
    0 <= index < |b| && b[index].None?
  }

  /** The square at `Index(row, col)` exists and holds a piece not of `color`. */
  predicate IsEnemySquare(b: seq<Cell>, row: int, col: int, color: Color)
    ensures IsEnemySquare(b, row, col, color) ==>
      !IsEmptySquare(b, row, col) && 0 <= Index(row, col) < |b|
      && b[Index(row, col)].Some? && b[Index(row, col)].value.color == Opponent(color)
  {
    var index := Index(row, col);
    0 <= index < |b| && b[index].Some? && b[index].value.color != color
  }

  /** Every list position of a full board names exactly one on-board square. */
  lemma IndexRoundTrip(i: int)
    requires 0 <= i < 64
    ensures IsValidSquare(i / 8, i % 8) && Index(i / 8, i % 8) == i
  {
  }

  /** Every on-board square converts to a list position and back unchanged. */
  lemma SquareRoundTrip(row: int, col: int)
    requires IsValidSquare(row, col)
    ensures 0 <= Index(row, col) < 64
    ensures Index(row, col) / 8 == row && Index(row, col) % 8 == col
  {
  }

  /** Two on-board squares never share a list position. */
  lemma IndexInjective(r1: int, c1: int, r2: int, c2: int)
    requires IsValidSquare(r1, c1) && IsValidSquare(r2, c2)
    requires Index(r1, c1) == Index(r2, c2)
    ensures r1 == r2 && c1 == c2
  {
    SquareRoundTrip(r1, c1);
    SquareRoundTrip(r2, c2);
  }

  /**
   * Off the board the conversion aliases: (0, 8) and (1, 0) share position 8.
   * This is why the move generator tests `IsValidSquare` before every
   * occupancy query.
   */
  lemma OffBoardAliases(b: seq<Cell>, color: Color)
    ensures !IsValidSquare(0, 8) && IsValidSquare(1, 0) && Index(0, 8) == Index(1, 0)
    ensures IsEmptySquare(b, 0, 8) == IsEmptySquare(b, 1, 0)
    ensures IsEnemySquare(b, 0, 8, color) == IsEnemySquare(b, 1, 0, color)
  {
  }

  /** On a full board the occupancy queries read exactly the named square. */
  lemma OccupancyOnBoard(b: seq<Cell>, row: int, col: int, color: Color)
    requires |b| == 64 && IsValidSquare(row, col)
    ensures 0 <= Index(row, col) < |b|
    ensures IsEmptySquare(b, row, col) <==> b[Index(row, col)].None?
    ensures IsEnemySquare(b, row, col, color) <==>
              b[Index(row, col)].Some? && b[Index(row, col)].value.color != color
  {
    SquareRoundTrip(row, col);
  }

  /** 1 for an occupied cell, 0 for an empty one. */
  function Occupied(cell: Cell): nat
  {
    if cell.Some? then 1 else 0
  }

  /** The number of pieces on the board. */
  function PieceCount(b: seq<Cell>): (n: nat)
    ensures n <= |b|
    ensures n == 0 <==> forall i :: 0 <= i < |b| ==> b[i].None?
  {
    if b == [] then 0 else PieceCount(b[..|b| - 1]) + Occupied(b[|b| - 1])
  }

  /** Overwriting one cell changes the count by what left and what arrived. */
  lemma {:induction false} PieceCountUpdate(b: seq<Cell>, i: nat, v: Cell)
    requires i < |b|
    ensures PieceCount(b[i := v]) == PieceCount(b) - Occupied(b[i]) + Occupied(v)
  {
    var n, c := |b| - 1, b[i := v];
    assert PieceCount(c) == PieceCount(c[..n]) + Occupied(c[n]);
    assert PieceCount(b) == PieceCount(b[..n]) + Occupied(b[n]);
    if i == n {
      assert c[..n] == b[..n];
    } else {
      assert c[..n] == b[..n][i := v];
      PieceCountUpdate(b[..n], i, v);
    }
  }

  /**
   * The board after `movePiece`: the piece at `from` is relocated to `to`;
   * whatever stood on `to` is gone.
   */
  function Moved(b: seq<Cell>, from: nat, to: nat): (r: seq<Cell>)
    requires from < |b| && to < |b|
    ensures |r| == |b| && r[to] == b[from]
    ensures from != to ==> r[from].None?
    ensures forall i :: 0 <= i < |b| && i != from && i != to ==> r[i] == b[i]
  {
    b[from := None][to := b[from]]
  }

  /**
   * Moving a piece onto another square keeps every piece but the captured
   * one: the count drops by one exactly when the target was occupied.
   */
  lemma MovedCount(b: seq<Cell>, from: nat, to: nat)
    requires from < |b| && to < |b| && from != to && b[from].Some?
    ensures PieceCount(Moved(b, from, to)) == PieceCount(b) - Occupied(b[to])
  {
    PieceCountUpdate(b, from, None);
    PieceCountUpdate(b[from := None], to, b[from]);
  }
}
