/**
 * The move generator (`calculateMoves` and the occupancy helpers it uses):
 * for a piece type, a colour and a square, the ordered list of pseudo-legal
 * destination squares on the current board.  It only reads the board.
 */
module MoveGenerator {
  import opened Pieces
  import opened Squares

  /**
   * The direction vectors (row step, column step) of each type, in the
   * order the generator scans them.  The table's pawn entry is never read:
   * pawns have their own rule.
   */
  function Directions(kind: PieceType): (dirs: seq<(int, int)>)
    ensures dirs == [] <==> kind == Pawn
    ensures |dirs| <= 8
    ensures forall k :: 0 <= k < |dirs| ==> dirs[k] != (0, 0)
  {
    match kind
    case Pawn => []
    case Rook => [(1, 0), (-1, 0), (0, 1), (0, -1)]
    case Knight => [(2, 1), (2, -1), (-2, 1), (-2, -1), (1, 2), (1, -2), (-1, 2), (-1, -2)]
    case Bishop => [(1, 1), (1, -1), (-1, 1), (-1, -1)]
    case Queen => [(1, 0), (-1, 0), (0, 1), (0, -1), (1, 1), (1, -1), (-1, 1), (-1, -1)]
    case King => [(1, 0), (-1, 0), (0, 1), (0, -1), (1, 1), (1, -1), (-1, 1), (-1, -1)]
  }

  /** How many multiples of a direction are scanned: one for a king, eight for every other type. */
  function StepLimit(kind: PieceType): (n: nat)
    ensures 1 <= n <= 8
    ensures n == 1 <==> kind == King
  {
    if kind == King then 1 else 8
  }

  /** Pawns advance towards row 0 when white and towards row 7 when black. */
  function PawnDirection(color: Color): int
  {
    if color == White then -1 else 1
  }

  /** The row a pawn may make its two-square push from. */
  function StartRow(color: Color): int
  {
    if color == White then 6 else 1
  }

  /**
   * The square `k` steps along direction `d` from (row, col), one step at a
   * time; `StepSquareAt` gives its closed form (row + k * dr, col + k * dc).
   */
  function StepSquare(row: int, col: int, d: (int, int), k: nat): Square
  {
    if k == 0 then (row, col)
    else var s := StepSquare(row, col, d, k - 1); (s.0 + d.0, s.1 + d.1)
  }

  /** The k-th step is the k-th multiple of the direction vector, as the source computes it. */
  lemma {:induction false} StepSquareAt(row: int, col: int, d: (int, int), k: nat)
    ensures StepSquare(row, col, d, k) == (row + d.0 * k, col + d.1 * k)
  {
    if k > 0 {
      StepSquareAt(row, col, d, k - 1);
      assert d.0 * (k - 1) + d.0 == d.0 * k && d.1 * (k - 1) + d.1 == d.1 * k;
    }
  }

  /** One step of a ray at the square the source computes, `row + dr * i, col + dc * i`. */
  lemma RayAt(b: seq<Cell>, color: Color, row: int, col: int, d: (int, int), i: nat, limit: nat)
    requires i <= limit
    ensures var (r, c) := (row + d.0 * i, col + d.1 * i);
      Ray(b, color, row, col, d, i, limit) ==
        if !IsValidSquare(r, c) then []
        else if IsEmptySquare(b, r, c) then [(r, c)] + Ray(b, color, row, col, d, i + 1, limit)
        else if IsEnemySquare(b, r, c, color) then [(r, c)]
        else []
  {
    StepSquareAt(row, col, d, i);
  }

  /** An on-board square with no piece on it: a ray passes through it. */
  predicate Open(b: seq<Cell>, s: Square)
  {
    IsValidSquare(s.0, s.1) && IsEmptySquare(b, s.0, s.1)
  }

  /** An on-board square that is empty or holds an enemy of `color`. */
  predicate Takeable(b: seq<Cell>, color: Color, s: Square)
  {
    IsValidSquare(s.0, s.1) && (IsEmptySquare(b, s.0, s.1) || IsEnemySquare(b, s.0, s.1, color))
  }

  /** Every step strictly between `from` (inclusive) and `k` is open. */
  predicate ClearBetween(b: seq<Cell>, row: int, col: int, d: (int, int), from: nat, k: nat)
  {
    forall j: nat :: from <= j < k ==> Open(b, StepSquare(row, col, d, j))
  }

  /**
   * The squares one direction yields, scanning from step `i` up to step
   * `limit`: empty squares are taken and the scan goes on; an enemy square
   * is taken and ends the scan; the board edge or a friendly piece ends it.
   */
  function Ray(b: seq<Cell>, color: Color, row: int, col: int, d: (int, int), i: nat, limit: nat): (r: seq<Square>)
    decreases limit + 1 - i
  {
    if i > limit then []
    else
      var s := StepSquare(row, col, d, i);
      if !IsValidSquare(s.0, s.1) then []
      else if IsEmptySquare(b, s.0, s.1) then [s] + Ray(b, color, row, col, d, i + 1, limit)
      else if IsEnemySquare(b, s.0, s.1, color) then [s]
      else []
  }

  /** The rays of all directions in `dirs`, one after the other. */
  function DirMoves(b: seq<Cell>, color: Color, row: int, col: int, dirs: seq<(int, int)>, limit: nat): (r: seq<Square>)
  {
    if dirs == [] then []
    else DirMoves(b, color, row, col, dirs[..|dirs| - 1], limit) + Ray(b, color, row, col, dirs[|dirs| - 1], 1, limit)
  }

  /** The diagonal-forward squares among `targets` that are on the board and hold an enemy. */
  function PawnCaptures(b: seq<Cell>, color: Color, targets: seq<Square>): (r: seq<Square>)
  {
    if targets == [] then []
    else
      var t := targets[|targets| - 1];
      PawnCaptures(b, color, targets[..|targets| - 1])
        + (if IsValidSquare(t.0, t.1) && IsEnemySquare(b, t.0, t.1, color) then [t] else [])
  }

  /** Extending the examined targets by one adds that target exactly when it is a capture. */
  lemma PawnCapturesNext(b: seq<Cell>, color: Color, targets: seq<Square>, k: nat)
    requires k < |targets|
    ensures var t := targets[k];
      PawnCaptures(b, color, targets[..k + 1])
        == PawnCaptures(b, color, targets[..k]) + if IsValidSquare(t.0, t.1) && IsEnemySquare(b, t.0, t.1, color) then [t] else []
  {
    assert targets[..k + 1][..k] == targets[..k];
  }

  /** The pawn's forward moves: the one-square push, then the two-square push from its start row. */
  function PawnPushes(b: seq<Cell>, color: Color, row: int, col: int): (r: seq<Square>)
  {
    var dir := PawnDirection(color);
    (if IsValidSquare(row + dir, col) && IsEmptySquare(b, row + dir, col) then [(row + dir, col)] else [])
    + (if row == StartRow(color) && IsValidSquare(row + 2 * dir, col)
          && IsEmptySquare(b, row + dir, col) && IsEmptySquare(b, row + 2 * dir, col)
       then [(row + 2 * dir, col)] else [])
  }

  /** The two squares diagonally forward of a pawn, left one first. */
  function PawnDiagonals(color: Color, row: int, col: int): seq<Square>
  {
    var dir := PawnDirection(color);
    [(row + dir, col - 1), (row + dir, col + 1)]
  }

  /** The pawn rule: the pushes, then the captures on the two forward diagonals. */
  function PawnMoves(b: seq<Cell>, color: Color, row: int, col: int): (r: seq<Square>)
  {
    PawnPushes(b, color, row, col) + PawnCaptures(b, color, PawnDiagonals(color, row, col))
  }

  /** The rule of every type but the pawn: scan each of the type's directions up to its step cap. */
  function RiderMoves(b: seq<Cell>, kind: PieceType, color: Color, row: int, col: int): seq<Square>
  {
    DirMoves(b, color, row, col, Directions(kind), StepLimit(kind))
  }

  /** What `calculateMoves` returns for a piece of `kind` and `color` on (row, col). */
  function Moves(b: seq<Cell>, kind: PieceType, color: Color, row: int, col: int): (r: seq<Square>)
  {
    match kind
    case Pawn => PawnMoves(b, color, row, col)
    case _ => RiderMoves(b, kind, color, row, col)
  }

  /**
   * The generator itself: the pawn tests, then, for every other type, a
   * scan of each direction in turn.
   */
  method CalculateMoves(b: seq<Cell>, kind: PieceType, color: Color, row: int, col: int)
    returns (moves: seq<Square>)
    ensures moves == Moves(b, kind, color, row, col)
  {
    if kind == Pawn {
      moves := CalculatePawnMoves(b, color, row, col);
    } else {
      moves := [];
      var dirs := Directions(kind);
      var limit := if kind == King then 1 else 8;
      for d := 0 to |dirs|
        invariant moves == DirMoves(b, color, row, col, dirs[..d], limit)
      {
        var ray := ScanDirection(b, color, row, col, dirs[d], limit);
        moves := moves + ray;
        assert dirs[..d + 1][..d] == dirs[..d];
      }
      assert dirs[..|dirs|] == dirs;
    }
  }

  /** The pawn branch of the generator. */
  method CalculatePawnMoves(b: seq<Cell>, color: Color, row: int, col: int)
    returns (moves: seq<Square>)
    ensures moves == PawnMoves(b, color, row, col)
  {
    moves := [];
    var direction := if color == White then -1 else 1;
    var startRow := if color == White then 6 else 1;
    if IsValidSquare(row + direction, col) && IsEmptySquare(b, row + direction, col) {
      moves := moves + [(row + direction, col)];
    }
    if row == startRow && IsValidSquare(row + 2 * direction, col)
       && IsEmptySquare(b, row + direction, col) && IsEmptySquare(b, row + 2 * direction, col)
    {
      moves := moves + [(row + 2 * direction, col)];
    }
    assert moves == PawnPushes(b, color, row, col);
    var captures := ScanCaptures(b, color, [(row + direction, col - 1), (row + direction, col + 1)]);
    moves := moves + captures;
  }

  /** The capture test applied to each diagonal target in turn. */
  method ScanCaptures(b: seq<Cell>, color: Color, targets: seq<Square>) returns (captures: seq<Square>)
    ensures captures == PawnCaptures(b, color, targets)
  {
    captures := [];
    for k := 0 to |targets|
      invariant captures == PawnCaptures(b, color, targets[..k])
    {
      var (r, c) := targets[k];
      PawnCapturesNext(b, color, targets, k);
      if IsValidSquare(r, c) && IsEnemySquare(b, r, c, color) {
        captures := captures + [(r, c)];
      }
    }
    assert targets[..|targets|] == targets;
  }

  /**
   * The scan of one direction: up to `limit` steps, stopping at the edge,
   * after an enemy, or before a friendly piece.
   */
  method ScanDirection(b: seq<Cell>, color: Color, row: int, col: int, d: (int, int), limit: nat)
    returns (ray: seq<Square>)
    ensures ray == Ray(b, color, row, col, d, 1, limit)
  {
    var (dr, dc) := d;
    ray := [];
    var i := 1;
    while i <= limit
      invariant 1 <= i <= limit + 1
      invariant ray + Ray(b, color, row, col, d, i, limit) == Ray(b, color, row, col, d, 1, limit)
    {
      var r, c := row + dr * i, col + dc * i;
      ghost var rest := Ray(b, color, row, col, d, i + 1, limit);
      assert Ray(b, color, row, col, d, i, limit) ==
        if !IsValidSquare(r, c) then []
        else if IsEmptySquare(b, r, c) then [(r, c)] + rest
        else if IsEnemySquare(b, r, c, color) then [(r, c)]
        else []
      by {
        RayAt(b, color, row, col, d, i, limit);
      }
      if !IsValidSquare(r, c) {
        break;
      }
      if IsEmptySquare(b, r, c) {
        assert (ray + [(r, c)]) + rest == ray + ([(r, c)] + rest);
        ray := ray + [(r, c)];
      } else if IsEnemySquare(b, r, c, color) {
        ray := ray + [(r, c)];
        break;
      } else {
        break;
      }
      i := i + 1;
    }
  }
}
