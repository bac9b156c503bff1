/**
 * What the move generator guarantees: the shape of each scanned direction,
 * the pawn rule, the step caps (a king steps once, every other type rides
 * up to eight multiples of its vectors, the knight included), and that no
 * destination is off the board, the piece's own square, or a friendly piece.
 */
module MoveProperties {
  import opened Pieces
  import opened Squares
  import opened MoveGenerator

  /** The first square of a non-empty scan is its first step, which is takeable. */
  lemma RayHead(b: seq<Cell>, color: Color, row: int, col: int, d: (int, int), i: nat, limit: nat)
    requires 0 < |Ray(b, color, row, col, d, i, limit)|
    ensures i <= limit
    ensures Ray(b, color, row, col, d, i, limit)[0] == StepSquare(row, col, d, i)
    ensures Takeable(b, color, StepSquare(row, col, d, i))
  {
  }

  /** A scan with a second square went through an open first step and continued from the next one. */
  lemma RayTail(b: seq<Cell>, color: Color, row: int, col: int, d: (int, int), i: nat, limit: nat)
    requires 1 < |Ray(b, color, row, col, d, i, limit)|
    ensures i <= limit && Open(b, StepSquare(row, col, d, i))
    ensures Ray(b, color, row, col, d, i, limit)[1..] == Ray(b, color, row, col, d, i + 1, limit)
  {
  }

  /** A scan from step `i` takes at most the steps `i` to `limit`. */
  lemma {:induction false} RayLength(b: seq<Cell>, color: Color, row: int, col: int, d: (int, int), i: nat, limit: nat)
    ensures |Ray(b, color, row, col, d, i, limit)| <= limit + 1 - i || |Ray(b, color, row, col, d, i, limit)| == 0
    decreases limit + 1 - i
  {
    if 1 < |Ray(b, color, row, col, d, i, limit)| {
      RayTail(b, color, row, col, d, i, limit);
      RayLength(b, color, row, col, d, i + 1, limit);
    } else if 0 < |Ray(b, color, row, col, d, i, limit)| {
      RayHead(b, color, row, col, d, i, limit);
    }
  }

  /** The k-th square of a scan from step `i` is step `i + k`. */
  lemma {:induction false} RayStepAt(b: seq<Cell>, color: Color, row: int, col: int, d: (int, int), i: nat, limit: nat, k: nat)
    requires k < |Ray(b, color, row, col, d, i, limit)|
    ensures Ray(b, color, row, col, d, i, limit)[k] == StepSquare(row, col, d, i + k)
    decreases k
  {
    if k == 0 {
      RayHead(b, color, row, col, d, i, limit);
    } else {
      RayTail(b, color, row, col, d, i, limit);
      RayStepAt(b, color, row, col, d, i + 1, limit, k - 1);
      assert (i + 1) + (k - 1) == i + k;
    }
  }

  /** Every square of a scan but its last is empty. */
  lemma {:induction false} RayOpenBeforeLast(b: seq<Cell>, color: Color, row: int, col: int, d: (int, int), i: nat, limit: nat, k: nat)
    requires k + 1 < |Ray(b, color, row, col, d, i, limit)|
    ensures Open(b, Ray(b, color, row, col, d, i, limit)[k])
    decreases k
  {
    RayTail(b, color, row, col, d, i, limit);
    if k == 0 {
      RayHead(b, color, row, col, d, i, limit);
    } else {
      RayOpenBeforeLast(b, color, row, col, d, i + 1, limit, k - 1);
    }
  }

  /** The last square of a non-empty scan is empty or holds an enemy. */
  lemma {:induction false} RayLastTakeable(b: seq<Cell>, color: Color, row: int, col: int, d: (int, int), i: nat, limit: nat)
    requires 0 < |Ray(b, color, row, col, d, i, limit)|
    ensures var ray := Ray(b, color, row, col, d, i, limit); Takeable(b, color, ray[|ray| - 1])
    decreases |Ray(b, color, row, col, d, i, limit)|
  {
    var ray := Ray(b, color, row, col, d, i, limit);
    if |ray| == 1 {
      RayHead(b, color, row, col, d, i, limit);
    } else {
      RayTail(b, color, row, col, d, i, limit);
      RayLastTakeable(b, color, row, col, d, i + 1, limit);
      assert ray[|ray| - 1] == ray[1..][|ray| - 2];
    }
  }

  /**
   * A scan stops early only for a reason: when it ends before step `limit`
   * on an empty square (or yields nothing), the next step is off the board
   * or holds a friendly piece.
   */
  lemma {:induction false} RayStops(b: seq<Cell>, color: Color, row: int, col: int, d: (int, int), i: nat, limit: nat)
    ensures var ray := Ray(b, color, row, col, d, i, limit);
      i + |ray| <= limit && (|ray| == 0 || Open(b, ray[|ray| - 1])) ==>
        !Takeable(b, color, StepSquare(row, col, d, i + |ray|))
    decreases limit + 1 - i
  {
    var ray := Ray(b, color, row, col, d, i, limit);
    if 1 < |ray| {
      RayTail(b, color, row, col, d, i, limit);
      RayStops(b, color, row, col, d, i + 1, limit);
      assert ray[|ray| - 1] == ray[1..][|ray| - 2];
      assert i + |ray| == (i + 1) + |ray[1..]|;
    } else if |ray| == 1 && i + 1 <= limit && Open(b, ray[0]) {
      RayHead(b, color, row, col, d, i, limit);
      var rest := Ray(b, color, row, col, d, i + 1, limit);
      assert ray == [ray[0]] + rest;
      assert rest == [];
    }
  }

  /**
   * The shape of one scanned direction: its squares are the consecutive
   * steps 1, 2, ... along `d`, at most `limit` of them; all but the last
   * are empty and the last is empty or holds an enemy, so nothing beyond the
   * first occupied square is produced and a friendly piece never is; and
   * when the scan ends before `limit` steps on an empty square (or yields
   * nothing), the next step is off the board or friendly.
   */
  lemma RayShape(b: seq<Cell>, color: Color, row: int, col: int, d: (int, int), limit: nat)
    ensures var ray := Ray(b, color, row, col, d, 1, limit);
      && |ray| <= limit
      && (forall k :: 0 <= k < |ray| ==> ray[k] == StepSquare(row, col, d, k + 1))
      && (forall k :: 0 <= k < |ray| - 1 ==> Open(b, ray[k]))
      && (|ray| > 0 ==> Takeable(b, color, ray[|ray| - 1]))
      && (|ray| < limit && (|ray| == 0 || Open(b, ray[|ray| - 1])) ==>
            !Takeable(b, color, StepSquare(row, col, d, |ray| + 1)))
  {
    var ray := Ray(b, color, row, col, d, 1, limit);
    RayLength(b, color, row, col, d, 1, limit);
    forall k | 0 <= k < |ray|
      ensures ray[k] == StepSquare(row, col, d, k + 1)
    {
      RayStepAt(b, color, row, col, d, 1, limit, k);
    }
    forall k | 0 <= k < |ray| - 1
      ensures Open(b, ray[k])
    {
      RayOpenBeforeLast(b, color, row, col, d, 1, limit, k);
    }
    if |ray| > 0 {
      RayLastTakeable(b, color, row, col, d, 1, limit);
    }
    RayStops(b, color, row, col, d, 1, limit);
  }

  /**
   * A square lies on a scanned direction exactly when it is the k-th step
   * for some k within the cap, every earlier step is empty, and the k-th
   * step itself is empty or holds an enemy.
   */
  lemma RayMember(b: seq<Cell>, color: Color, row: int, col: int, d: (int, int), limit: nat, s: Square)
    ensures s in Ray(b, color, row, col, d, 1, limit) <==>
      exists k :: 1 <= k <= limit && s == StepSquare(row, col, d, k)
        && ClearBetween(b, row, col, d, 1, k) && Takeable(b, color, StepSquare(row, col, d, k))
  {
    var ray := Ray(b, color, row, col, d, 1, limit);
    RayShape(b, color, row, col, d, limit);
    if s in ray {
      var idx :| 0 <= idx < |ray| && ray[idx] == s;
      var k := idx + 1;
      assert ray[idx] == StepSquare(row, col, d, k);
      forall j | 1 <= j < k
        ensures Open(b, StepSquare(row, col, d, j))
      {
        assert ray[j - 1] == StepSquare(row, col, d, j);
      }
      assert ClearBetween(b, row, col, d, 1, k);
      assert Takeable(b, color, StepSquare(row, col, d, k));
    }
    if exists k :: 1 <= k <= limit && s == StepSquare(row, col, d, k)
        && ClearBetween(b, row, col, d, 1, k) && Takeable(b, color, StepSquare(row, col, d, k))
    {
      var k :| 1 <= k <= limit && s == StepSquare(row, col, d, k)
        && ClearBetween(b, row, col, d, 1, k) && Takeable(b, color, StepSquare(row, col, d, k));
      var n := |ray|;
      if n < k {
        // Either the scan ended on an enemy at step n although step n < k
        // is open, or it stopped before step n + 1 <= k, which is takeable.
        assert false;
      }
      assert ray[k - 1] == StepSquare(row, col, d, k);
    }
  }

  /** A square is produced for a list of directions exactly when some direction's scan produces it. */
  lemma {:induction false} DirMovesMember(b: seq<Cell>, color: Color, row: int, col: int, dirs: seq<(int, int)>, limit: nat, s: Square)
    ensures s in DirMoves(b, color, row, col, dirs, limit) <==>
      exists d :: d in dirs && s in Ray(b, color, row, col, d, 1, limit)
  {
    if dirs != [] {
      var front, last := dirs[..|dirs| - 1], dirs[|dirs| - 1];
      DirMovesMember(b, color, row, col, front, limit, s);
      assert dirs == front + [last];
      if s in Ray(b, color, row, col, last, 1, limit) {
        assert last in dirs;
      }
      if exists d :: d in front && s in Ray(b, color, row, col, d, 1, limit) {
        var d :| d in front && s in Ray(b, color, row, col, d, 1, limit);
        assert d in dirs;
      }
    }
  }

  /**
   * The rule for rook, knight, bishop, queen and king: a destination is the
   * k-th multiple of one of the type's vectors, with k at most the type's
   * step cap, every nearer multiple empty and the destination itself empty
   * or an enemy.  Both directions hold: every such square is produced.
   */
  lemma RiderRule(b: seq<Cell>, kind: PieceType, color: Color, row: int, col: int, s: Square)
    requires kind != Pawn
    ensures s in Moves(b, kind, color, row, col) <==>
      exists d, k :: d in Directions(kind) && 1 <= k <= StepLimit(kind)
        && s == StepSquare(row, col, d, k)
        && ClearBetween(b, row, col, d, 1, k) && Takeable(b, color, StepSquare(row, col, d, k))
  {
    var dirs, limit := Directions(kind), StepLimit(kind);
    DirMovesMember(b, color, row, col, dirs, limit, s);
    if s in Moves(b, kind, color, row, col) {
      var d :| d in dirs && s in Ray(b, color, row, col, d, 1, limit);
      RayMember(b, color, row, col, d, limit, s);
    }
    if exists d, k :: d in dirs && 1 <= k <= limit
        && s == StepSquare(row, col, d, k)
        && ClearBetween(b, row, col, d, 1, k) && Takeable(b, color, StepSquare(row, col, d, k))
    {
      var d, k :| d in dirs && 1 <= k <= limit
        && s == StepSquare(row, col, d, k)
        && ClearBetween(b, row, col, d, 1, k) && Takeable(b, color, StepSquare(row, col, d, k));
      RayMember(b, color, row, col, d, limit, s);
    }
  }

  /**
   * The pawn rule, square by square.  With `dir` the pawn's direction, a
   * square is produced exactly when it is the one-square push onto an empty
   * square, the two-square push from the start row over two empty squares,
   * or a diagonal-forward square holding an enemy.  So a pawn never
   * captures straight ahead and never moves diagonally onto an empty square.
   */
  lemma PawnRule(b: seq<Cell>, color: Color, row: int, col: int, s: Square)
    ensures var dir := PawnDirection(color);
      s in Moves(b, Pawn, color, row, col) <==>
        (s == (row + dir, col) && IsValidSquare(s.0, s.1) && IsEmptySquare(b, s.0, s.1))
        || (s == (row + 2 * dir, col) && row == StartRow(color) && IsValidSquare(s.0, s.1)
            && IsEmptySquare(b, row + dir, col) && IsEmptySquare(b, s.0, s.1))
        || ((s == (row + dir, col - 1) || s == (row + dir, col + 1))
            && IsValidSquare(s.0, s.1) && IsEnemySquare(b, s.0, s.1, color))
  {
    var dir := PawnDirection(color);
    var diagonals := [(row + dir, col - 1), (row + dir, col + 1)];
    assert diagonals[..1][..0] == [];
    assert PawnCaptures(b, color, diagonals[..1]) ==
      (if IsValidSquare(row + dir, col - 1) && IsEnemySquare(b, row + dir, col - 1, color)
       then [(row + dir, col - 1)] else []);
  }

  /**
   * Every occupancy query of the pawn rule is made on a square of the
   * board: the double push's intermediate square lies between the start row
   * and the valid target, so it is on the board although the generator does
   * not test it.  On a full board the pawn rule therefore reads exactly the
   * named cells and `row * 8 + col` never aliases.
   */
  lemma PawnRuleCells(b: seq<Cell>, color: Color, row: int, col: int, s: Square)
    requires |b| == 64
    ensures var dir := PawnDirection(color);
      row == StartRow(color) && IsValidSquare(row + 2 * dir, col) ==> IsValidSquare(row + dir, col)
    ensures var dir := PawnDirection(color);
      s in Moves(b, Pawn, color, row, col) <==>
        IsValidSquare(s.0, s.1)
        && ((s == (row + dir, col) && b[Index(s.0, s.1)].None?)
            || (s == (row + 2 * dir, col) && row == StartRow(color)
                && b[Index(row + dir, col)].None? && b[Index(s.0, s.1)].None?)
            || ((s == (row + dir, col - 1) || s == (row + dir, col + 1))
                && b[Index(s.0, s.1)].Some? && b[Index(s.0, s.1)].value.color != color))
  {
    PawnRule(b, color, row, col, s);
  }

  /**
   * The queries of a ray are guarded by `IsValidSquare`, so on a full board
   * `Open` and `Takeable`, and through them the rule of every other type,
   * read exactly the named cell.
   */
  lemma RayQueriesCells(b: seq<Cell>, color: Color, s: Square)
    requires |b| == 64
    ensures Open(b, s) <==> IsValidSquare(s.0, s.1) && b[Index(s.0, s.1)].None?
    ensures Takeable(b, color, s) <==>
      IsValidSquare(s.0, s.1) && (b[Index(s.0, s.1)].None? || b[Index(s.0, s.1)].value.color != color)
  {
  }

  /** A takeable square is a real square of the board holding no piece of `color`. */
  lemma TakeableCell(b: seq<Cell>, color: Color, s: Square)
    requires Takeable(b, color, s)
    ensures 0 <= Index(s.0, s.1) < |b|
    ensures b[Index(s.0, s.1)].None? || b[Index(s.0, s.1)].value.color != color
  {
  }

  /** One or more steps along a non-zero vector never come back to the start. */
  lemma StepAway(row: int, col: int, d: (int, int), k: nat)
    requires 1 <= k && (d.0 != 0 || d.1 != 0)
    ensures StepSquare(row, col, d, k) != (row, col)
  {
    StepSquareAt(row, col, d, k);
    if d.0 > 0 {
      assert d.0 * k >= k;
    } else if d.0 < 0 {
      assert d.0 * k <= 0 - k as int;
    } else if d.1 > 0 {
      assert d.1 * k >= k;
    } else {
      assert d.1 * k <= 0 - k as int;
    }
  }

  /** Every destination is on the board, is not the piece's own square, and holds no friendly piece. */
  lemma MovesLandSafely(b: seq<Cell>, kind: PieceType, color: Color, row: int, col: int, s: Square)
    requires s in Moves(b, kind, color, row, col)
    ensures IsValidSquare(s.0, s.1) && s != (row, col)
    ensures 0 <= Index(s.0, s.1) < |b|
    ensures b[Index(s.0, s.1)].None? || b[Index(s.0, s.1)].value.color != color
  {
    if kind == Pawn {
      PawnRule(b, color, row, col, s);
    } else {
      RiderRule(b, kind, color, row, col, s);
      var d, k :| d in Directions(kind) && 1 <= k <= StepLimit(kind)
        && s == StepSquare(row, col, d, k)
        && ClearBetween(b, row, col, d, 1, k) && Takeable(b, color, StepSquare(row, col, d, k));
      StepAway(row, col, d, k);
      TakeableCell(b, color, s);
    }
  }

  /** At most `limit` squares per direction, so at most |dirs| * limit in all. */
  lemma {:induction false} DirMovesLength(b: seq<Cell>, color: Color, row: int, col: int, dirs: seq<(int, int)>, limit: nat)
    ensures |DirMoves(b, color, row, col, dirs, limit)| <= |dirs| * limit
  {
    if dirs != [] {
      DirMovesLength(b, color, row, col, dirs[..|dirs| - 1], limit);
      RayShape(b, color, row, col, dirs[|dirs| - 1], limit);
      assert (|dirs| - 1) * limit + limit == |dirs| * limit;
    }
  }

  /**
   * The king's step cap: it yields at most one square per direction, so at
   * most eight in all, each a neighbour of its own square.
   */
  lemma KingSteps(b: seq<Cell>, color: Color, row: int, col: int)
    ensures |Moves(b, King, color, row, col)| <= 8
    ensures forall s :: s in Moves(b, King, color, row, col) ==>
      -1 <= s.0 - row <= 1 && -1 <= s.1 - col <= 1 && s != (row, col)
  {
    DirMovesLength(b, color, row, col, Directions(King), 1);
    forall s | s in Moves(b, King, color, row, col)
      ensures -1 <= s.0 - row <= 1 && -1 <= s.1 - col <= 1 && s != (row, col)
    {
      RiderRule(b, King, color, row, col, s);
      MovesLandSafely(b, King, color, row, col, s);
    }
  }

  /**
   * The knight rides: it repeats its offset along a line like the other
   * non-king types.  From (7, 1), with (5, 2) empty and (3, 3) empty or an
   * enemy, it reaches both, although (3, 3) is no knight's jump away.
   */
  lemma KnightRides(b: seq<Cell>, color: Color)
    requires |b| == 64 && b[Index(5, 2)].None? && Takeable(b, color, (3, 3))
    ensures (5, 2) in Moves(b, Knight, color, 7, 1)
    ensures (3, 3) in Moves(b, Knight, color, 7, 1)
  {
    var d := (-2, 1);
    assert d in Directions(Knight);
    assert StepSquare(7, 1, d, 1) == (5, 2);
    assert StepSquare(7, 1, d, 2) == (3, 3);
    assert ClearBetween(b, 7, 1, d, 1, 1);
    assert Open(b, StepSquare(7, 1, d, 1));
    assert ClearBetween(b, 7, 1, d, 1, 2);
    RiderRule(b, Knight, color, 7, 1, (5, 2));
    RiderRule(b, Knight, color, 7, 1, (3, 3));
  }
}
