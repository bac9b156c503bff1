/**
 * The enumeration of every move of one side (`getAllMoves`) as
 * (from-index, to-index) pairs, and the set of squares highlighted for a
 * selected piece (`highlightLegalMoves`): both built from the move
 * generator's output.
 */
module MoveList {
  import opened Pieces
  import opened Squares
  import opened MoveGenerator
  import opened MoveProperties

  /** A move as the enumeration lists it: (index of the origin square, index of the target square). */
  type IndexPair = (int, int)

  /** The generated destinations of the piece on square `index` if it has `color`; none otherwise. */
  function SquareMoves(b: seq<Cell>, color: Color, index: nat): seq<Square>
    requires index < |b|
  {
    match b[index]
    case None => []
    case Some(p) => if p.color == color then Moves(b, p.kind, color, index / 8, index % 8) else []
  }

  /** The destination lists of all squares, in square order. */
  function Generated(b: seq<Cell>, color: Color): (lists: seq<seq<Square>>)
    ensures |lists| == |b|
  {
    seq(|b|, i requires 0 <= i < |b| => SquareMoves(b, color, i))
  }

  /** The destinations of the piece on square `from`, each paired with `from`. */
  function Pairs(from: int, moves: seq<Square>): (pairs: seq<IndexPair>)
  {
    if moves == [] then []
    else
      var m := moves[|moves| - 1];
      Pairs(from, moves[..|moves| - 1]) + [(from, Index(m.0, m.1))]
  }

  /** The pairs of the destination lists of squares 0 .. n-1, in square order. */
  function PairsBelow(lists: seq<seq<Square>>, n: nat): (pairs: seq<IndexPair>)
    requires n <= |lists|
  {
    if n == 0 then [] else PairsBelow(lists, n - 1) + Pairs(n - 1, lists[n - 1])
  }

  /** What `getAllMoves(color)` returns. */
  function AllMoves(b: seq<Cell>, color: Color): (pairs: seq<IndexPair>)
  {
    PairsBelow(Generated(b, color), |b|)
  }

  /**
   * The independent description of a move of `color`: a piece of that
   * colour stands on `pair.0`, and `pair.1` is the index of one of the
   * generator's destinations for it.
   */
  ghost predicate IsPieceMove(b: seq<Cell>, color: Color, pair: IndexPair)
  {
    0 <= pair.0 < |b| && b[pair.0].Some? && b[pair.0].value.color == color
    && exists m :: m in Moves(b, b[pair.0].value.kind, color, pair.0 / 8, pair.0 % 8)
                   && pair.1 == Index(m.0, m.1)
  }

  /** `getAllMoves`: every square in order, every generated destination of each piece of `color`. */
  method GetAllMoves(b: seq<Cell>, color: Color) returns (allMoves: seq<IndexPair>)
    ensures allMoves == AllMoves(b, color)
  {
    allMoves := [];
    for index := 0 to |b|
      invariant allMoves == PairsBelow(Generated(b, color), index)
    {
      var pairs := CollectSquare(b, color, index);
      allMoves := allMoves + pairs;
    }
  }

  /** The work `getAllMoves` does for one square: the pairs of its piece if it has `color`. */
  method CollectSquare(b: seq<Cell>, color: Color, index: nat) returns (pairs: seq<IndexPair>)
    requires index < |b|
    ensures pairs == Pairs(index, Generated(b, color)[index])
  {
    pairs := [];
    var piece := b[index];
    if piece.Some? && piece.value.color == color {
      var row, col := index / 8, index % 8;
      var moves := CalculateMoves(b, piece.value.kind, color, row, col);
      pairs := PairUp(index, moves);
    }
  }

  /** Each destination (r, c) of the piece on square `from` becomes the pair (from, r * 8 + c). */
  method PairUp(from: int, moves: seq<Square>) returns (pairs: seq<IndexPair>)
    ensures pairs == Pairs(from, moves)
  {
    pairs := [];
    for j := 0 to |moves|
      invariant pairs == Pairs(from, moves[..j])
    {
      var (r, c) := moves[j];
      pairs := pairs + [(from, r * 8 + c)];
      assert moves[..j + 1][..j] == moves[..j];
    }
    assert moves[..|moves|] == moves;
  }

  /** A pair is listed for `from` exactly when it starts at `from` and ends at one of the destinations. */
  lemma {:induction false} PairsMember(from: int, moves: seq<Square>, pair: IndexPair)
    ensures pair in Pairs(from, moves) <==>
      pair.0 == from && exists m :: m in moves && pair.1 == Index(m.0, m.1)
  {
    if moves != [] {
      var front, last := moves[..|moves| - 1], moves[|moves| - 1];
      PairsMember(from, front, pair);
      assert moves == front + [last];
      if exists m :: m in front && pair.1 == Index(m.0, m.1) {
        var m :| m in front && pair.1 == Index(m.0, m.1);
        assert m in moves;
      }
    }
  }

  /** The pairs of the first `n` lists are exactly the pairs of some list below `n` with one of its entries. */
  lemma {:induction false} PairsBelowMember(lists: seq<seq<Square>>, n: nat, pair: IndexPair)
    requires n <= |lists|
    ensures pair in PairsBelow(lists, n) <==>
      0 <= pair.0 < n && exists m :: m in lists[pair.0] && pair.1 == Index(m.0, m.1)
  {
    if n > 0 {
      PairsBelowMember(lists, n - 1, pair);
      PairsMember(n - 1, lists[n - 1], pair);
    }
  }

  /**
   * Soundness and completeness of the enumeration: a pair is listed exactly
   * when a piece of `color` stands on its origin and its target is one of
   * that piece's generated destinations.
   */
  lemma AllMovesMember(b: seq<Cell>, color: Color, pair: IndexPair)
    ensures pair in AllMoves(b, color) <==> IsPieceMove(b, color, pair)
  {
    PairsBelowMember(Generated(b, color), |b|, pair);
    if 0 <= pair.0 < |b| {
      assert Generated(b, color)[pair.0] == SquareMoves(b, color, pair.0);
    }
  }

  /** Every pair built for `from` starts at `from`. */
  lemma {:induction false} PairsFrom(from: int, moves: seq<Square>)
    ensures |Pairs(from, moves)| == |moves|
    ensures forall k :: 0 <= k < |Pairs(from, moves)| ==> Pairs(from, moves)[k].0 == from
  {
    if moves != [] {
      PairsFrom(from, moves[..|moves| - 1]);
    }
  }

  /** The pairs of the first `n` lists start below `n` and are ordered by origin. */
  lemma {:induction false} PairsBelowOrdered(lists: seq<seq<Square>>, n: nat)
    requires n <= |lists|
    ensures forall k :: 0 <= k < |PairsBelow(lists, n)| ==> 0 <= PairsBelow(lists, n)[k].0 < n
    ensures forall i, j :: 0 <= i < j < |PairsBelow(lists, n)| ==>
      PairsBelow(lists, n)[i].0 <= PairsBelow(lists, n)[j].0
  {
    if n > 0 {
      var front, tail := PairsBelow(lists, n - 1), Pairs(n - 1, lists[n - 1]);
      var all := front + tail;
      PairsBelowOrdered(lists, n - 1);
      PairsFrom(n - 1, lists[n - 1]);
      forall k | 0 <= k < |all|
        ensures all[k].0 == if k < |front| then front[k].0 else n - 1
      {
        if k >= |front| {
          assert all[k] == tail[k - |front|];
        }
      }
    }
  }

  /** The enumeration lists the pairs by ascending origin index. */
  lemma AllMovesOrdered(b: seq<Cell>, color: Color)
    ensures forall i, j :: 0 <= i < j < |AllMoves(b, color)| ==> AllMoves(b, color)[i].0 <= AllMoves(b, color)[j].0
  {
    PairsBelowOrdered(Generated(b, color), |b|);
  }

  /**
   * Every listed pair moves a piece of `color` to another square that is
   * on the board and holds no piece of `color`.
   */
  lemma AllMovesTargets(b: seq<Cell>, color: Color, pair: IndexPair)
    requires |b| == 64 && pair in AllMoves(b, color)
    ensures 0 <= pair.0 < 64 && 0 <= pair.1 < 64 && pair.0 != pair.1
    ensures b[pair.0].Some? && b[pair.0].value.color == color
    ensures b[pair.1].None? || b[pair.1].value.color != color
  {
    AllMovesMember(b, color, pair);
    var m :| m in Moves(b, b[pair.0].value.kind, color, pair.0 / 8, pair.0 % 8) && pair.1 == Index(m.0, m.1);
    MovesLandSafely(b, b[pair.0].value.kind, color, pair.0 / 8, pair.0 % 8, m);
    IndexRoundTrip(pair.0);
  }

  /** A side has no move at all exactly when none of its pieces has a destination. */
  lemma NoMovesIff(b: seq<Cell>, color: Color)
    ensures AllMoves(b, color) == [] <==>
      forall i :: 0 <= i < |b| && b[i].Some? && b[i].value.color == color ==>
        Moves(b, b[i].value.kind, color, i / 8, i % 8) == []
  {
    if AllMoves(b, color) != [] {
      var pair := AllMoves(b, color)[0];
      AllMovesMember(b, color, pair);
    } else {
      forall i | 0 <= i < |b| && b[i].Some? && b[i].value.color == color
        ensures Moves(b, b[i].value.kind, color, i / 8, i % 8) == []
      {
        var ms := Moves(b, b[i].value.kind, color, i / 8, i % 8);
        if ms != [] {
          AllMovesMember(b, color, (i, Index(ms[0].0, ms[0].1)));
          assert false;
        }
      }
    }
  }

  /** The positions of the destinations in `moves` that name an existing square of a list of length `n`. */
  function IndexSet(moves: seq<Square>, n: int): (targets: set<int>)
  {
    if moves == [] then {}
    else
      var m := moves[|moves| - 1];
      IndexSet(moves[..|moves| - 1], n) + (if 0 <= Index(m.0, m.1) < n then {Index(m.0, m.1)} else {})
  }

  /** The squares `highlightLegalMoves` marks for the piece on square `s`. */
  function Highlights(b: seq<Cell>, s: nat): (targets: set<int>)
    requires s < |b| && b[s].Some?
  {
    IndexSet(Moves(b, b[s].value.kind, b[s].value.color, s / 8, s % 8), |b|)
  }

  lemma {:induction false} IndexSetMember(moves: seq<Square>, n: int, t: int)
    ensures t in IndexSet(moves, n) <==> 0 <= t < n && exists m :: m in moves && t == Index(m.0, m.1)
  {
    if moves != [] {
      var front, last := moves[..|moves| - 1], moves[|moves| - 1];
      IndexSetMember(front, n, t);
      assert moves == front + [last];
      if exists m :: m in front && t == Index(m.0, m.1) {
        var m :| m in front && t == Index(m.0, m.1);
        assert m in moves;
      }
    }
  }

  /**
   * The highlighted squares of a selected piece are exactly the targets the
   * enumeration lists for its square: a highlighted click is always one of
   * that side's generated moves, and every such move is highlighted.
   */
  lemma HighlightsAreMoves(b: seq<Cell>, s: nat, t: int)
    requires s < |b| && b[s].Some?
    ensures t in Highlights(b, s) <==> (s, t) in AllMoves(b, b[s].value.color)
  {
    var p := b[s].value;
    var moves := Moves(b, p.kind, p.color, s / 8, s % 8);
    IndexSetMember(moves, |b|, t);
    AllMovesMember(b, p.color, (s, t));
    if (s, t) in AllMoves(b, p.color) {
      var m :| m in moves && t == Index(m.0, m.1);
      MovesLandSafely(b, p.kind, p.color, s / 8, s % 8, m);
    }
  }

  /** A selected piece's own square is never highlighted, so clicking it again deselects. */
  lemma OwnSquareNotHighlighted(b: seq<Cell>, s: nat)
    requires |b| == 64 && s < 64 && b[s].Some?
    ensures s !in Highlights(b, s)
  {
    HighlightsAreMoves(b, s, s);
    if (s, s) in AllMoves(b, b[s].value.color) {
      AllMovesTargets(b, b[s].value.color, (s, s));
    }
  }
}
