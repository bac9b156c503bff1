/**
 * The game controller: the state the page keeps between clicks (board, side
 * to move, mode, selection, highlights and the two king-captured latches),
 * the click state machine, the random automated opponent and the reset.
 *
 * `HumanMove` and `AiReply` are the value-level description of a confirmed
 * move and of the opponent's reply; the `Game` methods are proved to perform
 * exactly them, step by step, on the object's fields.
 */
module Controller {
  import opened Pieces
  import opened Squares
  import opened MoveGenerator
  import opened MoveProperties
  import opened MoveList

  /**
   * What a step announces: nothing (play goes on), a win by king capture,
   * or a win because the examined side has no generated move.  Either win
   * is followed by a reset.
   */
  datatype Outcome = Ongoing | KingCaptured(winner: Color) | NoMoves(winner: Color)

  /** The board, the side to move and the announcement after a step. */
  datatype Step = Step(board: seq<Cell>, turn: Color, outcome: Outcome)

  /** Every listed pair names two existing squares, the first holding a piece of `color`. */
  lemma AllMovesInRange(b: seq<Cell>, color: Color, pair: IndexPair)
    requires pair in AllMoves(b, color)
    ensures 0 <= pair.0 < |b| && 0 <= pair.1 < |b|
    ensures b[pair.0].Some? && b[pair.0].value.color == color
    ensures b[pair.1].None? || b[pair.1].value.color != color
  {
    AllMovesMember(b, color, pair);
    var m :| m in Moves(b, b[pair.0].value.kind, color, pair.0 / 8, pair.0 % 8) && pair.1 == Index(m.0, m.1);
    MovesLandSafely(b, b[pair.0].value.kind, color, pair.0 / 8, pair.0 % 8, m);
  }

  /**
   * The automated opponent's reply: black's moves are enumerated; none
   * means white wins by the stuck rule; otherwise the pair at position
   * `choice % n` is played (the caller's `choice` stands for the random
   * draw).  A king on the target ends the game and names the side opposite
   * to `turn`, as the announcement is written; otherwise the turn passes.
   */
  function AiReply(b: seq<Cell>, turn: Color, choice: nat): (r: Step)
    ensures r.outcome == Ongoing <==> r.turn == Opponent(turn)
    ensures r.outcome == Ongoing ==> |r.board| == |b|
    ensures r.outcome != Ongoing ==> r.board == []
  {
    var all := AllMoves(b, Black);
    if all == [] then Step([], turn, NoMoves(White))
    else
      var pair := all[choice % |all|];
      AllMovesInRange(b, Black, pair);
      if HoldsKing(b[pair.1]) then Step([], turn, KingCaptured(Opponent(turn)))
      else Step(Moved(b, pair.0, pair.1), Opponent(turn), Ongoing)
  }

  /**
   * A confirmed move of the side `turn` from `from` to `to`: capturing a
   * king wins for the mover; otherwise, if the mover has no generated move
   * on the new board, the other side wins; otherwise the turn passes and,
   * against the automated opponent, black replies at once.
   */
  function HumanMove(b: seq<Cell>, turn: Color, vsAI: bool, from: nat, to: nat, choice: nat): (r: Step)
    requires from < |b| && to < |b|
    ensures r.outcome == Ongoing ==> |r.board| == |b|
    ensures r.outcome != Ongoing ==> r.board == []
  {
    if HoldsKing(b[to]) then Step([], turn, KingCaptured(turn))
    else
      var moved := Moved(b, from, to);
      if AllMoves(moved, turn) == [] then Step([], turn, NoMoves(Opponent(turn)))
      else if vsAI && Opponent(turn) == Black then AiReply(moved, Opponent(turn), choice)
      else Step(moved, Opponent(turn), Ongoing)
  }

  /**
   * The reply plays exactly one of black's enumerated moves, or announces
   * white's win when there is none.  A reply that captures a king has
   * captured white's king (black never targets its own pieces).
   */
  lemma AiReplyPlaysOneMove(b: seq<Cell>, turn: Color, choice: nat)
    ensures var r := AiReply(b, turn, choice);
      r.outcome == Ongoing ==>
        r.turn == Opponent(turn) &&
        exists pair :: pair in AllMoves(b, Black) && 0 <= pair.0 < |b| && 0 <= pair.1 < |b|
                       && !HoldsKing(b[pair.1]) && r.board == Moved(b, pair.0, pair.1)
    ensures var r := AiReply(b, turn, choice);
      r.outcome.NoMoves? <==> AllMoves(b, Black) == []
    ensures var r := AiReply(b, turn, choice);
      r.outcome != Ongoing ==> r.board == [] && r.turn == turn
    ensures var r := AiReply(b, turn, choice);
      r.outcome.KingCaptured? ==>
        r.outcome.winner == Opponent(turn) &&
        exists pair :: pair in AllMoves(b, Black) && 0 <= pair.1 < |b| && b[pair.1] == Some(Piece(King, White))
  {
    var all := AllMoves(b, Black);
    if all != [] {
      var pair := all[choice % |all|];
      AllMovesInRange(b, Black, pair);
    }
  }

  /** Every enumerated move of black is the reply for some draw: the one at its position. */
  lemma AiReplyReachesEvery(b: seq<Cell>, turn: Color, k: nat)
    requires k < |AllMoves(b, Black)|
    ensures var pair := AllMoves(b, Black)[k];
      0 <= pair.0 < |b| && 0 <= pair.1 < |b| &&
      AiReply(b, turn, k).board == if HoldsKing(b[pair.1]) then [] else Moved(b, pair.0, pair.1)
  {
    var all := AllMoves(b, Black);
    DrawBelow(k, |all|);
    AllMovesInRange(b, Black, all[k]);
  }

  /** A draw below the number of moves picks the move at its own position. */
  lemma DrawBelow(k: nat, n: nat)
    requires k < n
    ensures k % n == k
  {
  }

  /**
   * Against the automated opponent every confirmed move that does not end
   * the game hands the turn back to white; between two humans it passes to
   * the other side.
   */
  lemma HumanMoveTurn(b: seq<Cell>, turn: Color, vsAI: bool, from: nat, to: nat, choice: nat)
    requires from < |b| && to < |b|
    ensures var r := HumanMove(b, turn, vsAI, from, to, choice);
      r.outcome == Ongoing ==> r.turn == if vsAI then White else Opponent(turn)
  {
    if !HoldsKing(b[to]) && AllMoves(Moved(b, from, to), turn) != [] && vsAI && Opponent(turn) == Black {
      AiReplyPlaysOneMove(Moved(b, from, to), Black, choice);
    }
  }

  /**
   * The ends of a confirmed move: a captured king wins for the mover and
   * the stuck test examines the mover's own pieces (before the turn
   * passes), naming the other side as winner.  Either way the board is
   * cleared and the turn is kept.
   */
  lemma HumanMoveEnds(b: seq<Cell>, turn: Color, vsAI: bool, from: nat, to: nat, choice: nat)
    requires from < |b| && to < |b|
    ensures var r := HumanMove(b, turn, vsAI, from, to, choice);
      HoldsKing(b[to]) ==> r.outcome == KingCaptured(turn) && r.board == [] && r.turn == turn
    ensures var r := HumanMove(b, turn, vsAI, from, to, choice);
      !HoldsKing(b[to]) && AllMoves(Moved(b, from, to), turn) == [] ==>
        r.outcome == NoMoves(Opponent(turn)) && r.board == [] && r.turn == turn
    ensures var r := HumanMove(b, turn, vsAI, from, to, choice);
      r.outcome.KingCaptured? ==> r.board == [] && (HoldsKing(b[to]) || (vsAI && turn == White))
  {
    if !HoldsKing(b[to]) && AllMoves(Moved(b, from, to), turn) != [] && vsAI && Opponent(turn) == Black {
      AiReplyPlaysOneMove(Moved(b, from, to), Black, choice);
    }
  }

  /**
   * A confirmed move that goes on without a reply relocates exactly the
   * moving piece: the target's occupant, if any, is the only piece lost.
   */
  lemma HumanMoveBoard(b: seq<Cell>, turn: Color, vsAI: bool, from: nat, to: nat, choice: nat)
    requires from < |b| && to < |b| && from != to && b[from].Some?
    requires !(vsAI && turn == White)
    ensures var r := HumanMove(b, turn, vsAI, from, to, choice);
      r.outcome == Ongoing ==>
        r.board == Moved(b, from, to) && PieceCount(r.board) == PieceCount(b) - Occupied(b[to])
  {
    MovedCount(b, from, to);
  }

  /** The game as the page holds it between events. */
  class Game {
    var board: seq<Cell>
    var turn: Color
    var vsAI: bool
    /** The index of the selected square, if any. */
    var selected: Option<nat>
    /** The indices of the squares marked as destinations of the selection. */
    var highlighted: set<int>
    var whiteKingCaptured: bool
    var blackKingCaptured: bool

    /**
     * The state between two clicks: the latches are down (a capture that
     * sets one is followed by a reset at once), the board has its 64
     * squares or has been cleared, and a selection on a full board is a
     * piece of the side to move whose generated moves are exactly the
     * highlighted squares.
     */
    predicate Valid()
      reads this
    {
      !whiteKingCaptured && !blackKingCaptured
      && (|board| == 64 || |board| == 0)
      && (|board| == 64 ==>
            match selected
            case None => highlighted == {}
            case Some(s) =>
              s < 64 && board[s].Some? && board[s].value.color == turn
              && highlighted == Highlights(board, s))
    }

    /** A game started on the layout `initial`, against the automated opponent or not; white moves first. */
    constructor(initial: seq<Cell>, vsAI: bool)
      requires |initial| == 64
      ensures Valid()
      ensures board == initial && turn == White && this.vsAI == vsAI
      ensures selected.None? && highlighted == {}
    {
      board := initial;
      turn := White;
      this.vsAI := vsAI;
      selected := None;
      highlighted := {};
      whiteKingCaptured := false;
      blackKingCaptured := false;
    }

    method SelectSquare(s: nat)
      modifies this`selected
      ensures selected == Some(s)
    {
      selected := Some(s);
    }

    /** Clears every highlight and drops the selection. */
    method DeselectSquare()
      modifies this`selected, this`highlighted
      ensures selected.None? && highlighted == {}
    {
      highlighted := {};
      if selected.Some? {
        selected := None;
      }
    }

    /**
     * Marks the generated destinations of the piece on square `s`; nothing
     * happens for an empty square, and a destination past the end of the
     * board is skipped.
     */
    method HighlightLegalMoves(s: nat)
      requires s < |board|
      modifies this`highlighted
      ensures highlighted == old(highlighted) + if board[s].Some? then Highlights(board, s) else {}
    {
      var piece := board[s];
      if piece.None? {
        return;
      }
      var row, col := s / 8, s % 8;
      var moves := CalculateMoves(board, piece.value.kind, piece.value.color, row, col);
      MarkTargets(moves);
    }

    /** Marks the square `r * 8 + c` of each destination (r, c), when the board has such a square. */
    method MarkTargets(moves: seq<Square>)
      modifies this`highlighted
      ensures highlighted == old(highlighted) + IndexSet(moves, |board|)
    {
      for j := 0 to |moves|
        invariant highlighted == old(highlighted) + IndexSet(moves[..j], |board|)
      {
        var (r, c) := moves[j];
        var target := r * 8 + c;
        assert moves[..j + 1][..j] == moves[..j];
        if 0 <= target < |board| {
          highlighted := highlighted + {target};
        }
      }
      assert moves[..|moves|] == moves;
    }

    /**
     * Relocates the piece on `from` to `to`.  A piece on the target is
     * removed first; if it is a king, the latch of its colour is set.
     */
    method MovePiece(from: nat, to: nat)
      requires from < |board| && to < |board| && board[from].Some?
      modifies this`board, this`whiteKingCaptured, this`blackKingCaptured
      ensures board == Moved(old(board), from, to)
      ensures whiteKingCaptured == (old(whiteKingCaptured) || old(board)[to] == Some(Piece(King, White)))
      ensures blackKingCaptured == (old(blackKingCaptured) || old(board)[to] == Some(Piece(King, Black)))
      ensures IsKingCaptured() <==> old(IsKingCaptured()) || HoldsKing(old(board)[to])
      ensures from != to ==> PieceCount(board) == PieceCount(old(board)) - Occupied(old(board)[to])
    {
      var piece := board[from];
      var target := board[to];
      if target.Some? {
        board := board[to := None];
        if target.value.kind == King {
          if target.value.color == White {
            whiteKingCaptured := true;
          } else {
            blackKingCaptured := true;
          }
        }
      }
      board := board[from := None][to := piece];
      assert board == Moved(old(board), from, to);
      if from != to {
        MovedCount(old(board), from, to);
      }
    }

    method ChangeTurn()
      modifies this`turn
      ensures turn == Opponent(old(turn))
    {
      turn := if turn == White then Black else White;
    }

    /** Some king has been captured since the last reset. */
    predicate IsKingCaptured()
      reads this
      ensures Valid() ==> !IsKingCaptured()
    {
      whiteKingCaptured || blackKingCaptured
    }

    /** The side to move has no generated move on the current board. */
    method IsGameOver() returns (over: bool)
      ensures over <==> AllMoves(board, turn) == []
      ensures over <==> forall i :: 0 <= i < |board| && board[i].Some? && board[i].value.color == turn ==>
                          Moves(board, board[i].value.kind, turn, i / 8, i % 8) == []
    {
      var allMoves := GetAllMoves(board, turn);
      over := |allMoves| == 0;
      NoMovesIff(board, turn);
    }

    /** Lowers both latches and clears the board; the side to move is kept. */
    method ResetGame()
      modifies this`whiteKingCaptured, this`blackKingCaptured, this`board
      ensures !whiteKingCaptured && !blackKingCaptured && board == []
    {
      whiteKingCaptured := false;
      blackKingCaptured := false;
      board := [];
    }

    /** The automated opponent's move; `choice` stands for the random draw. */
    method AiMove(choice: nat) returns (outcome: Outcome)
      requires Valid() && selected.None?
      modifies this`board, this`turn, this`whiteKingCaptured, this`blackKingCaptured
      ensures Valid()
      ensures var r := AiReply(old(board), old(turn), choice);
        board == r.board && turn == r.turn && outcome == r.outcome
    {
      var allMoves := GetAllMoves(board, Black);
      if |allMoves| == 0 {
        outcome := NoMoves(White);
        ResetGame();
        return;
      }
      var pair := allMoves[choice % |allMoves|];
      var (fromIndex, toIndex) := pair;
      AllMovesInRange(board, Black, pair);
      MovePiece(fromIndex, toIndex);
      if IsKingCaptured() {
        outcome := KingCaptured(if turn == White then Black else White);
        ResetGame();
      } else {
        outcome := Ongoing;
        ChangeTurn();
      }
    }

    /** The move branch of a click: the selected piece goes to the highlighted square `to`. */
    method ConfirmMove(to: nat, choice: nat) returns (outcome: Outcome)
      requires Valid() && to < |board| && selected.Some? && to in highlighted
      modifies this`board, this`turn, this`selected, this`highlighted,
               this`whiteKingCaptured, this`blackKingCaptured
      ensures Valid()
      ensures var r := HumanMove(old(board), old(turn), vsAI, old(selected.value), to, choice);
        board == r.board && turn == r.turn && outcome == r.outcome
      ensures if HoldsKing(old(board)[to]) then selected == old(selected) && highlighted == old(highlighted)
              else selected.None? && highlighted == {}
    {
      var from := selected.value;
      outcome := Ongoing;
      if board[from].Some? {
        MovePiece(from, to);
        if IsKingCaptured() {
          outcome := KingCaptured(turn);
          ResetGame();
          return;
        }
        DeselectSquare();
        var over := IsGameOver();
        if over {
          outcome := NoMoves(if turn == White then Black else White);
          ResetGame();
        } else {
          ChangeTurn();
          if vsAI && turn == Black {
            outcome := AiMove(choice);
          }
        }
      }
    }

    /**
     * A click on square `square`, in the order the page tests the cases:
     * ignored while the automated opponent is to move; selects an own piece
     * when nothing is selected; moves the selection onto a highlighted
     * square; deselects when the selected square is clicked again; any
     * other click does nothing.
     */
    method HandleSquareClick(square: nat, choice: nat) returns (outcome: Outcome)
      requires Valid() && square < |board|
      modifies this`board, this`turn, this`selected, this`highlighted,
               this`whiteKingCaptured, this`blackKingCaptured
      ensures Valid()
      ensures old(vsAI && turn == Black) ==> unchanged(this) && outcome == Ongoing
      ensures old(!(vsAI && turn == Black) && selected.None?
                  && board[square].Some? && board[square].value.color == turn) ==>
        board == old(board) && turn == old(turn) && outcome == Ongoing
        && selected == Some(square) && highlighted == Highlights(board, square)
      ensures old(!(vsAI && turn == Black) && selected.Some? && square in highlighted) ==>
        (old(selected.value), square) in AllMoves(old(board), old(turn))
        && (var r := HumanMove(old(board), old(turn), vsAI, old(selected.value), square, choice);
            board == r.board && turn == r.turn && outcome == r.outcome)
        && if HoldsKing(old(board)[square]) then selected == old(selected) && highlighted == old(highlighted)
           else selected.None? && highlighted == {}
      ensures old(!(vsAI && turn == Black) && selected == Some(square)) ==>
        board == old(board) && turn == old(turn) && outcome == Ongoing
        && selected.None? && highlighted == {}
      ensures old(selected.Some? && square !in highlighted && selected != Some(square)) ==>
        unchanged(this) && outcome == Ongoing
      ensures old(selected.None? && (board[square].None? || board[square].value.color != turn)) ==>
        unchanged(this) && outcome == Ongoing
      ensures board != old(board) ==>
        old(selected).Some? && (old(selected.value), square) in AllMoves(old(board), old(turn))
    {
      outcome := Ongoing;
      if vsAI && turn == Black {
        return;
      }
      if selected.Some? {
        OwnSquareNotHighlighted(board, selected.value);
      }
      var piece := board[square];
      if selected.None? && piece.Some? && piece.value.color == turn {
        SelectSquare(square);
        HighlightLegalMoves(square);
        return;
      }
      if selected.Some? && square in highlighted {
        HighlightsAreMoves(board, selected.value, square);
        outcome := ConfirmMove(square, choice);
        return;
      }
      if selected == Some(square) {
        DeselectSquare();
      }
    }
  }
}
