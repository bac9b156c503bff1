# Chess rule engine, modelled in Dafny

This project models the rule engine of a small browser chess game (`main.js`).
The page's DOM board becomes a list of 64 cells, indexed `row * 8 + col`, with
row 0 at the top. Each cell is empty or holds a piece, which has a type and a
colour. The model has four parts:

- **The move generator** (`calculateMoves` and its helpers `isValidSquare`,
  `isEmptySquare` and `isEnemySquare`):
  - It returns the ordered list of pseudo-legal destinations of a piece.
  - Pawns get pushes, a double push from the start row, and diagonal captures.
  - Every other type scans each of its direction vectors.
  - The scan goes up to 8 multiples of the vector, except for the king, which
    stops at 1. So, exactly as written, the knight repeats its jump along a
    line like a rider.
- **The move list** (`getAllMoves`): every (from-index, to-index) pair of one
  colour, in square order. The highlight set of a selected piece is derived
  from the same generator (`highlightLegalMoves`).
- **Move application and game state** (`movePiece`, `changeTurn`,
  `isKingCaptured`, `isGameOver`, `resetGame`):
  - `movePiece` captures, latches the king-captured flags and relocates the piece.
  - `resetGame` lowers the flags and empties the board.
- **The controller** (`handleSquareClick`, `selectSquare`, `deselectSquare`,
  `aiMove`):
  - the click state machine;
  - the random automated opponent, whose random draw is an argument `choice`;
    the pair at position `choice % n` is played.

The loops of `calculateMoves`, `getAllMoves` and `highlightLegalMoves` are
methods with loop invariants. The loop of `clearHighlights` is the single
assignment of an empty set. Some methods are proved equal to a specification
function:

- `CalculateMoves` (with `CalculatePawnMoves`, `ScanCaptures` and
  `ScanDirection`) equals `Moves`;
- `GetAllMoves` (with `CollectSquare` and `PairUp`) equals `AllMoves`;
- `HighlightLegalMoves` (with `MarkTargets`) adds `Highlights`;
- `AiMove` equals `AiReply`;
- `ConfirmMove` equals `HumanMove`.

`SelectSquare`, `DeselectSquare`, `MovePiece`, `ChangeTurn`, `ResetGame` and
`HandleSquareClick` state the new values of the fields they change directly.
`HandleSquareClick` states them branch by branch.

Lemmas then prove properties of those functions:

- ray shape and blocking;
- the pawn rule;
- the step cap;
- that move lists are sound and complete;
- the ordering of the move list;
- the board frame and the piece count;
- the effect of every click.

The game is a class, `Controller.Game`, whose methods update its fields. Its
invariant `Valid()` holds between events:

- the latches are down;
- the board has 64 squares or has been cleared;
- a selection is a piece of the side to move, and its highlights are exactly
  that piece's generated destinations.

Two behaviours of `main.js` that a reader may not expect are kept as written:

- **The stuck test.** After a human move, `isGameOver` runs before
  `changeTurn`. So it examines the side that has just moved, not the side
  about to move, and then names the other side as winner.
- **The king capture by the automated opponent.** The announcement is
  evaluated while `turn` is black, so it names white. The captured king is
  always white's, because black never targets its own pieces. The model keeps
  this as written (`AiReplyPlaysOneMove`).

## Model

| member | source | states |
|---|---|---|
| Pieces.Opponent | main.js:115-117 | the side that takes over is never the side that had the turn |
| Squares.IsValidSquare | main.js:189-191 | a square is on the board iff row and column are in 0..7; an on-board square's index is one of the 64 list positions |
| Squares.IsEmptySquare | main.js:193-197 | the square at `row * 8 + col` exists and holds no piece; no square is empty on a cleared board, and an empty square never holds a king |
| Squares.IsEnemySquare | main.js:199-204 | the square at `row * 8 + col` exists and holds a piece of the other colour; such a square is never empty |
| Squares.IndexRoundTrip | main.js:129-131 | every list position 0..63 is an on-board (row, col) whose index is that position again |
| Squares.SquareRoundTrip | main.js:257-258 | every on-board square has an index in 0..63 that converts back to the same row and column |
| Squares.IndexInjective | main.js:193-204 | two on-board squares never share a list position |
| Squares.OffBoardAliases | main.js:193-204 | off the board the index conversion aliases: (0, 8) and (1, 0) share position 8, so both occupancy queries give the same answer for them |
| Squares.OccupancyOnBoard | main.js:189-204 | on a full board and an on-board square, the empty and enemy queries read exactly that square's cell |
| Squares.Moved | main.js:100-113 | after a move the target holds the moving piece, the origin is empty, every other square is unchanged and the length is kept |
| Squares.MovedCount | main.js:100-113 | moving onto another square lowers the piece count by one exactly when the target was occupied |
| MoveGenerator.Directions | main.js:10-17 | the direction vectors of each type, in scan order; none is the zero vector, there are at most eight, and only the pawn has none |
| MoveGenerator.StepLimit | main.js:170 | the number of multiples scanned per direction: between 1 and 8, and 1 exactly for the king |
| MoveGenerator.StepSquareAt | main.js:171 | the k-th step along a vector is (row + dr * k, col + dc * k) |
| MoveGenerator.RayAt | main.js:171-181 | one iteration of the scan: edge stops it, empty square is taken and the scan goes on, enemy is taken and the scan stops, friendly piece stops it |
| MoveGenerator.CalculateMoves | main.js:142-187 | the generator returns exactly `Moves` (pawn rule for pawns, the scan of every direction for the other types) |
| MoveGenerator.CalculatePawnMoves | main.js:146-167 | the pawn branch returns exactly the pushes followed by the diagonal captures |
| MoveGenerator.ScanCaptures | main.js:163-167 | the diagonal loop keeps exactly the valid enemy-occupied targets, in order |
| MoveGenerator.ScanDirection | main.js:169-183 | the step loop with its early exits returns exactly the ray of the direction |
| MoveProperties.RayLength | main.js:170 | a scan from step i yields at most limit + 1 - i squares |
| MoveProperties.RayStepAt | main.js:170-171 | the k-th square of a scan is the (i + k)-th step along the vector |
| MoveProperties.RayOpenBeforeLast | main.js:174-175 | every square of a scan but the last is on the board and empty |
| MoveProperties.RayLastTakeable | main.js:174-178 | the last square of a non-empty scan is empty or holds an enemy |
| MoveProperties.RayStops | main.js:172-181 | a scan that ends early on an empty square, or yields nothing, was stopped by the board edge or a friendly piece at the next step |
| MoveProperties.RayShape | main.js:169-183 | a direction yields a run of consecutive empty steps, optionally ending on one enemy, at most `limit` long, and nothing past the first occupied square or the edge |
| MoveProperties.RayMember | main.js:169-183 | a square is on a scanned direction iff it is the k-th step for some k within the cap, all nearer steps are empty, and it is empty or an enemy |
| MoveProperties.DirMovesMember | main.js:169-183 | a square is produced for a list of directions iff some direction's scan produces it |
| MoveProperties.RiderRule | main.js:168-184 | for every non-pawn type, a square is a destination iff it is a clear k-th multiple (k within the type's cap) of one of the type's vectors and empty or an enemy |
| MoveProperties.PawnRule | main.js:146-167 | a pawn destination is exactly the push onto an empty square, the double push from the start row over two empty squares, or a diagonal-forward enemy |
| MoveProperties.PawnRuleCells | main.js:146-161 | the double push's intermediate square is on the board whenever its target is, so on a full board the pawn rule reads exactly the named cells and no index aliases |
| MoveProperties.RayQueriesCells | main.js:171-181 | the queries of a ray are guarded by the board test, so on a full board a square is passable iff its cell is empty and takeable iff its cell holds no friendly piece |
| MoveProperties.TakeableCell | main.js:189-204 | a square that is empty or an enemy is a real cell holding no friendly piece |
| MoveProperties.StepAway | main.js:171 | one or more steps along a non-zero vector never return to the origin |
| MoveProperties.MovesLandSafely | main.js:150-181 | every destination is on the board, is not the piece's own square, and holds no piece of the mover's colour |
| MoveProperties.DirMovesLength | main.js:169-170 | a list of directions yields at most `limit` squares per direction in total |
| MoveProperties.KingSteps | main.js:170 | a king yields at most eight squares, each adjacent to its own |
| MoveProperties.KnightRides | main.js:13-17 | the knight's jump vectors are scanned like a rider's: a knight on (7, 1) on a full board reaches an empty (5, 2) and, over it, also (3, 3) when (3, 3) is empty or an enemy |
| MoveList.GetAllMoves | main.js:251-266 | the enumeration returns exactly `AllMoves` |
| MoveList.CollectSquare | main.js:253-263 | one square contributes the pairs of its piece's destinations when the piece has the asked colour, and nothing otherwise |
| MoveList.PairUp | main.js:259-262 | each destination (r, c) becomes the pair (from, r * 8 + c), in order |
| MoveList.PairsMember | main.js:259-262 | a pair is built for `from` iff it starts at `from` and ends at the index of one of the destinations |
| MoveList.PairsBelowMember | main.js:253-263 | the pairs of the first n squares are exactly the pairs of a destination of some square below n |
| MoveList.AllMovesMember | main.js:251-266 | a pair is listed iff a piece of the colour stands on its origin and its target is the index of one of that piece's generated destinations (sound and complete) |
| MoveList.PairsFrom | main.js:259-262 | one pair per destination, each starting at `from` |
| MoveList.PairsBelowOrdered | main.js:253-263 | the pairs of the first n squares start below n and are ordered by origin |
| MoveList.AllMovesOrdered | main.js:253 | the enumeration lists pairs by ascending origin index |
| MoveList.AllMovesTargets | main.js:251-266 | on a full board every listed pair moves a piece of the colour to a different on-board square that holds no piece of that colour |
| MoveList.NoMovesIff | main.js:239-242 | a side has no listed pair iff none of its pieces has a destination |
| MoveList.IndexSetMember | main.js:133-139 | a square is highlighted iff it exists on the board and is the index of one of the destinations |
| MoveList.HighlightsAreMoves | main.js:122-139 | the highlighted squares of a piece are exactly the targets the enumeration lists for its square |
| MoveList.OwnSquareNotHighlighted | main.js:82-84 | a selected piece's own square is never highlighted, so clicking it again reaches the deselect branch |
| Controller.AiReply | main.js:212-232 | the opponent's reply: play goes on iff the turn passes to the other side, and then the board keeps its length; an ended game clears the board |
| Controller.HumanMove | main.js:60-79 | a confirmed move and its consequences: play goes on with a board of the same length, or the game ends with the board cleared |
| Controller.AllMovesInRange | main.js:220-224 | a listed pair names two existing squares, the first holding a piece of the colour and the second no piece of that colour |
| Controller.AiReplyPlaysOneMove | main.js:212-232 | the opponent plays exactly one of black's listed pairs and passes the turn, or announces white's win when there is none; a capture that ends the game took white's king and is announced for the side opposite `turn` |
| Controller.AiReplyReachesEvery | main.js:220 | every listed pair of black is played for the draw equal to its position |
| Controller.HumanMoveTurn | main.js:74-75 | a confirmed move that goes on hands the turn to white against the automated opponent and to the other side otherwise |
| Controller.HumanMoveEnds | main.js:62-73 | a king capture wins for the mover; otherwise a mover left without moves loses; both clear the board and keep the turn |
| Controller.HumanMoveBoard | main.js:60-76 | a confirmed move without a reply relocates exactly the moving piece and loses only the target's occupant |
| Controller.Game.constructor | main.js:3-8 | a new game on a 64-square layout is valid, has white to move, no selection and no highlights |
| Controller.Game.SelectSquare | main.js:87-90 | the clicked square becomes the selection |
| Controller.Game.DeselectSquare | main.js:92-98 | all highlights are cleared and the selection is dropped |
| Controller.Game.HighlightLegalMoves | main.js:122-140 | adds exactly the generated destinations of the piece on the square; nothing for an empty square |
| Controller.Game.MarkTargets | main.js:133-139 | adds the index of every destination that names an existing square |
| Controller.Game.MovePiece | main.js:100-113 | the board becomes `Moved`; each latch is set exactly when that colour's king stood on the target and is never cleared; `IsKingCaptured` becomes true exactly when a king was on the target; the piece count drops by the captured piece |
| Controller.Game.IsKingCaptured | main.js:235-237 | some king-captured latch is up; never between events, since the invariant keeps both down |
| Controller.Game.ChangeTurn | main.js:115-117 | white and black swap |
| Controller.Game.IsGameOver | main.js:239-242 | true iff the side in `turn` has no listed pair, i.e. none of its pieces has a destination |
| Controller.Game.ResetGame | main.js:244-248 | both latches are lowered and the board is emptied; the turn is kept |
| Controller.Game.AiMove | main.js:212-233 | performs exactly `AiReply` on board, turn and announcement, and keeps the invariant |
| Controller.Game.ConfirmMove | main.js:59-79 | performs exactly `HumanMove`; the selection stays after a king capture and is dropped otherwise; keeps the invariant |
| Controller.Game.HandleSquareClick | main.js:49-85 | ignored while the automated opponent is to move; selects an own piece when nothing is selected and highlights its moves; moves onto a highlighted square, which is always a listed pair of the mover, exactly as `HumanMove`, and drops the selection and highlights unless a king was captured; deselects on the selected square; does nothing otherwise; the board changes only through a listed move; keeps the invariant |

## Left out

- DOM plumbing is left out: element creation, event listeners, the game-option
  buttons (main.js:19-47) and the CSS classes "selected" and "highlight".
  - The model keeps the selected index in a field, and the highlighted squares
    in a set field.
  - `clearHighlights` (main.js:206-210) is modelled as emptying that set.
- The text of the `alert` messages is left out; only the winner and the reason
  are kept, as `Outcome`. The "White's turn!" notice in `changeTurn` is left
  out entirely.
- `Math.random` becomes the argument `choice`, and the pair at `choice % n` is
  played. Every position can be drawn (`AiReplyReachesEvery`); the uniform
  distribution is not modelled.
- The initial piece layout lives in the page markup, so the constructor takes
  it as a parameter.
- `startGame` is represented by the constructor argument `vsAI`. Starting again
  after a reset is left out, because the board has no squares left by then.
- `resetGame` also re-creates the option buttons; that DOM work is left out.
- The pawn entry of the direction table (main.js:11) is never read. In
  `Directions` it is the empty list.
- An unknown piece type would make `dirs.forEach` throw (main.js:169). The
  six-constructor `PieceType` rules this out.
- Controller.Game.MovePiece requires a piece on the origin. The source would
  fail on a missing piece, and both of its callers always pass one.
- Controller.Game.AiMove requires the invariant and no selection. That is the
  state its only caller leaves, after `deselectSquare`.
- Controller.Game.HandleSquareClick requires a square that exists. Clicks
  come only from squares of the board.
- Controller.Game.ConfirmMove handles only the move branch when the selected
  square still holds a piece (main.js:60-61). The invariant guarantees that
  piece, so the source's silent return for an empty selection is not reached.
