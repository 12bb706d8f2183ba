# Stackr core in Dafny

This project models the engine of Stackr, a guideline-style falling-block game, together with the greedy bot that plays it. The engine has a fixed board of 10 columns and 22 rows, and the bot picks one placement per piece.

The model has two layers.

- **Rules on values.** Each component has a functional specification over plain values:
  - a board is a `Grid` (a sequence of 22 rows of 10 cells);
  - a piece is a `Piece` value;
  - the piece source is a `RandView`;
  - the score is a `ScoreView`;
  - a whole game is a `GameView`.

  Every operation of the code is a function from the view before to the view after, plus its boolean result. The properties the code promises are proved as lemmas over these functions.
- **Objects the code mutates.** These are classes with the fields the code updates in place:
  - `Board` holds its grid in an `array<Row>`;
  - `BagRandomizer` holds its bag and preview queue;
  - `ScoreSystem`;
  - `Game`, which owns a board, a score system and a randomizer.

  Each method has the loops and branches of its Rust counterpart. Each is proved to leave the object's `Model()` equal to the specification function applied to the old model. The move finder, the evaluator and the bot are methods over `Game` objects, and each is proved against its function in the same way.

Modules follow the source tree:

| module | file | models |
|---|---|---|
| `TetrisCore` | `tetris_core.dfy` | the board constants |
| `Pieces` | `piece.dfy` | `piece.rs` |
| `Boards` | `board.dfy` | `board.rs` |
| `Rotations` | `rotation.dfy` | `rotation.rs` |
| `Randomizers` | `randomizer.dfy` | `randomizer.rs` |
| `Scoring` | `score.dfy` | the `ScoreSystem` part of `game.rs` |
| `GameRules` | `game_spec.dfy` | the rest of `game.rs`, as functions |
| `Games` | `game.dfy` | the rest of `game.rs`, as the `Game` class |
| `MoveFinders` | `move_finder.dfy` | `bot/move_finder.rs` |
| `Evaluators` | `evaluator.dfy` | `bot/evaluator.rs` |
| `Runs` | `runs.dfy` | the runs of a game driver |
| `Bots` | `bot.dfy` | `bot/mod.rs` |

The piece source's randomness is a parameter. A `Source` maps the refill count to a sequence of seven piece types. The fairness lemmas assume that every such sequence is a permutation of the seven types (`BagSource`).

### Behaviour kept as the code has it

The system's documented intent differs from the code in the places below. The model follows the code.

- **Adjacent complete rows.**
  - Intent: clearing two full rows removes both.
  - Code: `clear_lines` tests each original row index once, bottom to top. A complete row that shifts down into an index already tested is not removed.
  - Model: `Boards.ClearTwoAdjacentRows` shows that a stack of two full rows loses only one. `Boards.ClearFourRows` shows that a stack of four loses two.
- **T-spin scoring at lock.**
  - Intent: a lock classifies T-spins.
  - Code: `lock_piece` takes the current piece before calling `detect_tspin`, so T-spin detection always sees no piece and every lock scores as `TSpinType::None`.
  - Model: `GameRules.LockScoresPlain` states this. `detect_tspin` is still modelled on its own (`GameRules.DetectTspinF`).
- **Hold swap.**
  - Intent: a hold swap re-spawns the held piece.
  - Code: the held piece is brought back at the spawn position without a fit test, and a collision there does not end the game.
- **Ignored placement result.** `lock_piece` ignores the result of `place_piece`. If the piece does not fit, the board is left unchanged.
- **Wells at the edges.**
  - Intent: an edge column is compared with its single neighbour.
  - Code: the missing neighbour is replaced by the column's own height, so an edge column never counts as a well (`Evaluators.WellAtSpec`).
- **Spin-check arithmetic.** `detect_tspin` subtracts 1 from the pivot in unsigned arithmetic. The model therefore requires a T piece's pivot to be away from row 0 and column 0 (`TspinSafe`).

## Model

| member | source | states |
|---|---|---|
| Pieces.Rotation.RotateCw | src/tetris_core/piece.rs:26-33 | the orientation index advances by one, modulo 4 |
| Pieces.Rotation.RotateCcw | src/tetris_core/piece.rs:36-43 | the orientation index goes back by one, modulo 4 |
| Pieces.Rotation.ToIndex | src/tetris_core/piece.rs:46-48 | the index is below 4 |
| Pieces.RotateInverse | src/tetris_core/piece.rs:26-43 | clockwise and counter-clockwise turns undo each other |
| Pieces.RotateFourTimes | src/tetris_core/piece.rs:26-43 | four turns in the same direction return to the start |
| Pieces.IndexIsDiscriminant | src/tetris_core/piece.rs:17-48 | North, East, South and West have indices 0, 1, 2 and 3 |
| Pieces.IndexInjective | src/tetris_core/piece.rs:46-48 | two orientations have the same index exactly when they are equal |
| Pieces.NewPiece | src/tetris_core/piece.rs:61-68 | a new piece has the given type and pivot and faces North |
| Pieces.BlockOffsets | src/tetris_core/piece.rs:92-134 | every table entry has four offsets |
| Pieces.OffsetsDistinct | src/tetris_core/piece.rs:92-134 | the four offsets of every entry are pairwise distinct |
| Pieces.OShapeFixed | src/tetris_core/piece.rs:102 | the O entry is the same for every orientation |
| Pieces.OffsetsBounded | src/tetris_core/piece.rs:92-134 | every offset lies in -1..2, and each entry has an offset with a non-negative column |
| Pieces.Blocks | src/tetris_core/piece.rs:71-89 | a piece has at most four visible cells |
| Pieces.VisibleCells | src/tetris_core/piece.rs:71-89 | the cells kept are at most as many as the offsets (characterised by `Pieces.VisibleCellsSpec`) |
| Pieces.VisibleCellsSpec | src/tetris_core/piece.rs:71-89 | the cells kept are exactly the pivot-plus-offset cells with non-negative row and column, in table order; all four are kept exactly when every one is visible |
| Pieces.BlocksAllVisible | src/tetris_core/piece.rs:71-89 | a pivot at row and column of at least 1 keeps all four cells, in table order |
| Pieces.NonNegativeColumnAnchored | src/tetris_core/piece.rs:71-89 | a piece whose pivot column is non-negative has a block with a non-negative column |
| Pieces.WithClockwiseRotation | src/tetris_core/piece.rs:152-166 | only the orientation changes, to its clockwise successor |
| Pieces.WithCounterclockwiseRotation | src/tetris_core/piece.rs:157-173 | only the orientation changes, to its counter-clockwise successor |
| Pieces.WithLeftMove | src/tetris_core/piece.rs:137-180 | only the column changes, by -1 |
| Pieces.WithRightMove | src/tetris_core/piece.rs:142-187 | only the column changes, by +1 |
| Pieces.WithDownMove | src/tetris_core/piece.rs:147-194 | only the row changes, by +1 |
| Pieces.LeftRightInverse | src/tetris_core/piece.rs:176-187 | a left move and a right move undo each other |
| Pieces.RotationCopiesInverse | src/tetris_core/piece.rs:162-173 | the two rotated copies undo each other |
| Pieces.DownByShift | src/tetris_core/piece.rs:190-194 | k down moves add k to the row and change nothing else |
| Boards.Board.constructor | src/tetris_core/board.rs:24-28 | a new board has every cell empty |
| Boards.EmptyGrid | src/tetris_core/board.rs:24-28 | the empty grid has 22 rows of 10 cells |
| Boards.Board.GetCell | src/tetris_core/board.rs:31-37 | the result is present exactly for row < 22 and col < 10, and it is that cell |
| Boards.Board.SetCell | src/tetris_core/board.rs:40-47 | in bounds, it writes that one cell and returns true; otherwise it returns false and the board is unchanged |
| Boards.SetGet | src/tetris_core/board.rs:40-47 | after a write, only the written cell differs |
| Boards.Board.CanPlace | src/tetris_core/board.rs:50-63 | true exactly when every visible block is in bounds and empty |
| Boards.CanPlaceF | src/tetris_core/board.rs:50-63 | a piece fits when each of its visible blocks is on the board and empty |
| Boards.Board.PlacePiece | src/tetris_core/board.rs:66-75 | if the piece does not fit, it returns false with the board unchanged; otherwise the board becomes the placed grid |
| Boards.PlaceF | src/tetris_core/board.rs:66-75 | the grid after a fitting piece is written keeps its 22 × 10 shape (cells: `Boards.PlaceCells`) |
| Boards.PlaceCells | src/tetris_core/board.rs:66-75 | placing fills exactly the piece's blocks with its type, and every other cell is unchanged |
| Boards.PlaceFillCount | src/tetris_core/board.rs:66-75 | placing adds exactly as many filled cells as the piece has visible blocks |
| Boards.BlocksDistinct | src/tetris_core/piece.rs:71-89 | a piece's visible cells are pairwise distinct |
| Boards.PlacedPieceCollides | src/tetris_core/board.rs:66-75 | a placed piece with a visible block no longer fits at the same spot |
| Boards.Board.IsLineComplete | src/tetris_core/board.rs:93-104 | true exactly for an in-bounds row with no empty cell |
| Boards.IsLineCompleteF | src/tetris_core/board.rs:93-104 | a row is complete when it is on the board and has no empty cell |
| Boards.Board.RemoveLine | src/tetris_core/board.rs:107-119 | the board becomes the shifted grid |
| Boards.RemoveLineF | src/tetris_core/board.rs:107-119 | the shifted grid keeps its shape, and an out-of-bounds row leaves it unchanged (rows: `Boards.RemoveLineRows`) |
| Boards.RemoveLineRows | src/tetris_core/board.rs:107-119 | row 0 becomes empty, rows 1..r take the old rows 0..r-1, and rows below r are unchanged |
| Boards.RemoveLineCount | src/tetris_core/board.rs:107-119 | the filled-cell count drops by the removed row's count |
| Boards.Board.ClearLines | src/tetris_core/board.rs:78-90 | the board and the count are those of the single bottom-to-top pass |
| Boards.ClearPass | src/tetris_core/board.rs:78-90 | the pass over the original row indices k - 1 down to 0 keeps the grid's shape and removes at most k rows |
| Boards.ClearLinesF | src/tetris_core/board.rs:78-90 | the cleared grid keeps its shape and at most 22 rows are removed |
| Boards.ClearLinesCount | src/tetris_core/board.rs:78-90 | the filled-cell count drops by exactly 10 times the number cleared |
| Boards.ClearLinesNothingToClear | src/tetris_core/board.rs:78-104 | some line is cleared exactly when some row is complete; with none complete, the board is unchanged and the count is 0 |
| Boards.ClearTwoAdjacentRows | src/tetris_core/board.rs:82-87 | with the two bottom rows full, one pass clears only one of them |
| Boards.ClearFourRows | src/tetris_core/board.rs:82-87 | with the four bottom rows full, one pass clears two of them |
| Boards.Board.IsTopBlocked | src/tetris_core/board.rs:122-129 | true exactly when some row-0 cell is filled |
| Boards.IsTopBlockedF | src/tetris_core/board.rs:122-129 | the top is blocked when some row-0 cell is filled |
| Boards.TopBlockedNotPerfectClear | src/tetris_core/board.rs:122-150 | a blocked top is never a perfect clear |
| Boards.Board.Clear | src/tetris_core/board.rs:132-138 | afterwards every cell is empty |
| Boards.Board.IsPerfectClear | src/tetris_core/board.rs:141-150 | true exactly when no cell is filled |
| Boards.IsPerfectClearF | src/tetris_core/board.rs:141-150 | a perfect clear has no filled cell |
| Boards.PerfectClearIsEmpty | src/tetris_core/board.rs:141-150 | a perfect clear is the empty grid, and also a filled-cell count of zero |
| Boards.PerfectClearScenario | src/tetris_core/board.rs:158-176 | the empty board is a perfect clear; one block at (10, 5) makes it not one |
| Boards.Board.Copy | src/tetris_core/board.rs:18-20 | the copy is a fresh board with the same cells |
| Rotations.KickOffsets | src/tetris_core/rotation.rs:58-90 | every kick list starts with (0, 0) |
| Rotations.KickTableShape | src/tetris_core/rotation.rs:58-90 | O has only (0, 0); the other types have five kicks per quarter turn; only pairs that are not a quarter turn apart reach the fallback arm |
| Rotations.KickNegation | src/tetris_core/rotation.rs:58-90 | the list for the reverse turn is the entry-wise negation of the forward list |
| Rotations.FirstFit | src/tetris_core/rotation.rs:18-30 | a found piece fits and keeps its type and orientation |
| Rotations.FirstFitSpec | src/tetris_core/rotation.rs:18-30 | no result exactly when no kick fits; otherwise the result is the first kick that fits |
| Rotations.TryKicks | src/tetris_core/rotation.rs:18-30 | the kick loop returns the first-fit result |
| Rotations.RotateCwF | src/tetris_core/rotation.rs:11-31 | a result keeps the type, turns clockwise and fits |
| Rotations.RotateCcwF | src/tetris_core/rotation.rs:35-55 | a result keeps the type, turns counter-clockwise and fits |
| Rotations.RotateClockwise | src/tetris_core/rotation.rs:11-31 | it returns the clockwise result, and the board is not modified |
| Rotations.RotateCounterclockwise | src/tetris_core/rotation.rs:35-55 | it returns the counter-clockwise result, and the board is not modified |
| Rotations.RotateCwResult | src/tetris_core/rotation.rs:11-31 | none exactly when no kick of the list fits; otherwise the turned piece moved by the first kick that fits |
| Rotations.RotateCcwResult | src/tetris_core/rotation.rs:35-55 | the same for counter-clockwise turns |
| Rotations.UnobstructedKeepsPivot | src/tetris_core/rotation.rs:11-55 | if the turned piece fits where it is, the pivot is kept |
| Rotations.ORotationKeepsBlocks | src/tetris_core/rotation.rs:123-144 | a successful O turn keeps the pivot and the block cells |
| Rotations.EmptyGridTurns | src/tetris_core/rotation.rs:109-120 | on an empty board, a piece well inside turns both ways in place |
| Rotations.FourTurnsReturn | src/tetris_core/rotation.rs:272-293 | a T at (5, 5) on an empty board passes through all four orientations and returns to North |
| Rotations.AllShapesTurn | src/tetris_core/rotation.rs:296-321 | every type at (5, 5) on an empty board turns both ways |
| Rotations.IWallKick | src/tetris_core/rotation.rs:147-168 | next to a wall in column 7, the I piece turns East, with every block in bounds and none in column 7 |
| Rotations.CagedNoCw | src/tetris_core/rotation.rs:192-217 | with the 5×5 cage filled except the centre, a T at (5, 5) cannot turn clockwise |
| Rotations.CagedNoCcw | src/tetris_core/rotation.rs:192-217 | nor can it turn counter-clockwise |
| Rotations.CagedTCannotTurn | src/tetris_core/rotation.rs:192-217 | the cage from the test blocks both turns |
| Randomizers.BagRandomizer.constructor | src/tetris_core/randomizer.rs:28-48 | the new randomizer is the state after the first refill and five draws into the preview |
| Randomizers.NewF | src/tetris_core/randomizer.rs:28-48 | the new preview holds five pieces |
| Randomizers.NewState | src/tetris_core/randomizer.rs:28-48 | the preview is the first five pieces popped from the first bag, and the bag keeps the other two |
| Randomizers.Steps | src/tetris_core/randomizer.rs:39-45 | n pushes add n pieces to the queue and keep the source |
| Randomizers.RefillF | src/tetris_core/randomizer.rs:51-62 | the bag becomes the next seven-piece sequence, and the queue is unchanged |
| Randomizers.BagRandomizer.RefillBag | src/tetris_core/randomizer.rs:51-62 | the state becomes the refilled state |
| Randomizers.Step | src/tetris_core/randomizer.rs:81-86 | the bag's last piece moves to the back of the queue, refilling the bag first when it is empty |
| Randomizers.BagRandomizer.Push | src/tetris_core/randomizer.rs:81-86 | the state becomes that of one refill-and-push step |
| Randomizers.NextF | src/tetris_core/randomizer.rs:75-89 | it returns the old front of the queue, and the queue length is kept |
| Randomizers.BagRandomizer.Next | src/tetris_core/randomizer.rs:75-89 | it returns the queue front, and the state is the next state |
| Randomizers.NextFair | src/tetris_core/randomizer.rs:75-89 | every draw returns the next piece of the sequence of reversed bags, and keeps that invariant |
| Randomizers.PeekF | src/tetris_core/randomizer.rs:91-96 | it returns the first min(n, len) queue entries, in order |
| Randomizers.BagRandomizer.Peek | src/tetris_core/randomizer.rs:91-96 | it agrees with the value-level peek and changes nothing |
| Randomizers.BagRandomizer.Clone | src/tetris_core/randomizer.rs:65-72 | the clone is fresh and has the same bag, queue and source |
| Randomizers.RunSpec | src/tetris_core/randomizer.rs:75-89 | n draws from a new randomizer are the first n pieces of the reversed bags |
| Randomizers.Pushed | src/tetris_core/randomizer.rs:51-62 | the first k refills supply 7 × k pieces, each bag in the order `pop` takes them |
| Randomizers.DrawnGroup | src/tetris_core/randomizer.rs:75-89 | draws 7m..7m+6 are bag m reversed |
| Randomizers.BagFairness | src/tetris_core/randomizer.rs:17-18 | with permutation refills, every group of seven draws counted from construction holds each type once |
| Randomizers.BagNoDuplicates | src/tetris_core/randomizer.rs:17-24 | with permutation refills, the bag never holds a type twice |
| Scoring.NewScoreF | src/tetris_core/game.rs:24-30 | score 0, no lines, level 1 |
| Scoring.ScoreSystem.constructor | src/tetris_core/game.rs:24-30 | the new system has the initial score |
| Scoring.AddLinesF | src/tetris_core/game.rs:33-52 | 0 lines changes nothing; otherwise it adds level × the table value and the lines, and keeps level = lines / 10 + 1 |
| Scoring.ScoreSystem.AddScoreForLines | src/tetris_core/game.rs:33-52 | the score becomes that of the plain table |
| Scoring.AddLinesTspinF | src/tetris_core/game.rs:55-92 | 0 lines adds only the no-line T-spin bonus; otherwise it adds level × the T-spin table value and the lines |
| Scoring.ScoreSystem.AddScoreForLinesWithTspin | src/tetris_core/game.rs:55-92 | the score becomes that of the T-spin table |
| Scoring.AddPerfectClearF | src/tetris_core/game.rs:95-106 | it adds level × the perfect-clear bonus, and nothing else changes |
| Scoring.ScoreSystem.AddPerfectClearBonus | src/tetris_core/game.rs:95-106 | the score becomes the one with the bonus |
| Scoring.AddSoftDropF | src/tetris_core/game.rs:109-111 | it adds the row count |
| Scoring.ScoreSystem.AddSoftDropScore | src/tetris_core/game.rs:109-111 | the score becomes the soft-drop score |
| Scoring.AddHardDropF | src/tetris_core/game.rs:114-116 | it adds twice the row count |
| Scoring.ScoreSystem.AddHardDropScore | src/tetris_core/game.rs:114-116 | the score becomes the hard-drop score |
| Scoring.ScoreSystem.Clone | src/tetris_core/game.rs:17-21 | the clone is fresh and equal |
| Scoring.ScoringMonotone | src/tetris_core/game.rs:24-116 | no scoring operation lowers the score, and each keeps level = lines / 10 + 1 |
| Scoring.LinesGrowOnlyOnClears | src/tetris_core/game.rs:55-92 | the line count grows exactly by the lines cleared, so it grows only when lines > 0 |
| Scoring.LevelNeverDrops | src/tetris_core/game.rs:33-92 | clears never lower the level |
| Scoring.PlainAgreesWithTspinNone | src/tetris_core/game.rs:33-92 | the plain table equals the T-spin table with no spin |
| Scoring.LineValueZero | src/tetris_core/game.rs:67-85 | a clear is worth nothing exactly for more than 4 lines, a Full T-spin of 4, or a Mini T-spin of 3 or more |
| Scoring.TspinBeatsPlain | src/tetris_core/game.rs:67-85 | wherever the spin table has an entry, it pays at least the plain table |
| Scoring.PerfectClearIncreasing | src/tetris_core/game.rs:95-106 | the bonus is positive exactly for 1 to 4 lines, and grows with the line count |
| GameRules.GravityDelay | src/tetris_core/game.rs:489-510 | the delay is frames × 1000 / 60 milliseconds |
| GameRules.GravityDelayShape | src/tetris_core/game.rs:489-510 | 1000 ms at level 1, 16 ms at every level of 19 or more, and never increasing with the level |
| GameRules.SpawnF | src/tetris_core/game.rs:542-562 | it draws the next type and places it at column 4, row -1 for I and 0 otherwise; if that does not fit, the game is over with no piece |
| GameRules.SpawnKeepsInv | src/tetris_core/game.rs:542-562 | spawning keeps the game invariant |
| GameRules.TryResetF | src/tetris_core/game.rs:220-225 | an active lock delay with fewer than 15 resets gets a zero timer and one more reset; otherwise nothing changes |
| GameRules.AsUsize | src/bot/move_finder.rs:90-94 | an i32 read as usize is itself when non-negative, and wraps past 2^64 when negative |
| GameRules.DetectTspinF | src/tetris_core/game.rs:358-437 | a spin is reported exactly for a T piece with at least three filled corners |
| GameRules.DetectTspinClassifies | src/tetris_core/game.rs:358-437 | for a T: a spin exactly with three or more filled corners; then Full exactly when a front corner (below for North, left for East, above for South, right for West) is filled, and Mini otherwise |
| GameRules.CornerCount | src/tetris_core/game.rs:360-386 | the corner count is the number of filled cells among the four diagonal neighbours, each counted once |
| GameRules.Corners | src/tetris_core/game.rs:362-368 | there are four corners: top-left, top-right, bottom-left and bottom-right of the pivot in usize coordinates |
| GameRules.FrontCorners | src/tetris_core/game.rs:390-434 | each orientation names two distinct corners as its front corners |
| GameRules.NoTspinWithoutT | src/tetris_core/game.rs:358-437 | no piece, or a piece that is not a T, gives no spin |
| GameRules.FourCornersFull | src/tetris_core/game.rs:358-437 | a T with all four corners filled is a full T-spin |
| GameRules.OffBoardCornersFilled | src/tetris_core/game.rs:440-448 | corners below the floor count as filled |
| GameRules.SettleF | src/tetris_core/game.rs:456-463 | the perfect-clear flag holds exactly when lines were cleared and the board is empty |
| GameRules.AfterLockF | src/tetris_core/game.rs:466-484 | the scoring, gravity, hold and lock-delay bookkeeping of a lock, before the spawn; the state stays well-formed |
| GameRules.LockF | src/tetris_core/game.rs:451-486 | the state after a lock is well-formed |
| GameRules.LockScoresPlain | src/tetris_core/game.rs:451-486 | a lock scores with no spin, adds the perfect-clear bonus only after at least one line and an empty board, re-enables hold, clears the lock delay, sets the gravity delay from the new level, and ends with the spawn of the next piece on the cleared board |
| GameRules.LockScoreGrows | src/tetris_core/game.rs:451-486 | a lock never lowers the score or the line count |
| GameRules.LockKeepsInv | src/tetris_core/game.rs:451-486 | a lock keeps the game invariant |
| GameRules.MoveLeftF | src/tetris_core/game.rs:228-239 | success exactly when the shifted piece fits; on success only the piece and the lock-delay reset change; on failure nothing changes |
| GameRules.MovedTo | src/tetris_core/game.rs:231-234 | a successful shift or turn: the new piece, then a lock-delay reset attempt |
| GameRules.MoveRightF | src/tetris_core/game.rs:242-253 | the same for a right shift |
| GameRules.MoveDownF | src/tetris_core/game.rs:256-272 | success moves the piece down and adds 1 point, leaving the lock delay alone; a blocked piece starts the lock delay when it is not active; otherwise nothing changes |
| GameRules.RotateCwGameF | src/tetris_core/game.rs:275-285 | success exactly when the resolver finds a turn; then only the piece and the lock-delay reset change |
| GameRules.RotateCcwGameF | src/tetris_core/game.rs:288-298 | the same for counter-clockwise turns |
| GameRules.SuccessfulMoveFrame | src/tetris_core/game.rs:228-298 | a successful left or right shift or either turn changes only the piece, the lock timer and the reset count, adding at most one reset; a successful soft drop changes only the piece, one row lower, and the score, one point higher |
| GameRules.MovesKeepScore | src/tetris_core/game.rs:228-272 | shifts keep the score; a soft drop adds at most 1 |
| GameRules.TurnsAndHoldKeepScore | src/tetris_core/game.rs:275-355 | turns and hold keep the score |
| GameRules.MoveLeftKeepsInv | src/tetris_core/game.rs:228-239 | a left move keeps the game invariant, including resets ≤ 15 |
| GameRules.MoveRightKeepsInv | src/tetris_core/game.rs:242-253 | a right move keeps the game invariant |
| GameRules.MoveDownKeepsInv | src/tetris_core/game.rs:256-272 | a soft drop keeps the game invariant |
| GameRules.RotateCwKeepsInv | src/tetris_core/game.rs:275-285 | a clockwise turn keeps the game invariant |
| GameRules.RotateCcwKeepsInv | src/tetris_core/game.rs:288-298 | a counter-clockwise turn keeps the game invariant |
| GameRules.DropF | src/tetris_core/game.rs:306-313 | the landed piece is the start piece moved down by the drop distance |
| GameRules.DropFSpec | src/tetris_core/game.rs:306-313 | every shift up to the distance fits, and one more step does not |
| GameRules.DropOnce | src/tetris_core/game.rs:306-313 | one iteration of the descent: stop if the next row is blocked, otherwise one more row |
| GameRules.DroppedF | src/tetris_core/game.rs:302-319 | the state after the descent and the drop score is well-formed |
| GameRules.HardDropF | src/tetris_core/game.rs:301-324 | true exactly when there is a current piece; without one nothing changes |
| GameRules.HardDropScoreGrows | src/tetris_core/game.rs:301-324 | a hard drop never lowers the score |
| GameRules.HardDropKeepsInv | src/tetris_core/game.rs:301-324 | a hard drop keeps the game invariant |
| GameRules.HoldF | src/tetris_core/game.rs:327-355 | it fails with nothing changed unless hold is allowed and a piece is falling; otherwise it stores the old type and disables hold, and swaps in the held type at the spawn position when there is one |
| GameRules.HeldPiece | src/tetris_core/game.rs:336-342 | the held type comes back at column 4, row -1 for I and 0 otherwise, facing North |
| GameRules.HoldKeepsInv | src/tetris_core/game.rs:327-355 | hold keeps the game invariant |
| GameRules.GravityStepF | src/tetris_core/game.rs:186-202 | a piece that can move down does, and the lock delay is cleared; a blocked piece starts an inactive lock delay and leaves an active one as it is; with no piece nothing changes |
| GameRules.GravityStepKeepsInv | src/tetris_core/game.rs:186-202 | a gravity step keeps the game invariant |
| GameRules.GravityPhaseF | src/tetris_core/game.rs:182-203 | the state after the gravity part of an update is well-formed |
| GameRules.GravityPhaseKeepsInv | src/tetris_core/game.rs:182-203 | the gravity part keeps the game invariant |
| GameRules.LockDelayStepF | src/tetris_core/game.rs:205-214 | the state after the lock-delay part of an update is well-formed |
| GameRules.LockDelayStepKeepsInv | src/tetris_core/game.rs:205-214 | the lock-delay part keeps the game invariant |
| GameRules.UpdateF | src/tetris_core/game.rs:176-217 | true exactly while Playing; otherwise nothing changes |
| GameRules.UpdateLocksAtDelay | src/tetris_core/game.rs:182-214 | a lock delay still active after the gravity phase, whose timer reaches 500 ms, locks the piece and clears the lock-delay state, whether gravity fired or not |
| GameRules.UpdateLocksBlockedPiece | src/tetris_core/game.rs:182-214 | a blocked piece with an active lock delay that reaches 500 ms is locked in that update, with the drop timer restarted when gravity fired |
| GameRules.UpdateGravityCancelsDelay | src/tetris_core/game.rs:182-214 | when gravity fires on a piece that can move down, the piece moves and the lock delay is cleared, so nothing locks |
| GameRules.UpdateScoreGrows | src/tetris_core/game.rs:176-217 | an update never lowers the score |
| GameRules.UpdateKeepsInv | src/tetris_core/game.rs:176-217 | an update keeps the game invariant |
| GameRules.TogglePauseF | src/tetris_core/game.rs:533-539 | Playing and Paused swap, GameOver stays, and nothing else changes |
| GameRules.TogglePauseTwice | src/tetris_core/game.rs:533-539 | toggling twice restores the state |
| GameRules.TogglePauseKeepsInv | src/tetris_core/game.rs:533-539 | toggling keeps the game invariant |
| GameRules.FreshF | src/tetris_core/game.rs:151-167 | the initial fields form a well-formed state |
| GameRules.NewGameF | src/tetris_core/game.rs:151-173 | a new game is well-formed |
| GameRules.NewGameInv | src/tetris_core/game.rs:151-173 | a new game satisfies the invariant, is Playing with a falling piece, and has an empty board and an initial score |
| GameRules.PeekNextF | src/tetris_core/game.rs:565-567 | it is the randomizer's peek |
| Games.Game.Model | src/tetris_core/game.rs:132-147 | the view of a game object is well-formed |
| Games.Game.constructor | src/tetris_core/game.rs:151-173 | the new game is the new-game state, over fresh objects |
| Games.Game.Clone | src/tetris_core/game.rs:132-147 | the copy is a fresh, independent game with the same state |
| Games.Game.SpawnNewPiece | src/tetris_core/game.rs:542-562 | the state becomes the spawned state |
| Games.Game.CalculateGravityDelay | src/tetris_core/game.rs:489-510 | the frames-table match gives the gravity delay of the level's rule, in whole milliseconds |
| Games.Game.TryResetLockDelay | src/tetris_core/game.rs:220-225 | the state becomes the lock-delay-reset state |
| Games.Game.MoveLeft | src/tetris_core/game.rs:228-239 | the result and new state are those of the left-move rule |
| Games.Game.MoveRight | src/tetris_core/game.rs:242-253 | the same for the right-move rule |
| Games.Game.MoveDown | src/tetris_core/game.rs:256-272 | the same for the soft-drop rule |
| Games.Game.RotateClockwise | src/tetris_core/game.rs:275-285 | the same for the clockwise-turn rule |
| Games.Game.RotateCounterclockwise | src/tetris_core/game.rs:288-298 | the same for the counter-clockwise-turn rule |
| Games.Game.HardDrop | src/tetris_core/game.rs:301-324 | the result and new state are those of the hard-drop rule |
| Games.Game.DropCurrent | src/tetris_core/game.rs:302-319 | it drops the piece to its landing row and adds the drop score |
| Games.Game.Descend | src/tetris_core/game.rs:306-313 | the loop returns the drop distance and landed piece of the descent |
| Games.Game.HoldPiece | src/tetris_core/game.rs:327-355 | the result and new state are those of the hold rule |
| Games.Game.IsCellFilled | src/tetris_core/game.rs:440-448 | off-board cells and filled cells count as filled |
| GameRules.CellFilled | src/tetris_core/game.rs:440-448 | a cell counts as filled when it is off the board or not empty |
| Games.Game.DetectTspin | src/tetris_core/game.rs:358-437 | the corner count gives the detected spin type |
| Games.Game.LockPiece | src/tetris_core/game.rs:451-486 | the state becomes the locked state |
| Games.Game.SettlePiece | src/tetris_core/game.rs:456-463 | the board is placed and cleared, and the count and perfect-clear flag are returned |
| Games.Game.ScoreLock | src/tetris_core/game.rs:466-484 | the scoring, gravity, hold and lock-delay part of a lock (the spawn follows in `LockPiece`) |
| Games.Game.Update | src/tetris_core/game.rs:176-217 | the result and new state are those of the update rule |
| Games.Game.ApplyGravity | src/tetris_core/game.rs:182-203 | the state becomes the gravity-phase state |
| Games.Game.GravityStep | src/tetris_core/game.rs:186-202 | the state becomes the gravity-step state |
| Games.Game.ProcessLockDelay | src/tetris_core/game.rs:205-214 | the state becomes the lock-delay-phase state |
| Games.Game.Reset | src/tetris_core/game.rs:513-530 | the game becomes a new game, with a fresh score system and randomizer |
| Games.Game.ResetFields | src/tetris_core/game.rs:514-526 | every field takes its reset value |
| Games.Game.TogglePause | src/tetris_core/game.rs:533-539 | the state becomes the toggled state |
| Games.Game.PeekNextPieces | src/tetris_core/game.rs:565-567 | it returns the randomizer's preview prefix |
| MoveFinders.NewMoveFinder | src/bot/move_finder.rs:48-52 | the default cap is 500 |
| MoveFinders.WithMaxMoves | src/bot/move_finder.rs:55-59 | the cap is the given one |
| MoveFinders.Plans | src/bot/move_finder.rs:76-167 | 70 plans, each with fewer than 4 turns and a target column below 10 |
| MoveFinders.StepCounts | src/bot/move_finder.rs:97-101 | left and right counts are below 256 and never both non-zero |
| MoveFinders.StepsReachTarget | src/bot/move_finder.rs:90-101 | when the column distance fits in a u8, the steps lead exactly from the pivot column to the target |
| MoveFinders.CollectIsCappedPrefix | src/bot/move_finder.rs:116-118 | the cap cuts the full candidate list at the first length that reaches it |
| MoveFinders.FindMovesEmpty | src/bot/move_finder.rs:62-68 | the list is empty exactly when there is no current piece |
| MoveFinders.FindMovesOrder | src/bot/move_finder.rs:71-167 | a hold move first exactly when hold is allowed, then the placements in plan order, cut at the cap |
| MoveFinders.FindMovesUncapped | src/bot/move_finder.rs:71-167 | with a cap of at least 71 there are exactly 70 placements after the optional hold move |
| MoveFinders.PlacementShape | src/bot/move_finder.rs:97-111 | a placement hard-drops, does not hold, and never has both left and right steps, or both kinds of turn |
| MoveFinders.FindMovesShape | src/bot/move_finder.rs:72-158 | every candidate is well shaped, and only the first can hold |
| MoveFinders.FoundMovesTerminate | src/bot/move_finder.rs:62-170 | when no turn sequence moves the pivot left of column 0, every candidate's hard drop terminates |
| MoveFinders.ShiftsMoveColumn | src/bot/move_finder.rs:195-205 | n successful shifts move the pivot n columns |
| MoveFinders.ApplyMoveF | src/bot/move_finder.rs:173-215 | the state after a move is well-formed |
| MoveFinders.ApplyMoveSteps | src/bot/move_finder.rs:173-215 | a plain hard-drop move is a hard drop, and a failing first turn stops the move with nothing changed |
| MoveFinders.ApplyMoveKeepsInv | src/bot/move_finder.rs:173-215 | applying a move keeps the game invariant |
| MoveFinders.FindPossibleMoves | src/bot/move_finder.rs:62-170 | the list is the capped candidate list, and the game is not modified |
| MoveFinders.FindMovesF | src/bot/move_finder.rs:62-170 | no candidates without a piece; otherwise the hold move (when hold is allowed), then the plans' placements, cut at the cap (`MoveFinders.FindMovesOrder`) |
| MoveFinders.PushPlacements | src/bot/move_finder.rs:76-120 | the rotation loops push the candidates of their plans, and stop at the cap |
| MoveFinders.Collect | src/bot/move_finder.rs:76-170 | each placement is appended in plan order, and the list is returned as soon as its length reaches the cap (`MoveFinders.CollectIsCappedPrefix`) |
| MoveFinders.PushColumns | src/bot/move_finder.rs:78-119 | the column loop pushes the ten candidates of one turn count, and stops at the cap |
| MoveFinders.TryPlan | src/bot/move_finder.rs:80-111 | the candidate of one plan, simulated on a copy |
| MoveFinders.PlacementFor | src/bot/move_finder.rs:80-113 | a plan's candidate: turns simulated on a copy, then left or right steps to the target column, hard drop set and hold clear |
| MoveFinders.SimulateTurns | src/bot/move_finder.rs:83-87 | the copy takes turns until the first failure |
| MoveFinders.PlacementMove | src/bot/move_finder.rs:97-111 | the move built from the pivot column, the target column and the turns |
| MoveFinders.Repeat | src/bot/move_finder.rs:182-205 | one step loop of a move, stopping at the first failure |
| MoveFinders.RepeatF | src/bot/move_finder.rs:182-205 | n tries of one action, stopping with false at the first failure; the state stays well-formed |
| MoveFinders.Act | src/bot/move_finder.rs:182-205 | one step of a move |
| MoveFinders.ActF | src/bot/move_finder.rs:182-205 | one turn or shift; a failed one changes nothing |
| MoveFinders.PreDrop | src/bot/move_finder.rs:174-205 | hold, turns and shifts of a move, in that order |
| MoveFinders.PreDropF | src/bot/move_finder.rs:174-205 | hold (if asked and allowed), turns, then shifts, stopping at the first failure; the state stays well-formed |
| MoveFinders.ApplyMove | src/bot/move_finder.rs:173-215 | the result and new state are those of applying the move |
| MoveFinders.IsValidMove | src/bot/move_finder.rs:218-221 | the result of applying the move to a copy, leaving the game unchanged |
| Evaluators.DefaultWeights | src/bot/evaluator.rs:19-31 | height, holes and bumpiness weigh negative; lines and wells positive; landing height zero |
| Evaluators.NewEvaluator | src/bot/evaluator.rs:41-45 | the default weights |
| Evaluators.WithWeights | src/bot/evaluator.rs:48-50 | the given weights |
| Evaluators.ColumnHeight | src/bot/evaluator.rs:73-87 | a height of at most 22, with every cell above the top empty and the top cell filled |
| Evaluators.ColumnHeightUnique | src/bot/evaluator.rs:73-87 | those properties determine the height |
| Evaluators.Heights | src/bot/evaluator.rs:73-87 | the ten column heights |
| Evaluators.GetColumnHeights | src/bot/evaluator.rs:73-87 | the loops return the column heights |
| Evaluators.ScanColumn | src/bot/evaluator.rs:77-83 | the row scan returns one column's height |
| Evaluators.CountHoles | src/bot/evaluator.rs:90-106 | the loops count the holes |
| Evaluators.Holes | src/bot/evaluator.rs:90-106 | the holes of the ten columns added up (`Evaluators.ColumnHolesSpec`) |
| Evaluators.ColumnHolesSpec | src/bot/evaluator.rs:90-106 | an empty column has no holes; otherwise fewer holes than its height, and none exactly when every cell below the top is filled |
| Evaluators.HolesAtMostHeight | src/bot/evaluator.rs:90-106 | the holes never exceed the aggregate height |
| Evaluators.CountCompleteLines | src/bot/evaluator.rs:109-128 | the loops count the complete rows |
| Evaluators.CompleteLines | src/bot/evaluator.rs:109-128 | the number of complete rows (`Evaluators.CompleteLinesAgreeWithClear`) |
| Evaluators.CompleteLinesAgreeWithClear | src/bot/evaluator.rs:109-128 | at most 22, and positive exactly when some row is complete, that is, when a clear would remove a line |
| Evaluators.CalculateBumpiness | src/bot/evaluator.rs:131-139 | the loop sums the adjacent height differences |
| Evaluators.Bumpiness | src/bot/evaluator.rs:131-139 | the sum of the adjacent height differences (`Evaluators.BumpinessFlat`) |
| Evaluators.BumpinessFlat | src/bot/evaluator.rs:131-139 | zero exactly for a flat surface, and at least the difference between the end columns |
| Evaluators.CalculateWells | src/bot/evaluator.rs:142-161 | the loop sums the well values |
| Evaluators.Wells | src/bot/evaluator.rs:142-161 | the well values of all columns added up (`Evaluators.WellsNone`) |
| Evaluators.WellAt | src/bot/evaluator.rs:142-161 | one column's well value, with a missing neighbour read as the column's own height (`Evaluators.WellAtSpec`) |
| Evaluators.WellAtSpec | src/bot/evaluator.rs:142-161 | a column counts exactly when it is interior and at least 4 below both neighbours, and adds the square of its depth |
| Evaluators.WellsNone | src/bot/evaluator.rs:142-161 | the well sum is zero exactly when no column counts |
| Evaluators.Evaluate | src/bot/evaluator.rs:53-70 | the score is the weighted sum over the game's board alone |
| Evaluators.EvaluateF | src/bot/evaluator.rs:53-70 | the weighted sum of aggregate height, holes, complete lines, bumpiness and wells (`Evaluators.EmptyBoardScoresZero`) |
| Evaluators.EmptyBoardScoresZero | src/bot/evaluator.rs:53-70 | an empty board has zero heights, holes, lines, bumpiness and wells, so it scores 0 |
| Runs.RunKeepsInv | src/bot/mod.rs:60-66 | a step that keeps the game invariant keeps it along every run |
| Runs.RunDeterministic | src/bot/mod.rs:60-66 | two runs from the same state agree on their common length |
| Bots.NewBot | src/bot/mod.rs:16-21 | default weights and a cap of 500 |
| Bots.Outcomes | src/bot/mod.rs:36-51 | each candidate's score is the evaluation of the board after applying it to a copy |
| Bots.BestUpTo | src/bot/mod.rs:36-51 | the earliest index with the maximal score among the first n |
| Bots.BestIndex | src/bot/mod.rs:36-51 | the chosen index is a candidate |
| Bots.BestIndexUnique | src/bot/mod.rs:36-51 | the earliest maximum is the chosen index |
| Bots.MakeMoveF | src/bot/mod.rs:24-57 | the state after a bot move is well-formed |
| Bots.MakeMoveReports | src/bot/mod.rs:24-57 | true exactly when there is a current piece; otherwise nothing changes |
| Bots.MakeMoveChoosesFirstBest | src/bot/mod.rs:33-54 | the game receives the earliest candidate with the maximal score, even if applying it fails |
| Bots.MakeMoveKeepsInv | src/bot/mod.rs:24-57 | a bot move keeps the game invariant |
| Bots.MakeMoveWhilePlaying | src/bot/mod.rs:24-57 | while Playing, a bot move reports true |
| Bots.MakeMove | src/bot/mod.rs:24-57 | the result and new state are those of the bot's move rule |
| Bots.BestCandidate | src/bot/mod.rs:36-51 | the scan returns the earliest best candidate |
| Bots.ScanStep | src/bot/mod.rs:37-50 | one scan step keeps the earliest best so far |
| Bots.ScoreMove | src/bot/mod.rs:38-44 | a candidate's score on its own copy |
| Bots.PlayGame | src/bot/mod.rs:60-66 | the states form a run of bot moves from the start, and playing stops only when the game is over, a move fails, or the bound is reached |
| Bots.PlayOne | src/bot/mod.rs:61-64 | one loop step: a bot move that extends the run or stops it |
| Bots.BotStepKeepsInv | src/bot/mod.rs:60-66 | the bot step keeps the game invariant |
| Bots.BotRunStopsWhenOver | src/bot/mod.rs:60-66 | along a run, the bot moves while the game is Playing |
| Bots.NewGameTurnsStayRight | src/bot/mod.rs:74-79 | on a new game, no turn sequence moves the pivot left of column 0 |
| Bots.NewGameMakesMove | src/bot/mod.rs:74-79 | on a new game, every candidate's drop terminates and the bot moves |
| Bots.BotCanMakeMove | src/bot/mod.rs:74-79 | a new bot on a new game makes its move |

## Left out

- Randomness: `thread_rng` shuffles are a caller-supplied `Source` of seven-piece sequences. No probabilistic claim is made, and fairness assumes permutation refills.
- `BagSource` is a precondition of `Randomizers.BagFairness` and `Randomizers.BagNoDuplicates`. The other randomizer facts hold for any source.
- `Randomizers.BagRandomizer.Clone` also copies the source, so a clone draws the same future pieces as the original. Rust's clone draws fresh shuffles after its copied bag runs out.
- `clone_box` and the `Randomizer` trait object are not modelled; the game holds a `BagRandomizer` directly.
- `Instant::now()` and `last_successful_movement` are not modelled; they are written and never read. Durations are whole milliseconds (`nat`).
- Rust integer widths are not modelled: the u32 score, level and line counts, the u8 reset counter and the i32 piece coordinates are unbounded. The exceptions are the `as usize` and `as u8` casts in the move finder, which are modelled.
- `Evaluators.Evaluate`: the f64 weights are integer millionths and the weighted sum is exact, so the f64 rounding of the source is not modelled.
- Bots.ScanStep: `f64::NEG_INFINITY` as the starting best score becomes "no score yet" (an `Option`).
- `Games.Game.HardDrop` requires a piece with a visible column (`Anchored`). Without one, the descent loop of `hard_drop` never ends.
- `MoveFinders.ApplyMove`, `Bots.MakeMove` and `Bots.PlayGame` carry the corresponding termination conditions (`DropTerminates`, `CandidatesTerminate`, `BotRunTerminates`).
- `Bots.PlayGame`: the loop is bounded by `maxMoves`, because in the source nothing bounds how long a game lasts.
- `Bots.PlayGame`: the step function of the run is a ghost parameter.
- Piece mutators: `move_left`, `move_right`, `move_down`, `rotate_clockwise` and `rotate_counterclockwise` on `Piece` are represented by their value forms `With…`, because the piece is a copied value everywhere it is used.
- `Piece::clone` and `Move::new` are the datatype constructors.
- `Game` has no `Clone` implementation in the source; `Games.Game.Clone` is the deep copy that the move finder and the bot rely on.
- The rotation tests at src/tetris_core/rotation.rs:171-189, 220-269 and 324-341 are not restated one by one; their in-bounds checks follow from the contracts of `Rotations.RotateCwF` and `Rotations.RotateCcwF`.
- src/main.rs (the console demo) and src/tetris_core/mod.rs (wiring and the constants 10, 22 and 20) are not part of this model beyond the constants.
