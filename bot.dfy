/**
  The bot: for the falling piece it enumerates the candidate moves, plays each
  on a copy of the game, scores the copy's board, and plays the first
  best-scoring candidate on the real game.
*/
module Bots {
  import opened TetrisCore
  import opened Options
  import opened Pieces
  import opened Boards
  import opened Rotations
  import opened Randomizers
  import opened GameRules
  import opened Games
  import opened MoveFinders
  import opened Evaluators
  import opened Runs

  datatype TetrisBot = TetrisBot(evaluator: BoardEvaluator, moveFinder: MoveFinder)

  /** `TetrisBot::new`: default weights and the default cap of 500 candidates. */
  function NewBot(): (bot: TetrisBot)
    ensures bot.evaluator.weights == DefaultWeights()
    ensures bot.moveFinder.maxMovesToConsider == DefaultMaxMoves
  {
    TetrisBot(NewEvaluator(), NewMoveFinder())
  }

  // ---------------------------------------------------------------------
  // The bot's choice on game values
  // ---------------------------------------------------------------------

  /** The candidates the bot considers in state `v`. */
  function Candidates(bot: TetrisBot, v: GameView): seq<Move>
    requires WF(v)
  {
    FindMovesF(v, bot.moveFinder.maxMovesToConsider)
  }

  /** Every candidate's hard drop ends, so each can be played. */
  ghost predicate CandidatesTerminate(bot: TetrisBot, v: GameView)
    requires WF(v)
  {
    AllTerminate(v, Candidates(bot, v))
  }

  ghost predicate AllTerminate(v: GameView, moves: seq<Move>)
    requires WF(v)
  {
    forall i :: 0 <= i < |moves| ==> DropTerminates(v, moves[i])
  }

  /** The evaluation of the board each move leaves behind, in candidate order. */
  function Outcomes(bot: TetrisBot, v: GameView, moves: seq<Move>): (scores: seq<int>)
    requires WF(v) && AllTerminate(v, moves)
    ensures |scores| == |moves|
    ensures forall i :: 0 <= i < |moves| ==> scores[i] == EvaluateF(bot.evaluator, ApplyMoveF(v, moves[i]).1.grid)
  {
    seq(|moves|, (i: nat) requires i < |moves| && WF(v) && DropTerminates(v, moves[i]) =>
      EvaluateF(bot.evaluator, ApplyMoveF(v, moves[i]).1.grid))
  }

  /**
    The index the scan keeps among the first `n` scores: the first maximal
    one, since a later candidate replaces it only when strictly better.
  */
  function BestUpTo(scores: seq<int>, n: nat): (b: nat)
    requires 0 < n <= |scores|
    ensures b < n
    ensures forall j :: 0 <= j < n ==> scores[j] <= scores[b]
    ensures forall j :: 0 <= j < b ==> scores[j] < scores[b]
    decreases n
  {
    if n == 1 then 0
    else
      var p := BestUpTo(scores, n - 1);
      if scores[n - 1] > scores[p] then n - 1 else p
  }

  /** The index `make_move` plays: the first best score of all. */
  function BestIndex(scores: seq<int>): (b: nat)
    requires |scores| > 0
    ensures b < |scores|
  {
    BestUpTo(scores, |scores|)
  }

  /** `make_move` on a game value. */
  function MakeMoveF(bot: TetrisBot, v: GameView): (res: (bool, GameView))
    requires WF(v) && CandidatesTerminate(bot, v)
    ensures WF(res.1)
  {
    var moves := Candidates(bot, v);
    if |moves| == 0 then (false, v)
    else (true, ApplyMoveF(v, moves[BestIndex(Outcomes(bot, v, moves))]).1)
  }

  /**
    `step` is the bot's `make_move` as a function value: where every candidate
    plays out it agrees with `MakeMoveF`, and it reports a move only there.
  */
  ghost predicate IsBotStep(bot: TetrisBot, step: Step)
  {
    && (forall v {:trigger MakeMoveF(bot, v)} :: WF(v) && CandidatesTerminate(bot, v) ==> step(v) == MakeMoveF(bot, v))
    && (forall v :: step(v).0 ==> WF(v) && CandidatesTerminate(bot, v))
  }

  /** Every state a run of the bot from `v` reaches in fewer than `moves` moves, while the game is on, has candidates that all play out. */
  ghost predicate BotRunTerminates(bot: TetrisBot, step: Step, v: GameView, moves: nat)
  {
    forall t: seq<GameView> :: IsRun(step, t) && t[0] == v && |t| <= moves && t[|t| - 1].state == Playing ==>
      WF(t[|t| - 1]) && CandidatesTerminate(bot, t[|t| - 1])
  }

  // ---------------------------------------------------------------------
  // The bot's methods
  // ---------------------------------------------------------------------

  /**
    `make_move`: `false` and nothing changed when there is no candidate;
    otherwise the first best candidate is played and the result is `true`,
    whether or not each of its steps succeeded.
  */
  method MakeMove(bot: TetrisBot, game: Game) returns (ok: bool)
    requires game.Valid() && CandidatesTerminate(bot, game.Model())
    modifies game.Repr()
    ensures game.Valid() && game.Repr() == old(game.Repr())
    ensures (ok, game.Model()) == MakeMoveF(bot, old(game.Model()))
  {
    var possibleMoves := FindPossibleMoves(bot.moveFinder, game);
    if |possibleMoves| == 0 {
      return false;
    }
    var bestMove := BestCandidate(bot, game, possibleMoves);
    var applied := ApplyMove(game, possibleMoves[bestMove]);
    ok := true;
  }

  /** The scan of `make_move`: each candidate is played on a fresh copy of the game and its board evaluated. */
  method BestCandidate(bot: TetrisBot, game: Game, possibleMoves: seq<Move>) returns (bestMove: nat)
    requires game.Valid() && |possibleMoves| > 0 && AllTerminate(game.Model(), possibleMoves)
    ensures bestMove == BestIndex(Outcomes(bot, game.Model(), possibleMoves))
  {
    ghost var v := game.Model();
    ghost var scores := Outcomes(bot, v, possibleMoves);
    bestMove := 0;
    // `None` stands for the scan's starting score, negative infinity.
    var bestScore: Option<int> := None;
    for i := 0 to |possibleMoves|
      invariant game.Valid() && game.Model() == v
      invariant i == 0 ==> bestScore.None?
      invariant i > 0 ==> bestMove == BestUpTo(scores, i) && bestScore == Some(scores[bestMove])
    {
      bestMove, bestScore := ScanStep(bot, game, v, possibleMoves, i, bestMove, bestScore);
    }
  }

  /** One iteration of the scan: score candidate `i` and keep it if it beats the best so far. */
  method ScanStep(bot: TetrisBot, game: Game, ghost v: GameView, possibleMoves: seq<Move>, i: nat, bestMove: nat, bestScore: Option<int>)
    returns (bestMove': nat, bestScore': Option<int>)
    requires game.Valid() && game.Model() == v && i < |possibleMoves| && AllTerminate(v, possibleMoves)
    requires i == 0 ==> bestScore.None?
    requires i > 0 ==> var scores := Outcomes(bot, v, possibleMoves);
      bestMove == BestUpTo(scores, i) && bestScore == Some(scores[bestMove])
    ensures var scores := Outcomes(bot, v, possibleMoves);
      bestMove' == BestUpTo(scores, i + 1) && bestScore' == Some(scores[bestMove'])
  {
    ghost var scores := Outcomes(bot, v, possibleMoves);
    var score := ScoreMove(bot, game, possibleMoves[i]);
    bestMove', bestScore' := bestMove, bestScore;
    if bestScore.None? || score > bestScore.value {
      bestScore' := Some(score);
      bestMove' := i;
    }
  }

  /** One candidate of the scan: play `m` on a copy and evaluate the copy's board; the game itself is untouched. */
  method ScoreMove(bot: TetrisBot, game: Game, m: Move) returns (score: int)
    requires game.Valid() && DropTerminates(game.Model(), m)
    ensures score == EvaluateF(bot.evaluator, ApplyMoveF(game.Model(), m).1.grid)
  {
    var gameClone := game.Clone();
    var applied := ApplyMove(gameClone, m);
    score := Evaluate(bot.evaluator, gameClone);
  }

  /**
    `play_game`: `make_move` while the game is being played, stopping at its
    first `false`, for at most `maxMoves` calls. `step` is the bot's move as a
    function value; the states the game passes through are returned as `trace`.
  */
  method PlayGame(bot: TetrisBot, game: Game, maxMoves: nat, ghost step: Step) returns (ghost trace: seq<GameView>)
    requires game.Valid() && IsBotStep(bot, step) && BotRunTerminates(bot, step, game.Model(), maxMoves)
    modifies game.Repr()
    ensures game.Valid() && game.Repr() == old(game.Repr())
    ensures IsRun(step, trace) && trace[0] == old(game.Model()) && trace[|trace| - 1] == game.Model()
    ensures |trace| <= maxMoves + 1
    ensures |trace| <= maxMoves && game.Model().state == Playing ==> !step(game.Model()).0
  {
    trace := [game.Model()];
    var moves := 0;
    while moves < maxMoves && game.state == Playing
      invariant game.Valid() && game.Repr() == old(game.Repr())
      invariant IsRun(step, trace) && trace[0] == old(game.Model()) && trace[|trace| - 1] == game.Model()
      invariant |trace| == moves + 1 && moves <= maxMoves
      decreases maxMoves - moves
    {
      var ok;
      ok, trace := PlayOne(bot, game, step, trace, maxMoves);
      if !ok {
        break;
      }
      moves := moves + 1;
    }
  }

  /** One iteration of `play_game`: `make_move` on a game that is being played, extending the run so far when it reports a move. */
  method PlayOne(bot: TetrisBot, game: Game, ghost step: Step, ghost trace: seq<GameView>, ghost maxMoves: nat)
    returns (ok: bool, ghost trace': seq<GameView>)
    requires game.Valid() && IsBotStep(bot, step) && game.state == Playing
    requires IsRun(step, trace) && trace[|trace| - 1] == game.Model() && |trace| <= maxMoves
    requires BotRunTerminates(bot, step, trace[0], maxMoves)
    modifies game.Repr()
    ensures game.Valid() && game.Repr() == old(game.Repr())
    ensures IsRun(step, trace') && trace'[0] == trace[0] && trace'[|trace'| - 1] == game.Model()
    ensures ok == step(old(game.Model())).0
    ensures ok ==> |trace'| == |trace| + 1
    ensures !ok ==> trace' == trace && !step(game.Model()).0
  {
    ghost var v := game.Model();
    assert WF(v) && CandidatesTerminate(bot, v);
    ok := MakeMove(bot, game);
    if ok {
      RunExtends(step, trace, game.Model());
      trace' := trace + [game.Model()];
    } else {
      MakeMoveReports(bot, v);
      trace' := trace;
    }
  }

  /** The scan's choice is the only index that beats every earlier score and is beaten by none. */
  lemma BestIndexUnique(scores: seq<int>, b: nat)
    requires b < |scores|
    requires forall j :: 0 <= j < |scores| ==> scores[j] <= scores[b]
    requires forall j :: 0 <= j < b ==> scores[j] < scores[b]
    ensures BestIndex(scores) == b
  {
    var k := BestIndex(scores);
    assert scores[k] == scores[b];
  }

  /** `make_move` reports a move exactly when there is a falling piece, and otherwise changes nothing. */
  lemma MakeMoveReports(bot: TetrisBot, v: GameView)
    requires WF(v) && CandidatesTerminate(bot, v)
    ensures MakeMoveF(bot, v).0 <==> v.current.Some?
    ensures !MakeMoveF(bot, v).0 ==> MakeMoveF(bot, v).1 == v
  {
    FindMovesEmpty(v, bot.moveFinder.maxMovesToConsider);
  }

  /** The move played is a candidate whose outcome scores at least as well as every other and strictly better than every earlier one. */
  lemma MakeMoveChoosesFirstBest(bot: TetrisBot, v: GameView)
    requires WF(v) && CandidatesTerminate(bot, v) && v.current.Some?
    ensures var moves := Candidates(bot, v);
      exists b :: 0 <= b < |moves| && MakeMoveF(bot, v).1 == ApplyMoveF(v, moves[b]).1
        && (forall j :: 0 <= j < |moves| ==>
              EvaluateF(bot.evaluator, ApplyMoveF(v, moves[j]).1.grid) <= EvaluateF(bot.evaluator, ApplyMoveF(v, moves[b]).1.grid))
        && (forall j :: 0 <= j < b ==>
              EvaluateF(bot.evaluator, ApplyMoveF(v, moves[j]).1.grid) < EvaluateF(bot.evaluator, ApplyMoveF(v, moves[b]).1.grid))
  {
    FindMovesEmpty(v, bot.moveFinder.maxMovesToConsider);
    var moves := Candidates(bot, v);
    var b := BestIndex(Outcomes(bot, v, moves));
    assert MakeMoveF(bot, v).1 == ApplyMoveF(v, moves[b]).1;
  }

  /** A bot move keeps the game invariant. */
  lemma MakeMoveKeepsInv(bot: TetrisBot, v: GameView)
    requires Inv(v) && CandidatesTerminate(bot, v)
    ensures Inv(MakeMoveF(bot, v).1)
  {
    var moves := Candidates(bot, v);
    if |moves| > 0 {
      ApplyMoveKeepsInv(v, moves[BestIndex(Outcomes(bot, v, moves))]);
    }
  }

  /** While a game in the invariant is being played, `make_move` always finds a move. */
  lemma MakeMoveWhilePlaying(bot: TetrisBot, v: GameView)
    requires Inv(v) && CandidatesTerminate(bot, v) && v.state == Playing
    ensures MakeMoveF(bot, v).0
  {
    MakeMoveReports(bot, v);
  }

  /** The bot's move as a function value: `make_move` where every candidate plays out, and no move elsewhere. */
  lemma BotStep(bot: TetrisBot) returns (step: Step)
    ensures IsBotStep(bot, step)
  {
    step := v => if WF(v) && CandidatesTerminate(bot, v) then MakeMoveF(bot, v) else (false, v);
  }

  /** The bot's step keeps the game invariant. */
  lemma BotStepKeepsInv(bot: TetrisBot, step: Step)
    requires IsBotStep(bot, step)
    ensures StepKeepsInv(step)
  {
    forall v | Inv(v) && step(v).0
      ensures Inv(step(v).1)
    {
      MakeMoveKeepsInv(bot, v);
    }
  }

  /** A run of the bot from a state in the invariant ends early only once the game is no longer being played. */
  lemma BotRunStopsWhenOver(bot: TetrisBot, step: Step, t: seq<GameView>)
    requires IsBotStep(bot, step) && IsRun(step, t) && Inv(t[0])
    requires t[|t| - 1].state == Playing && WF(t[|t| - 1]) && CandidatesTerminate(bot, t[|t| - 1])
    ensures step(t[|t| - 1]).0
  {
    BotStepKeepsInv(bot, step);
    RunKeepsInv(step, t);
    MakeMoveWhilePlaying(bot, t[|t| - 1]);
  }

  /** In a new game every turned candidate keeps the spawn column. */
  lemma NewGameTurnsStayRight(source: Source)
    ensures TurnsStayRight(NewGameF(source))
  {
    NewGameInv(source);
    var v := NewGameF(source);
    assert v.current.value.col == SpawnCol && v.current.value.row <= 0;
    PerfectClearIsEmpty(v.grid);
    forall k: nat, clockwise: bool | k < 4
      ensures var w := RepeatF(v, k, TurnAction(clockwise)).1;
        w.current.Some? ==> 0 <= w.current.value.col < 0x1_0000_0000
    {
      EmptyBoardTurns(v, k, TurnAction(clockwise));
    }
  }

  /** In a new game every candidate can be played, and `make_move` succeeds. */
  lemma NewGameMakesMove(bot: TetrisBot, source: Source)
    ensures CandidatesTerminate(bot, NewGameF(source))
    ensures MakeMoveF(bot, NewGameF(source)).0
  {
    NewGameInv(source);
    NewGameTurnsStayRight(source);
    FoundMovesTerminate(NewGameF(source), bot.moveFinder.maxMovesToConsider);
    MakeMoveReports(bot, NewGameF(source));
  }

  /** The bot can make a move in a new game. */
  method BotCanMakeMove(source: Source) returns (ok: bool)
    ensures ok
  {
    var bot := NewBot();
    var game := new Game(source);
    NewGameMakesMove(bot, source);
    ok := MakeMove(bot, game);
    MakeMoveReports(bot, NewGameF(source));
  }
}
