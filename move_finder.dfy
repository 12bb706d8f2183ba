/**
  The bot's move enumerator: the candidate moves it generates for a game
  (an optional hold, then every number of turns crossed with every target
  column), and how a move is played on a game.
*/
module MoveFinders {
  import opened TetrisCore
  import opened Options
  import opened Pieces
  import opened Boards
  import opened Rotations
  import opened GameRules
  import opened Games

  /** A move: step counts for each kind of action (u8 in the source), a hard-drop flag and a hold flag. */
  datatype Move = Move(leftMoves: nat, rightMoves: nat, clockwiseRotations: nat, counterclockwiseRotations: nat,
                       hardDrop: bool, hold: bool)

  /** The hold candidate: hold, then hard drop. */
  const HoldMove: Move := Move(0, 0, 0, 0, true, true)

  /** The default cap on the number of candidates. */
  const DefaultMaxMoves: nat := 500

  /** The enumerator's only setting: how many candidates it returns at most (the cap is checked after each placement). */
  datatype MoveFinder = MoveFinder(maxMovesToConsider: nat)

  /** `MoveFinder::new`. */
  function NewMoveFinder(): (f: MoveFinder)
    ensures f.maxMovesToConsider == 500
  {
    MoveFinder(DefaultMaxMoves)
  }

  /** `MoveFinder::with_max_moves`. */
  function WithMaxMoves(maxMoves: nat): (f: MoveFinder)
    ensures f.maxMovesToConsider == maxMoves
  {
    MoveFinder(maxMoves)
  }

  // ---------------------------------------------------------------------
  // Playing a move
  // ---------------------------------------------------------------------

  /** The repeatable single actions of a move. */
  datatype Action = TurnCw | TurnCcw | ShiftLeft | ShiftRight

  function ActF(v: GameView, a: Action): (res: (bool, GameView))
    requires WF(v)
    ensures WF(res.1)
    ensures !res.0 ==> res.1 == v
  {
    match a
    case TurnCw => RotateCwGameF(v)
    case TurnCcw => RotateCcwGameF(v)
    case ShiftLeft => MoveLeftF(v)
    case ShiftRight => MoveRightF(v)
  }

  /** `n` tries of an action, stopping with `false` at the first that fails. */
  function RepeatF(v: GameView, n: nat, a: Action): (res: (bool, GameView))
    requires WF(v)
    ensures WF(res.1)
    decreases n
  {
    if n == 0 then (true, v)
    else
      var (ok, w) := ActF(v, a);
      if !ok then (false, w) else RepeatF(w, n - 1, a)
  }

  /** The steps of `apply_move` before the hard drop: hold (if asked and allowed), turns, then shifts. */
  function PreDropF(v: GameView, m: Move): (res: (bool, GameView))
    requires WF(v)
    ensures WF(res.1)
  {
    var (ok0, v0) := if m.hold && v.canHold then HoldF(v) else (true, v);
    if !ok0 then (false, v0)
    else
      var (ok1, v1) := RepeatF(v0, m.clockwiseRotations, TurnCw);
      if !ok1 then (false, v1)
      else
        var (ok2, v2) := RepeatF(v1, m.counterclockwiseRotations, TurnCcw);
        if !ok2 then (false, v2)
        else
          var (ok3, v3) := RepeatF(v2, m.leftMoves, ShiftLeft);
          if !ok3 then (false, v3)
          else RepeatF(v3, m.rightMoves, ShiftRight)
  }

  /** Whether the hard drop of `m`, if it is reached, ends: the piece it starts from has a block in a column >= 0. */
  ghost predicate DropTerminates(v: GameView, m: Move)
    requires WF(v)
  {
    var (ok, w) := PreDropF(v, m);
    ok && m.hardDrop && w.current.Some? ==> Anchored(w.current.value)
  }

  /** `apply_move`: the steps in order, returning `false` at the first that fails, with no undo. */
  function ApplyMoveF(v: GameView, m: Move): (res: (bool, GameView))
    requires WF(v) && DropTerminates(v, m)
    ensures WF(res.1)
  {
    var (ok, w) := PreDropF(v, m);
    if !ok then (false, w)
    else if m.hardDrop then HardDropF(w)
    else (true, w)
  }

  // ---------------------------------------------------------------------
  // Enumerating moves
  // ---------------------------------------------------------------------

  /** One placement candidate to simulate: a number of turns in one direction and a target column. */
  datatype Plan = Plan(turns: nat, clockwise: bool, position: nat)

  /** The order of the nested loops: cw 0..3 by column 0..9, then ccw 1..3 by column 0..9. */
  function Plans(): (ps: seq<Plan>)
    ensures |ps| == 70
    ensures forall i :: 0 <= i < |ps| ==> ps[i].turns < 4 && ps[i].position < 10
  {
    seq(40, (i: nat) => Plan(i / 10, true, i % 10)) + seq(30, (i: nat) => Plan(i / 10 + 1, false, i % 10))
  }

  /** Left and right step counts from pivot column `col` to `position`, through the usize and u8 casts. */
  function StepCounts(position: nat, col: int): (lr: (nat, nat))
    ensures lr.0 < 256 && lr.1 < 256 && (lr.0 == 0 || lr.1 == 0)
  {
    var current := AsUsize(col);
    if position < current then ((current - position) % 256, 0) else (0, (position - current) % 256)
  }

  function TurnAction(clockwise: bool): Action
  {
    if clockwise then TurnCw else TurnCcw
  }

  /** The candidate a plan yields: simulate the turns on a copy, then count the steps to the target column. */
  function PlacementFor(v: GameView, p: Plan): (m: Option<Move>)
    requires WF(v)
  {
    var w := RepeatF(v, p.turns, TurnAction(p.clockwise)).1;
    if w.current.None? then None
    else
      var (left, right) := StepCounts(p.position, w.current.value.col);
      Some(Move(left, right, if p.clockwise then p.turns else 0, if p.clockwise then 0 else p.turns, true, false))
  }

  /** The pushes of the loops after `moves`, returning as soon as the length reaches `cap`. */
  function Collect(v: GameView, moves: seq<Move>, plans: seq<Plan>, cap: nat): (r: seq<Move>)
    requires WF(v)
    decreases |plans|
  {
    if |plans| == 0 then moves
    else match PlacementFor(v, plans[0])
      case None => Collect(v, moves, plans[1..], cap)
      case Some(m) =>
        if |moves + [m]| >= cap then moves + [m] else Collect(v, moves + [m], plans[1..], cap)
  }

  /** `find_possible_moves`. */
  function FindMovesF(v: GameView, cap: nat): (r: seq<Move>)
    requires WF(v)
  {
    if v.current.None? then []
    else Collect(v, if v.canHold then [HoldMove] else [], Plans(), cap)
  }

  // ---------------------------------------------------------------------
  // The enumerator's methods
  // ---------------------------------------------------------------------

  /** The `for _ in 0..n { if !turn { break } }` loop on a copy of the game. */
  method SimulateTurns(game: Game, n: nat, clockwise: bool)
    requires game.Valid()
    modifies game
    ensures game.Valid() && game.Model() == RepeatF(old(game.Model()), n, TurnAction(clockwise)).1
    ensures game.Repr() == old(game.Repr())
  {
    ghost var a := TurnAction(clockwise);
    ghost var want := RepeatF(game.Model(), n, a).1;
    for i := 0 to n
      invariant game.Valid() && game.Repr() == old(game.Repr())
      invariant RepeatF(game.Model(), n - i, a).1 == want
    {
      ghost var before := game.Model();
      var ok;
      if clockwise {
        ok := game.RotateClockwise();
      } else {
        ok := game.RotateCounterclockwise();
      }
      assert (ok, game.Model()) == ActF(before, a);
      RepeatOnce(before, n - i, a);
      if !ok {
        break;
      }
    }
  }

  /** One try of a repeated action: a failure ends the repetition where it is, a success leaves one try fewer. */
  lemma RepeatOnce(v: GameView, n: nat, a: Action)
    requires WF(v) && n > 0
    ensures var (ok, w) := ActF(v, a);
      RepeatF(v, n, a) == if ok then RepeatF(w, n - 1, a) else (false, v)
  {
  }

  /** `find_possible_moves`: the passed game is only read; each candidate is simulated on its own copy. */
  method FindPossibleMoves(finder: MoveFinder, game: Game) returns (moves: seq<Move>)
    requires game.Valid()
    ensures moves == FindMovesF(game.Model(), finder.maxMovesToConsider)
  {
    moves := [];
    if game.currentPiece.None? {
      return;
    }
    if game.canHold {
      moves := moves + [HoldMove];
    }
    ghost var v := game.Model();
    ghost var ps := Plans();
    ghost var cap := finder.maxMovesToConsider;
    assert moves == if v.canHold then [HoldMove] else [];
    assert ps[PlanIndex(true, 0)..] == ps;
    var capped;
    moves, capped := PushPlacements(finder, game, true, moves);
    if capped {
      return;
    }
    assert PlanIndex(true, 4) == PlanIndex(false, 1);
    moves, capped := PushPlacements(finder, game, false, moves);
    assert ps[PlanIndex(false, 4)..] == [];
  }

  /** The first index in `Plans()` of the plans with `turns` turns in the given direction. */
  function PlanIndex(clockwise: bool, turns: nat): nat
  {
    if clockwise then turns * 10 else 30 + turns * 10
  }

  /**
    One pair of nested loops of `find_possible_moves`: turns (0..3 clockwise,
    or 1..3 counterclockwise) by target column 0..9. `capped` says the cap
    was reached, and then `moves` is the whole result.
  */
  method PushPlacements(finder: MoveFinder, game: Game, clockwise: bool, moves0: seq<Move>) returns (moves: seq<Move>, capped: bool)
    requires game.Valid()
    ensures var v := game.Model();
      var first := PlanIndex(clockwise, if clockwise then 0 else 1);
      var last := PlanIndex(clockwise, 4);
      Collect(v, moves0, Plans()[first..], finder.maxMovesToConsider)
        == if capped then moves else Collect(v, moves, Plans()[last..], finder.maxMovesToConsider)
  {
    ghost var v := game.Model();
    ghost var cap := finder.maxMovesToConsider;
    ghost var ps := Plans();
    ghost var want := Collect(v, moves0, ps[PlanIndex(clockwise, if clockwise then 0 else 1)..], cap);
    moves := moves0;
    for turns := (if clockwise then 0 else 1) to 4
      invariant Collect(v, moves, ps[PlanIndex(clockwise, turns)..], cap) == want
    {
      var full;
      moves, full := PushColumns(finder, game, clockwise, turns, moves);
      if full {
        return moves, true;
      }
    }
    capped := false;
  }

  /** The inner loop of `find_possible_moves`: one turn count, target columns 0..9. */
  method PushColumns(finder: MoveFinder, game: Game, clockwise: bool, turns: nat, moves0: seq<Move>) returns (moves: seq<Move>, capped: bool)
    requires game.Valid() && (if clockwise then 0 else 1) <= turns < 4
    ensures var k := PlanIndex(clockwise, turns);
      Collect(game.Model(), moves0, Plans()[k..], finder.maxMovesToConsider)
        == if capped then moves else Collect(game.Model(), moves, Plans()[k + 10..], finder.maxMovesToConsider)
  {
    ghost var v := game.Model();
    ghost var cap := finder.maxMovesToConsider;
    ghost var ps := Plans();
    ghost var k := PlanIndex(clockwise, turns);
    moves := moves0;
    for position := 0 to BoardWidth
      invariant Collect(v, moves, ps[k + position..], cap) == Collect(v, moves0, ps[k..], cap)
    {
      PlanAt(clockwise, turns, position);
      var move := TryPlan(game, turns, clockwise, position);
      if move.None? {
        continue;
      }
      moves := moves + [move.value];
      if |moves| >= finder.maxMovesToConsider {
        return moves, true;
      }
    }
    capped := false;
  }

  /** The plan at the index the loops are at, and one unfolding of `Collect` there. */
  lemma PlanAt(clockwise: bool, turns: nat, position: nat)
    requires (if clockwise then 0 else 1) <= turns < 4 && position < 10
    ensures var k := PlanIndex(clockwise, turns) + position;
      && k < 70 && Plans()[k] == Plan(turns, clockwise, position)
      && Plans()[k..][0] == Plans()[k] && Plans()[k..][1..] == Plans()[k + 1..]
      && (position == 9 ==> k + 1 == PlanIndex(clockwise, turns + 1))
  {
    var k := PlanIndex(clockwise, turns) + position;
    if clockwise {
      assert k / 10 == turns && k % 10 == position;
    } else {
      assert (k - 40) / 10 + 1 == turns && (k - 40) % 10 == position;
    }
  }

  /** One iteration of the enumerating loops: turn a copy, then build the candidate from its pivot column. */
  method TryPlan(game: Game, turns: nat, clockwise: bool, position: nat) returns (m: Option<Move>)
    requires game.Valid()
    ensures m == PlacementFor(game.Model(), Plan(turns, clockwise, position))
  {
    var clone := game.Clone();
    SimulateTurns(clone, turns, clockwise);
    if clone.currentPiece.None? {
      return None;
    }
    var move := PlacementMove(clone.currentPiece.value.col, position, turns, clockwise);
    return Some(move);
  }

  /** The move built for a pivot column after the simulated turns. */
  method PlacementMove(col: int, position: nat, turns: nat, clockwise: bool) returns (m: Move)
    ensures m == Move(StepCounts(position, col).0, StepCounts(position, col).1,
                      if clockwise then turns else 0, if clockwise then 0 else turns, true, false)
  {
    var currentPosition := AsUsize(col);
    var leftMoves, rightMoves;
    if position < currentPosition {
      leftMoves, rightMoves := (currentPosition - position) % 256, 0;
    } else {
      leftMoves, rightMoves := 0, (position - currentPosition) % 256;
    }
    if clockwise {
      m := Move(leftMoves, rightMoves, turns, 0, true, false);
    } else {
      m := Move(leftMoves, rightMoves, 0, turns, true, false);
    }
  }

  /** One `for _ in 0..n { if !action { return false } }` loop of `apply_move`. */
  method Repeat(game: Game, n: nat, a: Action) returns (ok: bool)
    requires game.Valid()
    modifies game
    ensures game.Valid() && (ok, game.Model()) == RepeatF(old(game.Model()), n, a)
    ensures game.Repr() == old(game.Repr())
  {
    ghost var want := RepeatF(game.Model(), n, a);
    for i := 0 to n
      invariant game.Valid() && game.Repr() == old(game.Repr())
      invariant RepeatF(game.Model(), n - i, a) == want
    {
      var stepOk := Act(game, a);
      if !stepOk {
        return false;
      }
    }
    return true;
  }

  /** One action on the game. */
  method Act(game: Game, a: Action) returns (ok: bool)
    requires game.Valid()
    modifies game
    ensures game.Valid() && (ok, game.Model()) == ActF(old(game.Model()), a)
    ensures game.Repr() == old(game.Repr())
  {
    match a {
      case TurnCw => ok := game.RotateClockwise();
      case TurnCcw => ok := game.RotateCounterclockwise();
      case ShiftLeft => ok := game.MoveLeft();
      case ShiftRight => ok := game.MoveRight();
    }
  }

  /** `apply_move`. */
  method ApplyMove(game: Game, m: Move) returns (ok: bool)
    requires game.Valid() && DropTerminates(game.Model(), m)
    modifies game.Repr()
    ensures game.Valid() && (ok, game.Model()) == ApplyMoveF(old(game.Model()), m)
    ensures game.Repr() == old(game.Repr())
  {
    ghost var v := game.Model();
    ok := PreDrop(game, m);
    if !ok {
      return;
    }
    if m.hardDrop {
      ok := game.HardDrop();
    }
  }

  /** The steps of `apply_move` before the hard drop. */
  method PreDrop(game: Game, m: Move) returns (ok: bool)
    requires game.Valid()
    modifies game, game.randomizer
    ensures game.Valid() && (ok, game.Model()) == PreDropF(old(game.Model()), m)
    ensures game.Repr() == old(game.Repr())
  {
    ghost var v := game.Model();
    if m.hold && game.canHold {
      ok := game.HoldPiece();
      if !ok {
        return;
      }
    }
    ghost var v0 := game.Model();
    assert (true, v0) == (if m.hold && v.canHold then HoldF(v) else (true, v));
    ok := Repeat(game, m.clockwiseRotations, TurnCw);
    if !ok {
      return;
    }
    ok := Repeat(game, m.counterclockwiseRotations, TurnCcw);
    if !ok {
      return;
    }
    ok := Repeat(game, m.leftMoves, ShiftLeft);
    if !ok {
      return;
    }
    ok := Repeat(game, m.rightMoves, ShiftRight);
  }

  /** `is_valid_move`: plays the move on a copy, so the passed game is only read. */
  method IsValidMove(game: Game, m: Move) returns (b: bool)
    requires game.Valid() && DropTerminates(game.Model(), m)
    ensures b == ApplyMoveF(game.Model(), m).0
  {
    var clone := game.Clone();
    b := ApplyMove(clone, m);
  }

  // ---------------------------------------------------------------------
  // Properties of the enumeration
  // ---------------------------------------------------------------------

  /** Every candidate the plans yield, with no cap. */
  function Placements(v: GameView, plans: seq<Plan>): (r: seq<Move>)
    requires WF(v)
    ensures |r| <= |plans|
    decreases |plans|
  {
    if |plans| == 0 then []
    else
      (match PlacementFor(v, plans[0]) case None => [] case Some(m) => [m]) + Placements(v, plans[1..])
  }

  function Min(a: nat, b: nat): nat { if a <= b then a else b }
  function Max(a: nat, b: nat): nat { if a >= b then a else b }

  /** How many moves there are when `n` pushes follow `a` moves and the cap is checked after each push. */
  function CappedLength(a: nat, n: nat, cap: nat): nat
  {
    if n == 0 then a else Min(a + n, Max(cap, a + 1))
  }

  /** The capped loop returns exactly a prefix of the uncapped candidates: it stops at the first push that reaches the cap. */
  lemma {:induction false} CollectIsCappedPrefix(v: GameView, moves: seq<Move>, plans: seq<Plan>, cap: nat)
    requires WF(v)
    ensures var all := moves + Placements(v, plans);
      var len := CappedLength(|moves|, |Placements(v, plans)|, cap);
      len <= |all| && Collect(v, moves, plans, cap) == all[..len]
    decreases |plans|
  {
    if |plans| > 0 {
      var rest := Placements(v, plans[1..]);
      CollectIsCappedPrefix(v, moves, plans[1..], cap);
      match PlacementFor(v, plans[0])
      case None =>
        assert Placements(v, plans) == rest;
      case Some(m) =>
        assert Placements(v, plans) == [m] + rest;
        assert moves + Placements(v, plans) == (moves + [m]) + rest;
        if |moves + [m]| < cap {
          CollectIsCappedPrefix(v, moves + [m], plans[1..], cap);
        }
    }
  }

  /** Simulated turns never take the piece away. */
  lemma {:induction false} TurnsKeepPiece(v: GameView, n: nat, a: Action)
    requires WF(v) && v.current.Some?
    ensures RepeatF(v, n, a).1.current.Some?
    decreases n
  {
    if n > 0 {
      RepeatOnce(v, n, a);
      if ActF(v, a).0 {
        TurnsKeepPiece(ActF(v, a).1, n - 1, a);
      }
    }
  }

  /** With a falling piece every plan yields a candidate, so the uncapped list has one entry per plan. */
  lemma {:induction false} AllPlansPlace(v: GameView, plans: seq<Plan>)
    requires WF(v) && v.current.Some?
    ensures |Placements(v, plans)| == |plans|
    ensures forall i :: 0 <= i < |plans| ==> PlacementFor(v, plans[i]).Some? && Placements(v, plans)[i] == PlacementFor(v, plans[i]).value
    decreases |plans|
  {
    if |plans| > 0 {
      TurnsKeepPiece(v, plans[0].turns, TurnAction(plans[0].clockwise));
      AllPlansPlace(v, plans[1..]);
      assert forall i :: 1 <= i < |plans| ==> plans[1..][i - 1] == plans[i];
    }
  }

  /** The candidates of a run over any plan list, one per plan while the cap is not reached. */
  lemma CollectOrder(v: GameView, h: seq<Move>, plans: seq<Plan>, cap: nat)
    requires WF(v) && v.current.Some?
    ensures var r := Collect(v, h, plans, cap);
      && |r| == CappedLength(|h|, |plans|, cap)
      && (forall i :: 0 <= i < |h| && i < |r| ==> r[i] == h[i])
      && (forall i :: |h| <= i < |r| ==> PlacementFor(v, plans[i - |h|]).Some? && r[i] == PlacementFor(v, plans[i - |h|]).value)
  {
    CollectIsCappedPrefix(v, h, plans, cap);
    AllPlansPlace(v, plans);
    var r := Collect(v, h, plans, cap);
    forall i | |h| <= i < |r|
      ensures PlacementFor(v, plans[i - |h|]).Some? && r[i] == PlacementFor(v, plans[i - |h|]).value
    {
      assert r[i] == (h + Placements(v, plans))[i];
    }
  }

  /** `find_possible_moves` returns nothing exactly when there is no falling piece. */
  lemma FindMovesEmpty(v: GameView, cap: nat)
    requires WF(v)
    ensures FindMovesF(v, cap) == [] <==> v.current.None?
  {
    if v.current.Some? {
      var h := if v.canHold then [HoldMove] else [];
      var ps := Plans();
      assert FindMovesF(v, cap) == Collect(v, h, ps, cap);
      CollectOrder(v, h, ps, cap);
    }
  }

  /**
    The order and number of candidates: the hold move first exactly when hold
    is allowed, then one move per plan in loop order, cut off right after the
    push that reaches the cap.
  */
  lemma FindMovesOrder(v: GameView, cap: nat)
    requires WF(v) && v.current.Some?
    ensures |FindMovesF(v, cap)| == CappedLength(if v.canHold then 1 else 0, 70, cap)
    ensures v.canHold ==> FindMovesF(v, cap)[0] == HoldMove
    ensures forall i :: (if v.canHold then 1 else 0) <= i < |FindMovesF(v, cap)| ==>
      IsPlacement(v, FindMovesF(v, cap)[i], i - if v.canHold then 1 else 0)
  {
    var h := if v.canHold then [HoldMove] else [];
    var r := FindMovesF(v, cap);
    assert r == Collect(v, h, Plans(), cap);
    FindMovesPlacements(v, h, Plans(), cap);
  }

  /** The body of `FindMovesOrder`, for a hold prefix `h` and the plan list `ps`. */
  lemma FindMovesPlacements(v: GameView, h: seq<Move>, ps: seq<Plan>, cap: nat)
    requires WF(v) && v.current.Some? && ps == Plans()
    ensures var r := Collect(v, h, ps, cap);
      && |r| == CappedLength(|h|, 70, cap)
      && (forall i :: 0 <= i < |h| && i < |r| ==> r[i] == h[i])
      && (forall i :: |h| <= i < |r| ==> IsPlacement(v, r[i], i - |h|))
  {
    var r := Collect(v, h, ps, cap);
    CollectOrder(v, h, ps, cap);
    forall i | |h| <= i < |r|
      ensures IsPlacement(v, r[i], i - |h|)
    {
      assert PlacementFor(v, ps[i - |h|]) == Some(r[i]);
    }
  }

  /** `m` is the candidate built from the plan at index `k`. */
  predicate IsPlacement(v: GameView, m: Move, k: int)
    requires WF(v)
  {
    0 <= k < |Plans()| && PlacementFor(v, Plans()[k]) == Some(m)
  }

  /** With a cap above 70, all 70 placements come after the optional hold move. */
  lemma FindMovesUncapped(v: GameView, cap: nat)
    requires WF(v) && v.current.Some? && cap >= 71
    ensures var h := if v.canHold then [HoldMove] else [];
      |FindMovesF(v, cap)| == |h| + 70
  {
    FindMovesOrder(v, cap);
  }

  /** The shape every candidate has. */
  predicate WellShaped(m: Move)
  {
    m.hardDrop && (m.leftMoves == 0 || m.rightMoves == 0)
    && (m.clockwiseRotations == 0 || m.counterclockwiseRotations == 0)
  }

  /** A placement hard drops, shifts one way, turns one way and never holds. */
  lemma PlacementShape(v: GameView, p: Plan, m: Move)
    requires WF(v) && PlacementFor(v, p) == Some(m)
    ensures WellShaped(m) && !m.hold
  {
  }

  /** Every candidate hard drops, shifts one way only and turns one way only; only the first can hold, and then only if hold is allowed. */
  lemma FindMovesShape(v: GameView, cap: nat)
    requires WF(v)
    ensures forall i :: 0 <= i < |FindMovesF(v, cap)| ==> WellShaped(FindMovesF(v, cap)[i])
    ensures forall i :: 0 <= i < |FindMovesF(v, cap)| && FindMovesF(v, cap)[i].hold ==> i == 0 && v.canHold
  {
    var r := FindMovesF(v, cap);
    forall i | 0 <= i < |r|
      ensures WellShaped(r[i]) && (r[i].hold ==> i == 0 && v.canHold)
    {
      var k := CandidateKind(v, cap, i);
      if k >= 0 {
        PlacementShape(v, Plans()[k], r[i]);
      }
    }
  }

  /** The step counts lead from a non-negative pivot column to a non-negative column, and to the target itself when the u8 cast does not wrap. */
  lemma StepsReachTarget(position: nat, col: int)
    requires 0 <= col < 0x1_0000_0000
    ensures col - StepCounts(position, col).0 + StepCounts(position, col).1 >= 0
    ensures col < position + 256 && position < col + 256 ==> col - StepCounts(position, col).0 + StepCounts(position, col).1 == position
  {
  }

  /** A run of shifts that succeeds moves the pivot by exactly that many columns and keeps the piece. */
  lemma {:induction false} ShiftsMoveColumn(v: GameView, n: nat, a: Action)
    requires WF(v) && v.current.Some? && (a == ShiftLeft || a == ShiftRight)
    ensures RepeatF(v, n, a).0 ==>
      RepeatF(v, n, a).1.current.Some? && RepeatF(v, n, a).1.current.value.col == v.current.value.col + (if a == ShiftLeft then -(n as int) else n as int)
    decreases n
  {
    if n > 0 {
      var (ok, w) := ActF(v, a);
      if ok {
        ShiftsMoveColumn(w, n - 1, a);
      }
    }
  }

  /** On an empty board, turns from a pivot that is neither low nor near the right wall all succeed in place. */
  lemma {:induction false} EmptyBoardTurns(v: GameView, n: nat, a: Action)
    requires WF(v) && IsPerfectClearF(v.grid) && v.current.Some? && (a == TurnCw || a == TurnCcw)
    requires v.current.value.row <= 19 && 0 <= v.current.value.col <= 7
    ensures var (ok, w) := RepeatF(v, n, a);
      && ok && w.grid == v.grid && w.current.Some?
      && w.current.value.row == v.current.value.row && w.current.value.col == v.current.value.col
    decreases n
  {
    if n > 0 {
      var (ok, w) := ActF(v, a);
      EmptyBoardTurn(v, a);
      RepeatOnce(v, n, a);
      EmptyBoardTurns(w, n - 1, a);
    }
  }

  /** One turn of `EmptyBoardTurns`. */
  lemma EmptyBoardTurn(v: GameView, a: Action)
    requires WF(v) && IsPerfectClearF(v.grid) && v.current.Some? && (a == TurnCw || a == TurnCcw)
    requires v.current.value.row <= 19 && 0 <= v.current.value.col <= 7
    ensures var (ok, w) := ActF(v, a);
      && ok && w.grid == v.grid && w.current.Some?
      && w.current.value.row == v.current.value.row && w.current.value.col == v.current.value.col
  {
    var p := v.current.value;
    PerfectClearIsEmpty(v.grid);
    EmptyGridTurns(p);
    if a == TurnCw {
      assert ActF(v, a) == (true, MovedTo(v, WithClockwiseRotation(p)));
    } else {
      assert ActF(v, a) == (true, MovedTo(v, WithCounterclockwiseRotation(p)));
    }
  }

  /** Every candidate's simulated turns leave the pivot in a column >= 0 (true on a fresh game, for instance). */
  ghost predicate TurnsStayRight(v: GameView)
    requires WF(v)
  {
    forall k: nat, clockwise: bool :: k < 4 ==>
      var w := RepeatF(v, k, TurnAction(clockwise)).1;
      w.current.Some? ==> 0 <= w.current.value.col < 0x1_0000_0000
  }

  /** A placement move from a turned pivot column >= 0 ends its drop. */
  lemma PlacementTerminates(v: GameView, p: Plan, m: Move)
    requires WF(v) && p.turns < 4 && TurnsStayRight(v) && PlacementFor(v, p) == Some(m)
    ensures DropTerminates(v, m)
  {
    var w := RepeatF(v, p.turns, TurnAction(p.clockwise)).1;
    var col := w.current.value.col;
    assert RepeatF(v, 0, TurnCw) == (true, v);
    var (ok1, v1) := RepeatF(v, m.clockwiseRotations, TurnCw);
    if ok1 {
      var (ok2, v2) := RepeatF(v1, m.counterclockwiseRotations, TurnCcw);
      assert v2 == w;
      if ok2 {
        ShiftsMoveColumn(v2, m.leftMoves, ShiftLeft);
        var (ok3, v3) := RepeatF(v2, m.leftMoves, ShiftLeft);
        if ok3 {
          ShiftsMoveColumn(v3, m.rightMoves, ShiftRight);
          StepsReachTarget(p.position, col);
          var v4 := RepeatF(v3, m.rightMoves, ShiftRight).1;
          if RepeatF(v3, m.rightMoves, ShiftRight).0 {
            NonNegativeColumnAnchored(v4.current.value);
          }
        }
      }
    }
  }

  /** The hold candidate ends its drop: the piece after a hold sits at the spawn column. */
  lemma HoldMoveTerminates(v: GameView)
    requires WF(v) && v.canHold
    ensures DropTerminates(v, HoldMove)
  {
    var w := HoldF(v).1;
    if HoldF(v).0 && w.current.Some? {
      assert w.current.value.col == SpawnCol;
      NonNegativeColumnAnchored(w.current.value);
    }
  }

  /** When the simulated turns keep the pivot in a column >= 0, playing any candidate ends. */
  lemma FoundMovesTerminate(v: GameView, cap: nat)
    requires WF(v) && TurnsStayRight(v)
    ensures forall i :: 0 <= i < |FindMovesF(v, cap)| ==> DropTerminates(v, FindMovesF(v, cap)[i])
  {
    forall i | 0 <= i < |FindMovesF(v, cap)|
      ensures DropTerminates(v, FindMovesF(v, cap)[i])
    {
      FoundMoveTerminates(v, cap, i);
    }
  }

  /** The `i`-th candidate ends its drop. */
  lemma FoundMoveTerminates(v: GameView, cap: nat, i: nat)
    requires WF(v) && TurnsStayRight(v) && i < |FindMovesF(v, cap)|
    ensures DropTerminates(v, FindMovesF(v, cap)[i])
  {
    var m := FindMovesF(v, cap)[i];
    var k := CandidateKind(v, cap, i);
    if k < 0 {
      HoldMoveTerminates(v);
    } else {
      PlacementTerminates(v, Plans()[k], m);
    }
  }

  /** The `i`-th candidate is the hold move (`k < 0`) or the placement of plan `k`. */
  lemma CandidateKind(v: GameView, cap: nat, i: nat) returns (k: int)
    requires WF(v) && i < |FindMovesF(v, cap)|
    ensures k < 0 ==> v.canHold && i == 0 && FindMovesF(v, cap)[i] == HoldMove
    ensures k >= 0 ==> IsPlacement(v, FindMovesF(v, cap)[i], k)
  {
    FindMovesOrder(v, cap);
    var h := if v.canHold then 1 else 0;
    k := if i < h then -1 else i - h;
  }

  /** A bare hard-drop move is a hard drop, and a move whose first turn fails stops there with `false`. */
  lemma ApplyMoveSteps(v: GameView, m: Move)
    requires WF(v) && DropTerminates(v, m)
    ensures m == Move(0, 0, 0, 0, true, false) ==> ApplyMoveF(v, m) == HardDropF(v)
    ensures !m.hold && m.clockwiseRotations > 0 && !RotateCwGameF(v).0 ==> ApplyMoveF(v, m) == (false, v)
  {
  }

  /** What a shift or turn may change: the piece (but not whether there is one) and the lock-delay bookkeeping, never past 15 resets. */
  ghost predicate StepFrame(v: GameView, w: GameView)
  {
    && w.grid == v.grid && w.rand == v.rand && w.score == v.score && w.gravityDelay == v.gravityDelay
    && w.state == v.state && w.held == v.held && w.canHold == v.canHold && w.sinceDrop == v.sinceDrop
    && w.current.Some? == v.current.Some?
    && (v.lockResets <= MaxLockResets ==> w.lockResets <= MaxLockResets)
  }

  lemma ActFrame(v: GameView, a: Action)
    requires WF(v)
    ensures StepFrame(v, ActF(v, a).1)
  {
  }

  lemma {:induction false} RepeatFrame(v: GameView, n: nat, a: Action)
    requires WF(v)
    ensures StepFrame(v, RepeatF(v, n, a).1)
    decreases n
  {
    if n > 0 {
      var (ok, w) := ActF(v, a);
      ActFrame(v, a);
      RepeatOnce(v, n, a);
      if ok {
        RepeatFrame(w, n - 1, a);
      }
    }
  }

  lemma RepeatKeepsInv(v: GameView, n: nat, a: Action)
    requires Inv(v)
    ensures Inv(RepeatF(v, n, a).1)
  {
    RepeatFrame(v, n, a);
    InvFrame(v, RepeatF(v, n, a).1);
  }

  /** Applying a move keeps the game invariant, whether or not some step fails. */
  lemma ApplyMoveKeepsInv(v: GameView, m: Move)
    requires Inv(v) && DropTerminates(v, m)
    ensures Inv(ApplyMoveF(v, m).1)
  {
    PreDropKeepsInv(v, m);
    var (ok, w) := PreDropF(v, m);
    if ok && m.hardDrop {
      HardDropKeepsInv(w);
    }
  }

  /** The steps before the hard drop keep the invariant, whichever of them fails. */
  lemma PreDropKeepsInv(v: GameView, m: Move)
    requires Inv(v)
    ensures Inv(PreDropF(v, m).1)
  {
    var (ok0, v0) := if m.hold && v.canHold then HoldF(v) else (true, v);
    if m.hold && v.canHold {
      HoldKeepsInv(v);
    }
    if ok0 {
      var (ok1, v1) := RepeatF(v0, m.clockwiseRotations, TurnCw);
      RepeatKeepsInv(v0, m.clockwiseRotations, TurnCw);
      if ok1 {
        var (ok2, v2) := RepeatF(v1, m.counterclockwiseRotations, TurnCcw);
        RepeatKeepsInv(v1, m.counterclockwiseRotations, TurnCcw);
        if ok2 {
          var (ok3, v3) := RepeatF(v2, m.leftMoves, ShiftLeft);
          RepeatKeepsInv(v2, m.leftMoves, ShiftLeft);
          if ok3 {
            RepeatKeepsInv(v3, m.rightMoves, ShiftRight);
          }
        }
      }
    }
  }
}
