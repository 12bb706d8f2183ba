/**
  The game controller object. Its fields are those of the source's `Game`;
  every method is proved to move the state exactly as the matching function
  of `GameRules` does on the value state `Model()`.
*/
module Games {
  import opened TetrisCore
  import opened Options
  import opened Pieces
  import opened Boards
  import opened Rotations
  import opened Randomizers
  import opened Scoring
  import opened GameRules

  class Game {
    /** The board object is never replaced; `reset` clears it in place. */
    const board: Board
    var currentPiece: Option<Piece>
    var heldPiece: Option<PieceType>
    var canHold: bool
    var state: GameState
    var scoreSystem: ScoreSystem
    var randomizer: BagRandomizer
    var timeSinceLastDrop: nat
    var gravityDelay: nat
    var lockDelayTimer: nat
    var lockDelayActive: bool
    var lockDelayResets: nat

    /** The objects that make up a game. */
    ghost function Repr(): set<object>
      reads this
    {
      {this, board, board.grid, scoreSystem, randomizer}
    }

    ghost predicate Valid()
      reads this, board, board.grid, randomizer
    {
      board.Valid() && |randomizer.previewQueue| == PreviewSize
    }

    /** The whole game as a value. */
    function Model(): (v: GameView)
      reads this, board, board.grid, scoreSystem, randomizer
      requires Valid()
      ensures WF(v)
    {
      GameView(board.Cells(), currentPiece, heldPiece, canHold, state, scoreSystem.Model(), randomizer.Model(),
               timeSinceLastDrop, gravityDelay, lockDelayTimer, lockDelayActive, lockDelayResets)
    }

    /** `Game::new`, with the randomizer's shuffles drawn from `source`. */
    constructor (source: Source)
      ensures Valid() && Model() == NewGameF(source)
      ensures fresh(Repr())
    {
      board := new Board();
      currentPiece := None;
      heldPiece := None;
      canHold := true;
      state := Playing;
      scoreSystem := new ScoreSystem();
      randomizer := new BagRandomizer(source);
      timeSinceLastDrop := 0;
      gravityDelay := InitialGravityDelay;
      lockDelayTimer := 0;
      lockDelayActive := false;
      lockDelayResets := 0;
      new;
      FreshFields(source, board.Cells(), scoreSystem.Model(), randomizer.Model());
      SpawnNewPiece();
    }

    /** A game holding the given parts. */
    constructor FromParts(board: Board, scoreSystem: ScoreSystem, randomizer: BagRandomizer, v: GameView)
      ensures this.board == board && this.scoreSystem == scoreSystem && this.randomizer == randomizer
      ensures currentPiece == v.current && heldPiece == v.held && canHold == v.canHold && state == v.state
      ensures timeSinceLastDrop == v.sinceDrop && gravityDelay == v.gravityDelay
      ensures lockDelayTimer == v.lockTimer && lockDelayActive == v.lockActive && lockDelayResets == v.lockResets
    {
      this.board := board;
      this.scoreSystem := scoreSystem;
      this.randomizer := randomizer;
      currentPiece := v.current;
      heldPiece := v.held;
      canHold := v.canHold;
      state := v.state;
      timeSinceLastDrop := v.sinceDrop;
      gravityDelay := v.gravityDelay;
      lockDelayTimer := v.lockTimer;
      lockDelayActive := v.lockActive;
      lockDelayResets := v.lockResets;
    }

    /** A deep copy: a new board, score system and randomizer with the same contents. */
    method Clone() returns (g: Game)
      requires Valid()
      ensures fresh(g.Repr()) && g.Valid() && g.Model() == Model()
    {
      var b := board.Copy();
      var s := scoreSystem.Clone();
      var r := randomizer.Clone();
      g := new Game.FromParts(b, s, r, Model());
    }

    /** `spawn_new_piece`. */
    method SpawnNewPiece()
      requires Valid()
      modifies this, randomizer
      ensures Valid() && Model() == SpawnF(old(Model()))
      ensures Repr() == old(Repr())
    {
      ghost var g := board.Cells();
      var pieceType := randomizer.Next();
      assert board.Cells() == g;
      var col := BoardWidth / 2 - 1;
      var row := if pieceType == I then -1 else 0;
      var newPiece := NewPiece(pieceType, row, col);
      var fits := board.CanPlace(newPiece);
      if !fits {
        state := GameOver;
        currentPiece := None;
        return;
      }
      currentPiece := Some(newPiece);
    }

    /** `try_reset_lock_delay`. */
    method TryResetLockDelay()
      requires Valid()
      modifies this
      ensures Valid() && Model() == TryResetF(old(Model()))
      ensures Repr() == old(Repr())
    {
      if lockDelayActive && lockDelayResets < MaxLockResets {
        lockDelayTimer := 0;
        lockDelayResets := lockDelayResets + 1;
      }
    }

    method MoveLeft() returns (ok: bool)
      requires Valid()
      modifies this
      ensures Valid() && (ok, Model()) == MoveLeftF(old(Model()))
      ensures Repr() == old(Repr())
    {
      if currentPiece.Some? {
        var movedPiece := WithLeftMove(currentPiece.value);
        var fits := board.CanPlace(movedPiece);
        if fits {
          currentPiece := Some(movedPiece);
          TryResetLockDelay();
          return true;
        }
      }
      return false;
    }

    method MoveRight() returns (ok: bool)
      requires Valid()
      modifies this
      ensures Valid() && (ok, Model()) == MoveRightF(old(Model()))
      ensures Repr() == old(Repr())
    {
      if currentPiece.Some? {
        var movedPiece := WithRightMove(currentPiece.value);
        var fits := board.CanPlace(movedPiece);
        if fits {
          currentPiece := Some(movedPiece);
          TryResetLockDelay();
          return true;
        }
      }
      return false;
    }

    method MoveDown() returns (ok: bool)
      requires Valid()
      modifies this, scoreSystem
      ensures Valid() && (ok, Model()) == MoveDownF(old(Model()))
      ensures Repr() == old(Repr())
    {
      if currentPiece.Some? {
        var movedPiece := WithDownMove(currentPiece.value);
        var fits := board.CanPlace(movedPiece);
        if fits {
          scoreSystem.AddSoftDropScore(1);
          currentPiece := Some(movedPiece);
          return true;
        } else if !lockDelayActive {
          lockDelayActive := true;
          lockDelayTimer := 0;
          lockDelayResets := 0;
        }
      }
      return false;
    }

    method RotateClockwise() returns (ok: bool)
      requires Valid()
      modifies this
      ensures Valid() && (ok, Model()) == RotateCwGameF(old(Model()))
      ensures Repr() == old(Repr())
    {
      if currentPiece.Some? {
        var rotated := Rotations.RotateClockwise(currentPiece.value, board);
        if rotated.Some? {
          currentPiece := rotated;
          TryResetLockDelay();
          return true;
        }
      }
      return false;
    }

    method RotateCounterclockwise() returns (ok: bool)
      requires Valid()
      modifies this
      ensures Valid() && (ok, Model()) == RotateCcwGameF(old(Model()))
      ensures Repr() == old(Repr())
    {
      if currentPiece.Some? {
        var rotated := Rotations.RotateCounterclockwise(currentPiece.value, board);
        if rotated.Some? {
          currentPiece := rotated;
          TryResetLockDelay();
          return true;
        }
      }
      return false;
    }

    /** `hard_drop`: the descent loop runs while the next step down fits. */
    method HardDrop() returns (ok: bool)
      requires Valid() && (currentPiece.Some? ==> Anchored(currentPiece.value))
      modifies this, board.grid, scoreSystem, randomizer
      ensures Valid() && (ok, Model()) == HardDropF(old(Model()))
      ensures Repr() == old(Repr())
    {
      if currentPiece.None? {
        return false;
      }
      DropCurrent();
      LockPiece();
      return true;
    }

    /** The part of `hard_drop` before the lock: take the falling piece, move it down as far as it fits, and add the drop score. */
    method DropCurrent()
      requires Valid() && currentPiece.Some? && Anchored(currentPiece.value)
      modifies this, scoreSystem
      ensures Valid() && Model() == DroppedF(old(Model()))
      ensures Repr() == old(Repr())
    {
      var piece := currentPiece.value;
      var dropDistance;
      dropDistance, piece := Descend(piece);
      scoreSystem.AddHardDropScore(dropDistance);
      currentPiece := Some(piece);
    }

    /** The loop of `hard_drop`: move `piece` down while the next step fits, counting the rows. */
    method Descend(piece: Piece) returns (dropDistance: nat, landed: Piece)
      requires board.Valid() && Anchored(piece)
      ensures (dropDistance, landed) == DropF(board.Cells(), piece)
    {
      landed := piece;
      dropDistance := 0;
      ghost var g := board.Cells();
      while true
        invariant g == board.Cells() && Anchored(landed)
        invariant DropF(g, piece) == (dropDistance + DropF(g, landed).0, DropF(g, landed).1)
        decreases 23 - landed.row
      {
        var movedPiece := WithDownMove(landed);
        var fits := board.CanPlace(movedPiece);
        DropOnce(g, landed);
        if !fits {
          break;
        }
        landed := movedPiece;
        dropDistance := dropDistance + 1;
      }
    }

    /** `hold_piece`. */
    method HoldPiece() returns (ok: bool)
      requires Valid()
      modifies this, randomizer
      ensures Valid() && (ok, Model()) == HoldF(old(Model()))
      ensures Repr() == old(Repr())
    {
      if !canHold {
        return false;
      }
      if currentPiece.None? {
        return false;
      }
      var currentType := currentPiece.value.pieceType;
      currentPiece := None;
      if heldPiece.Some? {
        var heldType := heldPiece.value;
        var col := BoardWidth / 2 - 1;
        var row := if heldType == I then -1 else 0;
        currentPiece := Some(NewPiece(heldType, row, col));
      } else {
        SpawnNewPiece();
      }
      heldPiece := Some(currentType);
      canHold := false;
      return true;
    }

    /** `is_cell_filled`: off-board cells count as filled. */
    function IsCellFilled(row: nat, col: nat): (b: bool)
      reads this, board, board.grid
      requires board.Valid()
      ensures b == CellFilled(board.Cells(), row, col)
    {
      if row >= BoardHeight || col >= BoardWidth then true
      else
        var cell := board.GetCell(row, col);
        cell.Some? && cell.value != Empty
    }

    /** `detect_tspin`: counts the filled corners around a T's pivot, then looks at the two front corners. */
    method DetectTspin() returns (t: TSpinType)
      requires Valid() && TspinSafe(currentPiece)
      ensures t == DetectTspinF(board.Cells(), currentPiece)
    {
      if currentPiece.None? || currentPiece.value.pieceType != T {
        return TNone;
      }
      var piece := currentPiece.value;
      var row, col := AsUsize(piece.row), AsUsize(piece.col);
      var corners := [(row - 1, col - 1), (row - 1, col + 1), (row + 1, col - 1), (row + 1, col + 1)];
      assert corners == Corners(piece);
      ghost var g := board.Cells();
      var filledCorners := 0;
      for i := 0 to 4
        invariant filledCorners == FilledCorners(g, corners[..i])
      {
        var (r, c) := corners[i];
        if r < BoardHeight && c < BoardWidth {
          var cell := board.GetCell(r, c);
          if cell.Some? {
            if cell.value != Empty {
              filledCorners := filledCorners + 1;
            }
          } else {
            filledCorners := filledCorners + 1;
          }
        } else {
          filledCorners := filledCorners + 1;
        }
        assert corners[..i + 1][..i] == corners[..i];
      }
      assert corners[..4] == corners;
      if filledCorners >= 3 {
        var frontFilled := match piece.rotation
          case North => IsCellFilled(row + 1, col - 1) || IsCellFilled(row + 1, col + 1)
          case East => IsCellFilled(row - 1, col - 1) || IsCellFilled(row + 1, col - 1)
          case South => IsCellFilled(row - 1, col - 1) || IsCellFilled(row - 1, col + 1)
          case West => IsCellFilled(row - 1, col + 1) || IsCellFilled(row + 1, col + 1);
        return if frontFilled then Full else Mini;
      }
      return TNone;
    }

    /** `lock_piece`. The T-spin test runs after the piece has been taken out of play. */
    method LockPiece()
      requires Valid()
      modifies this, board.grid, scoreSystem, randomizer
      ensures Valid() && Model() == LockF(old(Model()))
      ensures Repr() == old(Repr())
    {
      if currentPiece.None? {
        return;
      }
      ghost var v0 := Model();
      var piece := currentPiece.value;
      currentPiece := None;
      var tspinType := DetectTspin();
      var linesCleared, isPerfectClear := SettlePiece(piece);
      assert Model() == v0.(current := None, grid := board.Cells());
      ScoreLock(linesCleared, tspinType, isPerfectClear);
      SpawnNewPiece();
    }

    /** The bookkeeping steps of `lock_piece`. */
    method ScoreLock(linesCleared: nat, tspinType: TSpinType, isPerfectClear: bool)
      requires Valid()
      modifies this, scoreSystem
      ensures Valid() && Model() == AfterLockF(old(Model()), linesCleared, tspinType, isPerfectClear)
      ensures Repr() == old(Repr())
    {
      scoreSystem.AddScoreForLinesWithTspin(linesCleared, tspinType);
      if isPerfectClear {
        scoreSystem.AddPerfectClearBonus(linesCleared);
      }
      gravityDelay := CalculateGravityDelay(scoreSystem.level);
      canHold := true;
      lockDelayActive := false;
      lockDelayTimer := 0;
    }

    /** The board steps of `lock_piece`: place, clear, and test for a perfect clear when lines went. */
    method SettlePiece(piece: Piece) returns (linesCleared: nat, isPerfectClear: bool)
      requires Valid()
      modifies board.grid
      ensures Valid() && (board.Cells(), linesCleared, isPerfectClear) == SettleF(old(board.Cells()), piece)
    {
      // The result of placing is not looked at: a piece that does not fit leaves the board as it is.
      var placed := board.PlacePiece(piece);
      linesCleared := board.ClearLines();
      isPerfectClear := false;
      if linesCleared > 0 {
        isPerfectClear := board.IsPerfectClear();
      }
    }

    /** `calculate_gravity_delay`. */
    static method CalculateGravityDelay(level: nat) returns (ms: nat)
      ensures ms == GravityDelay(level)
    {
      var frames := match level
        case 1 => 60
        case 2 => 48
        case 3 => 36
        case 4 => 28
        case 5 => 22
        case 6 => 16
        case 7 => 12
        case 8 => 8
        case 9 => 6
        case _ => if 10 <= level <= 12 then 4
                  else if 13 <= level <= 15 then 3
                  else if 16 <= level <= 18 then 2
                  else 1;
      ms := frames * 1000 / 60;
    }

    /** `update(dt)`: gravity, then the lock delay; nothing happens unless the game is being played. */
    method Update(dt: nat) returns (ok: bool)
      requires Valid()
      modifies this, board.grid, scoreSystem, randomizer
      ensures Valid() && (ok, Model()) == UpdateF(old(Model()), dt)
      ensures Repr() == old(Repr())
    {
      if state != Playing {
        return false;
      }
      ApplyGravity(dt);
      ProcessLockDelay(dt);
      return true;
    }

    /** The gravity half of `update`. */
    method ApplyGravity(dt: nat)
      requires Valid()
      modifies this
      ensures Valid() && Model() == GravityPhaseF(old(Model()), dt)
      ensures Repr() == old(Repr())
    {
      timeSinceLastDrop := timeSinceLastDrop + dt;
      if timeSinceLastDrop >= gravityDelay {
        timeSinceLastDrop := 0;
        GravityStep();
      }
    }

    /** The body of `apply_gravity` once the drop timer has fired: move the piece down, or start the lock delay. */
    method GravityStep()
      requires Valid()
      modifies this
      ensures Valid() && Model() == GravityStepF(old(Model()))
      ensures Repr() == old(Repr())
    {
      if currentPiece.Some? {
        var movedPiece := WithDownMove(currentPiece.value);
        var fits := board.CanPlace(movedPiece);
        if fits {
          currentPiece := Some(movedPiece);
          lockDelayActive := false;
          lockDelayTimer := 0;
        } else if !lockDelayActive {
          lockDelayActive := true;
          lockDelayTimer := 0;
          lockDelayResets := 0;
        }
      }
    }

    /** The lock-delay half of `update`. */
    method ProcessLockDelay(dt: nat)
      requires Valid()
      modifies this, board.grid, scoreSystem, randomizer
      ensures Valid() && Model() == LockDelayStepF(old(Model()), dt)
      ensures Repr() == old(Repr())
    {
      if lockDelayActive {
        lockDelayTimer := lockDelayTimer + dt;
        if lockDelayTimer >= LockDelay {
          LockPiece();
          lockDelayActive := false;
          lockDelayTimer := 0;
        }
      }
    }

    /** `reset`: a cleared board, and a new score system and randomizer (with shuffles from `source`). */
    method Reset(source: Source)
      requires Valid()
      modifies this, board.grid
      ensures Valid() && Model() == NewGameF(source)
      ensures fresh(scoreSystem) && fresh(randomizer)
    {
      board.Clear();
      var s := new ScoreSystem();
      var r := new BagRandomizer(source);
      ResetFields(s, r);
      FreshFields(source, board.Cells(), s.Model(), r.Model());
      SpawnNewPiece();
    }

    /** The field assignments of `reset`, before the first spawn. */
    method ResetFields(s: ScoreSystem, r: BagRandomizer)
      requires board.Valid() && |r.previewQueue| == PreviewSize
      modifies this
      ensures scoreSystem == s && randomizer == r
      ensures Valid()
      ensures Model() == GameView(board.Cells(), None, None, true, Playing, s.Model(), r.Model(), 0, InitialGravityDelay, 0, false, 0)
    {
      ghost var g := board.Cells();
      ghost var sv := s.Model();
      ghost var rv := r.Model();
      currentPiece := None;
      heldPiece := None;
      canHold := true;
      state := Playing;
      scoreSystem := s;
      randomizer := r;
      timeSinceLastDrop := 0;
      gravityDelay := InitialGravityDelay;
      lockDelayActive := false;
      lockDelayTimer := 0;
      lockDelayResets := 0;
      assert board.Cells() == g;
      assert s.Model() == sv;
      assert r.Model() == rv;
    }

    method TogglePause()
      requires Valid()
      modifies this
      ensures Valid() && Model() == TogglePauseF(old(Model()))
      ensures Repr() == old(Repr())
    {
      state := match state
        case Playing => Paused
        case Paused => Playing
        case GameOver => GameOver;
    }

    /** `peek_next_pieces`. */
    function PeekNextPieces(count: nat): (r: seq<PieceType>)
      reads this, board, board.grid, scoreSystem, randomizer
      requires Valid()
      ensures r == PeekNextF(Model(), count)
    {
      randomizer.Peek(count)
    }
  }
}
