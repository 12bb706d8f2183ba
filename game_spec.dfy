/**
  The game controller's rules on values. A `GameView` is the whole state of a
  game; each controller operation is a function from the view before to the
  view after (and its boolean result). Durations are whole milliseconds.
*/
module GameRules {
  import opened TetrisCore
  import opened Options
  import opened Pieces
  import opened Boards
  import opened Rotations
  import opened Randomizers
  import opened Scoring

  datatype GameState = Playing | Paused | GameOver

  /** The lock delay, in milliseconds. */
  const LockDelay: nat := 500
  /** How many times moves and turns may restart the lock delay. */
  const MaxLockResets: nat := 15
  /** The spawn column: half the width, minus one. */
  const SpawnCol: int := BoardWidth / 2 - 1
  /** The gravity delay of a new game, in milliseconds. */
  const InitialGravityDelay: nat := 1000

  /** The whole state of a game. */
  datatype GameView = GameView(
    grid: Grid,
    current: Option<Piece>,
    held: Option<PieceType>,
    canHold: bool,
    state: GameState,
    score: ScoreView,
    rand: RandView,
    sinceDrop: nat,
    gravityDelay: nat,
    lockTimer: nat,
    lockActive: bool,
    lockResets: nat)

  /** What every operation needs: a board of the right size and a full preview to draw from. */
  ghost predicate WF(v: GameView)
  {
    WellFormed(v.grid) && |v.rand.queue| == PreviewSize
  }

  /**
    The invariant of a game: a valid randomizer, the level following the line
    count, the gravity delay following the level, at most 15 lock resets, and a
    falling piece exactly when the game is not over.
  */
  ghost predicate Inv(v: GameView)
  {
    && WF(v)
    && Randomizers.Valid(v.rand)
    && LevelInv(v.score)
    && v.gravityDelay == GravityDelay(v.score.level)
    && v.lockResets <= MaxLockResets
    && (v.current.Some? <==> v.state != GameOver)
  }

  // ---------------------------------------------------------------------
  // Gravity
  // ---------------------------------------------------------------------

  /** Frames per drop at 60 frames per second. */
  function GravityFrames(level: nat): nat
  {
    if level == 1 then 60
    else if level == 2 then 48
    else if level == 3 then 36
    else if level == 4 then 28
    else if level == 5 then 22
    else if level == 6 then 16
    else if level == 7 then 12
    else if level == 8 then 8
    else if level == 9 then 6
    else if 10 <= level <= 12 then 4
    else if 13 <= level <= 15 then 3
    else if 16 <= level <= 18 then 2
    else 1
  }

  /** `calculate_gravity_delay`: the frames converted to whole milliseconds, rounding down. */
  function GravityDelay(level: nat): (ms: nat)
    ensures ms == GravityFrames(level) * 1000 / 60
  {
    GravityFrames(level) * 1000 / 60
  }

  /** One second at level 1, 16 ms from level 19 on, and never slower at a higher level. */
  lemma GravityDelayShape(a: nat, b: nat)
    ensures GravityDelay(1) == 1000 && GravityDelay(1) == InitialGravityDelay
    ensures a >= 19 ==> GravityDelay(a) == 16
    ensures 1 <= a <= b ==> GravityDelay(b) <= GravityDelay(a)
  {
    assert 1 <= a <= b ==> GravityFrames(b) <= GravityFrames(a);
  }

  // ---------------------------------------------------------------------
  // Spawning and locking
  // ---------------------------------------------------------------------

  /** I spawns one row higher than the other shapes. */
  function SpawnRow(t: PieceType): int
  {
    if t == I then -1 else 0
  }

  /** `spawn_new_piece`: draw the next shape and place it at the spawn point, or end the game if it does not fit. */
  function SpawnF(v: GameView): (v': GameView)
    requires WF(v)
    ensures WF(v')
    ensures v'.rand == NextF(v.rand).1
    ensures var p := NewPiece(NextF(v.rand).0, SpawnRow(NextF(v.rand).0), SpawnCol);
      if CanPlaceF(v.grid, p) then v' == v.(rand := v'.rand, current := Some(p))
      else v' == v.(rand := v'.rand, current := None, state := GameOver)
  {
    var (t, r) := NextF(v.rand);
    var p := NewPiece(t, SpawnRow(t), SpawnCol);
    if !CanPlaceF(v.grid, p) then v.(rand := r, state := GameOver, current := None)
    else v.(rand := r, current := Some(p))
  }

  /** `try_reset_lock_delay`. */
  function TryResetF(v: GameView): (v': GameView)
    ensures v.lockActive && v.lockResets < MaxLockResets ==> v' == v.(lockTimer := 0, lockResets := v.lockResets + 1)
    ensures !(v.lockActive && v.lockResets < MaxLockResets) ==> v' == v
  {
    if v.lockActive && v.lockResets < MaxLockResets then v.(lockTimer := 0, lockResets := v.lockResets + 1) else v
  }

  /** `x as usize` for an i32 `x`: the value sign-extended to 64 bits and read unsigned. */
  function AsUsize(x: int): (u: nat)
    ensures 0 <= x < 0x1_0000_0000_0000_0000 ==> u == x
    ensures -0x1_0000_0000_0000_0000 <= x < 0 ==> u == 0x1_0000_0000_0000_0000 + x
  {
    x % 0x1_0000_0000_0000_0000
  }

  predicate InI32(x: int)
  {
    -0x8000_0000 <= x < 0x8000_0000
  }

  /**
    What `detect_tspin` needs of a T piece: i32 coordinates, none of whose usize
    view is 0 (row - 1 and col - 1 would underflow) or 2^64 - 1 (row + 1 and
    col + 1 would overflow).
  */
  predicate TspinSafe(cur: Option<Piece>)
  {
    cur.Some? && cur.value.pieceType == T ==>
      InI32(cur.value.row) && InI32(cur.value.col)
      && cur.value.row != 0 && cur.value.row != -1 && cur.value.col != 0 && cur.value.col != -1
  }

  /** `is_cell_filled`: off-board cells count as filled. */
  predicate CellFilled(g: Grid, r: nat, c: nat)
    requires WellFormed(g)
  {
    r >= BoardHeight || c >= BoardWidth || g[r][c] != Empty
  }

  /** The four diagonal neighbours of the pivot in usize coordinates: top-left, top-right, bottom-left, bottom-right. */
  function Corners(p: Piece): (cs: seq<(nat, nat)>)
    requires TspinSafe(Some(p)) && p.pieceType == T
    ensures |cs| == 4
  {
    var (r, c) := (AsUsize(p.row), AsUsize(p.col));
    [(r - 1, c - 1), (r - 1, c + 1), (r + 1, c - 1), (r + 1, c + 1)]
  }

  /** Number of filled corners among `cs`. */
  function FilledCorners(g: Grid, cs: seq<(nat, nat)>): (n: nat)
    requires WellFormed(g)
    ensures n <= |cs|
  {
    if |cs| == 0 then 0
    else FilledCorners(g, cs[..|cs| - 1]) + (if CellFilled(g, cs[|cs| - 1].0, cs[|cs| - 1].1) then 1 else 0)
  }

  /** Indices in `Corners` of the two front corners for each orientation. */
  function FrontCorners(r: Rotation): (ix: (nat, nat))
    ensures ix.0 < 4 && ix.1 < 4 && ix.0 != ix.1
  {
    match r
    case North => (2, 3)
    case East => (0, 2)
    case South => (0, 1)
    case West => (1, 3)
  }

  /** `detect_tspin`: a T with three filled corners is a full T-spin if a front corner is filled, otherwise a mini. */
  function DetectTspinF(g: Grid, cur: Option<Piece>): (t: TSpinType)
    requires WellFormed(g) && TspinSafe(cur)
    ensures t != TNone <==> cur.Some? && cur.value.pieceType == T && FilledCorners(g, Corners(cur.value)) >= 3
  {
    if cur.None? || cur.value.pieceType != T then TNone
    else
      var cs := Corners(cur.value);
      if FilledCorners(g, cs) < 3 then TNone
      else
        var (f0, f1) := FrontCorners(cur.value.rotation);
        if CellFilled(g, cs[f0].0, cs[f0].1) || CellFilled(g, cs[f1].0, cs[f1].1) then Full else Mini
  }

  /**
    `lock_piece`: the piece is taken out of play first, so the T-spin test
    sees no piece; then the piece is written (if it fits), lines are cleared
    and scored, a perfect clear earns its bonus, gravity follows the new
    level, hold is re-enabled, the lock delay is cleared and the next piece
    spawns.
  */
  function LockF(v: GameView): (v': GameView)
    requires WF(v)
    ensures WF(v')
  {
    match v.current
    case None => v
    case Some(p) =>
      var w := v.(current := None);
      var tspin := DetectTspinF(w.grid, w.current);
      var (cleared, lines, perfect) := SettleF(w.grid, p);
      SpawnF(AfterLockF(w.(grid := cleared), lines, tspin, perfect))
  }

  /** The board half of a lock: write the piece (if it fits), clear lines, and test for a perfect clear when lines went. */
  function SettleF(g: Grid, p: Piece): (res: (Grid, nat, bool))
    requires WellFormed(g)
    ensures WellFormed(res.0)
    ensures res.2 <==> res.1 > 0 && IsPerfectClearF(res.0)
  {
    var placed := if CanPlaceF(g, p) then PlaceF(g, p) else g;
    var (cleared, lines) := ClearLinesF(placed);
    (cleared, lines, lines > 0 && IsPerfectClearF(cleared))
  }

  /** The bookkeeping half of a lock: score the clear, follow the level with gravity, re-enable hold, clear the lock delay. */
  function AfterLockF(v: GameView, lines: nat, tspin: TSpinType, perfect: bool): (v': GameView)
    requires WF(v)
    ensures WF(v')
  {
    var s1 := AddLinesTspinF(v.score, lines, tspin);
    var s2 := if perfect then AddPerfectClearF(s1, lines) else s1;
    v.(score := s2, gravityDelay := GravityDelay(s2.level), canHold := true, lockActive := false, lockTimer := 0)
  }

  // ---------------------------------------------------------------------
  // Player actions
  // ---------------------------------------------------------------------

  /** A successful shift or turn: the new piece, then a lock-delay reset attempt. */
  function MovedTo(v: GameView, q: Piece): GameView
  {
    TryResetF(v.(current := Some(q)))
  }

  function MoveLeftF(v: GameView): (res: (bool, GameView))
    requires WF(v)
    ensures WF(res.1)
    ensures res.0 <==> v.current.Some? && CanPlaceF(v.grid, WithLeftMove(v.current.value))
    ensures res.0 ==> res.1 == MovedTo(v, WithLeftMove(v.current.value))
    ensures !res.0 ==> res.1 == v
  {
    match v.current
    case None => (false, v)
    case Some(p) =>
      var q := WithLeftMove(p);
      if CanPlaceF(v.grid, q) then (true, MovedTo(v, q)) else (false, v)
  }

  function MoveRightF(v: GameView): (res: (bool, GameView))
    requires WF(v)
    ensures WF(res.1)
    ensures res.0 <==> v.current.Some? && CanPlaceF(v.grid, WithRightMove(v.current.value))
    ensures res.0 ==> res.1 == MovedTo(v, WithRightMove(v.current.value))
    ensures !res.0 ==> res.1 == v
  {
    match v.current
    case None => (false, v)
    case Some(p) =>
      var q := WithRightMove(p);
      if CanPlaceF(v.grid, q) then (true, MovedTo(v, q)) else (false, v)
  }

  /** `move_down`: one point per successful step, and the lock delay is started (never reset) by a blocked step. */
  function MoveDownF(v: GameView): (res: (bool, GameView))
    requires WF(v)
    ensures WF(res.1)
    ensures res.0 <==> v.current.Some? && CanPlaceF(v.grid, WithDownMove(v.current.value))
    ensures res.0 ==> res.1 == v.(current := Some(WithDownMove(v.current.value)), score := AddSoftDropF(v.score, 1))
    ensures !res.0 && v.current.Some? && !v.lockActive ==> res.1 == v.(lockActive := true, lockTimer := 0, lockResets := 0)
    ensures !res.0 && (v.current.None? || v.lockActive) ==> res.1 == v
  {
    match v.current
    case None => (false, v)
    case Some(p) =>
      var q := WithDownMove(p);
      if CanPlaceF(v.grid, q) then (true, v.(score := AddSoftDropF(v.score, 1), current := Some(q)))
      else if !v.lockActive then (false, v.(lockActive := true, lockTimer := 0, lockResets := 0))
      else (false, v)
  }

  function RotateCwGameF(v: GameView): (res: (bool, GameView))
    requires WF(v)
    ensures WF(res.1)
    ensures res.0 <==> v.current.Some? && RotateCwF(v.grid, v.current.value).Some?
    ensures res.0 ==> res.1 == MovedTo(v, RotateCwF(v.grid, v.current.value).value)
    ensures !res.0 ==> res.1 == v
  {
    match v.current
    case None => (false, v)
    case Some(p) =>
      match RotateCwF(v.grid, p)
      case Some(q) => (true, MovedTo(v, q))
      case None => (false, v)
  }

  function RotateCcwGameF(v: GameView): (res: (bool, GameView))
    requires WF(v)
    ensures WF(res.1)
    ensures res.0 <==> v.current.Some? && RotateCcwF(v.grid, v.current.value).Some?
    ensures res.0 ==> res.1 == MovedTo(v, RotateCcwF(v.grid, v.current.value).value)
    ensures !res.0 ==> res.1 == v
  {
    match v.current
    case None => (false, v)
    case Some(p) =>
      match RotateCcwF(v.grid, p)
      case Some(q) => (true, MovedTo(v, q))
      case None => (false, v)
  }

  /** The descent of `hard_drop`: how many down moves succeed in a row, and the piece after them. */
  function DropF(g: Grid, p: Piece): (res: (nat, Piece))
    requires WellFormed(g) && Anchored(p)
    ensures res.1 == p.(row := p.row + res.0)
    decreases 23 - p.row
  {
    var q := WithDownMove(p);
    if CanPlaceF(g, q) then
      DownKeepsAnchored(p);
      PlaceableAnchoredRowBound(g, q);
      var (d, r) := DropF(g, q);
      (d + 1, r)
    else (0, p)
  }

  /**
    The descent ends where one more step down cannot be placed, and every
    piece passed on the way down, the last included, can be placed.
  */
  lemma {:induction false} DropFSpec(g: Grid, p: Piece)
    requires WellFormed(g) && Anchored(p)
    ensures DropF(g, p).1 == DownBy(p, DropF(g, p).0)
    ensures !CanPlaceF(g, WithDownMove(DropF(g, p).1))
    ensures forall k :: 1 <= k <= DropF(g, p).0 ==> CanPlaceF(g, DownBy(p, k))
    decreases 23 - p.row
  {
    DownByShift(p, DropF(g, p).0);
    var q := WithDownMove(p);
    if CanPlaceF(g, q) {
      DownKeepsAnchored(p);
      PlaceableAnchoredRowBound(g, q);
      DropFSpec(g, q);
      forall k | 1 <= k <= DropF(g, p).0
        ensures CanPlaceF(g, DownBy(p, k))
      {
        DownByShift(p, k);
        DownByShift(q, k - 1);
      }
    }
  }

  /** A placeable anchored piece has its pivot at row 22 or above, since its anchored block must be on the board or above it. */
  lemma PlaceableAnchoredRowBound(g: Grid, q: Piece)
    requires WellFormed(g) && Anchored(q) && CanPlaceF(g, q)
    ensures q.row <= 22
  {
    var i :| 0 <= i < 4 && q.col + Offsets(q)[i].1 >= 0;
    OffsetsBounded(q.pieceType, q.rotation);
    if q.row + Offsets(q)[i].0 >= 0 {
      VisibleCellsComplete(q.row, q.col, Offsets(q));
      var b := CellOf(q.row, q.col, Offsets(q)[i]);
      assert b in Blocks(q);
    }
  }

  /** One step of the descent: a piece whose next step fits lands where that next step lands, one row further. */
  lemma DropOnce(g: Grid, p: Piece)
    requires WellFormed(g) && Anchored(p)
    ensures Anchored(WithDownMove(p))
    ensures CanPlaceF(g, WithDownMove(p)) ==> WithDownMove(p).row <= 22
    ensures CanPlaceF(g, WithDownMove(p)) ==> DropF(g, p) == (DropF(g, WithDownMove(p)).0 + 1, DropF(g, WithDownMove(p)).1)
    ensures !CanPlaceF(g, WithDownMove(p)) ==> DropF(g, p) == (0, p)
  {
    DownKeepsAnchored(p);
    if CanPlaceF(g, WithDownMove(p)) {
      PlaceableAnchoredRowBound(g, WithDownMove(p));
    }
  }

  /** The state a hard drop is about to lock: the piece at the bottom of its descent, and the drop bonus. */
  function DroppedF(v: GameView): (w: GameView)
    requires WF(v) && v.current.Some? && Anchored(v.current.value)
    ensures WF(w)
  {
    var (d, q) := DropF(v.grid, v.current.value);
    v.(score := AddHardDropF(v.score, d), current := Some(q))
  }

  /** `hard_drop`: descend while the next step fits, add two points per row, then lock. */
  function HardDropF(v: GameView): (res: (bool, GameView))
    requires WF(v) && (v.current.Some? ==> Anchored(v.current.value))
    ensures WF(res.1)
    ensures res.0 <==> v.current.Some?
    ensures !res.0 ==> res.1 == v
  {
    if v.current.None? then (false, v) else (true, LockF(DroppedF(v)))
  }

  /** The piece a hold swap brings back: the held shape at the spawn point, without a fit check. */
  function HeldPiece(t: PieceType): Piece
  {
    NewPiece(t, SpawnRow(t), SpawnCol)
  }

  /** `hold_piece`. */
  function HoldF(v: GameView): (res: (bool, GameView))
    requires WF(v)
    ensures WF(res.1)
    ensures res.0 <==> v.canHold && v.current.Some?
    ensures !res.0 ==> res.1 == v
    ensures res.0 ==> res.1.held == Some(v.current.value.pieceType) && !res.1.canHold
    ensures res.0 && v.held.Some? ==> res.1 == v.(current := Some(HeldPiece(v.held.value)), held := Some(v.current.value.pieceType), canHold := false)
  {
    if !v.canHold then (false, v)
    else match v.current
      case None => (false, v)
      case Some(p) =>
        var w := v.(current := None);
        var w' := if v.held.Some? then w.(current := Some(HeldPiece(v.held.value))) else SpawnF(w);
        (true, w'.(held := Some(p.pieceType), canHold := false))
  }

  // ---------------------------------------------------------------------
  // Time, pause and reset
  // ---------------------------------------------------------------------

  /**
    The gravity step of `update`: a piece that can move down does so and
    the lock delay is cleared; a blocked piece starts an inactive lock delay
    and keeps an active one as it is.
  */
  function GravityStepF(v: GameView): (v': GameView)
    requires WF(v)
    ensures WF(v')
    ensures v.current.None? ==> v' == v
    ensures v.current.Some? && CanPlaceF(v.grid, WithDownMove(v.current.value)) ==>
      v'.current == Some(WithDownMove(v.current.value)) && !v'.lockActive && v'.lockTimer == 0
      && v' == v.(current := v'.current, lockActive := false, lockTimer := 0)
    ensures v.current.Some? && !CanPlaceF(v.grid, WithDownMove(v.current.value)) && !v.lockActive ==>
      v' == v.(lockActive := true, lockTimer := 0, lockResets := 0)
    ensures v.current.Some? && !CanPlaceF(v.grid, WithDownMove(v.current.value)) && v.lockActive ==> v' == v
  {
    match v.current
    case None => v
    case Some(p) =>
      var q := WithDownMove(p);
      if CanPlaceF(v.grid, q) then v.(current := Some(q), lockActive := false, lockTimer := 0)
      else if !v.lockActive then v.(lockActive := true, lockTimer := 0, lockResets := 0)
      else v
  }

  /** The lock-delay step of `update`. */
  function LockDelayStepF(v: GameView, dt: nat): (v': GameView)
    requires WF(v)
    ensures WF(v')
  {
    if !v.lockActive then v
    else
      var w := v.(lockTimer := v.lockTimer + dt);
      if w.lockTimer >= LockDelay then LockF(w).(lockActive := false, lockTimer := 0) else w
  }

  /** `update(dt)`: gravity once enough time has passed, then the lock delay. */
  function UpdateF(v: GameView, dt: nat): (res: (bool, GameView))
    requires WF(v)
    ensures WF(res.1)
    ensures res.0 <==> v.state == Playing
    ensures !res.0 ==> res.1 == v
  {
    if v.state != Playing then (false, v)
    else (true, LockDelayStepF(GravityPhaseF(v, dt), dt))
  }

  /** The first half of `update`: advance the drop timer and, once it reaches the gravity delay, restart it and apply gravity. */
  function GravityPhaseF(v: GameView, dt: nat): (v': GameView)
    requires WF(v)
    ensures WF(v')
  {
    var w := v.(sinceDrop := v.sinceDrop + dt);
    if w.sinceDrop >= w.gravityDelay then GravityStepF(w.(sinceDrop := 0)) else w
  }

  /** `toggle_pause`. */
  function TogglePauseF(v: GameView): (v': GameView)
    ensures v.state == GameOver ==> v'.state == GameOver
    ensures v.state == Playing ==> v'.state == Paused
    ensures v.state == Paused ==> v'.state == Playing
    ensures v' == v.(state := v'.state)
  {
    v.(state := match v.state
      case Playing => Paused
      case Paused => Playing
      case GameOver => GameOver)
  }

  /** The fields of a new (or reset) game before its first spawn. */
  function FreshF(source: Source): (v: GameView)
    ensures WF(v)
  {
    GameView(EmptyGrid(), None, None, true, Playing, NewScoreF(), NewF(source), 0, InitialGravityDelay, 0, false, 0)
  }

  /** The fields a new or reset game holds before its first spawn, given its board, score and randomizer. */
  lemma FreshFields(source: Source, g: Grid, s: ScoreView, r: RandView)
    requires g == EmptyGrid() && s == NewScoreF() && r == NewF(source)
    ensures GameView(g, None, None, true, Playing, s, r, 0, InitialGravityDelay, 0, false, 0) == FreshF(source)
  {
  }

  /** `Game::new` and `reset`: fresh fields, then the first spawn. */
  function NewGameF(source: Source): (v: GameView)
    ensures WF(v)
  {
    SpawnF(FreshF(source))
  }

  /** `peek_next_pieces`. */
  function PeekNextF(v: GameView, count: nat): (r: seq<PieceType>)
    ensures r == PeekF(v.rand, count)
  {
    PeekF(v.rand, count)
  }

  // ---------------------------------------------------------------------
  // Properties of the rules
  // ---------------------------------------------------------------------

  /** Spawning keeps the invariant, given a view whose other parts already satisfy it. */
  lemma SpawnKeepsInv(v: GameView)
    requires WF(v) && Randomizers.Valid(v.rand) && LevelInv(v.score) && v.gravityDelay == GravityDelay(v.score.level)
    requires v.lockResets <= MaxLockResets && v.state != GameOver
    ensures Inv(SpawnF(v))
  {
    NextFair(v.rand);
  }

  /** A lock keeps the invariant. */
  lemma LockKeepsInv(v: GameView)
    requires Inv(v)
    ensures Inv(LockF(v))
  {
    if v.current.Some? {
      var p := v.current.value;
      var w := v.(current := None);
      var (cleared, lines, perfect) := SettleF(w.grid, p);
      var s1 := AddLinesTspinF(w.score, lines, TNone);
      ScoringMonotone(w.score, lines, TNone, 0);
      ScoringMonotone(s1, lines, TNone, 0);
      SpawnKeepsInv(AfterLockF(w.(grid := cleared), lines, TNone, perfect));
    }
  }

  /** The invariant only looks at the board size, the randomizer, the score, the gravity delay, the reset count and the piece/state pairing. */
  lemma InvFrame(v: GameView, w: GameView)
    requires Inv(v) && WellFormed(w.grid) && w.rand == v.rand && w.score == v.score && w.gravityDelay == v.gravityDelay
    requires w.lockResets <= MaxLockResets && w.state == v.state && w.current.Some? == v.current.Some?
    ensures Inv(w)
  {
  }

  /** A shift or turn to a new piece keeps the invariant; in particular at most 15 lock resets. */
  lemma MovedToKeepsInv(v: GameView, q: Piece)
    requires Inv(v) && v.current.Some?
    ensures Inv(MovedTo(v, q))
  {
    InvFrame(v, MovedTo(v, q));
  }

  /** Shifts, turns and soft drops keep the invariant. */
  lemma MoveLeftKeepsInv(v: GameView)
    requires Inv(v)
    ensures Inv(MoveLeftF(v).1)
  {
    if v.current.Some? {
      MovedToKeepsInv(v, WithLeftMove(v.current.value));
    }
  }

  lemma MoveRightKeepsInv(v: GameView)
    requires Inv(v)
    ensures Inv(MoveRightF(v).1)
  {
    if v.current.Some? {
      MovedToKeepsInv(v, WithRightMove(v.current.value));
    }
  }

  lemma MoveDownKeepsInv(v: GameView)
    requires Inv(v)
    ensures Inv(MoveDownF(v).1)
  {
  }

  lemma RotateCwKeepsInv(v: GameView)
    requires Inv(v)
    ensures Inv(RotateCwGameF(v).1)
  {
    if v.current.Some? && RotateCwF(v.grid, v.current.value).Some? {
      MovedToKeepsInv(v, RotateCwF(v.grid, v.current.value).value);
    }
  }

  lemma RotateCcwKeepsInv(v: GameView)
    requires Inv(v)
    ensures Inv(RotateCcwGameF(v).1)
  {
    if v.current.Some? && RotateCcwF(v.grid, v.current.value).Some? {
      MovedToKeepsInv(v, RotateCcwF(v.grid, v.current.value).value);
    }
  }

  /** Holding keeps the invariant. */
  lemma HoldKeepsInv(v: GameView)
    requires Inv(v)
    ensures Inv(HoldF(v).1)
  {
    if v.current.Some? && v.canHold && v.held.None? {
      SpawnKeepsInv(v.(current := None));
    }
  }

  /** A hard drop keeps the invariant. */
  lemma HardDropKeepsInv(v: GameView)
    requires Inv(v) && (v.current.Some? ==> Anchored(v.current.value))
    ensures Inv(HardDropF(v).1)
  {
    if v.current.Some? {
      LockKeepsInv(DroppedF(v));
    }
  }

  /** Pausing keeps the invariant. */
  lemma TogglePauseKeepsInv(v: GameView)
    requires Inv(v)
    ensures Inv(TogglePauseF(v))
  {
  }

  lemma GravityStepKeepsInv(v: GameView)
    requires Inv(v)
    ensures Inv(GravityStepF(v))
  {
    InvFrame(v, GravityStepF(v));
  }

  lemma LockDelayStepKeepsInv(v: GameView, dt: nat)
    requires Inv(v)
    ensures Inv(LockDelayStepF(v, dt))
  {
    if v.lockActive {
      LockKeepsInv(v.(lockTimer := v.lockTimer + dt));
    }
  }

  lemma GravityPhaseKeepsInv(v: GameView, dt: nat)
    requires Inv(v)
    ensures Inv(GravityPhaseF(v, dt))
  {
    var w := v.(sinceDrop := v.sinceDrop + dt);
    InvFrame(v, w);
    if w.sinceDrop >= w.gravityDelay {
      InvFrame(v, w.(sinceDrop := 0));
      GravityStepKeepsInv(w.(sinceDrop := 0));
    }
  }

  /** `update` keeps the invariant. */
  lemma UpdateKeepsInv(v: GameView, dt: nat)
    requires Inv(v)
    ensures Inv(UpdateF(v, dt).1)
  {
    if v.state == Playing {
      GravityPhaseKeepsInv(v, dt);
      LockDelayStepKeepsInv(GravityPhaseF(v, dt), dt);
    }
  }

  /** A new game satisfies the invariant and starts with a falling piece on an empty board. */
  lemma NewGameInv(source: Source)
    ensures Inv(NewGameF(source))
    ensures NewGameF(source).current.Some? && NewGameF(source).state == Playing
    ensures NewGameF(source).grid == EmptyGrid() && NewGameF(source).score == NewScoreF()
  {
    NewState(source);
    GravityDelayShape(1, 1);
    var v := FreshF(source);
    var t := NextF(v.rand).0;
    EmptyGridPlaceable(NewPiece(t, SpawnRow(t), SpawnCol));
    SpawnKeepsInv(v);
  }

  /** Shifts, turns and holds leave the score alone; a soft drop raises it by at most one point. */
  lemma MovesKeepScore(v: GameView)
    requires WF(v)
    ensures MoveLeftF(v).1.score == v.score && MoveRightF(v).1.score == v.score
    ensures v.score.score <= MoveDownF(v).1.score.score <= v.score.score + 1
  {
  }

  lemma TurnsAndHoldKeepScore(v: GameView)
    requires WF(v)
    ensures RotateCwGameF(v).1.score == v.score && RotateCcwGameF(v).1.score == v.score
    ensures HoldF(v).1.score == v.score
  {
  }

  /** A hard drop never lowers the score. */
  lemma HardDropScoreGrows(v: GameView)
    requires WF(v) && (v.current.Some? ==> Anchored(v.current.value))
    ensures HardDropF(v).1.score.score >= v.score.score
  {
    if v.current.Some? {
      LockScoreGrows(DroppedF(v));
    }
  }

  /** `update` never lowers the score. */
  lemma UpdateScoreGrows(v: GameView, dt: nat)
    requires WF(v)
    ensures UpdateF(v, dt).1.score.score >= v.score.score
  {
    if v.state == Playing {
      var w1 := GravityPhaseF(v, dt);
      assert w1.score == v.score;
      if w1.lockActive {
        LockScoreGrows(w1.(lockTimer := w1.lockTimer + dt));
      }
    }
  }

  lemma LockScoreGrows(v: GameView)
    requires WF(v)
    ensures LockF(v).score.score >= v.score.score
    ensures LockF(v).score.lines >= v.score.lines
  {
    if v.current.Some? {
      var w := v.(current := None);
      var (cleared, lines, perfect) := SettleF(w.grid, v.current.value);
      var a := AfterLockF(w.(grid := cleared), lines, DetectTspinF(w.grid, w.current), perfect);
      assert a.score.score >= v.score.score && a.score.lines >= v.score.lines;
      assert LockF(v) == SpawnF(a);
    }
  }

  /**
    A lock always scores as a plain clear: the T-spin test runs after the
    piece is taken, so the line table is read with no T-spin, and the
    perfect-clear bonus is added exactly when lines were cleared and the
    board is then empty.
  */
  lemma LockScoresPlain(v: GameView)
    requires WF(v) && v.current.Some?
    ensures var p := v.current.value;
      var placed := if CanPlaceF(v.grid, p) then PlaceF(v.grid, p) else v.grid;
      var (cleared, lines) := ClearLinesF(placed);
      var s1 := AddLinesF(v.score, lines);
      && LockF(v).score == (if lines > 0 && IsPerfectClearF(cleared) then AddPerfectClearF(s1, lines) else s1)
      && LockF(v).grid == cleared && LockF(v).held == v.held
      && LockF(v).canHold && !LockF(v).lockActive && LockF(v).lockTimer == 0
      && LockF(v).gravityDelay == GravityDelay(LockF(v).score.level)
    ensures var p := v.current.value;
      var placed := if CanPlaceF(v.grid, p) then PlaceF(v.grid, p) else v.grid;
      var settled := v.(current := None, grid := ClearLinesF(placed).0);
      && LockF(v).current == SpawnF(settled).current
      && LockF(v).rand == SpawnF(settled).rand
      && LockF(v).state == SpawnF(settled).state
  {
    var p := v.current.value;
    var placed := if CanPlaceF(v.grid, p) then PlaceF(v.grid, p) else v.grid;
    PlainAgreesWithTspinNone(v.score, ClearLinesF(placed).1);
  }

  /** With no piece, or a piece that is not a T, there is no T-spin. */
  lemma NoTspinWithoutT(g: Grid, cur: Option<Piece>)
    requires WellFormed(g) && TspinSafe(cur)
    ensures cur.None? ==> DetectTspinF(g, cur) == TNone
    ensures cur.Some? && cur.value.pieceType != T ==> DetectTspinF(g, cur) == TNone
  {
  }

  /** Corners off the board count as filled: a T against the bottom wall has its two lower corners filled. */
  lemma OffBoardCornersFilled(g: Grid, p: Piece)
    requires WellFormed(g) && p.pieceType == T && p.row == BoardHeight - 1 && 1 <= p.col < BoardWidth - 1
    ensures CellFilled(g, Corners(p)[2].0, Corners(p)[2].1) && CellFilled(g, Corners(p)[3].0, Corners(p)[3].1)
  {
  }

  /**
    The front corners of a T, written out in board coordinates: the two
    corners on the side its flat edge faces (below for North, left for East,
    above for South, right for West).
  */
  predicate FrontFilled(g: Grid, p: Piece)
    requires WellFormed(g) && p.pieceType == T && TspinSafe(Some(p))
  {
    var (r, c) := (AsUsize(p.row), AsUsize(p.col));
    match p.rotation
    case North => CellFilled(g, r + 1, c - 1) || CellFilled(g, r + 1, c + 1)
    case East => CellFilled(g, r - 1, c - 1) || CellFilled(g, r + 1, c - 1)
    case South => CellFilled(g, r - 1, c - 1) || CellFilled(g, r - 1, c + 1)
    case West => CellFilled(g, r - 1, c + 1) || CellFilled(g, r + 1, c + 1)
  }

  /**
    The classification of `detect_tspin` for a T: a spin exactly when at
    least three corners are filled, and then Full exactly when a front corner
    is filled, otherwise Mini.
  */
  lemma DetectTspinClassifies(g: Grid, p: Piece)
    requires WellFormed(g) && p.pieceType == T && TspinSafe(Some(p))
    ensures DetectTspinF(g, Some(p)) != TNone <==> FilledCorners(g, Corners(p)) >= 3
    ensures DetectTspinF(g, Some(p)) == Full <==> FilledCorners(g, Corners(p)) >= 3 && FrontFilled(g, p)
    ensures DetectTspinF(g, Some(p)) == Mini <==> FilledCorners(g, Corners(p)) >= 3 && !FrontFilled(g, p)
  {
  }

  /** One for a filled corner, zero otherwise. */
  function FilledMark(g: Grid, rc: (nat, nat)): nat
    requires WellFormed(g)
  {
    if CellFilled(g, rc.0, rc.1) then 1 else 0
  }

  /** The corner count of `detect_tspin` counts each of the four corners once. */
  lemma CornerCount(g: Grid, p: Piece)
    requires WellFormed(g) && p.pieceType == T && TspinSafe(Some(p))
    ensures var cs := Corners(p);
      FilledCorners(g, cs) == FilledMark(g, cs[0]) + FilledMark(g, cs[1]) + FilledMark(g, cs[2]) + FilledMark(g, cs[3])
  {
    var cs := Corners(p);
    assert FilledCorners(g, cs[..1]) == FilledMark(g, cs[0]) by { assert cs[..1][..0] == cs[..0]; }
    assert FilledCorners(g, cs[..2]) == FilledMark(g, cs[0]) + FilledMark(g, cs[1]) by { assert cs[..2][..1] == cs[..1]; }
    assert FilledCorners(g, cs[..3]) == FilledMark(g, cs[0]) + FilledMark(g, cs[1]) + FilledMark(g, cs[2])
      by { assert cs[..3][..2] == cs[..2]; }
    assert cs[..4] == cs;
  }

  /** A T with all four corners filled is a full T-spin in every orientation. */
  lemma FourCornersFull(g: Grid, p: Piece)
    requires WellFormed(g) && p.pieceType == T && TspinSafe(Some(p))
    requires forall i :: 0 <= i < 4 ==> CellFilled(g, Corners(p)[i].0, Corners(p)[i].1)
    ensures DetectTspinF(g, Some(p)) == Full
  {
    var cs := Corners(p);
    assert FilledCorners(g, cs[..0]) == 0;
    assert FilledCorners(g, cs[..1]) == 1 by { assert cs[..1][..0] == cs[..0]; }
    assert FilledCorners(g, cs[..2]) == 2 by { assert cs[..2][..1] == cs[..1]; }
    assert FilledCorners(g, cs[..3]) == 3 by { assert cs[..3][..2] == cs[..2]; }
    assert FilledCorners(g, cs) == 4 by { assert cs[..4] == cs; }
  }

  /** `toggle_pause` twice restores a non-final state. */
  lemma TogglePauseTwice(v: GameView)
    ensures TogglePauseF(TogglePauseF(v)) == v
  {
  }

  /**
    An update whose gravity phase leaves the lock delay active locks the
    piece once the timer, advanced by `dt`, reaches 500 ms, whether or not
    gravity fired in that update.
  */
  lemma UpdateLocksAtDelay(v: GameView, dt: nat)
    requires WF(v) && v.state == Playing
    requires GravityPhaseF(v, dt).lockActive && GravityPhaseF(v, dt).lockTimer + dt >= LockDelay
    ensures var w := GravityPhaseF(v, dt);
      UpdateF(v, dt).1 == LockF(w.(lockTimer := w.lockTimer + dt)).(lockActive := false, lockTimer := 0)
  {
  }

  /** `sinceDrop` after the gravity phase: restarted at the gravity delay, otherwise advanced by `dt`. */
  function SinceDropAfter(v: GameView, dt: nat): nat
  {
    if v.sinceDrop + dt >= v.gravityDelay then 0 else v.sinceDrop + dt
  }

  /**
    A blocked piece whose lock delay is active, in an update that takes the
    timer to 500 ms or more, is locked: the gravity step (if it fires) moves
    nothing and keeps the delay, so the piece locks in the same update.
  */
  lemma {:induction false} UpdateLocksBlockedPiece(v: GameView, dt: nat)
    requires WF(v) && v.state == Playing && v.current.Some?
    requires !CanPlaceF(v.grid, WithDownMove(v.current.value))
    requires v.lockActive && v.lockTimer + dt >= LockDelay
    ensures UpdateF(v, dt).1
      == LockF(v.(sinceDrop := SinceDropAfter(v, dt), lockTimer := v.lockTimer + dt)).(lockActive := false, lockTimer := 0)
  {
    var w := GravityPhaseF(v, dt);
    assert w == v.(sinceDrop := SinceDropAfter(v, dt));
    UpdateLocksAtDelay(v, dt);
  }

  /**
    When gravity fires and the piece can move down, the update moves it and
    clears the lock delay, so nothing locks even if the delay had expired.
  */
  lemma {:induction false} UpdateGravityCancelsDelay(v: GameView, dt: nat)
    requires WF(v) && v.state == Playing && v.current.Some?
    requires v.sinceDrop + dt >= v.gravityDelay && CanPlaceF(v.grid, WithDownMove(v.current.value))
    ensures UpdateF(v, dt).1
      == v.(sinceDrop := 0, current := Some(WithDownMove(v.current.value)), lockActive := false, lockTimer := 0)
  {
    var w := GravityPhaseF(v, dt);
    assert w == GravityStepF(v.(sinceDrop := 0));
    assert !w.lockActive;
  }

  /**
    A successful shift or turn changes nothing but the piece and the
    lock-reset bookkeeping, which takes at most one more reset.
  */
  ghost predicate ShiftOrTurnFrame(v: GameView, res: (bool, GameView))
  {
    res.0 ==>
      && res.1 == v.(current := res.1.current, lockTimer := res.1.lockTimer, lockResets := res.1.lockResets)
      && v.lockResets <= res.1.lockResets <= v.lockResets + 1
  }

  /** A successful shift, turn or soft drop changes nothing but the piece, the lock-reset bookkeeping and (soft drop) the score. */
  lemma SuccessfulMoveFrame(v: GameView)
    requires WF(v)
    ensures ShiftOrTurnFrame(v, MoveLeftF(v))
    ensures ShiftOrTurnFrame(v, MoveRightF(v))
    ensures ShiftOrTurnFrame(v, RotateCwGameF(v))
    ensures ShiftOrTurnFrame(v, RotateCcwGameF(v))
    ensures MoveDownF(v).0 ==>
      && MoveDownF(v).1 == v.(current := MoveDownF(v).1.current, score := MoveDownF(v).1.score)
      && MoveDownF(v).1.score.score == v.score.score + 1
      && MoveDownF(v).1.current.value.row == v.current.value.row + 1
  {
  }
}
