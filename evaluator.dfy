/**
  The board evaluator: column heights, holes, complete lines, bumpiness and
  wells, combined by a weighted sum. The weights are decimal fractions; here
  every weight is an integer count of millionths, so a score is exactly one
  million times the real-valued weighted sum.
*/
module Evaluators {
  import opened TetrisCore
  import opened Boards
  import opened Games

  /** The weight of each metric, in millionths. */
  datatype EvaluationWeights = EvaluationWeights(
    aggregateHeightWeight: int,
    completeLinesWeight: int,
    holesWeight: int,
    bumpinessWeight: int,
    landingHeightWeight: int,
    wellWeight: int)

  /** The default weights: -0.510066, 0.760666, -0.35663, -0.184483, -0.0 and 0.3. */
  function DefaultWeights(): (w: EvaluationWeights)
    ensures w.aggregateHeightWeight < 0 && w.holesWeight < 0 && w.bumpinessWeight < 0
    ensures w.completeLinesWeight > 0 && w.wellWeight > 0 && w.landingHeightWeight == 0
  {
    EvaluationWeights(-510066, 760666, -356630, -184483, 0, 300000)
  }

  datatype BoardEvaluator = BoardEvaluator(weights: EvaluationWeights)

  /** `BoardEvaluator::new`. */
  function NewEvaluator(): (e: BoardEvaluator)
    ensures e.weights == DefaultWeights()
  {
    BoardEvaluator(DefaultWeights())
  }

  /** `BoardEvaluator::with_weights`. */
  function WithWeights(weights: EvaluationWeights): (e: BoardEvaluator)
    ensures e.weights == weights
  {
    BoardEvaluator(weights)
  }

  // ---------------------------------------------------------------------
  // The metrics on grid values
  // ---------------------------------------------------------------------

  /** The first row at or below `from` whose cell in `col` is filled, or `BoardHeight` if there is none. */
  function TopFrom(g: Grid, col: nat, from: nat): (r: nat)
    requires WellFormed(g) && col < BoardWidth && from <= BoardHeight
    ensures from <= r <= BoardHeight
    ensures forall k :: from <= k < r ==> g[k][col] == Empty
    ensures r < BoardHeight ==> g[r][col].Filled?
    decreases BoardHeight - from
  {
    if from == BoardHeight then BoardHeight
    else if g[from][col].Filled? then from
    else TopFrom(g, col, from + 1)
  }

  /** The height of a column: 0 when it is empty, otherwise the number of rows from its top filled cell down. */
  function ColumnHeight(g: Grid, col: nat): (h: nat)
    requires WellFormed(g) && col < BoardWidth
    ensures h <= BoardHeight
    ensures forall r :: 0 <= r < BoardHeight - h ==> g[r][col] == Empty
    ensures h > 0 ==> g[BoardHeight - h][col].Filled?
  {
    BoardHeight - TopFrom(g, col, 0)
  }

  /** `get_column_heights` on a grid value. */
  function Heights(g: Grid): (hs: seq<nat>)
    requires WellFormed(g)
    ensures |hs| == BoardWidth
    ensures forall c :: 0 <= c < BoardWidth ==> hs[c] == ColumnHeight(g, c) && hs[c] <= BoardHeight
  {
    seq(BoardWidth, (c: nat) requires c < BoardWidth && WellFormed(g) => ColumnHeight(g, c))
  }

  /** Heights as `get_column_heights` can produce them. */
  predicate HeightsShape(hs: seq<nat>)
  {
    |hs| == BoardWidth && forall c :: 0 <= c < |hs| ==> hs[c] <= BoardHeight
  }

  function Sum(s: seq<nat>): nat
  {
    if |s| == 0 then 0 else Sum(s[..|s| - 1]) + s[|s| - 1]
  }

  /** Number of empty cells of column `col` in rows `a` .. `b - 1`. */
  function EmptyIn(g: Grid, col: nat, a: nat, b: nat): (n: nat)
    requires WellFormed(g) && col < BoardWidth && b <= BoardHeight
    decreases b
  {
    if b <= a then 0 else EmptyIn(g, col, a, b - 1) + (if g[b - 1][col] == Empty then 1 else 0)
  }

  /** The holes `count_holes` finds in one column: empty cells strictly below the row the height names. */
  function ColumnHoles(g: Grid, hs: seq<nat>, col: nat): nat
    requires WellFormed(g) && HeightsShape(hs) && col < BoardWidth
  {
    EmptyIn(g, col, BoardHeight - hs[col] + 1, BoardHeight)
  }

  /** Holes in the columns `0 .. n - 1`. */
  function HolesUpTo(g: Grid, hs: seq<nat>, n: nat): nat
    requires WellFormed(g) && HeightsShape(hs) && n <= BoardWidth
  {
    if n == 0 then 0 else HolesUpTo(g, hs, n - 1) + ColumnHoles(g, hs, n - 1)
  }

  /** `count_holes` on a grid value. */
  function Holes(g: Grid, hs: seq<nat>): nat
    requires WellFormed(g) && HeightsShape(hs)
  {
    HolesUpTo(g, hs, BoardWidth)
  }

  /** Number of complete rows among rows `0 .. n - 1`. */
  function CompleteUpTo(g: Grid, n: nat): (k: nat)
    requires WellFormed(g) && n <= BoardHeight
    ensures k <= n
  {
    if n == 0 then 0 else CompleteUpTo(g, n - 1) + (if IsLineCompleteF(g, n - 1) then 1 else 0)
  }

  /** `count_complete_lines` on a grid value. */
  function CompleteLines(g: Grid): nat
    requires WellFormed(g)
  {
    CompleteUpTo(g, BoardHeight)
  }

  function Abs(x: int): nat
  {
    if x < 0 then -x else x
  }

  /** The sum of `|hs[i] - hs[i + 1]|` for `i < n`. */
  function BumpUpTo(hs: seq<nat>, n: nat): nat
    requires n < |hs|
  {
    if n == 0 then 0 else BumpUpTo(hs, n - 1) + Abs(hs[n - 1] as int - hs[n])
  }

  /** `calculate_bumpiness`: the height differences of the adjacent column pairs, added up. */
  function Bumpiness(hs: seq<nat>): nat
    requires |hs| > 0
  {
    BumpUpTo(hs, |hs| - 1)
  }

  function MinNat(a: nat, b: nat): nat
  {
    if a <= b then a else b
  }

  /** The contribution of column `i` to `calculate_wells`. A missing neighbour counts as the column's own height. */
  function WellAt(hs: seq<nat>, i: nat): nat
    requires i < |hs|
  {
    var current := hs[i];
    var left := if i > 0 then hs[i - 1] else current;
    var right := if i < |hs| - 1 then hs[i + 1] else current;
    if current + 3 < left && current + 3 < right then
      var depth := MinNat(left, right) - current;
      depth * depth
    else 0
  }

  /** Wells in the columns `0 .. n - 1`. */
  function WellsUpTo(hs: seq<nat>, n: nat): nat
    requires n <= |hs|
  {
    if n == 0 then 0 else WellsUpTo(hs, n - 1) + WellAt(hs, n - 1)
  }

  /** `calculate_wells` on a height list. */
  function Wells(hs: seq<nat>): nat
  {
    WellsUpTo(hs, |hs|)
  }

  /** `evaluate` on a grid value: the weighted sum of the five metrics (the landing-height weight is unused). */
  function EvaluateF(e: BoardEvaluator, g: Grid): int
    requires WellFormed(g)
  {
    var hs := Heights(g);
    var w := e.weights;
    w.aggregateHeightWeight * Sum(hs)
    + w.holesWeight * Holes(g, hs)
    + w.completeLinesWeight * CompleteLines(g)
    + w.bumpinessWeight * Bumpiness(hs)
    + w.wellWeight * Wells(hs)
  }

  // ---------------------------------------------------------------------
  // The evaluator's methods
  // ---------------------------------------------------------------------

  /** `evaluate`: the score depends only on the board of the game. */
  method Evaluate(e: BoardEvaluator, game: Game) returns (score: int)
    requires game.Valid()
    ensures score == EvaluateF(e, game.board.Cells())
  {
    var board := game.board;
    var columnHeights := GetColumnHeights(board);
    var aggregateHeight := Sum(columnHeights);
    var holes := CountHoles(board, columnHeights);
    var completeLines := CountCompleteLines(board);
    var bumpiness := CalculateBumpiness(columnHeights);
    var wells := CalculateWells(columnHeights);
    score := e.weights.aggregateHeightWeight * aggregateHeight
      + e.weights.holesWeight * holes
      + e.weights.completeLinesWeight * completeLines
      + e.weights.bumpinessWeight * bumpiness
      + e.weights.wellWeight * wells;
  }

  /** `get_column_heights`: for each column, scan from the top and stop at the first filled cell. */
  method GetColumnHeights(board: Board) returns (heights: seq<nat>)
    requires board.Valid()
    ensures heights == Heights(board.Cells())
  {
    ghost var g := board.Cells();
    var hs := new nat[BoardWidth](_ => 0);
    for col := 0 to BoardWidth
      invariant board.Cells() == g
      invariant forall c :: 0 <= c < col ==> hs[c] == ColumnHeight(g, c)
    {
      var h := ScanColumn(board, col);
      hs[col] := h;
    }
    heights := hs[..];
  }

  /** The inner loop of `get_column_heights`: scan one column from the top and stop at the first filled cell. */
  method ScanColumn(board: Board, col: nat) returns (h: nat)
    requires board.Valid() && col < BoardWidth
    ensures h == ColumnHeight(board.Cells(), col)
  {
    ghost var g := board.Cells();
    h := 0;
    for row := 0 to BoardHeight
      invariant forall k :: 0 <= k < row ==> g[k][col] == Empty
    {
      var cell := board.GetCell(row, col);
      if cell.value.Filled? {
        h := BoardHeight - row;
        break;
      }
    }
    // Without a break every cell was empty and the height stays 0.
  }

  /** `count_holes`: per column, the empty cells from one below the top row the height names down to the floor. */
  method CountHoles(board: Board, columnHeights: seq<nat>) returns (holes: nat)
    requires board.Valid() && HeightsShape(columnHeights)
    ensures holes == Holes(board.Cells(), columnHeights)
  {
    ghost var g := board.Cells();
    holes := 0;
    for col := 0 to BoardWidth
      invariant holes == HolesUpTo(g, columnHeights, col)
    {
      var colHeight := columnHeights[col];
      var topRow := BoardHeight - colHeight;
      ghost var before := holes;
      // The range is empty for an empty column, whose top row is the floor.
      var row := topRow + 1;
      while row < BoardHeight
        invariant topRow + 1 <= row <= BoardHeight || row == topRow + 1 == BoardHeight + 1
        invariant holes == before + EmptyIn(g, col, topRow + 1, if row <= BoardHeight then row else BoardHeight)
      {
        var cell := board.GetCell(row, col);
        if cell.value == Empty {
          holes := holes + 1;
        }
        row := row + 1;
      }
    }
  }

  /** `count_complete_lines`: a row counts unless the scan meets an empty cell in it. */
  method CountCompleteLines(board: Board) returns (completeLines: nat)
    requires board.Valid()
    ensures completeLines == CompleteLines(board.Cells())
  {
    ghost var g := board.Cells();
    completeLines := 0;
    for row := 0 to BoardHeight
      invariant completeLines == CompleteUpTo(g, row)
    {
      var lineComplete := true;
      for col := 0 to BoardWidth
        invariant lineComplete <==> forall c :: 0 <= c < col ==> g[row][c] != Empty
      {
        var cell := board.GetCell(row, col);
        if cell.value == Empty {
          lineComplete := false;
          break;
        }
      }
      if lineComplete {
        completeLines := completeLines + 1;
      }
    }
  }

  /** `calculate_bumpiness`; the heights are at most 22, so the i32 casts are exact. */
  method CalculateBumpiness(columnHeights: seq<nat>) returns (bumpiness: nat)
    requires |columnHeights| > 0
    ensures bumpiness == Bumpiness(columnHeights)
  {
    bumpiness := 0;
    for i := 0 to |columnHeights| - 1
      invariant bumpiness == BumpUpTo(columnHeights, i)
    {
      bumpiness := bumpiness + Abs(columnHeights[i] as int - columnHeights[i + 1]);
    }
  }

  /** `calculate_wells`. */
  method CalculateWells(columnHeights: seq<nat>) returns (wellSum: nat)
    ensures wellSum == Wells(columnHeights)
  {
    wellSum := 0;
    for i := 0 to |columnHeights|
      invariant wellSum == WellsUpTo(columnHeights, i)
    {
      var currentHeight := columnHeights[i];
      var leftHeight := if i > 0 then columnHeights[i - 1] else currentHeight;
      var rightHeight := if i < |columnHeights| - 1 then columnHeights[i + 1] else currentHeight;
      if currentHeight + 3 < leftHeight && currentHeight + 3 < rightHeight {
        var depth := MinNat(leftHeight, rightHeight) - currentHeight;
        wellSum := wellSum + depth * depth;
      }
    }
  }

  // ---------------------------------------------------------------------
  // Properties of the metrics
  // ---------------------------------------------------------------------

  /** The column height is the only value that has an all-empty column above it and a filled cell at its top. */
  lemma ColumnHeightUnique(g: Grid, col: nat, h: nat)
    requires WellFormed(g) && col < BoardWidth && h <= BoardHeight
    requires forall r :: 0 <= r < BoardHeight - h ==> g[r][col] == Empty
    requires h > 0 ==> g[BoardHeight - h][col].Filled?
    ensures ColumnHeight(g, col) == h
  {
  }

  /** A run of cells has no empty cell exactly when every one of them is filled, and never more empty cells than cells. */
  lemma {:induction false} EmptyInZero(g: Grid, col: nat, a: nat, b: nat)
    requires WellFormed(g) && col < BoardWidth && b <= BoardHeight
    ensures EmptyIn(g, col, a, b) <= if b <= a then 0 else b - a
    ensures EmptyIn(g, col, a, b) == 0 <==> forall r :: a <= r < b ==> g[r][col].Filled?
    decreases b
  {
    if b > a {
      EmptyInZero(g, col, a, b - 1);
    }
  }

  /**
    The holes of a column are its empty cells under the top filled cell: none
    in an empty column, fewer than its height otherwise, and none exactly when
    every cell under the top is filled.
  */
  lemma ColumnHolesSpec(g: Grid, col: nat)
    requires WellFormed(g) && col < BoardWidth
    ensures var h := ColumnHeight(g, col);
      && (h == 0 ==> ColumnHoles(g, Heights(g), col) == 0)
      && (h > 0 ==> ColumnHoles(g, Heights(g), col) < h)
      && (ColumnHoles(g, Heights(g), col) == 0 <==> forall r :: BoardHeight - h < r < BoardHeight ==> g[r][col].Filled?)
  {
    EmptyInZero(g, col, BoardHeight - ColumnHeight(g, col) + 1, BoardHeight);
  }

  /** Holes never outnumber the aggregate height. */
  lemma HolesAtMostHeight(g: Grid)
    requires WellFormed(g)
    ensures Holes(g, Heights(g)) <= Sum(Heights(g))
  {
    var hs := Heights(g);
    HolesUpToAtMostHeight(g, BoardWidth);
    assert hs[..BoardWidth] == hs;
  }

  lemma {:induction false} HolesUpToAtMostHeight(g: Grid, n: nat)
    requires WellFormed(g) && n <= BoardWidth
    ensures HolesUpTo(g, Heights(g), n) <= Sum(Heights(g)[..n])
  {
    if n > 0 {
      var hs := Heights(g);
      HolesUpToAtMostHeight(g, n - 1);
      ColumnHolesSpec(g, n - 1);
      assert hs[..n][..n - 1] == hs[..n - 1];
    }
  }

  lemma {:induction false} CompleteUpToSome(g: Grid, n: nat)
    requires WellFormed(g) && n <= BoardHeight
    ensures CompleteUpTo(g, n) > 0 <==> exists r :: 0 <= r < n && IsLineCompleteF(g, r)
  {
    if n > 0 {
      CompleteUpToSome(g, n - 1);
    }
  }

  /** The evaluator sees a complete line exactly when `clear_lines` would clear something. */
  lemma CompleteLinesAgreeWithClear(g: Grid)
    requires WellFormed(g)
    ensures CompleteLines(g) <= BoardHeight
    ensures CompleteLines(g) > 0 <==> exists r :: 0 <= r < BoardHeight && IsLineCompleteF(g, r)
    ensures CompleteLines(g) > 0 <==> ClearLinesF(g).1 > 0
  {
    CompleteUpToSome(g, BoardHeight);
    ClearLinesNothingToClear(g);
  }

  lemma {:induction false} BumpUpToFlat(hs: seq<nat>, n: nat)
    requires n < |hs|
    ensures BumpUpTo(hs, n) == 0 <==> forall i :: 0 <= i <= n ==> hs[i] == hs[0]
    ensures BumpUpTo(hs, n) >= Abs(hs[0] as int - hs[n])
  {
    if n > 0 {
      BumpUpToFlat(hs, n - 1);
    }
  }

  /** Bumpiness is zero exactly on a flat profile, and at least the difference between the two end columns. */
  lemma BumpinessFlat(hs: seq<nat>)
    requires |hs| > 0
    ensures Bumpiness(hs) == 0 <==> forall i :: 0 <= i < |hs| ==> hs[i] == hs[0]
    ensures Bumpiness(hs) >= Abs(hs[0] as int - hs[|hs| - 1])
  {
    BumpUpToFlat(hs, |hs| - 1);
  }

  /**
    A column counts as a well exactly when it has a neighbour on both sides
    and is more than three rows lower than each; it then adds the square of its
    depth below the lower neighbour, at least 16. The edge columns never count.
  */
  lemma WellAtSpec(hs: seq<nat>, i: nat)
    requires i < |hs|
    ensures WellAt(hs, i) > 0 <==> 0 < i < |hs| - 1 && hs[i] + 3 < hs[i - 1] && hs[i] + 3 < hs[i + 1]
    ensures WellAt(hs, i) > 0 ==>
      WellAt(hs, i) >= 16 && WellAt(hs, i) == (MinNat(hs[i - 1], hs[i + 1]) - hs[i]) * (MinNat(hs[i - 1], hs[i + 1]) - hs[i])
  {
    if WellAt(hs, i) > 0 {
      var d := MinNat(hs[i - 1], hs[i + 1]) - hs[i];
      assert d >= 4;
      assert d * d >= 4 * d;
    }
  }

  lemma {:induction false} WellsUpToNone(hs: seq<nat>, n: nat)
    requires n <= |hs|
    ensures WellsUpTo(hs, n) == 0 <==> forall i :: 0 <= i < n ==> WellAt(hs, i) == 0
  {
    if n > 0 {
      WellsUpToNone(hs, n - 1);
    }
  }

  /** The well sum is zero exactly when no column is a well. */
  lemma WellsNone(hs: seq<nat>)
    ensures Wells(hs) == 0 <==> forall i :: 0 <= i < |hs| ==> WellAt(hs, i) == 0
  {
    WellsUpToNone(hs, |hs|);
  }

  /** On the empty board (no filled cell) every metric is zero, so every evaluator scores it 0. */
  lemma EmptyBoardScoresZero(e: BoardEvaluator, g: Grid)
    requires WellFormed(g) && IsPerfectClearF(g)
    ensures Heights(g) == seq(BoardWidth, _ => 0) && Sum(Heights(g)) == 0
    ensures Holes(g, Heights(g)) == 0 && CompleteLines(g) == 0
    ensures Bumpiness(Heights(g)) == 0 && Wells(Heights(g)) == 0
    ensures EvaluateF(e, g) == 0
  {
    EmptyGridMetrics(g);
    ZeroHeightsFlat(Heights(g));
  }

  /** The column metrics of the empty board. */
  lemma EmptyGridMetrics(g: Grid)
    requires WellFormed(g) && IsPerfectClearF(g)
    ensures Heights(g) == seq(BoardWidth, _ => 0) && Sum(Heights(g)) == 0
    ensures Holes(g, Heights(g)) == 0 && CompleteLines(g) == 0
  {
    var hs := Heights(g);
    forall c | 0 <= c < BoardWidth
      ensures hs[c] == 0
    {
      ColumnHeightUnique(g, c, 0);
    }
    assert hs == seq(BoardWidth, _ => 0);
    HolesAtMostHeight(g);
    assert Sum(hs) == 0 by {
      SumZero(hs);
    }
    forall r | 0 <= r < BoardHeight
      ensures !IsLineCompleteF(g, r)
    {
      assert !g[r][0].Filled?;
    }
    CompleteUpToSome(g, BoardHeight);
  }

  /** Columns all of height zero are neither bumpy nor have wells. */
  lemma ZeroHeightsFlat(hs: seq<nat>)
    requires |hs| > 0 && forall i :: 0 <= i < |hs| ==> hs[i] == 0
    ensures Bumpiness(hs) == 0 && Wells(hs) == 0
  {
    BumpinessFlat(hs);
    WellsNone(hs);
    forall i | 0 <= i < |hs|
      ensures WellAt(hs, i) == 0
    {
      WellAtSpec(hs, i);
    }
  }

  lemma {:induction false} SumZero(s: seq<nat>)
    ensures Sum(s) == 0 <==> forall i :: 0 <= i < |s| ==> s[i] == 0
  {
    if |s| > 0 {
      SumZero(s[..|s| - 1]);
    }
  }
}
