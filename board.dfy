/**
  The 10 x 22 board. The functional layer works on `Grid` values (row 0 at
  the top); the class `Board` keeps the grid in an array of rows and its
  methods are proved against the functional layer.
*/
module Boards {
  import opened TetrisCore
  import opened Pieces
  import opened Options

  datatype Cell = Empty | Filled(pieceType: PieceType)

  type Row = seq<Cell>
  type Grid = seq<Row>

  function EmptyRow(): (r: Row)
    ensures |r| == BoardWidth && forall c :: 0 <= c < |r| ==> r[c] == Empty
  {
    seq(BoardWidth, _ => Empty)
  }

  function EmptyGrid(): (g: Grid)
    ensures WellFormed(g)
  {
    seq(BoardHeight, _ => EmptyRow())
  }

  /** The grid's dimensions never change. */
  ghost predicate WellFormed(g: Grid)
  {
    |g| == BoardHeight && forall r :: 0 <= r < |g| ==> |g[r]| == BoardWidth
  }

  predicate InBounds(b: Pos)
  {
    b.0 < BoardHeight && b.1 < BoardWidth
  }

  /** Every cell produced by `Blocks` is on the board and empty. */
  predicate CanPlaceF(g: Grid, p: Piece)
    requires WellFormed(g)
  {
    BlocksFit(g, Blocks(p))
  }

  /** Every position is on the board and empty. */
  predicate BlocksFit(g: Grid, bs: seq<Pos>)
    requires WellFormed(g)
  {
    forall k :: 0 <= k < |bs| ==> InBounds(bs[k]) && g[bs[k].0][bs[k].1] == Empty
  }

  /** The grid with one in-bounds cell replaced. */
  function SetAt(g: Grid, b: Pos, c: Cell): (g': Grid)
    requires WellFormed(g) && InBounds(b)
    ensures WellFormed(g')
  {
    g[b.0 := g[b.0][b.1 := c]]
  }

  /** The grid after writing `c` at every position of `bs`, in order. */
  function WriteAll(g: Grid, bs: seq<Pos>, c: Cell): (g': Grid)
    requires WellFormed(g)
    requires forall k :: 0 <= k < |bs| ==> InBounds(bs[k])
    ensures WellFormed(g')
  {
    if |bs| == 0 then g else SetAt(WriteAll(g, bs[..|bs| - 1], c), bs[|bs| - 1], c)
  }

  /** The grid once the piece's blocks are filled with its shape. */
  function PlaceF(g: Grid, p: Piece): (g': Grid)
    requires WellFormed(g) && CanPlaceF(g, p)
    ensures WellFormed(g')
  {
    WriteAll(g, Blocks(p), Filled(p.pieceType))
  }

  predicate IsLineCompleteF(g: Grid, row: nat)
    requires WellFormed(g)
  {
    row < BoardHeight && forall c :: 0 <= c < BoardWidth ==> g[row][c] != Empty
  }

  /** Row `row` removed, the rows above it moved down by one and an empty row at the top. */
  function RemoveLineF(g: Grid, row: nat): (g': Grid)
    requires WellFormed(g)
    ensures WellFormed(g')
  {
    if row >= BoardHeight then g else [EmptyRow()] + g[..row] + g[row + 1..]
  }

  /**
    One pass over the original row indices `k - 1` down to 0: each index whose
    row is complete in the current grid is removed, and the scan goes on at the
    next smaller index. Returns the grid and the number of rows removed.
  */
  function ClearPass(g: Grid, k: nat): (res: (Grid, nat))
    requires WellFormed(g) && k <= BoardHeight
    ensures WellFormed(res.0) && res.1 <= k
    decreases k
  {
    if k == 0 then (g, 0)
    else if IsLineCompleteF(g, k - 1) then
      var res := ClearPass(RemoveLineF(g, k - 1), k - 1);
      (res.0, res.1 + 1)
    else ClearPass(g, k - 1)
  }

  /** `clear_lines` on a grid value. */
  function ClearLinesF(g: Grid): (res: (Grid, nat))
    requires WellFormed(g)
    ensures WellFormed(res.0) && res.1 <= BoardHeight
  {
    ClearPass(g, BoardHeight)
  }

  predicate IsTopBlockedF(g: Grid)
    requires WellFormed(g)
  {
    exists c :: 0 <= c < BoardWidth && g[0][c].Filled?
  }

  predicate IsPerfectClearF(g: Grid)
    requires WellFormed(g)
  {
    forall r, c :: 0 <= r < BoardHeight && 0 <= c < BoardWidth ==> !g[r][c].Filled?
  }

  /** Number of filled cells in a row. */
  function RowCount(r: Row): nat
  {
    if |r| == 0 then 0 else (if r[0].Filled? then 1 else 0) + RowCount(r[1..])
  }

  /** Number of filled cells in a grid. */
  function FilledCount(g: Grid): nat
  {
    if |g| == 0 then 0 else RowCount(g[0]) + FilledCount(g[1..])
  }

  // ---------------------------------------------------------------------
  // The board object
  // ---------------------------------------------------------------------

  class Board {
    /** The grid, one `Row` value per element; the array itself is never replaced. */
    const grid: array<Row>

    ghost predicate Valid()
      reads this, grid
    {
      grid.Length == BoardHeight && forall r :: 0 <= r < BoardHeight ==> |grid[r]| == BoardWidth
    }

    /** The board's contents as a grid value. */
    function Cells(): (g: Grid)
      reads this, grid
      requires Valid()
      ensures WellFormed(g)
    {
      grid[..]
    }

    /** `Board::new`: an empty board. */
    constructor ()
      ensures Valid() && fresh(grid)
      ensures Cells() == EmptyGrid()
    {
      grid := new Row[BoardHeight](_ => EmptyRow());
      new;
      assert grid[..] == EmptyGrid();
    }

    /** A board holding the given cells. */
    constructor FromCells(cells: Grid)
      requires WellFormed(cells)
      ensures Valid() && fresh(grid)
      ensures Cells() == cells
    {
      grid := new Row[BoardHeight](i requires 0 <= i < BoardHeight => cells[i]);
      new;
      assert grid[..] == cells;
    }

    /** An independent copy of this board. */
    method Copy() returns (b: Board)
      requires Valid()
      ensures fresh(b) && fresh(b.grid) && b.Valid()
      ensures b.Cells() == Cells()
    {
      b := new Board.FromCells(grid[..]);
    }

    function GetCell(row: nat, col: nat): (c: Option<Cell>)
      reads this, grid
      requires Valid()
      ensures c.Some? <==> row < BoardHeight && col < BoardWidth
      ensures c.Some? ==> c.value == Cells()[row][col]
    {
      if row < BoardHeight && col < BoardWidth then Some(grid[row][col]) else None
    }

    method SetCell(row: nat, col: nat, cell: Cell) returns (ok: bool)
      requires Valid()
      modifies grid
      ensures Valid()
      ensures ok <==> row < BoardHeight && col < BoardWidth
      ensures Cells() == if ok then SetAt(old(Cells()), (row, col), cell) else old(Cells())
    {
      if row < BoardHeight && col < BoardWidth {
        grid[row] := grid[row][col := cell];
        ok := true;
      } else {
        ok := false;
      }
    }

    method CanPlace(p: Piece) returns (b: bool)
      requires Valid()
      ensures b == CanPlaceF(Cells(), p)
    {
      var blocks := Blocks(p);
      ghost var g := Cells();
      var k := 0;
      while k < |blocks|
        invariant 0 <= k <= |blocks|
        invariant BlocksFit(g, blocks[..k])
      {
        var (row, col) := blocks[k];
        if row >= BoardHeight || col >= BoardWidth {
          return false;
        }
        var c := GetCell(row, col);
        if c.Some? && c.value.Filled? {
          return false;
        }
        assert blocks[..k + 1] == blocks[..k] + [blocks[k]];
        k := k + 1;
      }
      assert blocks[..k] == blocks;
      return true;
    }

    method PlacePiece(p: Piece) returns (ok: bool)
      requires Valid()
      modifies grid
      ensures Valid()
      ensures ok == CanPlaceF(old(Cells()), p)
      ensures Cells() == if ok then PlaceF(old(Cells()), p) else old(Cells())
    {
      ok := CanPlace(p);
      if !ok {
        return;
      }
      var blocks := Blocks(p);
      var k := 0;
      while k < |blocks|
        invariant 0 <= k <= |blocks|
        invariant Valid()
        invariant Cells() == WriteAll(old(Cells()), blocks[..k], Filled(p.pieceType))
      {
        var (row, col) := blocks[k];
        assert blocks[..k + 1][..k] == blocks[..k];
        grid[row] := grid[row][col := Filled(p.pieceType)];
        k := k + 1;
      }
      assert blocks[..k] == blocks;
    }

    method ClearLines() returns (linesCleared: nat)
      requires Valid()
      modifies grid
      ensures Valid()
      ensures (Cells(), linesCleared) == ClearLinesF(old(Cells()))
    {
      linesCleared := 0;
      var row := BoardHeight;
      while row > 0
        invariant Valid()
        invariant ClearPass(Cells(), row).0 == ClearLinesF(old(Cells())).0
        invariant ClearPass(Cells(), row).1 + linesCleared == ClearLinesF(old(Cells())).1
      {
        row := row - 1;
        var complete := IsLineComplete(row);
        if complete {
          RemoveLine(row);
          linesCleared := linesCleared + 1;
        }
      }
    }

    method IsLineComplete(row: nat) returns (b: bool)
      requires Valid()
      ensures b == IsLineCompleteF(Cells(), row)
    {
      if row >= BoardHeight {
        return false;
      }
      for col := 0 to BoardWidth
        invariant forall c :: 0 <= c < col ==> grid[row][c] != Empty
      {
        if grid[row][col] == Empty {
          return false;
        }
      }
      return true;
    }

    method RemoveLine(row: nat)
      requires Valid()
      modifies grid
      ensures Valid()
      ensures Cells() == RemoveLineF(old(Cells()), row)
    {
      if row >= BoardHeight {
        return;
      }
      var r := row;
      while r >= 1
        invariant 0 <= r <= row
        invariant Valid()
        invariant forall j :: r < j <= row ==> grid[j] == old(grid[j - 1])
        invariant forall j :: 0 <= j < BoardHeight && (j <= r || j > row) ==> grid[j] == old(grid[j])
      {
        grid[r] := grid[r - 1];
        r := r - 1;
      }
      grid[0] := EmptyRow();
      ghost var want := RemoveLineF(old(Cells()), row);
      assert forall j :: 0 <= j < BoardHeight ==> grid[j] == want[j];
    }

    method IsTopBlocked() returns (b: bool)
      requires Valid()
      ensures b == IsTopBlockedF(Cells())
    {
      for col := 0 to BoardWidth
        invariant forall c :: 0 <= c < col ==> !grid[0][c].Filled?
      {
        if grid[0][col].Filled? {
          return true;
        }
      }
      return false;
    }

    method Clear()
      requires Valid()
      modifies grid
      ensures Valid()
      ensures Cells() == EmptyGrid()
    {
      for row := 0 to BoardHeight
        invariant Valid()
        invariant forall r :: 0 <= r < row ==> grid[r] == EmptyRow()
      {
        for col := 0 to BoardWidth
          invariant Valid()
          invariant forall r :: 0 <= r < row ==> grid[r] == EmptyRow()
          invariant forall c :: 0 <= c < col ==> grid[row][c] == Empty
        {
          grid[row] := grid[row][col := Empty];
        }
        assert grid[row] == EmptyRow();
      }
      assert grid[..] == EmptyGrid();
    }

    method IsPerfectClear() returns (b: bool)
      requires Valid()
      ensures b == IsPerfectClearF(Cells())
    {
      for row := 0 to BoardHeight
        invariant forall r, c :: 0 <= r < row && 0 <= c < BoardWidth ==> !grid[r][c].Filled?
      {
        for col := 0 to BoardWidth
          invariant forall r, c :: 0 <= r < row && 0 <= c < BoardWidth ==> !grid[r][c].Filled?
          invariant forall c :: 0 <= c < col ==> !grid[row][c].Filled?
        {
          if grid[row][col].Filled? {
            return false;
          }
        }
      }
      return true;
    }
  }

  // ---------------------------------------------------------------------
  // Properties of the grid operations
  // ---------------------------------------------------------------------

  /** A written cell reads back; every other cell is unchanged. */
  lemma SetGet(g: Grid, b: Pos, c: Cell, r: nat, col: nat)
    requires WellFormed(g) && InBounds(b) && r < BoardHeight && col < BoardWidth
    ensures SetAt(g, b, c)[r][col] == if (r, col) == b then c else g[r][col]
  {
  }

  /** After writing `c` at the positions `bs`, exactly those cells hold `c`. */
  lemma {:induction false} WriteAllCells(g: Grid, bs: seq<Pos>, c: Cell, r: nat, col: nat)
    requires WellFormed(g) && forall k :: 0 <= k < |bs| ==> InBounds(bs[k])
    requires r < BoardHeight && col < BoardWidth
    ensures WriteAll(g, bs, c)[r][col] == if (r, col) in bs then c else g[r][col]
  {
    if |bs| > 0 {
      var front := bs[..|bs| - 1];
      WriteAllCells(g, front, c, r, col);
      assert bs == front + [bs[|bs| - 1]];
      SetGet(WriteAll(g, front, c), bs[|bs| - 1], c, r, col);
    }
  }

  /** Placing a piece fills exactly its blocks with its shape and leaves every other cell alone. */
  lemma PlaceCells(g: Grid, p: Piece, r: nat, col: nat)
    requires WellFormed(g) && CanPlaceF(g, p) && r < BoardHeight && col < BoardWidth
    ensures PlaceF(g, p)[r][col] == if (r, col) in Blocks(p) then Filled(p.pieceType) else g[r][col]
  {
    WriteAllCells(g, Blocks(p), Filled(p.pieceType), r, col);
  }

  /** A placed piece occupies its own cells, so it cannot be placed again where it is. */
  lemma PlacedPieceCollides(g: Grid, p: Piece)
    requires WellFormed(g) && CanPlaceF(g, p) && |Blocks(p)| > 0
    ensures !CanPlaceF(PlaceF(g, p), p)
  {
    var b := Blocks(p)[0];
    PlaceCells(g, p, b.0, b.1);
  }

  /** No element of `s` occurs twice. */
  predicate Distinct<T(==)>(s: seq<T>)
  {
    forall i, j :: 0 <= i < j < |s| ==> s[i] != s[j]
  }

  lemma DistinctCons<T>(x: T, s: seq<T>)
    requires Distinct(s) && x !in s
    ensures Distinct([x] + s)
  {
    forall i, j | 0 <= i < j < |[x] + s|
      ensures ([x] + s)[i] != ([x] + s)[j]
    {
      if i > 0 {
        assert ([x] + s)[i] == s[i - 1] && ([x] + s)[j] == s[j - 1];
      } else {
        assert ([x] + s)[j] == s[j - 1];
      }
    }
  }

  /** The pivot-plus-offset cells of distinct offsets are distinct. */
  lemma {:induction false} VisibleCellsDistinct(row: int, col: int, offs: seq<Offset>)
    requires Distinct(offs)
    ensures Distinct(VisibleCells(row, col, offs))
  {
    if |offs| > 0 {
      var tail := offs[1..];
      assert Distinct(tail) by {
        forall i, j | 0 <= i < j < |tail|
          ensures tail[i] != tail[j]
        {
          assert tail[i] == offs[i + 1] && tail[j] == offs[j + 1];
        }
      }
      var rest := VisibleCells(row, col, tail);
      VisibleCellsDistinct(row, col, tail);
      VisibleCellsSpec(row, col, tail);
      if Visible(row, col, offs[0]) {
        var head := CellOf(row, col, offs[0]);
        DistinctCons(head, rest);
        assert VisibleCells(row, col, offs) == [head] + rest;
      } else {
        assert VisibleCells(row, col, offs) == rest;
      }
    }
  }

  /** A piece never occupies the same cell twice. */
  lemma BlocksDistinct(p: Piece)
    ensures Distinct(Blocks(p))
  {
    OffsetsDistinct(p.pieceType, p.rotation);
    VisibleCellsDistinct(p.row, p.col, Offsets(p));
  }

  lemma {:induction false} RowCountBounded(r: Row)
    ensures RowCount(r) <= |r|
    ensures RowCount(r) == |r| <==> forall c :: 0 <= c < |r| ==> r[c].Filled?
    ensures RowCount(r) == 0 <==> forall c :: 0 <= c < |r| ==> !r[c].Filled?
  {
    if |r| > 0 {
      RowCountBounded(r[1..]);
      assert forall c :: 1 <= c < |r| ==> r[c] == r[1..][c - 1];
    }
  }

  /** Filling one empty cell of a row adds one to its count. */
  lemma {:induction false} RowCountFill(r: Row, c: nat, t: PieceType)
    requires c < |r| && r[c] == Empty
    ensures RowCount(r[c := Filled(t)]) == RowCount(r) + 1
  {
    if c > 0 {
      RowCountFill(r[1..], c - 1, t);
      assert r[c := Filled(t)][1..] == r[1..][c - 1 := Filled(t)];
    } else {
      assert r[c := Filled(t)][1..] == r[1..];
    }
  }

  lemma {:induction false} FilledCountAppend(a: Grid, b: Grid)
    ensures FilledCount(a + b) == FilledCount(a) + FilledCount(b)
  {
    if |a| > 0 {
      FilledCountAppend(a[1..], b);
      assert (a + b)[0] == a[0];
      assert (a + b)[1..] == a[1..] + b;
    } else {
      assert a + b == b;
    }
  }

  /** The count of a grid is the count of its rows before, at and after `r`. */
  lemma FilledCountSplit(g: Grid, r: nat)
    requires r < |g|
    ensures FilledCount(g) == FilledCount(g[..r]) + RowCount(g[r]) + FilledCount(g[r + 1..])
  {
    assert g == g[..r] + ([g[r]] + g[r + 1..]);
    FilledCountAppend(g[..r], [g[r]] + g[r + 1..]);
    FilledCountAppend([g[r]], g[r + 1..]);
  }

  /** Writing a filled cell over an empty one adds exactly one filled cell. */
  lemma SetAtFillCount(g: Grid, b: Pos, t: PieceType)
    requires WellFormed(g) && InBounds(b) && g[b.0][b.1] == Empty
    ensures FilledCount(SetAt(g, b, Filled(t))) == FilledCount(g) + 1
  {
    var g' := SetAt(g, b, Filled(t));
    FilledCountSplit(g, b.0);
    FilledCountSplit(g', b.0);
    assert g'[..b.0] == g[..b.0] && g'[b.0 + 1..] == g[b.0 + 1..];
    RowCountFill(g[b.0], b.1, t);
  }

  lemma {:induction false} WriteAllFillCount(g: Grid, bs: seq<Pos>, t: PieceType)
    requires WellFormed(g) && BlocksFit(g, bs)
    requires Distinct(bs)
    ensures FilledCount(WriteAll(g, bs, Filled(t))) == FilledCount(g) + |bs|
  {
    if |bs| > 0 {
      var front := bs[..|bs| - 1];
      var last := bs[|bs| - 1];
      WriteAllFillCount(g, front, t);
      WriteAllCells(g, front, Filled(t), last.0, last.1);
      assert last !in front;
      SetAtFillCount(WriteAll(g, front, Filled(t)), last, t);
    }
  }

  /** Placing a piece adds one filled cell per block. */
  lemma PlaceFillCount(g: Grid, p: Piece)
    requires WellFormed(g) && CanPlaceF(g, p)
    ensures FilledCount(PlaceF(g, p)) == FilledCount(g) + |Blocks(p)|
  {
    BlocksDistinct(p);
    WriteAllFillCount(g, Blocks(p), p.pieceType);
  }

  /** Removing row `row` moves every row above it down by one and empties the top row. */
  lemma RemoveLineRows(g: Grid, row: nat, r: nat)
    requires WellFormed(g) && row < BoardHeight && r < BoardHeight
    ensures RemoveLineF(g, row)[r] == if r == 0 then EmptyRow() else if r <= row then g[r - 1] else g[r]
  {
  }

  /** Removing a row takes away exactly that row's filled cells. */
  lemma RemoveLineCount(g: Grid, row: nat)
    requires WellFormed(g) && row < BoardHeight
    ensures FilledCount(RemoveLineF(g, row)) == FilledCount(g) - RowCount(g[row])
  {
    FilledCountSplit(g, row);
    var g' := RemoveLineF(g, row);
    assert g' == [EmptyRow()] + (g[..row] + g[row + 1..]);
    FilledCountAppend([EmptyRow()], g[..row] + g[row + 1..]);
    FilledCountAppend(g[..row], g[row + 1..]);
    RowCountBounded(EmptyRow());
  }

  /** Each row a pass removes held a full row's worth of cells. */
  lemma {:induction false} ClearPassCount(g: Grid, k: nat)
    requires WellFormed(g) && k <= BoardHeight
    ensures FilledCount(ClearPass(g, k).0) + BoardWidth * ClearPass(g, k).1 == FilledCount(g)
    decreases k
  {
    if k > 0 {
      if IsLineCompleteF(g, k - 1) {
        ClearPassCount(RemoveLineF(g, k - 1), k - 1);
        RemoveLineCount(g, k - 1);
        RowCountBounded(g[k - 1]);
      } else {
        ClearPassCount(g, k - 1);
      }
    }
  }

  /** Clearing lines takes away ten filled cells per line cleared. */
  lemma ClearLinesCount(g: Grid)
    requires WellFormed(g)
    ensures FilledCount(ClearLinesF(g).0) + BoardWidth * ClearLinesF(g).1 == FilledCount(g)
  {
    ClearPassCount(g, BoardHeight);
  }

  /** A pass over rows with no complete row changes nothing. */
  lemma {:induction false} ClearPassNoComplete(g: Grid, k: nat)
    requires WellFormed(g) && k <= BoardHeight
    requires forall r :: 0 <= r < k ==> !IsLineCompleteF(g, r)
    ensures ClearPass(g, k) == (g, 0)
    decreases k
  {
    if k > 0 {
      ClearPassNoComplete(g, k - 1);
    }
  }

  /** A pass clears something exactly when some scanned row is complete. */
  lemma {:induction false} ClearPassSome(g: Grid, k: nat)
    requires WellFormed(g) && k <= BoardHeight
    ensures ClearPass(g, k).1 > 0 <==> exists r :: 0 <= r < k && IsLineCompleteF(g, r)
    decreases k
  {
    if k > 0 {
      if IsLineCompleteF(g, k - 1) {
        assert ClearPass(g, k).1 > 0;
      } else {
        ClearPassSome(g, k - 1);
        if exists r :: 0 <= r < k && IsLineCompleteF(g, r) {
          var r :| 0 <= r < k && IsLineCompleteF(g, r);
          assert r < k - 1;
        }
      }
    }
  }

  /** `clear_lines` reports lines exactly when the board has a complete row, and otherwise leaves it unchanged. */
  lemma ClearLinesNothingToClear(g: Grid)
    requires WellFormed(g)
    ensures ClearLinesF(g).1 > 0 <==> exists r :: 0 <= r < BoardHeight && IsLineCompleteF(g, r)
    ensures (forall r :: 0 <= r < BoardHeight ==> !IsLineCompleteF(g, r)) ==> ClearLinesF(g) == (g, 0)
  {
    ClearPassSome(g, BoardHeight);
    if forall r :: 0 <= r < BoardHeight ==> !IsLineCompleteF(g, r) {
      ClearPassNoComplete(g, BoardHeight);
    }
  }

  /** A row whose every cell is filled with `t`. */
  function FullRow(t: PieceType): (r: Row)
    ensures |r| == BoardWidth && forall c :: 0 <= c < |r| ==> r[c] == Filled(t)
  {
    seq(BoardWidth, _ => Filled(t))
  }

  /** `n` empty rows above `m` full rows. */
  function Stack(n: nat, m: nat, t: PieceType): (g: Grid)
    ensures |g| == n + m
    ensures forall r :: 0 <= r < n ==> g[r] == EmptyRow()
    ensures forall r :: n <= r < n + m ==> g[r] == FullRow(t)
  {
    seq(n, _ => EmptyRow()) + seq(m, _ => FullRow(t))
  }

  lemma StackNoCompleteAbove(n: nat, m: nat, t: PieceType, k: nat)
    requires n + m == BoardHeight && k <= n
    ensures forall r :: 0 <= r < k ==> !IsLineCompleteF(Stack(n, m, t), r)
  {
    forall r | 0 <= r < k
      ensures !IsLineCompleteF(Stack(n, m, t), r)
    {
      assert Stack(n, m, t)[r][0] == Empty;
    }
  }

  /**
    Two complete rows at the bottom: the single bottom-up pass removes row 21,
    the upper full row moves down into row 21, which has already been scanned,
    so only one line is reported and a full row is left on the board.
  */
  lemma ClearTwoAdjacentRows(t: PieceType)
    ensures ClearLinesF(Stack(20, 2, t)) == (Stack(21, 1, t), 1)
  {
    var g := Stack(20, 2, t);
    assert IsLineCompleteF(g, 21);
    var g1 := RemoveLineF(g, 21);
    assert g1 == Stack(21, 1, t);
    StackNoCompleteAbove(21, 1, t, 21);
    ClearPassNoComplete(g1, 21);
  }

  /** Four complete rows at the bottom (a Tetris): the pass reports two lines and leaves two full rows. */
  lemma ClearFourRows(t: PieceType)
    ensures ClearLinesF(Stack(18, 4, t)) == (Stack(20, 2, t), 2)
  {
    var g := Stack(18, 4, t);
    assert IsLineCompleteF(g, 21);
    var g1 := RemoveLineF(g, 21);
    assert g1 == Stack(19, 3, t);
    assert IsLineCompleteF(g1, 20);
    var g2 := RemoveLineF(g1, 20);
    assert g2 == Stack(20, 2, t);
    StackNoCompleteAbove(20, 2, t, 20);
    ClearPassNoComplete(g2, 20);
  }

  /** A perfect clear is exactly the empty grid, that is, a grid with no filled cell. */
  lemma PerfectClearIsEmpty(g: Grid)
    requires WellFormed(g)
    ensures IsPerfectClearF(g) <==> g == EmptyGrid()
    ensures IsPerfectClearF(g) <==> FilledCount(g) == 0
  {
    if IsPerfectClearF(g) {
      forall r | 0 <= r < BoardHeight
        ensures g[r] == EmptyRow()
      {
        assert forall c :: 0 <= c < BoardWidth ==> g[r][c] == Empty;
      }
    }
    FilledCountZero(g);
  }

  lemma {:induction false} FilledCountZero(g: Grid)
    ensures FilledCount(g) == 0 <==> forall r, c :: 0 <= r < |g| && 0 <= c < |g[r]| ==> !g[r][c].Filled?
  {
    if |g| > 0 {
      FilledCountZero(g[1..]);
      RowCountBounded(g[0]);
      assert forall r :: 1 <= r < |g| ==> g[r] == g[1..][r - 1];
    }
  }

  /** A blocked spawn row rules out a perfect clear. */
  lemma TopBlockedNotPerfectClear(g: Grid)
    requires WellFormed(g) && IsTopBlockedF(g)
    ensures !IsPerfectClearF(g)
  {
  }

  /** The perfect-clear scenario of the board's unit test, on grid values. */
  lemma PerfectClearScenario()
    ensures IsPerfectClearF(EmptyGrid())
    ensures !IsPerfectClearF(SetAt(EmptyGrid(), (10, 5), Filled(T)))
    ensures !IsTopBlockedF(EmptyGrid())
  {
    assert SetAt(EmptyGrid(), (10, 5), Filled(T))[10][5].Filled?;
  }
}
