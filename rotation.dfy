/**
  The rotation resolver: a one-step turn followed by a first-fit search over
  literal kick tables. Kicks are (row, column) shifts of the pivot.
*/
module Rotations {
  import opened TetrisCore
  import opened Pieces
  import opened Boards
  import opened Options

  /** The kick list for a turn of shape `t` from `from` to `to`; unlisted pairs fall back to [(0, 0)]. */
  function KickOffsets(t: PieceType, from: Rotation, to: Rotation): (ks: seq<Offset>)
    ensures |ks| >= 1 && ks[0] == (0, 0)
  {
    if t == I then
      match (from, to)
      case (North, East) => [(0, 0), (-1, 0), (2, 0), (-1, -2), (2, 1)]
      case (East, North) => [(0, 0), (1, 0), (-2, 0), (1, 2), (-2, -1)]
      case (East, South) => [(0, 0), (2, 0), (-1, 0), (2, -1), (-1, 2)]
      case (South, East) => [(0, 0), (-2, 0), (1, 0), (-2, 1), (1, -2)]
      case (South, West) => [(0, 0), (1, 0), (-2, 0), (1, 2), (-2, -1)]
      case (West, South) => [(0, 0), (-1, 0), (2, 0), (-1, -2), (2, 1)]
      case (West, North) => [(0, 0), (-2, 0), (1, 0), (-2, 1), (1, -2)]
      case (North, West) => [(0, 0), (2, 0), (-1, 0), (2, -1), (-1, 2)]
      case _ => [(0, 0)]
    else if t == O then
      [(0, 0)]
    else
      match (from, to)
      case (North, East) => [(0, 0), (-1, 0), (-1, 1), (0, -2), (-1, -2)]
      case (East, North) => [(0, 0), (1, 0), (1, -1), (0, 2), (1, 2)]
      case (East, South) => [(0, 0), (1, 0), (1, -1), (0, 2), (1, 2)]
      case (South, East) => [(0, 0), (-1, 0), (-1, 1), (0, -2), (-1, -2)]
      case (South, West) => [(0, 0), (1, 0), (1, 1), (0, -2), (1, -2)]
      case (West, South) => [(0, 0), (-1, 0), (-1, -1), (0, 2), (-1, 2)]
      case (West, North) => [(0, 0), (-1, 0), (-1, -1), (0, 2), (-1, 2)]
      case (North, West) => [(0, 0), (1, 0), (1, 1), (0, -2), (1, -2)]
      case _ => [(0, 0)]
  }

  /** The piece with its pivot shifted by a kick. */
  function Kicked(p: Piece, k: Offset): (q: Piece)
    ensures (q.pieceType, q.rotation) == (p.pieceType, p.rotation)
    ensures q.row - p.row == k.0 && q.col - p.col == k.1
  {
    p.(row := p.row + k.0, col := p.col + k.1)
  }

  /** True when kick `kicks[i]` gives a placeable piece and no earlier kick does. */
  predicate FirstFitAt(g: Grid, q: Piece, kicks: seq<Offset>, i: nat)
    requires WellFormed(g)
  {
    i < |kicks| && CanPlaceF(g, Kicked(q, kicks[i]))
    && forall j :: 0 <= j < i ==> !CanPlaceF(g, Kicked(q, kicks[j]))
  }

  /** The first kick of `kicks` whose shifted piece can be placed, applied to `q`. */
  function FirstFit(g: Grid, q: Piece, kicks: seq<Offset>): (r: Option<Piece>)
    requires WellFormed(g)
    ensures r.Some? ==> CanPlaceF(g, r.value) && r.value.pieceType == q.pieceType && r.value.rotation == q.rotation
    decreases |kicks|
  {
    if |kicks| == 0 then None
    else if CanPlaceF(g, Kicked(q, kicks[0])) then Some(Kicked(q, kicks[0]))
    else FirstFit(g, q, kicks[1..])
  }

  /** The search fails exactly when no kick fits, and otherwise returns `q` shifted by the first kick that fits. */
  lemma {:induction false} FirstFitSpec(g: Grid, q: Piece, kicks: seq<Offset>)
    requires WellFormed(g)
    ensures FirstFit(g, q, kicks).None? <==> forall j :: 0 <= j < |kicks| ==> !CanPlaceF(g, Kicked(q, kicks[j]))
    ensures FirstFit(g, q, kicks).Some? ==> exists i: nat :: FirstFitAt(g, q, kicks, i) && FirstFit(g, q, kicks).value == Kicked(q, kicks[i])
    decreases |kicks|
  {
    if |kicks| == 0 {
    } else if CanPlaceF(g, Kicked(q, kicks[0])) {
      assert FirstFitAt(g, q, kicks, 0);
    } else {
      var rest := kicks[1..];
      FirstFitSpec(g, q, rest);
      assert forall j :: 1 <= j < |kicks| ==> kicks[j] == rest[j - 1];
      if FirstFit(g, q, rest).Some? {
        var i: nat :| FirstFitAt(g, q, rest, i) && FirstFit(g, q, rest).value == Kicked(q, rest[i]);
        assert FirstFitAt(g, q, kicks, i + 1);
      }
    }
  }

  /** `rotate_clockwise` on a grid value. */
  function RotateCwF(g: Grid, p: Piece): (r: Option<Piece>)
    requires WellFormed(g)
    ensures r.Some? ==> r.value.pieceType == p.pieceType && r.value.rotation == p.rotation.RotateCw()
    ensures r.Some? ==> CanPlaceF(g, r.value)
  {
    FirstFit(g, WithClockwiseRotation(p), KickOffsets(p.pieceType, p.rotation, p.rotation.RotateCw()))
  }

  /** `rotate_counterclockwise` on a grid value. */
  function RotateCcwF(g: Grid, p: Piece): (r: Option<Piece>)
    requires WellFormed(g)
    ensures r.Some? ==> r.value.pieceType == p.pieceType && r.value.rotation == p.rotation.RotateCcw()
    ensures r.Some? ==> CanPlaceF(g, r.value)
  {
    FirstFit(g, WithCounterclockwiseRotation(p), KickOffsets(p.pieceType, p.rotation, p.rotation.RotateCcw()))
  }

  /** Tries the kicks in order on the turned piece and returns the first that fits. */
  method TryKicks(rotated: Piece, kicks: seq<Offset>, board: Board) returns (r: Option<Piece>)
    requires board.Valid()
    ensures r == FirstFit(board.Cells(), rotated, kicks)
  {
    ghost var g := board.Cells();
    for i := 0 to |kicks|
      invariant FirstFit(g, rotated, kicks) == FirstFit(g, rotated, kicks[i..])
    {
      var kicked := rotated;
      kicked := kicked.(row := kicked.row + kicks[i].0);
      kicked := kicked.(col := kicked.col + kicks[i].1);
      assert kicked == Kicked(rotated, kicks[i..][0]);
      var fits := board.CanPlace(kicked);
      assert kicks[i..][1..] == kicks[i + 1..];
      if fits {
        return Some(kicked);
      }
    }
    return None;
  }

  method RotateClockwise(piece: Piece, board: Board) returns (r: Option<Piece>)
    requires board.Valid()
    ensures r == RotateCwF(board.Cells(), piece)
  {
    var rotated := WithClockwiseRotation(piece);
    var kicks := KickOffsets(piece.pieceType, piece.rotation, rotated.rotation);
    r := TryKicks(rotated, kicks, board);
  }

  method RotateCounterclockwise(piece: Piece, board: Board) returns (r: Option<Piece>)
    requires board.Valid()
    ensures r == RotateCcwF(board.Cells(), piece)
  {
    var rotated := WithCounterclockwiseRotation(piece);
    var kicks := KickOffsets(piece.pieceType, piece.rotation, rotated.rotation);
    r := TryKicks(rotated, kicks, board);
  }

  // ---------------------------------------------------------------------
  // Properties of the kick tables
  // ---------------------------------------------------------------------

  /** A transition by a single quarter turn. */
  predicate OneStep(from: Rotation, to: Rotation)
  {
    to == from.RotateCw() || to == from.RotateCcw()
  }

  /**
    Every one-step transition of I, J, L, S, T and Z has its own five-entry
    list, O has only (0, 0), and the fallback arm is reached exactly by the
    pairs that are not one quarter turn apart.
  */
  lemma KickTableShape(t: PieceType, from: Rotation, to: Rotation)
    ensures t == O ==> KickOffsets(t, from, to) == [(0, 0)]
    ensures t != O && OneStep(from, to) ==> |KickOffsets(t, from, to)| == 5
    ensures !OneStep(from, to) ==> KickOffsets(t, from, to) == [(0, 0)]
  {
  }

  /** The list for the reverse turn is the entry-wise negation of the list for the forward turn. */
  lemma KickNegation(t: PieceType, from: Rotation, to: Rotation)
    requires OneStep(from, to)
    ensures |KickOffsets(t, to, from)| == |KickOffsets(t, from, to)|
    ensures forall i :: 0 <= i < |KickOffsets(t, from, to)| ==>
      KickOffsets(t, to, from)[i] == (-KickOffsets(t, from, to)[i].0, -KickOffsets(t, from, to)[i].1)
  {
  }

  // ---------------------------------------------------------------------
  // Properties of the resolver
  // ---------------------------------------------------------------------

  /**
    A clockwise turn succeeds exactly when some kick fits; its result is the
    turned piece shifted by the first kick that fits.
  */
  lemma RotateCwResult(g: Grid, p: Piece)
    requires WellFormed(g)
    ensures var kicks := KickOffsets(p.pieceType, p.rotation, p.rotation.RotateCw());
      && (RotateCwF(g, p).None? <==> forall j :: 0 <= j < |kicks| ==> !CanPlaceF(g, Kicked(WithClockwiseRotation(p), kicks[j])))
      && (RotateCwF(g, p).Some? ==> exists i: nat ::
            FirstFitAt(g, WithClockwiseRotation(p), kicks, i) && RotateCwF(g, p).value == Kicked(WithClockwiseRotation(p), kicks[i]))
  {
    FirstFitSpec(g, WithClockwiseRotation(p), KickOffsets(p.pieceType, p.rotation, p.rotation.RotateCw()));
  }

  /** The same for a counter-clockwise turn. */
  lemma RotateCcwResult(g: Grid, p: Piece)
    requires WellFormed(g)
    ensures var kicks := KickOffsets(p.pieceType, p.rotation, p.rotation.RotateCcw());
      && (RotateCcwF(g, p).None? <==> forall j :: 0 <= j < |kicks| ==> !CanPlaceF(g, Kicked(WithCounterclockwiseRotation(p), kicks[j])))
      && (RotateCcwF(g, p).Some? ==> exists i: nat ::
            FirstFitAt(g, WithCounterclockwiseRotation(p), kicks, i) && RotateCcwF(g, p).value == Kicked(WithCounterclockwiseRotation(p), kicks[i]))
  {
    FirstFitSpec(g, WithCounterclockwiseRotation(p), KickOffsets(p.pieceType, p.rotation, p.rotation.RotateCcw()));
  }

  /** A turn that fits in place keeps the pivot, since every list begins with (0, 0). */
  lemma UnobstructedKeepsPivot(g: Grid, p: Piece)
    requires WellFormed(g)
    ensures CanPlaceF(g, WithClockwiseRotation(p)) ==> RotateCwF(g, p) == Some(WithClockwiseRotation(p))
    ensures CanPlaceF(g, WithCounterclockwiseRotation(p)) ==> RotateCcwF(g, p) == Some(WithCounterclockwiseRotation(p))
  {
    assert Kicked(WithClockwiseRotation(p), (0, 0)) == WithClockwiseRotation(p);
    assert Kicked(WithCounterclockwiseRotation(p), (0, 0)) == WithCounterclockwiseRotation(p);
  }

  /** A successful O turn keeps the pivot and the set of occupied cells. */
  lemma ORotationKeepsBlocks(g: Grid, p: Piece)
    requires WellFormed(g) && p.pieceType == O
    ensures RotateCwF(g, p).Some? ==>
      RotateCwF(g, p).value.row == p.row && RotateCwF(g, p).value.col == p.col && Blocks(RotateCwF(g, p).value) == Blocks(p)
    ensures RotateCcwF(g, p).Some? ==>
      RotateCcwF(g, p).value.row == p.row && RotateCcwF(g, p).value.col == p.col && Blocks(RotateCcwF(g, p).value) == Blocks(p)
  {
    OShapeFixed(p.rotation, p.rotation.RotateCw());
    OShapeFixed(p.rotation, p.rotation.RotateCcw());
    RotateCwResult(g, p);
    RotateCcwResult(g, p);
  }

  // ---------------------------------------------------------------------
  // Scenarios of the resolver's unit tests
  // ---------------------------------------------------------------------

  /** On an empty board a piece fits whenever its pivot is at most row 19 and column 7. */
  lemma EmptyGridPlaceable(p: Piece)
    requires p.row <= 19 && p.col <= 7
    ensures CanPlaceF(EmptyGrid(), p)
  {
    OffsetsBounded(p.pieceType, p.rotation);
    var offs := Offsets(p);
    var bs := Blocks(p);
    VisibleCellsSpec(p.row, p.col, offs);
    forall k | 0 <= k < |bs|
      ensures InBounds(bs[k]) && EmptyGrid()[bs[k].0][bs[k].1] == Empty
    {
      var i :| 0 <= i < |offs| && Visible(p.row, p.col, offs[i]) && bs[k] == CellOf(p.row, p.col, offs[i]);
    }
  }

  /** On an empty board, a turn of such a piece succeeds in place. */
  lemma EmptyGridTurns(p: Piece)
    requires p.row <= 19 && p.col <= 7
    ensures RotateCwF(EmptyGrid(), p) == Some(WithClockwiseRotation(p))
    ensures RotateCcwF(EmptyGrid(), p) == Some(WithCounterclockwiseRotation(p))
  {
    EmptyGridPlaceable(WithClockwiseRotation(p));
    EmptyGridPlaceable(WithCounterclockwiseRotation(p));
    UnobstructedKeepsPivot(EmptyGrid(), p);
  }

  /**
    A T at (5, 5) on an empty board turns in place through North, East, South,
    West and back to North clockwise, and the reverse way counter-clockwise.
  */
  lemma FourTurnsReturn()
    ensures RotateCwF(EmptyGrid(), Piece(T, 5, 5, North)) == Some(Piece(T, 5, 5, East))
    ensures RotateCwF(EmptyGrid(), Piece(T, 5, 5, East)) == Some(Piece(T, 5, 5, South))
    ensures RotateCwF(EmptyGrid(), Piece(T, 5, 5, South)) == Some(Piece(T, 5, 5, West))
    ensures RotateCwF(EmptyGrid(), Piece(T, 5, 5, West)) == Some(Piece(T, 5, 5, North))
    ensures RotateCcwF(EmptyGrid(), Piece(T, 5, 5, North)) == Some(Piece(T, 5, 5, West))
    ensures RotateCcwF(EmptyGrid(), Piece(T, 5, 5, West)) == Some(Piece(T, 5, 5, South))
    ensures RotateCcwF(EmptyGrid(), Piece(T, 5, 5, South)) == Some(Piece(T, 5, 5, East))
    ensures RotateCcwF(EmptyGrid(), Piece(T, 5, 5, East)) == Some(Piece(T, 5, 5, North))
  {
    EmptyGridTurns(Piece(T, 5, 5, North));
    EmptyGridTurns(Piece(T, 5, 5, East));
    EmptyGridTurns(Piece(T, 5, 5, South));
    EmptyGridTurns(Piece(T, 5, 5, West));
  }

  /** Every shape at (5, 5) on an empty board turns both ways. */
  lemma AllShapesTurn(t: PieceType)
    ensures RotateCwF(EmptyGrid(), NewPiece(t, 5, 5)).Some?
    ensures RotateCcwF(EmptyGrid(), NewPiece(t, 5, 5)).Some?
  {
    EmptyGridTurns(NewPiece(t, 5, 5));
  }

  /** The board of the I wall-kick test: rows 5 to 8 of column 7 filled. */
  function WallGrid(): (g: Grid)
    ensures WellFormed(g)
  {
    seq(BoardHeight, r => seq(BoardWidth, c => if 5 <= r <= 8 && c == 7 then Filled(I) else Empty))
  }

  /** With rows 5 to 8 of column 6 empty, whatever else is filled, an I at (6, 5) turns clockwise in place into East. */
  lemma IColumnSixTurn(g: Grid)
    requires WellFormed(g) && forall r :: 5 <= r <= 8 ==> g[r][6] == Empty
    ensures RotateCwF(g, NewPiece(I, 6, 5)) == Some(Piece(I, 6, 5, East))
  {
    var q := WithClockwiseRotation(NewPiece(I, 6, 5));
    assert q == Piece(I, 6, 5, East);
    assert Blocks(q) == [(5, 6), (6, 6), (7, 6), (8, 6)];
    assert CanPlaceF(g, q);
    UnobstructedKeepsPivot(g, NewPiece(I, 6, 5));
  }

  /** An I at (6, 5) next to the wall turns clockwise into East with every block on the board and off column 7. */
  lemma IWallKick()
    ensures RotateCwF(WallGrid(), NewPiece(I, 6, 5)).Some?
    ensures RotateCwF(WallGrid(), NewPiece(I, 6, 5)).value.rotation == East
    ensures forall k :: 0 <= k < |Blocks(RotateCwF(WallGrid(), NewPiece(I, 6, 5)).value)| ==>
      InBounds(Blocks(RotateCwF(WallGrid(), NewPiece(I, 6, 5)).value)[k])
      && Blocks(RotateCwF(WallGrid(), NewPiece(I, 6, 5)).value)[k].1 != 7
  {
    IColumnSixTurn(WallGrid());
    assert Blocks(Piece(I, 6, 5, East)) == [(5, 6), (6, 6), (7, 6), (8, 6)];
  }

  /** The board of the blocked-rotation test: rows and columns 3 to 7 filled except (5, 5). */
  function CageGrid(): (g: Grid)
    ensures WellFormed(g)
  {
    seq(BoardHeight, r => seq(BoardWidth, c =>
      if 3 <= r < 8 && 3 <= c < 8 && !(r == 5 && c == 5) then Filled(I) else Empty))
  }

  /** Rows and columns 3 to 7 are filled except (5, 5), whatever the rest of the board holds. */
  ghost predicate Caged(g: Grid)
    requires WellFormed(g)
  {
    forall r, c :: 3 <= r < 8 && 3 <= c < 8 && !(r == 5 && c == 5) ==> g[r][c].Filled?
  }

  /** A piece with a block on a filled cell cannot be placed. */
  lemma FilledBlockBlocks(g: Grid, p: Piece, k: nat)
    requires WellFormed(g) && k < |Blocks(p)| && InBounds(Blocks(p)[k])
    requires g[Blocks(p)[k].0][Blocks(p)[k].1].Filled?
    ensures !CanPlaceF(g, p)
  {
  }

  /** On such a board a T at (5, 5) cannot turn clockwise: each East kick position keeps a block above its pivot, on a filled cell. */
  lemma CagedNoCw(g: Grid)
    requires WellFormed(g) && Caged(g)
    ensures RotateCwF(g, NewPiece(T, 5, 5)).None?
  {
    var q := WithClockwiseRotation(NewPiece(T, 5, 5));
    var ks := KickOffsets(T, North, East);
    forall j | 0 <= j < |ks|
      ensures !CanPlaceF(g, Kicked(q, ks[j]))
    {
      var p := Kicked(q, ks[j]);
      if j == 0 {
        assert p == Piece(T, 5, 5, East);
      } else if j == 1 {
        assert p == Piece(T, 4, 5, East);
      } else if j == 2 {
        assert p == Piece(T, 4, 6, East);
      } else if j == 3 {
        assert p == Piece(T, 5, 3, East);
      } else {
        assert p == Piece(T, 4, 3, East);
      }
      FilledBlockBlocks(g, p, 1);
    }
    FirstFitSpec(g, q, ks);
  }

  /** Nor counter-clockwise: each West kick position has a block on a filled cell. */
  lemma CagedNoCcw(g: Grid)
    requires WellFormed(g) && Caged(g)
    ensures RotateCcwF(g, NewPiece(T, 5, 5)).None?
  {
    var q := WithCounterclockwiseRotation(NewPiece(T, 5, 5));
    var ks := KickOffsets(T, North, West);
    forall j | 0 <= j < |ks|
      ensures !CanPlaceF(g, Kicked(q, ks[j]))
    {
      var p := Kicked(q, ks[j]);
      if j == 0 {
        assert p == Piece(T, 5, 5, West);
        FilledBlockBlocks(g, p, 1);
      } else {
        if j == 1 {
          assert p == Piece(T, 6, 5, West);
        } else if j == 2 {
          assert p == Piece(T, 6, 6, West);
        } else if j == 3 {
          assert p == Piece(T, 5, 3, West);
        } else {
          assert p == Piece(T, 6, 3, West);
        }
        FilledBlockBlocks(g, p, 0);
      }
    }
    FirstFitSpec(g, q, ks);
  }

  /** The blocked-rotation test's own board. */
  lemma CagedTCannotTurn()
    ensures RotateCwF(CageGrid(), NewPiece(T, 5, 5)).None?
    ensures RotateCcwF(CageGrid(), NewPiece(T, 5, 5)).None?
  {
    CagedNoCw(CageGrid());
    CagedNoCcw(CageGrid());
  }
}
