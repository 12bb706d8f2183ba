/**
  Piece geometry: the seven shapes, the four orientations, the static
  (shape, orientation) offset table and the cells a piece occupies.
*/
module Pieces {

  datatype PieceType = I | O | T | S | Z | J | L

  /** Orientation of a piece; the discriminant order is North, East, South, West. */
  datatype Rotation = North | East | South | West {

    /** One clockwise quarter turn. */
    function RotateCw(): (r: Rotation)
      ensures r.ToIndex() == (ToIndex() + 1) % 4
    {
      match this
      case North => East
      case East => South
      case South => West
      case West => North
    }

    /** One counter-clockwise quarter turn. */
    function RotateCcw(): (r: Rotation)
      ensures r.ToIndex() == (ToIndex() + 3) % 4
    {
      match this
      case North => West
      case East => North
      case South => East
      case West => South
    }

    /** The orientation's discriminant. */
    function ToIndex(): (i: nat)
      ensures i < 4
    {
      match this
      case North => 0
      case East => 1
      case South => 2
      case West => 3
    }
  }

  /** The four orientations in discriminant order. */
  const AllRotations: seq<Rotation> := [North, East, South, West]

  /** A piece: shape, signed pivot (row grows downwards) and orientation. */
  datatype Piece = Piece(pieceType: PieceType, row: int, col: int, rotation: Rotation)

  /** A (row, column) offset or kick. */
  type Offset = (int, int)

  /** A board position; only non-negative coordinates are produced. */
  type Pos = (nat, nat)

  /** A new piece in the North orientation at the given pivot. */
  function NewPiece(pieceType: PieceType, row: int, col: int): (p: Piece)
    ensures p.rotation == North && AllRotations[p.rotation.ToIndex()] == North
    ensures (p.pieceType, p.row, p.col) == (pieceType, row, col)
  {
    Piece(pieceType, row, col, North)
  }

  /** The static offset table: four (row, column) offsets per shape and orientation. */
  function BlockOffsets(t: PieceType, r: Rotation): (offs: seq<Offset>)
    ensures |offs| == 4
  {
    match (t, r)
    case (I, North) => [(0, -1), (0, 0), (0, 1), (0, 2)]
    case (I, East) => [(-1, 1), (0, 1), (1, 1), (2, 1)]
    case (I, South) => [(1, -1), (1, 0), (1, 1), (1, 2)]
    case (I, West) => [(-1, 0), (0, 0), (1, 0), (2, 0)]
    case (O, _) => [(0, 0), (0, 1), (1, 0), (1, 1)]
    case (T, North) => [(0, 0), (0, -1), (0, 1), (1, 0)]
    case (T, East) => [(0, 0), (-1, 0), (1, 0), (0, 1)]
    case (T, South) => [(0, 0), (0, -1), (0, 1), (-1, 0)]
    case (T, West) => [(0, 0), (-1, 0), (1, 0), (0, -1)]
    case (S, North) => [(0, 0), (0, -1), (1, 0), (1, 1)]
    case (S, East) => [(0, 0), (1, 0), (0, 1), (-1, 1)]
    case (S, South) => [(0, 0), (0, 1), (-1, 0), (-1, -1)]
    case (S, West) => [(0, 0), (-1, 0), (0, -1), (1, -1)]
    case (Z, North) => [(0, 0), (0, 1), (1, 0), (1, -1)]
    case (Z, East) => [(0, 0), (-1, 0), (0, -1), (1, -1)]
    case (Z, South) => [(0, 0), (0, -1), (-1, 0), (-1, 1)]
    case (Z, West) => [(0, 0), (1, 0), (0, 1), (-1, 1)]
    case (J, North) => [(0, 0), (0, -1), (0, 1), (-1, 1)]
    case (J, East) => [(0, 0), (-1, 0), (1, 0), (-1, -1)]
    case (J, South) => [(0, 0), (0, 1), (0, -1), (1, -1)]
    case (J, West) => [(0, 0), (1, 0), (-1, 0), (1, 1)]
    case (L, North) => [(0, 0), (0, -1), (0, 1), (1, 1)]
    case (L, East) => [(0, 0), (-1, 0), (1, 0), (1, -1)]
    case (L, South) => [(0, 0), (0, 1), (0, -1), (-1, -1)]
    case (L, West) => [(0, 0), (1, 0), (-1, 0), (-1, 1)]
  }

  /** The offsets of a piece in its current orientation. */
  function Offsets(p: Piece): seq<Offset>
  {
    BlockOffsets(p.pieceType, p.rotation)
  }

  /** The pivot plus one offset. */
  function CellOf(row: int, col: int, off: Offset): (int, int)
  {
    (row + off.0, col + off.1)
  }

  /** True when a pivot-plus-offset cell has no negative coordinate. */
  predicate Visible(row: int, col: int, off: Offset)
  {
    row + off.0 >= 0 && col + off.1 >= 0
  }

  /**
    The pivot-plus-offset cells with non-negative row and column, in the
    order of `offs`; cells with a negative coordinate are dropped.
  */
  function VisibleCells(row: int, col: int, offs: seq<Offset>): (r: seq<Pos>)
    ensures |r| <= |offs|
  {
    if |offs| == 0 then []
    else if Visible(row, col, offs[0]) then [(row + offs[0].0, col + offs[0].1)] + VisibleCells(row, col, offs[1..])
    else VisibleCells(row, col, offs[1..])
  }

  /** `c` is the pivot-plus-offset cell of some visible offset of `offs`. */
  predicate IsVisibleCell(row: int, col: int, offs: seq<Offset>, c: Pos)
  {
    exists i :: 0 <= i < |offs| && Visible(row, col, offs[i]) && c == CellOf(row, col, offs[i])
  }

  /** Every kept cell is a visible pivot-plus-offset cell. */
  lemma {:induction false} VisibleCellsSound(row: int, col: int, offs: seq<Offset>)
    ensures forall k :: 0 <= k < |VisibleCells(row, col, offs)| ==> IsVisibleCell(row, col, offs, VisibleCells(row, col, offs)[k])
  {
    if |offs| > 0 {
      var tail := offs[1..];
      var rest := VisibleCells(row, col, tail);
      var r := VisibleCells(row, col, offs);
      VisibleCellsSound(row, col, tail);
      var skip := if Visible(row, col, offs[0]) then 1 else 0;
      assert r[skip..] == rest;
      forall k | 0 <= k < |r|
        ensures IsVisibleCell(row, col, offs, r[k])
      {
        if k < skip {
          assert Visible(row, col, offs[0]) && r[k] == CellOf(row, col, offs[0]);
        } else {
          assert r[k] == rest[k - skip];
          assert IsVisibleCell(row, col, tail, rest[k - skip]);
          var i :| 0 <= i < |tail| && Visible(row, col, tail[i]) && rest[k - skip] == CellOf(row, col, tail[i]);
          assert tail[i] == offs[i + 1];
        }
      }
    } else {
      assert VisibleCells(row, col, offs) == [];
    }
  }

  /** Every visible pivot-plus-offset cell is kept. */
  lemma {:induction false} VisibleCellsComplete(row: int, col: int, offs: seq<Offset>)
    ensures forall i :: 0 <= i < |offs| && Visible(row, col, offs[i]) ==> CellOf(row, col, offs[i]) in VisibleCells(row, col, offs)
  {
    if |offs| > 0 {
      var tail := offs[1..];
      VisibleCellsComplete(row, col, tail);
      forall i | 0 <= i < |offs| && Visible(row, col, offs[i])
        ensures CellOf(row, col, offs[i]) in VisibleCells(row, col, offs)
      {
        if i > 0 {
          assert offs[i] == tail[i - 1];
        }
      }
    }
  }

  /** Nothing is dropped exactly when every cell is visible, and then the cells come in table order. */
  lemma {:induction false} VisibleCellsAll(row: int, col: int, offs: seq<Offset>)
    ensures |VisibleCells(row, col, offs)| == |offs| <==> forall i :: 0 <= i < |offs| ==> Visible(row, col, offs[i])
    ensures |VisibleCells(row, col, offs)| == |offs| ==>
      forall i :: 0 <= i < |offs| ==> VisibleCells(row, col, offs)[i] == CellOf(row, col, offs[i])
  {
    if |offs| > 0 {
      var tail := offs[1..];
      VisibleCellsAll(row, col, tail);
      assert forall i :: 1 <= i < |offs| ==> offs[i] == tail[i - 1];
    }
  }

  /**
    `VisibleCells` keeps exactly the visible pivot-plus-offset cells: each
    result is such a cell, each such cell is in the result, and when nothing is
    dropped the result is every cell in table order.
  */
  lemma VisibleCellsSpec(row: int, col: int, offs: seq<Offset>)
    ensures forall k :: 0 <= k < |VisibleCells(row, col, offs)| ==> IsVisibleCell(row, col, offs, VisibleCells(row, col, offs)[k])
    ensures forall i :: 0 <= i < |offs| && Visible(row, col, offs[i]) ==> CellOf(row, col, offs[i]) in VisibleCells(row, col, offs)
    ensures |VisibleCells(row, col, offs)| == |offs| <==> forall i :: 0 <= i < |offs| ==> Visible(row, col, offs[i])
    ensures |VisibleCells(row, col, offs)| == |offs| ==>
      forall i :: 0 <= i < |offs| ==> VisibleCells(row, col, offs)[i] == CellOf(row, col, offs[i])
  {
    VisibleCellsSound(row, col, offs);
    VisibleCellsComplete(row, col, offs);
    VisibleCellsAll(row, col, offs);
  }

  /** `get_blocks`: the cells the piece occupies on the board's coordinate grid. */
  function Blocks(p: Piece): (r: seq<Pos>)
    ensures |r| <= 4
  {
    VisibleCells(p.row, p.col, Offsets(p))
  }

  /** True when some block has a non-negative column, so the piece can leave the top by falling. */
  predicate Anchored(p: Piece)
  {
    exists i :: 0 <= i < 4 && p.col + Offsets(p)[i].1 >= 0
  }

  function WithClockwiseRotation(p: Piece): (q: Piece)
    ensures q.rotation == p.rotation.RotateCw()
    ensures (q.pieceType, q.row, q.col) == (p.pieceType, p.row, p.col)
  {
    p.(rotation := p.rotation.RotateCw())
  }

  function WithCounterclockwiseRotation(p: Piece): (q: Piece)
    ensures q.rotation == p.rotation.RotateCcw()
    ensures (q.pieceType, q.row, q.col) == (p.pieceType, p.row, p.col)
  {
    p.(rotation := p.rotation.RotateCcw())
  }

  function WithLeftMove(p: Piece): (q: Piece)
    ensures q.col == p.col - 1
    ensures (q.pieceType, q.row, q.rotation) == (p.pieceType, p.row, p.rotation)
  {
    p.(col := p.col - 1)
  }

  function WithRightMove(p: Piece): (q: Piece)
    ensures q.col == p.col + 1
    ensures (q.pieceType, q.row, q.rotation) == (p.pieceType, p.row, p.rotation)
  {
    p.(col := p.col + 1)
  }

  function WithDownMove(p: Piece): (q: Piece)
    ensures q.row == p.row + 1
    ensures (q.pieceType, q.col, q.rotation) == (p.pieceType, p.col, p.rotation)
  {
    p.(row := p.row + 1)
  }

  /** `k` successive down moves. */
  function DownBy(p: Piece, k: nat): Piece
  {
    if k == 0 then p else WithDownMove(DownBy(p, k - 1))
  }

  // ---------------------------------------------------------------------
  // Properties of the orientation cycle
  // ---------------------------------------------------------------------

  lemma RotateInverse(r: Rotation)
    ensures r.RotateCw().RotateCcw() == r
    ensures r.RotateCcw().RotateCw() == r
  {
  }

  lemma RotateFourTimes(r: Rotation)
    ensures r.RotateCw().RotateCw().RotateCw().RotateCw() == r
    ensures r.RotateCcw().RotateCcw().RotateCcw().RotateCcw() == r
  {
  }

  lemma IndexIsDiscriminant()
    ensures North.ToIndex() == 0 && East.ToIndex() == 1
    ensures South.ToIndex() == 2 && West.ToIndex() == 3
    ensures forall i :: 0 <= i < 4 ==> AllRotations[i].ToIndex() == i
  {
  }

  lemma IndexInjective(a: Rotation, b: Rotation)
    ensures a.ToIndex() == b.ToIndex() <==> a == b
  {
  }

  // ---------------------------------------------------------------------
  // Properties of the offset table
  // ---------------------------------------------------------------------

  /** No table entry repeats an offset. */
  lemma OffsetsDistinct(t: PieceType, r: Rotation)
    ensures forall i, j :: 0 <= i < j < 4 ==> BlockOffsets(t, r)[i] != BlockOffsets(t, r)[j]
  {
  }

  /** The O entry does not depend on the orientation. */
  lemma OShapeFixed(r: Rotation, r': Rotation)
    ensures BlockOffsets(O, r) == BlockOffsets(O, r')
  {
  }

  /** Every table offset lies in -1..2 rows and -1..2 columns, and some offset has a column >= 0. */
  lemma OffsetsBounded(t: PieceType, r: Rotation)
    ensures forall i :: 0 <= i < 4 ==> -1 <= BlockOffsets(t, r)[i].0 <= 2 && -1 <= BlockOffsets(t, r)[i].1 <= 2
    ensures exists i :: 0 <= i < 4 && BlockOffsets(t, r)[i].1 >= 0
  {
    match (t, r)
    case (I, East) => assert BlockOffsets(t, r)[0].1 >= 0;
    case (I, _) => assert BlockOffsets(t, r)[1].1 >= 0;
    case _ => assert BlockOffsets(t, r)[0].1 >= 0;
  }

  /** A piece whose pivot column is non-negative is anchored. */
  lemma NonNegativeColumnAnchored(p: Piece)
    requires p.col >= 0
    ensures Anchored(p)
  {
    OffsetsBounded(p.pieceType, p.rotation);
    var i :| 0 <= i < 4 && BlockOffsets(p.pieceType, p.rotation)[i].1 >= 0;
    assert p.col + Offsets(p)[i].1 >= 0;
  }

  /** The blocks of a piece with nothing off-grid are the four pivot-plus-offset cells in table order. */
  lemma BlocksAllVisible(p: Piece)
    requires p.row >= 1 && p.col >= 1
    ensures |Blocks(p)| == 4
    ensures forall i :: 0 <= i < 4 ==> Blocks(p)[i] == CellOf(p.row, p.col, Offsets(p)[i])
  {
    OffsetsBounded(p.pieceType, p.rotation);
    VisibleCellsSpec(p.row, p.col, Offsets(p));
  }

  // ---------------------------------------------------------------------
  // Properties of the value-returning moves
  // ---------------------------------------------------------------------

  lemma LeftRightInverse(p: Piece)
    ensures WithRightMove(WithLeftMove(p)) == p
    ensures WithLeftMove(WithRightMove(p)) == p
  {
  }

  lemma RotationCopiesInverse(p: Piece)
    ensures WithCounterclockwiseRotation(WithClockwiseRotation(p)) == p
    ensures WithClockwiseRotation(WithCounterclockwiseRotation(p)) == p
  {
    RotateInverse(p.rotation);
  }

  /** `k` down moves shift only the row, by `k`. */
  lemma {:induction false} DownByShift(p: Piece, k: nat)
    ensures DownBy(p, k) == p.(row := p.row + k)
  {
    if k > 0 {
      DownByShift(p, k - 1);
    }
  }

  /** Moves never change the anchoring, which depends only on the column and orientation. */
  lemma DownKeepsAnchored(p: Piece)
    ensures Anchored(WithDownMove(p)) == Anchored(p)
  {
    assert Offsets(WithDownMove(p)) == Offsets(p);
  }
}
