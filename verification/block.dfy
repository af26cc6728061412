/**
 * A falling piece (block.py): a rotation table, the current rotation index
 * and a translation by row and column offsets.
 */
module Blocks {
  import opened Positions

  /** Rotation index -> the piece's cells, relative to its offsets. */
  type Table = map<int, seq<Position>>

  /** The keys of a rotation table are exactly 0..K-1, for K = |t| >= 1. */
  ghost predicate WellFormed(t: Table) {
    |t| > 0 && forall k :: 0 <= k < |t| ==> k in t
  }

  /** The three fields of a block that commands change. */
  datatype Placement = Placement(rotation: int, row: int, column: int)

  function Shifted(p: Placement, rows: int, columns: int): Placement {
    Placement(p.rotation, p.row + rows, p.column + columns)
  }

  /** One step forward through `count` rotation states. */
  function Turned(p: Placement, count: int): Placement
    requires count > 0
  {
    p.(rotation := (p.rotation + 1) % count)
  }

  /** One step back through `count` rotation states. */
  function Unturned(p: Placement, count: int): Placement
    requires count > 0
  {
    p.(rotation := (p.rotation - 1) % count)
  }

  /** Every tile shifted by (rows, columns), in the same order. */
  function Translated(tiles: seq<Position>, rows: int, columns: int): (moved: seq<Position>)
    ensures |moved| == |tiles|
    ensures forall i :: 0 <= i < |tiles| ==>
      moved[i] == Position(tiles[i].row + rows, tiles[i].column + columns)
  {
    if tiles == [] then []
    else
      var last := tiles[|tiles| - 1];
      Translated(tiles[..|tiles| - 1], rows, columns) + [Position(last.row + rows, last.column + columns)]
  }

  /** A move followed by the opposite move restores the offsets. */
  lemma ShiftBack(p: Placement, rows: int, columns: int)
    ensures Shifted(Shifted(p, rows, columns), -rows, -columns) == p
  {
  }

  lemma ModSmall(x: int, n: int)
    requires 0 <= x < n
    ensures x % n == x
  {
  }

  lemma ModMinusOne(n: int)
    requires n > 0
    ensures (-1) % n == n - 1
  {
  }

  lemma ModSelf(n: int)
    requires n > 0
    ensures n % n == 0
  {
  }

  /** Rotation stays in range, and rotate and undo_rotation undo each other. */
  lemma TurnRoundTrip(p: Placement, count: int)
    requires 0 <= p.rotation < count
    ensures 0 <= Turned(p, count).rotation < count
    ensures 0 <= Unturned(p, count).rotation < count
    ensures Unturned(Turned(p, count), count) == p
    ensures Turned(Unturned(p, count), count) == p
  {
    var r := p.rotation;
    if r + 1 < count {
      ModSmall(r + 1, count);
      ModSmall(r, count);
    } else {
      ModSelf(count);
      ModMinusOne(count);
    }
    if r > 0 {
      ModSmall(r - 1, count);
      ModSmall(r, count);
    } else {
      ModMinusOne(count);
      ModSelf(count);
    }
  }

  /** Translating back by the opposite offsets gives the tiles back. */
  lemma TranslateBack(tiles: seq<Position>, rows: int, columns: int)
    ensures Translated(Translated(tiles, rows, columns), -rows, -columns) == tiles
  {
  }

  class Block {
    const id: int
    const cells: Table
    var rotationState: int
    var rowOffset: int
    var columnOffset: int

    ghost predicate Valid()
      reads this
    {
      WellFormed(cells) && 0 <= rotationState < |cells|
    }

    function State(): Placement
      reads this
    {
      Placement(rotationState, rowOffset, columnOffset)
    }

    /** The cells the block would occupy at placement p. */
    function CellsAt(p: Placement): seq<Position>
      requires WellFormed(cells) && 0 <= p.rotation < |cells|
    {
      Translated(cells[p.rotation], p.row, p.column)
    }

    constructor (id: int, cells: Table)
      requires WellFormed(cells)
      ensures Valid() && this.id == id && this.cells == cells
      ensures State() == Placement(0, 0, 0)
    {
      this.id := id;
      this.cells := cells;
      rowOffset := 0;
      columnOffset := 0;
      rotationState := 0;
    }

    method Move(rows: int, columns: int)
      modifies this
      ensures State() == Shifted(old(State()), rows, columns)
    {
      rowOffset := rowOffset + rows;
      columnOffset := columnOffset + columns;
    }

    /** get_cell_positions: the table entry for the current rotation, shifted by the offsets. */
    function CellPositions(): (ps: seq<Position>)
      reads this
      requires Valid()
      ensures |ps| == |cells[rotationState]|
      ensures forall i :: 0 <= i < |ps| ==>
        ps[i] == Position(cells[rotationState][i].row + rowOffset, cells[rotationState][i].column + columnOffset)
      ensures ps == CellsAt(State())
    {
      CellsAt(State())
    }

    method Rotate()
      requires Valid()
      modifies this
      ensures Valid()
      ensures State() == Turned(old(State()), |cells|)
    {
      rotationState := rotationState + 1;
      if rotationState == |cells| {
        rotationState := 0;
        ModSelf(|cells|);
      } else {
        ModSmall(rotationState, |cells|);
      }
    }

    method UndoRotation()
      requires Valid()
      modifies this
      ensures Valid()
      ensures State() == Unturned(old(State()), |cells|)
    {
      rotationState := rotationState - 1;
      if rotationState == -1 {
        rotationState := |cells| - 1;
        ModMinusOne(|cells|);
      } else {
        ModSmall(rotationState, |cells|);
      }
    }
  }

  /** Moving a block by (rows, columns) moves each of its cells by the same amount. */
  lemma CellsFollowShift(b: Block, p: Placement, rows: int, columns: int)
    requires WellFormed(b.cells) && 0 <= p.rotation < |b.cells|
    ensures b.CellsAt(Shifted(p, rows, columns)) == Translated(b.CellsAt(p), rows, columns)
  {
  }
}
