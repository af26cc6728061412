/**
 * The playing field (grid.py): a fixed 20x10 matrix of cell values, where 0
 * is an empty cell and any other value is the id of the piece that filled it.
 */
module Grids {

  const NumRows := 20
  const NumCols := 10

  /** A snapshot of the field has 20 rows of 10 cells each. */
  predicate WellShaped(g: seq<seq<int>>) {
    |g| == NumRows && forall r :: 0 <= r < |g| ==> |g[r]| == NumCols
  }

  /** The coordinates name a cell of the field. */
  predicate Inside(row: int, column: int) {
    0 <= row && row < NumRows && 0 <= column && column < NumCols
  }

  /** No cell of the row is empty. */
  predicate IsFull(cells: seq<int>) {
    forall c :: 0 <= c < |cells| ==> cells[c] != 0
  }

  /** Every cell value of the snapshot lies in 0..hi. */
  predicate ValuesWithin(g: seq<seq<int>>, hi: int) {
    forall r, c :: 0 <= r < |g| && 0 <= c < |g[r]| ==> 0 <= g[r][c] <= hi
  }

  function ZeroRow(): seq<int> {
    seq(NumCols, _ => 0)
  }

  function Zeros(n: nat): seq<seq<int>> {
    seq(n, _ => ZeroRow())
  }

  /** The field as the constructor and reset leave it. */
  function EmptyGrid(): seq<seq<int>> {
    Zeros(NumRows)
  }

  /** The rows that are not full, in their original order. */
  function NonFull(rows: seq<seq<int>>): (kept: seq<seq<int>>)
    ensures |kept| <= |rows|
    ensures forall i :: 0 <= i < |kept| ==> !IsFull(kept[i]) && kept[i] in rows
  {
    if rows == [] then []
    else (if IsFull(rows[0]) then [] else [rows[0]]) + NonFull(rows[1..])
  }

  /** The number of full rows, counted independently of NonFull. */
  function CountFull(rows: seq<seq<int>>): nat {
    if rows == [] then 0
    else (if IsFull(rows[0]) then 1 else 0) + CountFull(rows[1..])
  }

  /**
   * What one bottom-up pass of clear_full_rows leaves behind: row 0 as it was
   * (the scan never reaches it), then zero rows, then the rows of 1..19 that
   * were not full, in their original order, packed against the bottom.
   */
  function Compacted(g: seq<seq<int>>): seq<seq<int>>
    requires |g| == NumRows
  {
    var kept := NonFull(g[1..]);
    [g[0]] + Zeros(NumRows - 1 - |kept|) + kept
  }

  /** The value clear_full_rows returns. */
  function ClearedCount(g: seq<seq<int>>): nat
    requires |g| == NumRows
  {
    NumRows - 1 - |NonFull(g[1..])|
  }

  /** Two snapshots that agree cell by cell are equal. */
  lemma SameGrid(g: seq<seq<int>>, h: seq<seq<int>>)
    requires WellShaped(g) && WellShaped(h)
    requires forall r, c :: 0 <= r < NumRows && 0 <= c < NumCols ==> g[r][c] == h[r][c]
    ensures g == h
  {
    forall r | 0 <= r < NumRows
      ensures g[r] == h[r]
    {
      assert forall c :: 0 <= c < NumCols ==> g[r][c] == h[r][c];
    }
  }

  lemma {:induction false} NonFullCount(rows: seq<seq<int>>)
    ensures |NonFull(rows)| + CountFull(rows) == |rows|
  {
    if rows != [] {
      NonFullCount(rows[1..]);
    }
  }

  /** Filtering distributes over concatenation: the relative order is kept. */
  lemma {:induction false} NonFullAppend(s: seq<seq<int>>, t: seq<seq<int>>)
    ensures NonFull(s + t) == NonFull(s) + NonFull(t)
  {
    if s == [] {
      assert s + t == t;
    } else {
      assert (s + t)[1..] == s[1..] + t;
      NonFullAppend(s[1..], t);
    }
  }

  /** A sequence without full rows is its own filter. */
  lemma {:induction false} NonFullIdentity(rows: seq<seq<int>>)
    requires forall i :: 0 <= i < |rows| ==> !IsFull(rows[i])
    ensures NonFull(rows) == rows
  {
    if rows != [] {
      NonFullIdentity(rows[1..]);
    }
  }

  /** Every row of the filter is a row of a well-shaped snapshot, so it has 10 cells. */
  lemma NonFullShape(rows: seq<seq<int>>)
    requires forall i :: 0 <= i < |rows| ==> |rows[i]| == NumCols
    ensures forall i :: 0 <= i < |NonFull(rows)| ==> |NonFull(rows)[i]| == NumCols
  {
  }

  /** clear_full_rows returns the number of rows among 1..19 that were full. */
  lemma ClearedCountIsFullRows(g: seq<seq<int>>)
    requires |g| == NumRows
    ensures ClearedCount(g) == CountFull(g[1..])
  {
    NonFullCount(g[1..]);
  }

  /**
   * The shape of the field after clear_full_rows returns k: row 0 unchanged,
   * rows 1..k zero, the kept rows at the bottom, and no full row in 1..19.
   */
  lemma CompactedShape(g: seq<seq<int>>)
    requires WellShaped(g)
    ensures WellShaped(Compacted(g))
    ensures Compacted(g)[0] == g[0]
    ensures forall r :: 1 <= r <= ClearedCount(g) ==> Compacted(g)[r] == ZeroRow()
    ensures Compacted(g)[NumRows - |NonFull(g[1..])|..] == NonFull(g[1..])
    ensures forall r :: 1 <= r < NumRows ==> !IsFull(Compacted(g)[r])
  {
    var kept := NonFull(g[1..]);
    var h := Compacted(g);
    NonFullShape(g[1..]);
    assert !IsFull(ZeroRow()) by { assert ZeroRow()[0] == 0; }
    forall r | 1 <= r < NumRows
      ensures !IsFull(h[r])
    {
      if r < NumRows - |kept| {
        assert h[r] == ZeroRow();
      } else {
        assert h[r] == kept[r - (NumRows - |kept|)];
      }
    }
  }

  /** With no full row among 1..19 the pass changes nothing and returns 0. */
  lemma CompactedIdentity(g: seq<seq<int>>)
    requires |g| == NumRows
    requires forall r :: 1 <= r < NumRows ==> !IsFull(g[r])
    ensures Compacted(g) == g && ClearedCount(g) == 0
  {
    var rest := g[1..];
    forall i | 0 <= i < |rest|
      ensures !IsFull(rest[i])
    {
      assert rest[i] == g[i + 1];
    }
    NonFullIdentity(rest);
    assert Zeros(0) == [];
    assert [g[0]] + rest == g;
  }

  /** In particular the empty field is left as it is. */
  lemma CompactedEmpty()
    ensures Compacted(EmptyGrid()) == EmptyGrid() && ClearedCount(EmptyGrid()) == 0
  {
    assert EmptyGrid()[1][0] == 0;
    CompactedIdentity(EmptyGrid());
  }

  /** The pass only moves and zeroes rows, so no new cell values appear. */
  lemma CompactedKeepsValues(g: seq<seq<int>>, hi: int)
    requires |g| == NumRows && 0 <= hi
    requires ValuesWithin(g, hi)
    ensures ValuesWithin(Compacted(g), hi)
  {
    var kept := NonFull(g[1..]);
    var h := Compacted(g);
    forall r, c | 0 <= r < |h| && 0 <= c < |h[r]|
      ensures 0 <= h[r][c] <= hi
    {
      if r == 0 {
      } else if r < NumRows - |kept| {
        assert h[r] == ZeroRow();
      } else {
        assert h[r] == kept[r - (NumRows - |kept|)];
        assert h[r] in g;
      }
    }
  }

  /**
   * The field while clear_full_rows is scanning: rows 0..row untouched, then
   * n zero rows, then the non-full rows seen so far (those below row).
   */
  ghost function Scanned(g: seq<seq<int>>, row: int, n: nat): seq<seq<int>>
    requires 0 <= row < |g|
  {
    g[..row + 1] + Zeros(n) + NonFull(g[row + 1..])
  }

  /** Scanning a full row: clearing it adds one zero row and keeps nothing. */
  lemma ScanFull(g: seq<seq<int>>, row: int, n: nat)
    requires 1 <= row < |g| && IsFull(g[row])
    ensures Scanned(g, row, n)[row := ZeroRow()] == Scanned(g, row - 1, n + 1)
    ensures |NonFull(g[row..])| == |NonFull(g[row + 1..])|
  {
    assert g[row..][1..] == g[row + 1..];
  }

  /** Scanning a non-full row with n > 0 zero rows below it: it moves down by n. */
  lemma ScanShift(g: seq<seq<int>>, row: int, n: nat)
    requires 1 <= row < |g| && !IsFull(g[row]) && n > 0
    ensures var s := Scanned(g, row, n);
      s[row + n := s[row]][row := ZeroRow()] == Scanned(g, row - 1, n)
    ensures |NonFull(g[row..])| == |NonFull(g[row + 1..])| + 1
  {
    assert g[row..][1..] == g[row + 1..];
  }

  /** Scanning a non-full row with nothing cleared yet: it stays where it is. */
  lemma ScanKeep(g: seq<seq<int>>, row: int)
    requires 1 <= row < |g| && !IsFull(g[row])
    ensures Scanned(g, row, 0) == Scanned(g, row - 1, 0)
    ensures |NonFull(g[row..])| == |NonFull(g[row + 1..])| + 1
  {
    assert g[row..][1..] == g[row + 1..];
  }

  class Grid {
    const cells: array2<int>

    /** The dimensions are fixed at construction (grid.py:10). */
    predicate Valid() {
      cells.Length0 == NumRows && cells.Length1 == NumCols
    }

    /** The field as a sequence of rows. */
    ghost function Rows(): (g: seq<seq<int>>)
      reads cells
      requires Valid()
      ensures WellShaped(g)
      ensures forall r, c :: 0 <= r < NumRows && 0 <= c < NumCols ==> g[r][c] == cells[r, c]
    {
      seq(NumRows, r requires 0 <= r < NumRows reads cells =>
        seq(NumCols, c requires 0 <= c < NumCols reads cells => cells[r, c]))
    }

    constructor ()
      ensures Valid() && fresh(cells)
      ensures Rows() == EmptyGrid()
    {
      cells := new int[NumRows, NumCols]((r, c) => 0);
      new;
      SameGrid(Rows(), EmptyGrid());
    }

    function IsInside(row: int, column: int): (inside: bool)
      requires Valid()
      ensures inside <==> 0 <= row < cells.Length0 && 0 <= column < cells.Length1
    {
      Inside(row, column)
    }

    function IsEmpty(row: int, column: int): (empty: bool)
      reads cells
      requires Valid() && IsInside(row, column)
      ensures empty <==> Rows()[row][column] == 0
    {
      cells[row, column] == 0
    }

    method IsRowFull(row: int) returns (full: bool)
      requires Valid() && 0 <= row < NumRows
      ensures full <==> IsFull(Rows()[row])
    {
      for column := 0 to NumCols
        invariant forall c :: 0 <= c < column ==> cells[row, c] != 0
      {
        if cells[row, column] == 0 {
          return false;
        }
      }
      return true;
    }

    method ClearRow(row: int)
      requires Valid() && 0 <= row < NumRows
      modifies cells
      ensures Rows() == old(Rows())[row := ZeroRow()]
    {
      for column := 0 to NumCols
        invariant forall c :: 0 <= c < column ==> cells[row, c] == 0
        invariant forall r, c :: 0 <= r < NumRows && 0 <= c < NumCols && (r != row || c >= column) ==>
          cells[r, c] == old(cells[r, c])
      {
        cells[row, column] := 0;
      }
      SameGrid(Rows(), old(Rows())[row := ZeroRow()]);
    }

    /**
     * Copies row `row` into row `row + n` and then zeroes row `row`; with
     * n == 0 the row simply ends up zero.
     */
    method MoveRowDown(row: int, n: int)
      requires Valid() && 0 <= row < NumRows && 0 <= row + n < NumRows
      modifies cells
      ensures Rows() == old(Rows())[row + n := old(Rows())[row]][row := ZeroRow()]
    {
      for column := 0 to NumCols
        invariant forall c :: 0 <= c < column ==> cells[row, c] == 0
        invariant forall c :: 0 <= c < column && n != 0 ==> cells[row + n, c] == old(cells[row, c])
        invariant forall r, c :: 0 <= r < NumRows && 0 <= c < NumCols && ((r != row && r != row + n) || c >= column) ==>
          cells[r, c] == old(cells[r, c])
      {
        cells[row + n, column] := cells[row, column];
        cells[row, column] := 0;
      }
      SameGrid(Rows(), old(Rows())[row + n := old(Rows())[row]][row := ZeroRow()]);
    }

    method ClearFullRows() returns (completed: int)
      requires Valid()
      modifies cells
      ensures Rows() == Compacted(old(Rows()))
      ensures completed == ClearedCount(old(Rows()))
    {
      ghost var g := Rows();
      completed := 0;
      var row := NumRows - 1;
      assert Scanned(g, row, 0) == g;
      while row > 0
        invariant 0 <= row < NumRows
        invariant completed + |NonFull(g[row + 1..])| == NumRows - 1 - row
        invariant Rows() == Scanned(g, row, completed)
      {
        ghost var before := Rows();
        var full := IsRowFull(row);
        if full {
          ClearRow(row);
          ScanFull(g, row, completed);
          assert Rows() == before[row := ZeroRow()];
          completed := completed + 1;
        } else if completed > 0 {
          MoveRowDown(row, completed);
          ScanShift(g, row, completed);
          assert Rows() == before[row + completed := before[row]][row := ZeroRow()];
        } else {
          ScanKeep(g, row);
        }
        row := row - 1;
      }
      assert g[..1] == [g[0]];
    }

    method Reset()
      requires Valid()
      modifies cells
      ensures Rows() == EmptyGrid()
    {
      for row := 0 to NumRows
        invariant forall r, c :: 0 <= r < row && 0 <= c < NumCols ==> cells[r, c] == 0
      {
        for column := 0 to NumCols
          invariant forall r, c :: 0 <= r < row && 0 <= c < NumCols ==> cells[r, c] == 0
          invariant forall c :: 0 <= c < column ==> cells[row, c] == 0
        {
          cells[row, column] := 0;
        }
      }
      SameGrid(Rows(), EmptyGrid());
    }
  }
}
