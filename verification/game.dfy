/**
 * The game controller (game.py): the field, the falling piece, the preview
 * piece, the bag of pieces still to be dealt, the score and the game-over flag.
 */
module Games {
  import opened Positions
  import opened Grids
  import opened Blocks

  /** The seven piece types; their ids index the 8-entry colour list. */
  const NumKinds := 7

  /**
   * One piece type as its subclass in blocks.py creates it: its id, its
   * rotation table and the offsets it is moved to when it is spawned.
   */
  datatype Shape = Shape(id: int, cells: Table, spawnRow: int, spawnColumn: int)

  ghost predicate AllInside(ps: seq<Position>) {
    forall i :: 0 <= i < |ps| ==> Inside(ps[i].row, ps[i].column)
  }

  ghost predicate AllEmpty(g: seq<seq<int>>, ps: seq<Position>)
    requires WellShaped(g) && AllInside(ps)
  {
    forall i :: 0 <= i < |ps| ==> g[ps[i].row][ps[i].column] == 0
  }

  /** A placement the moves accept: every cell inside the field and empty. */
  ghost predicate Legal(g: seq<seq<int>>, ps: seq<Position>)
    requires WellShaped(g)
  {
    AllInside(ps) && AllEmpty(g, ps)
  }

  /**
   * A valid piece type. That a freshly spawned piece lies inside the field is
   * an assumption about the tables of blocks.py.
   */
  ghost predicate ShapeOk(s: Shape) {
    && 1 <= s.id <= NumKinds
    && WellFormed(s.cells)
    && AllInside(Translated(s.cells[0], s.spawnRow, s.spawnColumn))
  }

  ghost predicate ShapesOk(shapes: seq<Shape>) {
    |shapes| == NumKinds && forall s :: s in shapes ==> ShapeOk(s)
  }

  /** The block is exactly as its type's constructor leaves it. */
  ghost predicate Spawned(b: Block, s: Shape)
    reads b
  {
    b.id == s.id && b.cells == s.cells && b.State() == Placement(0, s.spawnRow, s.spawnColumn)
  }

  /** Placement p is a rotation of table t and puts every cell inside the field. */
  ghost predicate Fits(t: Table, p: Placement) {
    WellFormed(t) && 0 <= p.rotation < |t| && AllInside(Translated(t[p.rotation], p.row, p.column))
  }

  /** A block that may become the falling piece: valid, with a known id, inside the field. */
  ghost predicate Placeable(b: Block)
    reads b
  {
    1 <= b.id <= NumKinds && Fits(b.cells, b.State())
  }

  /** The bag holds piece types of the game, each at most as often as the full set. */
  ghost predicate BagOk(bag: seq<Shape>, shapes: seq<Shape>) {
    multiset(bag) <= multiset(shapes)
  }

  /** The score table of update_score: nothing for 0 or for 4 or more lines. */
  function LineBonus(lines: int): nat {
    if lines == 1 then 100
    else if lines == 2 then 300
    else if lines == 3 then 500
    else 0
  }

  /** The field after writing `id` into each of the cells ps, one after another. */
  function Painted(g: seq<seq<int>>, ps: seq<Position>, id: int): (h: seq<seq<int>>)
    requires WellShaped(g) && AllInside(ps)
    ensures WellShaped(h)
  {
    if ps == [] then g
    else
      var p := ps[|ps| - 1];
      var h := Painted(g, ps[..|ps| - 1], id);
      h[p.row := h[p.row][p.column := id]]
  }

  /** A cell holds the piece id after locking iff it is one of the piece's cells. */
  lemma {:induction false} PaintedAt(g: seq<seq<int>>, ps: seq<Position>, id: int, r: int, c: int)
    requires WellShaped(g) && AllInside(ps) && Inside(r, c)
    ensures Painted(g, ps, id)[r][c] ==
      if exists i :: 0 <= i < |ps| && ps[i] == Position(r, c) then id else g[r][c]
  {
    if ps != [] {
      var init := ps[..|ps| - 1];
      PaintedAt(g, init, id, r, c);
      if exists i :: 0 <= i < |init| && init[i] == Position(r, c) {
        var i :| 0 <= i < |init| && init[i] == Position(r, c);
        assert ps[i] == Position(r, c);
      }
      if exists i :: 0 <= i < |ps| && ps[i] == Position(r, c) {
        var i :| 0 <= i < |ps| && ps[i] == Position(r, c);
        if i < |init| {
          assert init[i] == Position(r, c);
        }
      }
    }
  }

  /** Locking writes a known id, so the field keeps holding only 0 or known ids. */
  lemma {:induction false} PaintedKeepsValues(g: seq<seq<int>>, ps: seq<Position>, id: int, hi: int)
    requires WellShaped(g) && AllInside(ps) && ValuesWithin(g, hi) && 0 <= id <= hi
    ensures ValuesWithin(Painted(g, ps, id), hi)
  {
    if ps != [] {
      PaintedKeepsValues(g, ps[..|ps| - 1], id, hi);
    }
  }

  /** Every cell of the empty field is free. */
  lemma EmptyFits(ps: seq<Position>)
    requires AllInside(ps)
    ensures AllEmpty(EmptyGrid(), ps)
  {
  }

  /** `rest` is `pool` with the element at `index` taken out, the others in order. */
  ghost predicate Removed<T>(pool: seq<T>, index: int, rest: seq<T>) {
    && 0 <= index < |pool|
    && |rest| == |pool| - 1
    && (forall k :: 0 <= k < index ==> rest[k] == pool[k])
    && (forall k :: index <= k < |rest| ==> rest[k] == pool[k + 1])
  }

  /** random.choice followed by list.remove of the chosen element. */
  method Pick<T>(pool: seq<T>) returns (chosen: T, rest: seq<T>, index: nat)
    requires pool != []
    ensures Removed(pool, index, rest) && chosen == pool[index]
    ensures multiset(rest) + multiset{chosen} == multiset(pool)
  {
    index :| 0 <= index < |pool|;
    chosen := pool[index];
    rest := pool[..index] + pool[index + 1..];
    assert pool == pool[..index] + [chosen] + pool[index + 1..];
  }

  /** A new block of type s: Block's constructor, then the subclass's spawn move. */
  method Spawn(s: Shape) returns (b: Block)
    requires ShapeOk(s)
    ensures fresh(b) && Spawned(b, s) && Placeable(b)
  {
    b := new Block(s.id, s.cells);
    b.Move(s.spawnRow, s.spawnColumn);
  }

  class Game {
    const grid: Grid
    /** The seven piece types, in the order of the list game.py builds. */
    const shapes: seq<Shape>
    /** The types of the blocks still in the bag, in list order. */
    var blocks: seq<Shape>
    var currentBlock: Block
    var nextBlock: Block
    var gameOver: bool
    var score: int

    ghost predicate Valid()
      reads this`blocks, this`currentBlock, this`nextBlock, currentBlock, nextBlock
    {
      && grid.Valid()
      && ShapesOk(shapes)
      && BagOk(blocks, shapes)
      && Placeable(currentBlock)
      && Placeable(nextBlock)
      && currentBlock != nextBlock
    }

    constructor (shapes: seq<Shape>)
      requires ShapesOk(shapes)
      ensures Valid() && fresh(grid) && fresh(grid.cells)
      ensures this.shapes == shapes
      ensures grid.Rows() == EmptyGrid()
      ensures |blocks| == NumKinds - 2 && multiset(blocks) <= multiset(shapes)
      ensures !gameOver && score == 0
    {
      grid := new Grid();
      this.shapes := shapes;
      var first, rest, i := Pick(shapes);
      var second, rest', j := Pick(rest);
      var current := Spawn(first);
      var next := Spawn(second);
      currentBlock := current;
      nextBlock := next;
      blocks := rest';
      gameOver := false;
      score := 0;
      new;
    }

    method UpdateScore(linesCleared: int, moveDownPoints: int)
      modifies this`score
      ensures score == old(score) + LineBonus(linesCleared) + moveDownPoints
    {
      if linesCleared == 1 {
        score := score + 100;
      } else if linesCleared == 2 {
        score := score + 300;
      } else if linesCleared == 3 {
        score := score + 500;
      }
      score := score + moveDownPoints;
    }

    /** The next block: drawn from the bag, which is refilled with one of each type when empty. */
    method GetRandomBlock() returns (block: Block, ghost kind: Shape)
      requires ShapesOk(shapes) && BagOk(blocks, shapes)
      modifies this`blocks
      ensures BagOk(blocks, shapes)
      ensures var bag := if old(blocks) == [] then shapes else old(blocks);
        kind in bag && |blocks| == |bag| - 1 && multiset(blocks) + multiset{kind} == multiset(bag)
      ensures fresh(block) && Spawned(block, kind) && Placeable(block)
    {
      if |blocks| == 0 {
        blocks := shapes;
      }
      var chosen, index;
      chosen, blocks, index := Pick(blocks);
      assert chosen in multiset(shapes);
      kind := chosen;
      block := Spawn(chosen);
    }

    method BlockInside() returns (inside: bool)
      requires grid.Valid() && currentBlock.Valid()
      ensures inside <==> AllInside(currentBlock.CellPositions())
    {
      var tiles := currentBlock.CellPositions();
      for i := 0 to |tiles|
        invariant forall j :: 0 <= j < i ==> Inside(tiles[j].row, tiles[j].column)
      {
        if !grid.IsInside(tiles[i].row, tiles[i].column) {
          return false;
        }
      }
      return true;
    }

    method BlockFits() returns (fits: bool)
      requires grid.Valid() && currentBlock.Valid() && AllInside(currentBlock.CellPositions())
      ensures fits <==> AllEmpty(grid.Rows(), currentBlock.CellPositions())
    {
      var tiles := currentBlock.CellPositions();
      for i := 0 to |tiles|
        invariant forall j :: 0 <= j < i ==> grid.Rows()[tiles[j].row][tiles[j].column] == 0
      {
        if !grid.IsEmpty(tiles[i].row, tiles[i].column) {
          return false;
        }
      }
      return true;
    }

    /** block_inside() and, only when that holds, block_fits(). */
    method PlacementLegal() returns (legal: bool)
      requires grid.Valid() && currentBlock.Valid()
      ensures legal <==> Legal(grid.Rows(), currentBlock.CellPositions())
    {
      legal := BlockInside();
      if legal {
        legal := BlockFits();
      }
    }

    method MoveLeft()
      requires Valid()
      modifies currentBlock
      ensures Valid()
      ensures var before := old(currentBlock.State());
        var after := Shifted(before, 0, -1);
        currentBlock.State() == if Legal(grid.Rows(), currentBlock.CellsAt(after)) then after else before
      ensures old(AllEmpty(grid.Rows(), currentBlock.CellPositions())) ==>
        AllEmpty(grid.Rows(), currentBlock.CellPositions())
    {
      currentBlock.Move(0, -1);
      var legal := PlacementLegal();
      if !legal {
        currentBlock.Move(0, 1);
      }
    }

    method MoveRight()
      requires Valid()
      modifies currentBlock
      ensures Valid()
      ensures var before := old(currentBlock.State());
        var after := Shifted(before, 0, 1);
        currentBlock.State() == if Legal(grid.Rows(), currentBlock.CellsAt(after)) then after else before
      ensures old(AllEmpty(grid.Rows(), currentBlock.CellPositions())) ==>
        AllEmpty(grid.Rows(), currentBlock.CellPositions())
    {
      currentBlock.Move(0, 1);
      var legal := PlacementLegal();
      if !legal {
        currentBlock.Move(0, -1);
      }
    }

    method Rotate()
      requires Valid()
      modifies currentBlock
      ensures Valid()
      ensures var before := old(currentBlock.State());
        var after := Turned(before, |currentBlock.cells|);
        currentBlock.State() == if Legal(grid.Rows(), currentBlock.CellsAt(after)) then after else before
      ensures old(AllEmpty(grid.Rows(), currentBlock.CellPositions())) ==>
        AllEmpty(grid.Rows(), currentBlock.CellPositions())
    {
      TurnRoundTrip(currentBlock.State(), |currentBlock.cells|);
      currentBlock.Rotate();
      var legal := PlacementLegal();
      if !legal {
        currentBlock.UndoRotation();
      }
    }

    /** The loop of lock_block: each tile's cell of the field takes the block's id. */
    method Stamp(tiles: seq<Position>, id: int)
      requires grid.Valid() && AllInside(tiles)
      modifies grid.cells
      ensures grid.Rows() == Painted(old(grid.Rows()), tiles, id)
    {
      ghost var g := grid.Rows();
      for i := 0 to |tiles|
        invariant grid.Rows() == Painted(g, tiles[..i], id)
      {
        ghost var before := grid.Rows();
        var p := tiles[i];
        grid.cells[p.row, p.column] := id;
        assert tiles[..i + 1][..i] == tiles[..i];
        SameGrid(grid.Rows(), before[p.row := before[p.row][p.column := id]]);
      }
      assert tiles[..|tiles|] == tiles;
    }

    /** The middle of lock_block: the preview block becomes current and a new one is drawn. */
    method Promote()
      requires Valid()
      modifies this`currentBlock, this`nextBlock, this`blocks
      ensures Valid()
      ensures currentBlock == old(nextBlock) && fresh(nextBlock)
      ensures var bag := if old(blocks) == [] then shapes else old(blocks);
        |blocks| == |bag| - 1 && multiset(blocks) <= multiset(bag)
    {
      currentBlock := nextBlock;
      ghost var kind;
      nextBlock, kind := GetRandomBlock();
    }

    /** The end of lock_block, part one: full rows are cleared and scored. */
    method ClearAndScore()
      requires grid.Valid()
      modifies grid.cells, this`score
      ensures grid.Rows() == Compacted(old(grid.Rows()))
      ensures score == old(score) + LineBonus(ClearedCount(old(grid.Rows())))
    {
      var rowsCleared := grid.ClearFullRows();
      if rowsCleared > 0 {
        UpdateScore(rowsCleared, 0);
      }
    }

    /** The end of lock_block, part two: the game is over once the new block does not fit. */
    method CheckGameOver()
      requires grid.Valid() && Placeable(currentBlock)
      modifies this`gameOver
      ensures gameOver <==> old(gameOver) || !AllEmpty(grid.Rows(), currentBlock.CellPositions())
    {
      var fits := BlockFits();
      if !fits {
        gameOver := true;
      }
    }

    method LockBlock()
      requires Valid()
      modifies this, grid.cells
      ensures Valid()
      ensures var painted := Painted(old(grid.Rows()), old(currentBlock.CellPositions()), old(currentBlock.id));
        && grid.Rows() == Compacted(painted)
        && score == old(score) + LineBonus(ClearedCount(painted))
      ensures currentBlock == old(nextBlock)
      ensures fresh(nextBlock)
      ensures var bag := if old(blocks) == [] then shapes else old(blocks);
        |blocks| == |bag| - 1 && multiset(blocks) <= multiset(bag)
      ensures gameOver <==> old(gameOver) || !AllEmpty(grid.Rows(), currentBlock.CellPositions())
      ensures score >= old(score)
      ensures old(ValuesWithin(grid.Rows(), NumKinds)) ==> ValuesWithin(grid.Rows(), NumKinds)
    {
      var tiles := currentBlock.CellPositions();
      Stamp(tiles, currentBlock.id);
      ghost var painted := grid.Rows();
      if old(ValuesWithin(grid.Rows(), NumKinds)) {
        PaintedKeepsValues(old(grid.Rows()), tiles, old(currentBlock.id), NumKinds);
        CompactedKeepsValues(painted, NumKinds);
      }
      Promote();
      ClearAndScore();
      CheckGameOver();
    }

    method MoveDown()
      requires Valid()
      modifies this, currentBlock, grid.cells
      ensures Valid()
      ensures var below := old(currentBlock.CellsAt(Shifted(currentBlock.State(), 1, 0)));
        old(Legal(grid.Rows(), below)) ==>
          && currentBlock == old(currentBlock)
          && currentBlock.State() == Shifted(old(currentBlock.State()), 1, 0)
          && grid.Rows() == old(grid.Rows())
          && nextBlock == old(nextBlock) && blocks == old(blocks)
          && score == old(score) && gameOver == old(gameOver)
      ensures var below := old(currentBlock.CellsAt(Shifted(currentBlock.State(), 1, 0)));
        var painted := Painted(old(grid.Rows()), old(currentBlock.CellPositions()), old(currentBlock.id));
        !old(Legal(grid.Rows(), below)) ==>
          && old(currentBlock).State() == old(currentBlock.State())
          && currentBlock == old(nextBlock) && fresh(nextBlock)
          && (var bag := if old(blocks) == [] then shapes else old(blocks);
              |blocks| == |bag| - 1 && multiset(blocks) <= multiset(bag))
          && grid.Rows() == Compacted(painted)
          && score == old(score) + LineBonus(ClearedCount(painted))
          && (gameOver <==> old(gameOver) || !AllEmpty(grid.Rows(), currentBlock.CellPositions()))
    {
      currentBlock.Move(1, 0);
      var legal := PlacementLegal();
      if !legal {
        currentBlock.Move(-1, 0);
        LockBlock();
      }
    }

    /** The middle of reset: a full bag, then the current and the next block drawn from it. */
    method Deal()
      requires grid.Valid() && ShapesOk(shapes)
      modifies this`blocks, this`currentBlock, this`nextBlock
      ensures Valid()
      ensures |blocks| == NumKinds - 2 && multiset(blocks) <= multiset(shapes)
      ensures fresh(currentBlock) && fresh(nextBlock)
    {
      blocks := shapes;
      ghost var kind;
      currentBlock, kind := GetRandomBlock();
      nextBlock, kind := GetRandomBlock();
    }

    method Reset()
      requires Valid()
      modifies this`blocks, this`currentBlock, this`nextBlock, this`score, grid.cells
      ensures Valid()
      ensures grid.Rows() == EmptyGrid()
      ensures score == 0 && gameOver == old(gameOver)
      ensures |blocks| == NumKinds - 2 && multiset(blocks) <= multiset(shapes)
      ensures fresh(currentBlock) && fresh(nextBlock)
      ensures AllEmpty(grid.Rows(), currentBlock.CellPositions())
    {
      grid.Reset();
      Deal();
      score := 0;
      EmptyFits(currentBlock.CellPositions());
    }
  }

  /** The scenario of test.py's test_update_score on a new game. */
  method ScoreWalkthrough(shapes: seq<Shape>) returns (first: int, second: int)
    requires ShapesOk(shapes)
    ensures first == 110 && second == 415
  {
    var game := new Game(shapes);
    game.UpdateScore(1, 10);
    first := game.score;
    game.UpdateScore(2, 5);
    second := game.score;
  }
}
