# Tetris gameplay core in Dafny

This project models the gameplay logic of a small Tetris-style game and
proves properties of that model:

- the 20x10 playing field (`Grid`, grid.py), which holds 0 for an empty cell
  and otherwise the id of the piece that filled it;
- the falling piece (`Block`, block.py), which is a rotation table, a rotation
  index and row and column offsets;
- the cell coordinates (`Position`, position.py);
- the game controller (`Game`, game.py), which owns the field, the current
  and the next piece, the bag of piece types still to be dealt, the score and
  the game-over flag.

Modules:

- `Positions` (position.dfy) is the `Position` datatype.
- `Grids` (grid.dfy):
  - the `Grid` class over a `const array2<int>` of 20x10 cells;
  - a ghost `Rows()` view of the cells as a sequence of rows;
  - the value-level specification of `clear_full_rows`. `Compacted(g)`
    keeps row 0 as it is, then has `ClearedCount(g)` zero rows, then the
    non-full rows of 1..19 in their original order, packed against the
    bottom.
- `Blocks` (block.dfy):
  - the `Block` class, whose methods update the rotation index and the
    offsets in place;
  - `Placement` values with the functions `Shifted`, `Turned` and
    `Unturned`, which specify those methods;
  - `Translated`, which models `get_cell_positions`.
- `Games` (game.dfy):
  - the `Game` class;
  - `Painted`, which specifies how locking writes the piece into the field;
  - `LineBonus`, the score table;
  - `Pick`, a nondeterministic stand-in for `random.choice` followed by
    `list.remove`;
  - `Spawn`, which builds a new piece of a given type.

The game's seven piece types are defined in blocks.py, and blocks.py is not
part of this model. Each type becomes a `Shape` value:

- its id;
- its rotation table, where the keys are exactly 0..K-1;
- the offsets its constructor moves it to.

The list of seven shapes is a parameter of the `Game` constructor.
`ShapeOk` states what the model assumes about each of these tables:

- its id is one of 1..7;
- its rotation keys are exactly 0..K-1, for some K >= 1;
- a freshly spawned piece lies inside the field.

The model follows the code where it differs from a textbook game:

- The scan of `clear_full_rows` runs over rows 19 down to 1
  (grid.py:104). Row 0 is never examined, cleared or moved, even when it is
  full.
- `reset` does not clear the game-over flag (game.py:139-143), although
  its docstring says it restores "the initial setup" (game.py:134), and the
  initial setup has the flag false (game.py:36).
- The move commands still work once the game is over. A textbook game
  disables them.
- Clearing 4 lines scores nothing (game.py:55-61).

## Model

| member | source | states |
|---|---|---|
| Grids.Grid.constructor | grid.py:6-10 | the field has 20 rows of 10 cells and every cell is 0 |
| Grids.Grid.IsInside | grid.py:36-38 | true iff 0 <= row < 20 and 0 <= column < 10, the dimensions of the cell array |
| Grids.Grid.IsEmpty | grid.py:51-53 | for a cell inside the field: true iff the cell holds 0 |
| Grids.Grid.IsRowFull | grid.py:64-67 | true iff no cell of the row is 0 |
| Grids.Grid.ClearRow | grid.py:78-79 | the row becomes all zero and every other row keeps its contents |
| Grids.Grid.MoveRowDown | grid.py:92-94 | for row + n inside the field: row + n takes the old contents of the row, the row becomes zero, and no other row changes |
| Grids.Grid.ClearFullRows | grid.py:103-110 | the field afterwards is `Compacted` of the field before, and the returned count is `ClearedCount` of it |
| Grids.Grid.Reset | grid.py:119-121 | every cell becomes 0 and the dimensions stay 20x10 |
| Grids.NonFull | grid.py:104-109 | the rows the pass keeps are never more than the rows it scans, and each is a row of the input that is not full |
| Grids.NonFullCount | grid.py:103-110 | kept rows plus full rows account for every scanned row |
| Grids.NonFullAppend | grid.py:104-109 | the kept rows of two stretches of rows are the kept rows of each stretch, in the same order |
| Grids.NonFullIdentity | grid.py:103-110 | when no row is full, every row is kept, in order |
| Grids.ClearedCountIsFullRows | grid.py:103-110 | the value clear_full_rows returns equals the number of rows among 1..19 that were full on entry |
| Grids.CompactedShape | grid.py:104-109 | after the pass: the field is still 20x10, row 0 is unchanged, rows 1..k are zero for the returned k, the non-full rows of 1..19 fill the bottom rows in their original order, and no row in 1..19 is full |
| Grids.CompactedIdentity | grid.py:103-110 | with no full row among 1..19 the pass returns 0 and leaves the field unchanged |
| Grids.CompactedEmpty | grid.py:103-110 | on the empty field the pass returns 0 and leaves the field empty |
| Grids.CompactedKeepsValues | grid.py:104-109 | the pass only moves and zeroes rows, so if every cell held a value in 0..hi before, every cell still does |
| Grids.ScanFull | grid.py:105-107 | one loop step on a full row: clearing it turns the scanned state for this row into the one for the row above, with one more cleared row |
| Grids.ScanShift | grid.py:108-109 | one loop step on a non-full row after n > 0 clears: moving it down by n turns the scanned state into the one for the row above, and the kept count grows by one |
| Grids.ScanKeep | grid.py:104-109 | one loop step on a non-full row when nothing was cleared yet: the field is left as it is and the kept count grows by one |
| Blocks.Block.constructor | block.py:13-19 | a new block has the given id and table, rotation 0 and both offsets 0 |
| Blocks.Block.Move | block.py:31-32 | adds exactly the given amounts to the row and column offsets and leaves the rotation alone |
| Blocks.Block.CellPositions | block.py:41-46 | one position per entry of the table for the current rotation, in the same order, each shifted by the two offsets |
| Blocks.Block.Rotate | block.py:54-56 | the rotation becomes (old + 1) mod K for K table entries, stays in 0..K-1, and the offsets are unchanged |
| Blocks.Block.UndoRotation | block.py:64-66 | the rotation becomes (old - 1) mod K, stays in 0..K-1, and the offsets are unchanged |
| Blocks.Translated | block.py:41-46 | the shifted list has the length of the table entry, and its i-th position is the i-th tile shifted by (rows, columns) |
| Blocks.ShiftBack | block.py:31-32 | move(a, b) followed by move(-a, -b) restores both offsets |
| Blocks.TurnRoundTrip | block.py:54-66 | rotate and undo_rotation keep the rotation in 0..K-1 and undo each other in either order |
| Blocks.TranslateBack | block.py:41-46 | translating the cells back by the opposite offsets gives the original tiles |
| Blocks.CellsFollowShift | block.py:31-46 | moving a block by (a, b) moves each of its cells by (a, b) |
| Games.Painted | game.py:121-122 | writing a piece's cells keeps the field 20x10 |
| Games.PaintedAt | game.py:121-122 | after locking, each of the piece's cells holds the piece id, and every other cell keeps its old value |
| Games.PaintedKeepsValues | game.py:121-122 | locking a piece with id in 0..hi into a field whose cells are in 0..hi leaves every cell in 0..hi |
| Games.EmptyFits | game.py:139-143 | every cell of the cleared field is free, so a piece inside it fits |
| Games.Pick | game.py:72-73 | returns an element of the pool and the pool with exactly that one occurrence removed, the others in order |
| Games.Spawn | block.py:13-32 | a fresh block of the given type, at rotation 0 and at the type's spawn offsets, inside the field |
| Games.Game.constructor | game.py:31-37 | an empty field, score 0, not over, two blocks drawn from the seven types and five types left in the bag |
| Games.Game.UpdateScore | game.py:55-61 | the score grows by 100, 300 or 500 for 1, 2 or 3 lines, by nothing for any other count (4 included), plus the move-down points |
| Games.Game.GetRandomBlock | game.py:70-74 | an empty bag is first refilled with the seven types; the block is of a type taken from the bag, and exactly that one type is removed, so the bag shrinks by one |
| Games.Game.BlockInside | game.py:179-183 | true iff every cell of the current block is inside the field |
| Games.Game.BlockFits | game.py:152-156 | for a block inside the field: true iff every one of its cells is empty |
| Games.Game.PlacementLegal | game.py:85 | block_inside, then block_fits only when that succeeded: true iff every cell is inside and empty |
| Games.Game.MoveLeft | game.py:84-86 | the column offset drops by one iff every resulting cell is inside and empty, otherwise nothing changes; the field is untouched and a fitting block keeps fitting |
| Games.Game.MoveRight | game.py:96-98 | the column offset grows by one iff every resulting cell is inside and empty, otherwise nothing changes; a fitting block keeps fitting |
| Games.Game.Rotate | game.py:166-170 | the rotation advances iff the rotated cells are all inside and empty, otherwise it is restored; a fitting block keeps fitting |
| Games.Game.MoveDown | game.py:108-111 | either the row offset grows by one with the block still inside and fitting and nothing else changing, or the block keeps its place and is locked: the field is stamped and compacted, the score grows by the table value, the next block becomes current, a fresh next block is drawn, the bag shrinks by one, and the game is over iff it was already or the new block does not fit |
| Games.Game.Stamp | game.py:120-122 | the field afterwards is the old field with the block id written into each of the given cells, in order |
| Games.Game.Promote | game.py:123-124 | the old next block becomes current and a freshly drawn block becomes next |
| Games.Game.ClearAndScore | game.py:125-128 | full rows are cleared as clear_full_rows does, and the score grows by the table value of the count returned |
| Games.Game.CheckGameOver | game.py:129-130 | the game is over afterwards iff it was over already or the current block does not fit |
| Games.Game.LockBlock | game.py:120-130 | in order: the piece is written into the field, the next block becomes current and a new one is drawn, full rows are cleared and scored, and the game is over iff it was already or the new current block does not fit; the score never drops, and a field holding only 0..7 keeps holding only 0..7 |
| Games.Game.Deal | game.py:140-142 | the bag is refilled, and a fresh current and a fresh next block are drawn from it, leaving five of the seven types; both blocks are inside the field |
| Games.Game.Reset | game.py:139-143 | the field is cleared, the score is 0, the bag is refilled and two blocks are drawn, leaving five types, the game-over flag is left as it was, and the new current block fits |
| Games.ScoreWalkthrough | test.py:10-15 | from a new game, update_score(1, 10) gives 110 and then update_score(2, 5) gives 415 |

## Left out

- Drawing is not modelled: `Grid.draw`, `Block.draw`, `Game.draw` and its preview placement by `next_block.id`. All of it is pygame rendering.
- Sound and music are not modelled: the mixer setup and the `.play()` calls have no effect on the game state.
- `print_grid` is not modelled; it is console output.
- colors.py is not modelled; it is an RGB table used only for rendering.
- The concrete piece tables of blocks.py are not modelled. Pieces are `Shape` parameters, and `ShapeOk` assumes each spawns inside the field.
- The probabilities of `random.choice` are not modelled. The pick is any element of the bag.
- Grids.Grid.IsEmpty: requires the cell to be inside the field. Python would wrap a negative index around instead of failing.
- Games.Game.LockBlock: requires the current block to be inside the field. The code only locks a block that move_down has just put back where it was, which is inside the field. That place need not be empty: a block that spawned over filled cells sets the game-over flag and stays current, so `Game.Valid` does not require its cells to be empty.
- Games.Game.LockBlock: states the bag change only as one type fewer and a sub-multiset of the bag it drew from. Games.Game.GetRandomBlock states the exact removal.
- Games.Game.Promote: states the bag change only as one type fewer and a sub-multiset, for the same reason.
- Games.Game.Reset: states the new bag as five types drawn from the seven, not which two were removed.
- Games.Game.constructor: states the new bag the same way as Reset.
- Games.Game.Deal: states the new bag the same way as Reset.
- Games.Game.LockBlock: states "every cell holds 0 or a known id" as a preservation clause, not as part of `Game.Valid`. Carrying it in the invariant made every method's proof too expensive.
- The bag holds piece types rather than block objects; the block object is built when its type is drawn. No code reads or changes a block while it waits in the bag, so nothing observable is lost, but object identity in the bag is not modelled.
- Integers are unbounded, like Python's, so no overflow is modelled.
