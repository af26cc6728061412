/** Cell coordinates on the playing field (position.py). */
module Positions {

  /** A (row, column) pair; a plain value, never mutated. */
  datatype Position = Position(row: int, column: int)
}
