/** The immutable (row, col) coordinate of `GridIndex.java`. Coordinates are
    unbounded integers: Java `int` overflow is not modelled. */
module Indices {
  import opened Moves

  datatype GridIndex = GridIndex(row: int, col: int)

  /** `doMove`: one unit step. UP decreases the row, DOWN increases it, LEFT
      decreases the column, RIGHT increases it. The switch is exhaustive, so
      the trailing `return null` has no counterpart. */
  function DoMove(i: GridIndex, m: Move): GridIndex
  {
    match m
    case Up => GridIndex(i.row - 1, i.col)
    case Down => GridIndex(i.row + 1, i.col)
    case Left => GridIndex(i.row, i.col - 1)
    case Right => GridIndex(i.row, i.col + 1)
  }

  /** `doMove` changes exactly one coordinate, by exactly one, in the
      direction the move names. */
  lemma DoMoveDelta(i: GridIndex, m: Move)
    ensures var r := DoMove(i, m);
      (r.row == i.row && (r.col == i.col + 1 || r.col == i.col - 1)) ||
      (r.col == i.col && (r.row == i.row + 1 || r.row == i.row - 1))
    ensures DoMove(i, m).row < i.row <==> m == Up
    ensures DoMove(i, m).row > i.row <==> m == Down
    ensures DoMove(i, m).col < i.col <==> m == Left
    ensures DoMove(i, m).col > i.col <==> m == Right
  {
  }

  /** `undoMove`: step in the opposite direction. */
  function UndoMove(i: GridIndex, m: Move): (r: GridIndex)
    ensures DoMove(r, m) == i
  {
    DoMove(i, Opposite(m))
  }

  /** Undoing a move after doing it gives the original coordinate, and so
      does doing it after undoing it. */
  lemma RoundTrip(i: GridIndex, m: Move)
    ensures UndoMove(DoMove(i, m), m) == i
    ensures DoMove(UndoMove(i, m), m) == i
  {
  }

  /** A step is determined by its endpoints: two different moves from the
      same cell never land on the same cell. */
  lemma DoMoveInjective(i: GridIndex, m: Move, n: Move)
    requires DoMove(i, m) == DoMove(i, n)
    ensures m == n
  {
  }
}
