/** The maze itself (`GridWorld.java`): dimensions and an obstacle matrix,
    fixed once built, with the bounds-checked move queries, the builder that
    turns text lines into the matrix, and the solution validator. */
module Worlds {
  import opened Wrappers
  import opened Moves
  import opened Indices

  /** `blocked[r][c]` is true when the cell at row r, column c is an
      obstacle (the source stores 1 for blocked and 0 for open). */
  datatype GridWorld = GridWorld(rowCount: nat, colCount: nat, blocked: seq<seq<bool>>)
  {
    /** What every built world satisfies: at least one row, and a
        rectangular matrix of the recorded dimensions. */
    ghost predicate Valid() {
      0 < rowCount && |blocked| == rowCount &&
      forall r :: 0 <= r < rowCount ==> |blocked[r]| == colCount
    }

    /** Every cell address of the world, as an independent reference for
        the bounds tests. */
    ghost function Cells(): set<GridIndex> {
      Block(rowCount, colCount)
    }
  }

  /** `isInsideWorld`: a missing index (Java `null`) is outside. */
  function IsInsideWorld(w: GridWorld, index: Option<GridIndex>): (b: bool)
    ensures b ==> index.Some? && 0 <= index.value.row && 0 <= index.value.col
  {
    index.Some? &&
    index.value.row >= 0 && index.value.col >= 0 &&
    index.value.row < w.rowCount && index.value.col < w.colCount
  }

  /** Shorthand for a coordinate that is present. */
  predicate Inside(w: GridWorld, i: GridIndex) {
    IsInsideWorld(w, Some(i))
  }

  /** Being inside the world is being one of its cells. */
  lemma InsideIsCell(w: GridWorld, index: Option<GridIndex>)
    ensures IsInsideWorld(w, index) <==> index.Some? && index.value in w.Cells()
  {
    if index.Some? && index.value in w.Cells() {
      var r, c :| 0 <= r < w.rowCount && 0 <= c < w.colCount && index.value == GridIndex(r, c);
    }
  }

  /** The cells of the first `rows` rows of a grid `cols` wide. */
  ghost function Block(rows: nat, cols: nat): set<GridIndex> {
    set r, c | 0 <= r < rows && 0 <= c < cols :: GridIndex(r, c)
  }

  /** The first `cols` cells of row `r`. */
  ghost function RowPrefix(r: int, cols: nat): set<GridIndex> {
    set c | 0 <= c < cols :: GridIndex(r, c)
  }

  /** A row prefix has one cell per column. */
  lemma {:induction false} RowPrefixSize(r: int, cols: nat)
    ensures |RowPrefix(r, cols)| == cols
  {
    if cols > 0 {
      RowPrefixSize(r, cols - 1);
      assert RowPrefix(r, cols) == RowPrefix(r, cols - 1) + {GridIndex(r, cols - 1)};
      assert GridIndex(r, cols - 1) !in RowPrefix(r, cols - 1);
    } else {
      assert RowPrefix(r, cols) == {};
    }
  }

  /** One more full row adds `cols` cells to a block. */
  lemma BlockGrow(rows: nat, cols: nat)
    requires 0 < rows
    ensures |Block(rows, cols)| == |Block(rows - 1, cols)| + cols
  {
    RowPrefixSize(rows - 1, cols);
    assert Block(rows, cols) == Block(rows - 1, cols) + RowPrefix(rows - 1, cols);
    assert Block(rows - 1, cols) * RowPrefix(rows - 1, cols) == {};
  }

  /** A block of `rows` full rows has `rows * cols` cells. */
  lemma {:induction false} BlockSize(rows: nat, cols: nat)
    ensures |Block(rows, cols)| == rows * cols
  {
    if rows > 0 {
      BlockSize(rows - 1, cols);
      BlockGrow(rows, cols);
      assert rows * cols == (rows - 1) * cols + cols;
    } else {
      assert Block(rows, cols) == {};
    }
  }

  /** The world has `rowCount * colCount` cells. */
  lemma CellCount(w: GridWorld)
    ensures |w.Cells()| == w.rowCount * w.colCount
  {
    BlockSize(w.rowCount, w.colCount);
  }

  /** `tryMove`: the stepped coordinate when it is inside the grid, else
      nothing. Blockage is not consulted. */
  function TryMove(w: GridWorld, i: GridIndex, m: Move): (r: Option<GridIndex>)
    ensures r.Some? <==> Inside(w, DoMove(i, m))
    ensures r.Some? ==> r.value == DoMove(i, m)
  {
    var next := DoMove(i, m);
    if IsInsideWorld(w, Some(next)) then Some(next) else None
  }

  /** `tryUndoMove`: the backward step when it is inside the grid. */
  function TryUndoMove(w: GridWorld, i: GridIndex, m: Move): (r: Option<GridIndex>)
    ensures r.Some? <==> Inside(w, UndoMove(i, m))
    ensures r.Some? ==> DoMove(r.value, m) == i
  {
    var prev := UndoMove(i, m);
    if IsInsideWorld(w, Some(prev)) then Some(prev) else None
  }

  /** Trying to undo a move is trying the opposite move. */
  lemma TryUndoIsTryOpposite(w: GridWorld, i: GridIndex, m: Move)
    ensures TryUndoMove(w, i, m) == TryMove(w, i, Opposite(m))
  {
  }

  /** `getStartingPoint`: the top-left cell. */
  function StartingPoint(): GridIndex {
    GridIndex(0, 0)
  }

  /** The starting point is a cell of every built world with columns, and
      `isStartingPoint` holds of it. */
  lemma StartingPointInside(w: GridWorld)
    ensures w.Valid() && 0 < w.colCount ==> Inside(w, StartingPoint())
    ensures IsStartingPoint(StartingPoint())
  {
  }

  /** `getEndingPoint`: the bottom-right cell. */
  function EndingPoint(w: GridWorld): (e: GridIndex)
    ensures w.Valid() && 0 < w.colCount ==> Inside(w, e)
  {
    GridIndex(w.rowCount - 1, w.colCount - 1)
  }

  /** `isStartingPoint`. */
  predicate IsStartingPoint(i: GridIndex) {
    i.row == 0 && i.col == 0
  }

  /** `isEndingPoint`. */
  predicate IsEndingPoint(w: GridWorld, i: GridIndex) {
    i.row == w.rowCount - 1 && i.col == w.colCount - 1
  }

  /** `isStartingPoint` recognises exactly the starting point. */
  lemma StartCorner(i: GridIndex)
    ensures IsStartingPoint(i) <==> i == StartingPoint()
  {
  }

  /** `isEndingPoint` recognises exactly the ending point. */
  lemma EndCorner(w: GridWorld, i: GridIndex)
    ensures IsEndingPoint(w, i) <==> i == EndingPoint(w)
  {
  }

  /** The two corners coincide only in a one-by-one world. */
  lemma Corners(w: GridWorld)
    requires w.Valid()
    ensures StartingPoint() == EndingPoint(w) <==> w.rowCount == 1 && w.colCount == 1
  {
  }

  /** `isBlocked`: the stored obstacle flag; the index must be inside. */
  function IsBlocked(w: GridWorld, i: GridIndex): bool
    requires w.Valid() && Inside(w, i)
  {
    w.blocked[i.row][i.col]
  }

  /** A cell of the world can be entered from a neighbouring cell exactly
      when it is not blocked. */
  lemma EnterCell(w: GridWorld, i: GridIndex, m: Move)
    requires w.Valid() && Inside(w, i) && Inside(w, UndoMove(i, m))
    ensures Step(w, UndoMove(i, m), m) == if IsBlocked(w, i) then None else Some(i)
  {
  }

  /** One legal step of a walk: inside the grid and onto an open cell.
      `StepIsLegalMove` states it in terms of `tryMove` and `isBlocked`. */
  function Step(w: GridWorld, i: GridIndex, m: Move): Option<GridIndex>
    requires w.Valid()
  {
    match TryMove(w, i, m)
    case None => None
    case Some(next) => if IsBlocked(w, next) then None else Some(next)
  }

  /** A step succeeds exactly when `tryMove` stays inside and the target is
      open, and then it lands where `doMove` does. */
  lemma StepIsLegalMove(w: GridWorld, i: GridIndex, m: Move)
    requires w.Valid()
    ensures Step(w, i, m).Some? <==> TryMove(w, i, m).Some? && !IsBlocked(w, TryMove(w, i, m).value)
    ensures Step(w, i, m).Some? ==> Step(w, i, m).value == DoMove(i, m) && Inside(w, DoMove(i, m))
  {
  }

  // ---------------------------------------------------------------------
  // Construction from text lines
  // ---------------------------------------------------------------------

  /** Why the constructor gave up: an empty list, a `null` first line, a
      later `null` line (a NullPointerException in the source) or a line
      whose length differs from the first. The row is the line's position. */
  datatype BuildError = NoLines | FirstLineNull | NullLine(row: nat) | RaggedLine(row: nat)

  /** Lines the constructor accepts: at least one, none missing, all as long
      as the first (which may itself be empty). */
  predicate Rectangular(lines: seq<Option<string>>) {
    0 < |lines| && lines[0].Some? &&
    forall r :: 0 <= r < |lines| ==> lines[r].Some? && |lines[r].value| == |lines[0].value|
  }

  /** The first line that stops the constructor's loop, if any. */
  predicate FirstBadLine(lines: seq<Option<string>>, r: nat) {
    r < |lines| && lines[0].Some? &&
    (lines[r].None? || |lines[r].value| != |lines[0].value|) &&
    forall k :: 0 <= k < r ==> lines[k].Some? && |lines[k].value| == |lines[0].value|
  }

  /** The `GridWorld(lines)` constructor. The list is drained from the front;
      `rest` is what remains of it when the constructor returns or throws.
      Only '.' opens a cell: every other character blocks it. */
  method FromLines(lines: seq<Option<string>>) returns (r: Result<GridWorld, BuildError>, rest: seq<Option<string>>)
    ensures r.Ok? <==> Rectangular(lines)
    ensures |lines| == 0 ==> r == Err(NoLines) && rest == lines
    ensures 0 < |lines| && lines[0].None? ==> r == Err(FirstLineNull) && rest == lines
    ensures r.Ok? ==> rest == [] && r.value.Valid()
    ensures r.Ok? ==> r.value.rowCount == |lines| && r.value.colCount == |lines[0].value|
    ensures r.Ok? ==> forall i, j :: 0 <= i < |lines| && 0 <= j < |lines[0].value| ==>
                        r.value.blocked[i][j] == (lines[i].value[j] != '.')
    ensures r.Err? && r.error.NullLine? ==>
              FirstBadLine(lines, r.error.row) && lines[r.error.row].None? && rest == lines[r.error.row + 1..]
    ensures r.Err? && r.error.RaggedLine? ==>
              FirstBadLine(lines, r.error.row) && lines[r.error.row].Some? && rest == lines[r.error.row + 1..]
    ensures r.Err? && 0 < |lines| && lines[0].Some? ==> r.error.NullLine? || r.error.RaggedLine?
  {
    var rowCount := |lines|;
    if rowCount == 0 {
      return Err(NoLines), lines;
    }
    var firstLine := lines[0];
    if firstLine.None? {
      return Err(FirstLineNull), lines;
    }
    var colCount := |firstLine.value|;
    var grid: seq<seq<bool>> := [];
    var pending := lines;
    var rowIndex := 0;
    while pending != []
      invariant rowIndex + |pending| == rowCount
      invariant pending == lines[rowIndex..]
      invariant |grid| == rowIndex
      invariant forall k :: 0 <= k < rowIndex ==> lines[k].Some? && |lines[k].value| == colCount
      invariant forall k :: 0 <= k < rowIndex ==> |grid[k]| == colCount
      invariant forall k, j :: 0 <= k < rowIndex && 0 <= j < colCount ==>
                  grid[k][j] == (lines[k].value[j] != '.')
    {
      var line := pending[0];
      pending := pending[1..];
      if line.None? {
        return Err(NullLine(rowIndex)), pending;
      }
      if |line.value| != colCount {
        return Err(RaggedLine(rowIndex)), pending;
      }
      var cells := new bool[colCount];
      for colIndex := 0 to colCount
        invariant forall j :: 0 <= j < colIndex ==> cells[j] == (line.value[j] != '.')
      {
        cells[colIndex] := line.value[colIndex] != '.';
      }
      grid := grid + [cells[..]];
      rowIndex := rowIndex + 1;
    }
    r := Ok(GridWorld(rowCount, colCount, grid));
    rest := pending;
  }

  // ---------------------------------------------------------------------
  // Replaying a move list
  // ---------------------------------------------------------------------

  /** Why a replay stopped early, with the position of the offending move:
      it left the grid, or it landed on a blocked cell. */
  datatype Failure = OutsideGrid(at: nat) | IntoBlocked(at: nat)

  /** The cells a replay stood on, in order (starting cell first), and the
      failure that stopped it, if any. */
  datatype Walked = Walked(trail: seq<GridIndex>, failure: Option<Failure>)

  /** Replays `ms` from `from`, one move at a time, stopping at the first
      move that leaves the grid or lands on a blocked cell. The starting
      cell's own obstacle flag is never looked at. */
  function Walk(w: GridWorld, from: GridIndex, ms: seq<Move>): (r: Walked)
    requires w.Valid()
    ensures |r.trail| >= 1 && r.trail[0] == from
    ensures r.failure.None? ==> |r.trail| == |ms| + 1
    ensures r.failure.Some? ==> r.failure.value.at < |ms| && |r.trail| == r.failure.value.at + 1
    decreases |ms|
  {
    if ms == [] then Walked([from], None)
    else
      var before := Walk(w, from, ms[..|ms| - 1]);
      if before.failure.Some? then before
      else
        var at := |ms| - 1;
        var here := before.trail[|before.trail| - 1];
        match TryMove(w, here, ms[at])
        case None => Walked(before.trail, Some(OutsideGrid(at)))
        case Some(next) =>
          if IsBlocked(w, next) then Walked(before.trail, Some(IntoBlocked(at)))
          else Walked(before.trail + [next], None)
  }

  /** The last cell a replay stood on. */
  function Final(r: Walked): GridIndex
    requires |r.trail| >= 1
  {
    r.trail[|r.trail| - 1]
  }

  /** `ms` replays legally from `from` and stops on `to`. */
  ghost predicate Leads(w: GridWorld, from: GridIndex, ms: seq<Move>, to: GridIndex)
    requires w.Valid()
  {
    Walk(w, from, ms).failure.None? && Final(Walk(w, from, ms)) == to
  }

  /** Every consecutive pair of cells on a replay's trail is one legal step. */
  lemma {:induction false} WalkSteps(w: GridWorld, from: GridIndex, ms: seq<Move>)
    requires w.Valid()
    ensures var r := Walk(w, from, ms);
      forall k :: 0 <= k < |r.trail| - 1 ==> Step(w, r.trail[k], ms[k]) == Some(r.trail[k + 1])
    decreases |ms|
  {
    if ms != [] {
      var shorter, last := ms[..|ms| - 1], ms[|ms| - 1];
      assert shorter + [last] == ms;
      WalkSteps(w, from, shorter);
      assert forall k :: 0 <= k < |shorter| ==> ms[k] == shorter[k];
      if Walk(w, from, shorter).failure.None? {
        WalkExtend(w, from, shorter, last);
      } else {
        assert Walk(w, from, ms) == Walk(w, from, shorter);
      }
    }
  }

  /** A failed replay names the right kind of offending move, taken from the
      last cell it stood on. */
  lemma {:induction false} WalkFailure(w: GridWorld, from: GridIndex, ms: seq<Move>)
    requires w.Valid() && Walk(w, from, ms).failure.Some?
    ensures var r := Walk(w, from, ms); var next := TryMove(w, Final(r), ms[r.failure.value.at]);
      (r.failure.value.OutsideGrid? <==> next.None?) &&
      (r.failure.value.IntoBlocked? <==> next.Some? && IsBlocked(w, next.value))
    decreases |ms|
  {
    var shorter, last := ms[..|ms| - 1], ms[|ms| - 1];
    assert shorter + [last] == ms;
    if Walk(w, from, shorter).failure.Some? {
      WalkFailure(w, from, shorter);
      FailurePersists(w, from, ms, |ms| - 1);
    } else {
      WalkExtend(w, from, shorter, last);
    }
  }

  /** Once a prefix of the moves has failed, the later moves change nothing. */
  lemma {:induction false} FailurePersists(w: GridWorld, from: GridIndex, ms: seq<Move>, k: nat)
    requires w.Valid()
    requires k <= |ms| && Walk(w, from, ms[..k]).failure.Some?
    ensures Walk(w, from, ms) == Walk(w, from, ms[..k])
    decreases |ms|
  {
    if k < |ms| {
      var shorter := ms[..|ms| - 1];
      assert shorter[..k] == ms[..k];
      FailurePersists(w, from, shorter, k);
    } else {
      assert ms[..k] == ms;
    }
  }

  /** A legal first step followed by a legal replay is a legal replay. */
  lemma {:induction false} WalkPrepend(w: GridWorld, p: GridIndex, m: Move, ms: seq<Move>)
    requires w.Valid()
    requires Step(w, p, m).Some? && Walk(w, Step(w, p, m).value, ms).failure.None?
    ensures Walk(w, p, [m] + ms).failure.None?
    ensures Final(Walk(w, p, [m] + ms)) == Final(Walk(w, Step(w, p, m).value, ms))
    decreases |ms|
  {
    if ms == [] {
      assert ([m] + ms)[..|[m] + ms| - 1] == [];
    } else {
      var shorter, last := ms[..|ms| - 1], ms[|ms| - 1];
      assert shorter + [last] == ms;
      assert ([m] + shorter) + [last] == [m] + ms;
      WalkPrepend(w, p, m, shorter);
      WalkExtend(w, Step(w, p, m).value, shorter, last);
      WalkExtend(w, p, [m] + shorter, last);
    }
  }

  /** Extending a legal replay by one move: a legal step extends the trail,
      any other move makes the replay fail at that move. */
  lemma WalkExtend(w: GridWorld, from: GridIndex, ms: seq<Move>, m: Move)
    requires w.Valid() && Walk(w, from, ms).failure.None?
    ensures Step(w, Final(Walk(w, from, ms)), m).Some? ==>
              Walk(w, from, ms + [m]) ==
                Walked(Walk(w, from, ms).trail + [Step(w, Final(Walk(w, from, ms)), m).value], None)
    ensures Step(w, Final(Walk(w, from, ms)), m).None? ==>
              Walk(w, from, ms + [m]).trail == Walk(w, from, ms).trail &&
              Walk(w, from, ms + [m]).failure == Some(
                if TryMove(w, Final(Walk(w, from, ms)), m).None? then OutsideGrid(|ms|) else IntoBlocked(|ms|))
  {
    assert (ms + [m])[..|ms|] == ms;
  }

  /** The empty move list validates exactly when the starting point is also
      the ending point. */
  lemma EmptyListValidates(w: GridWorld)
    requires w.Valid()
    ensures Leads(w, StartingPoint(), [], EndingPoint(w)) <==> w.rowCount == 1 && w.colCount == 1
  {
  }

  /** The starting cell's obstacle flag is never consulted: a one-by-one
      world whose only cell is blocked still accepts the empty list. */
  lemma BlockedStartStillValidates()
    ensures GridWorld(1, 1, [[true]]).Valid()
    ensures Leads(GridWorld(1, 1, [[true]]), StartingPoint(), [], EndingPoint(GridWorld(1, 1, [[true]])))
  {
  }

  /** A replay whose next move, after the prefix `taken`, is not a legal
      step stops there for good: its trail is the prefix's trail, it fails
      at that move, and the moves after it are the rest of the list. */
  lemma ReplayStops(w: GridWorld, moves: seq<Move>, taken: seq<Move>, pending: seq<Move>, trail: seq<GridIndex>)
    requires w.Valid() && taken + pending == moves && pending != [] && |trail| >= 1
    requires Walk(w, StartingPoint(), taken) == Walked(trail, None)
    requires Step(w, trail[|trail| - 1], pending[0]).None?
    ensures Walk(w, StartingPoint(), moves).trail == trail
    ensures Walk(w, StartingPoint(), moves).failure.Some?
    ensures Walk(w, StartingPoint(), moves).failure.value.at == |taken|
    ensures pending[1..] == moves[|taken| + 1..]
    ensures !Leads(w, StartingPoint(), moves, EndingPoint(w))
  {
    assert moves[..|taken| + 1] == taken + [pending[0]];
    WalkExtend(w, StartingPoint(), taken, pending[0]);
    FailurePersists(w, StartingPoint(), moves, |taken| + 1);
  }

  /** A replay whose next move, after the prefix `taken`, is a legal step
      extends the prefix's trail by the cell that step lands on. */
  lemma ReplayGoesOn(w: GridWorld, moves: seq<Move>, taken: seq<Move>, pending: seq<Move>, trail: seq<GridIndex>)
    requires w.Valid() && taken + pending == moves && pending != [] && |trail| >= 1
    requires Walk(w, StartingPoint(), taken) == Walked(trail, None)
    requires Step(w, trail[|trail| - 1], pending[0]).Some?
    ensures (taken + [pending[0]]) + pending[1..] == moves
    ensures Walk(w, StartingPoint(), taken + [pending[0]]) ==
              Walked(trail + [Step(w, trail[|trail| - 1], pending[0]).value], None)
  {
    assert pending == [pending[0]] + pending[1..];
    WalkExtend(w, StartingPoint(), taken, pending[0]);
  }

  /** The mask marks exactly the cells of `trail`. */
  ghost predicate Marks(w: GridWorld, walked: array2<bool>, trail: seq<GridIndex>)
    reads walked
    requires walked.Length0 == w.rowCount && walked.Length1 == w.colCount
  {
    forall r, c :: 0 <= r < w.rowCount && 0 <= c < w.colCount ==> (walked[r, c] <==> GridIndex(r, c) in trail)
  }

  /** Marks one more cell of the walk on the mask. */
  method Mark(w: GridWorld, walked: array2<bool>, index: GridIndex, ghost trail: seq<GridIndex>)
    requires walked.Length0 == w.rowCount && walked.Length1 == w.colCount && Inside(w, index)
    requires Marks(w, walked, trail)
    modifies walked
    ensures Marks(w, walked, trail + [index])
  {
    walked[index.row, index.col] := true;
  }

  /** `validateSolution`. Moves are taken from the front of the list; on the
      first move that leaves the grid or enters a blocked cell it returns
      false, leaving the later moves in `rest`. Otherwise it succeeds iff
      the walk ends on the bottom-right cell. `walked` is the mask handed to
      the renderer: the start plus every cell landed on before any failure.
      `render` (the source's `print` flag) only selects rendering, so it has
      no effect here. The mask write at (0, 0) needs at least one column. */
  method ValidateSolution(w: GridWorld, moves: seq<Move>, render: bool)
    returns (ok: bool, rest: seq<Move>, walked: array2<bool>)
    requires w.Valid() && 0 < w.colCount
    ensures ok <==> Leads(w, StartingPoint(), moves, EndingPoint(w))
    ensures Walk(w, StartingPoint(), moves).failure.None? ==> rest == []
    ensures Walk(w, StartingPoint(), moves).failure.Some? ==>
              rest == moves[Walk(w, StartingPoint(), moves).failure.value.at + 1..]
    ensures fresh(walked) && walked.Length0 == w.rowCount && walked.Length1 == w.colCount
    ensures Marks(w, walked, Walk(w, StartingPoint(), moves).trail)
  {
    var index := StartingPoint();
    walked := new bool[w.rowCount, w.colCount]((r, c) => false);
    Mark(w, walked, index, []);
    ghost var trail := [index];
    var numMoves := |moves|;
    rest := moves;
    ghost var taken: seq<Move> := [];
    for i := 0 to numMoves
      invariant taken + rest == moves && |taken| == i
      invariant Walk(w, StartingPoint(), taken) == Walked(trail, None)
      invariant index == trail[|trail| - 1]
      invariant Marks(w, walked, trail)
    {
      ghost var pending := rest;
      var move := rest[0];
      rest := rest[1..];
      var next := TryMove(w, index, move);
      if next.None? {
        ReplayStops(w, moves, taken, pending, trail);
        return false, rest, walked;
      }
      index := next.value;
      if IsBlocked(w, index) {
        ReplayStops(w, moves, taken, pending, trail);
        return false, rest, walked;
      }
      ReplayGoesOn(w, moves, taken, pending, trail);
      Mark(w, walked, index, trail);
      trail := trail + [index];
      taken := taken + [move];
    }
    assert taken == moves;
    ok := IsEndingPoint(w, index);
  }
}
