# Grid-world maze solver, modelled in Dafny

This project models the engine of a small Java maze solver. The maze is a rectangular grid of open and blocked
cells. A path leads from the top-left cell `(0, 0)` to the bottom-right cell `(rowCount - 1, colCount - 1)`
through four-directional moves. The model covers these parts:

- `Move`: the four directions, their declaration order and their opposites. This is module `Moves` in `moves.dfy`.
- `GridIndex`: the immutable `(row, col)` coordinate, with one-step moves and undone moves. This is module `Indices`
  in `indices.dfy`.
- `GridWorld` (module `Worlds`, `worlds.dfy`):
  - the constructor that turns text lines into the obstacle matrix;
  - the bounds-checked move queries;
  - the corner predicates;
  - `validateSolution`, which replays a move list.
- `PathFinder`: breadth-first search with a FIFO queue and a per-cell table of the move by which each cell was
  first reached, then the walk back through that table to rebuild the path. This is module `PathFinding` in
  `pathfinding.dfy`. Its ghost bookkeeping and invariants are in module `SearchState`, `searchstate.dfy`.
- `wrappers.dfy` holds `Option` and `Result`.

The world is an immutable datatype, because every field of the Java class is final. The builder and the validator
are imperative methods with loops, like their sources. The validator writes its visited mask into an `array2`.

`PathFinder` is a class. `FindShortestPath` runs the queue loop and writes the move table, an
`array2<Option<Move>>` where `None` stands for Java `null`, in place. It returns `None` where the source returns
`null`. Two helper methods hold the source's inner loop and its body:

- `TryAllMoves` is the `for (Move move : Move.values())` loop. Its new state is `Turns`, the fold of one turn
  (`Turned`) over `Move.values()`.
- `TryRecord` is one turn of that loop.

The lemma `Expansion` shows that a whole expansion keeps the search invariant.

The loops, their order and their tests are the source's. The split only keeps each proof small.

The search's contract is the one a breadth-first search promises:

- A returned path replays legally from the start to the end.
- No legal replay is shorter than it.
- `None` comes back only when no legal replay reaches the end.
- A one-by-one world gives the empty path.
- The number of dequeues is at most `rowCount * colCount + 1`, because every cell but the start is enqueued at
  most once and the start at most twice.

The proof keeps ghost state beside the table and the queue:

- the table as a map;
- each discovered cell's BFS layer;
- each queue entry's layer;
- the set of expanded cells;
- the set of undiscovered cells.

The invariant is split into named parts:

- `ParentChain`: a recorded move leads back to a cell one layer earlier.
- `RecordedFromExpanded`: every recorded move was written while expanding an already dequeued cell.
- `Closed`: the neighbours of expanded cells are discovered at most one layer later.
- `QueueLayers`: the queue holds at most two consecutive layers, in order.
- `Budget`: counts the recordings still possible and bounds the loop.

The model follows the code on these points:

- Only `'.'` opens a cell. Every other character, `'#'` included, blocks it (`GridWorld.java:107`,
  `GridWorld.java:74`). The doc comment at `GridWorld.java:79-80` has the 0/1 encoding backwards.
- An empty first line is accepted. It gives a world with no columns.

## Model

| member | source | states |
|---|---|---|
| Moves.Opposite | Move.java:8-16 | the opposite of a move differs from it and stays on the same axis; the switch is total, so the `default` throw cannot happen |
| Moves.OppositeInvolutive | Move.java:9-13 | taking the opposite twice gives the move back |
| Moves.OppositePairs | Move.java:10-13 | UP and DOWN swap, RIGHT and LEFT swap |
| Moves.Ordinal | Move.java:1-5 | each move sits at its declaration position in `values()` |
| Moves.ValuesEnumerateMoves | Move.java:1-5 | `values()` (the constant `Moves.Values`) lists each of the four moves exactly once |
| Indices.DoMoveDelta | GridIndex.java:9-18 | `doMove` (`Indices.DoMove`) changes exactly one coordinate by exactly one: UP lowers the row, DOWN raises it, LEFT lowers the column, RIGHT raises it; it never yields null |
| Indices.UndoMove | GridIndex.java:20-22 | undoing a move gives the coordinate from which that move arrives at the input |
| Indices.RoundTrip | GridIndex.java:9-22 | undo after do and do after undo both give the original coordinate |
| Indices.DoMoveInjective | GridIndex.java:9-18 | two different moves from one cell never land on the same cell |
| Worlds.IsInsideWorld | GridWorld.java:19-28 | an inside index is present and has non-negative coordinates; null is outside |
| Worlds.InsideIsCell | GridWorld.java:19-28 | inside the world exactly when the index is one of the world's `rowCount * colCount` cell addresses |
| Worlds.CellCount | GridWorld.java:19-28 | the world has exactly `rowCount * colCount` inside cells |
| Worlds.TryMove | GridWorld.java:31-34 | `tryMove` returns `doMove`'s result exactly when it is inside, and ignores blockage |
| Worlds.TryUndoMove | GridWorld.java:37-40 | `tryUndoMove` returns a cell exactly when the undone step is inside, and that cell moves back onto the input |
| Worlds.TryUndoIsTryOpposite | GridWorld.java:37-40 | `tryUndoMove(i, m)` equals `tryMove(i, opposite(m))` |
| Worlds.StartCorner | GridWorld.java:43-45 | `isStartingPoint` (`Worlds.IsStartingPoint`) holds exactly at the starting point (0, 0) |
| Worlds.EndCorner | GridWorld.java:48-50 | `isEndingPoint` (`Worlds.IsEndingPoint`) holds exactly at the ending point (rowCount - 1, colCount - 1) |
| Worlds.StartingPointInside | GridWorld.java:64-66 | the starting point (`Worlds.StartingPoint`) is inside every built world with at least one column, and `isStartingPoint` holds of it |
| Worlds.EndingPoint | GridWorld.java:68-70 | the ending point is inside every built world with at least one column |
| Worlds.Corners | GridWorld.java:43-50 | the starting and ending points coincide exactly in a one-by-one world |
| Worlds.EnterCell | GridWorld.java:73-75 | `isBlocked` (`Worlds.IsBlocked`) decides entry: an inside cell can be stepped into from an inside neighbour exactly when it is not blocked |
| Worlds.StepIsLegalMove | GridWorld.java:31-34 | a legal step is a `tryMove` that stays inside and lands on an open cell, at `doMove`'s coordinate |
| Worlds.FromLines | GridWorld.java:82-114 | construction succeeds exactly on a non-empty list of non-null lines all as long as the first, and then fully drains the list; rowCount is the number of lines and colCount is the first line's length; a cell is blocked exactly when its character is not '.'; no lines, a null first line, a later null line and a ragged line each give their own error, with the rest of the list left behind |
| Worlds.Walk | GridWorld.java:134-151 | a replay's trail starts at its origin, has one cell per move when nothing failed, and stops at the failing move otherwise |
| Worlds.WalkSteps | GridWorld.java:134-151 | consecutive cells of a replay's trail are joined by legal steps with the listed moves |
| Worlds.WalkFailure | GridWorld.java:136-148 | a failed replay reports "outside grid" exactly when `tryMove` left the grid, and "blocked" exactly when it landed on a blocked cell |
| Worlds.FailurePersists | GridWorld.java:134-148 | once a prefix has failed, later moves change nothing |
| Worlds.WalkPrepend | GridWorld.java:134-151 | a legal first step followed by a legal replay is a legal replay from the earlier cell, ending on the same cell |
| Worlds.WalkExtend | GridWorld.java:134-151 | extending a legal replay by one move either extends its trail by one legal step or fails at that move with the right reason |
| Worlds.EmptyListValidates | GridWorld.java:127-156 | the empty list validates exactly when (0, 0) is the ending point, a one-by-one world |
| Worlds.BlockedStartStillValidates | GridWorld.java:127-156 | a one-by-one world whose only cell is blocked still accepts the empty list: the start cell's flag is never read |
| Worlds.ReplayStops | GridWorld.java:134-148 | when the next move is not a legal step, the replay fails at that move, its trail stops where it stood, the moves left over are exactly those after it, and the list does not validate |
| Worlds.ReplayGoesOn | GridWorld.java:134-151 | when the next move is a legal step, the replay of one more move extends the trail by the cell it lands on |
| Worlds.Mark | GridWorld.java:150 | marking a cell the walk landed on keeps the mask equal to the walk's trail: exactly the trail's cells and the new one are marked |
| Worlds.ValidateSolution | GridWorld.java:126-161 | returns true exactly when every move stays inside, avoids blocked cells and the walk ends at the ending point; on a failure exactly the moves after the failing one remain; the mask has the grid's dimensions and marks (0, 0) plus exactly the cells landed on before any failure |
| SearchState.LayersBound | PathFinder.java:29-30 | at a dequeue, every expanded cell lies no later than the front's layer and every discovered cell at most one layer beyond it |
| SearchState.SearchStarts | PathFinder.java:20-25 | the empty table and a queue holding only the start satisfy the search invariant |
| SearchState.FreshFromUnexpanded | PathFinder.java:38-44 | a legal step from an expanded cell never reaches an undiscovered cell, so recording happens only while expanding a new cell |
| SearchState.ChainRecord | PathFinder.java:41-45 | recording the move into a fresh cell keeps the parent chain: the cell sits one layer after the cell it was reached from |
| SearchState.BudgetRecord | PathFinder.java:41-45 | every recording spends exactly one unit of the search's budget |
| SearchState.QueueLayersAppend | PathFinder.java:45 | enqueueing a newly recorded cell at the next layer keeps the queue ordered by layer, spanning two layers at most |
| PathFinding.BeginExpanding | PathFinder.java:29-35 | dequeuing a front cell that is not the end starts its expansion, with the invariant carried over |
| PathFinding.ExpandSkip | PathFinder.java:37-41 | a move that records nothing keeps the invariant: its legal target is already discovered, no later than the next layer |
| PathFinding.ExpandRecord | PathFinder.java:41-45 | recording a move into a fresh cell other than the start discovers that cell at the next layer and keeps the invariant |
| PathFinding.ExpandRecordShape | PathFinder.java:41-45 | the fresh target of a recording is inside and undiscovered, and the parent chain, the queue's layers, closure and the undiscovered set survive its recording |
| PathFinding.ExpandRecordLayers | PathFinder.java:41-45 | recording a fresh target keeps it waiting in the queue and its move tried, and spends one unit of the budget |
| PathFinding.ExpandRecordStart | PathFinder.java:41-45 | the start may be recorded and enqueued once more; its layer stays 0 and the invariant holds |
| PathFinding.FinishExpanding | PathFinder.java:37-48 | after all four moves the cell counts as expanded and the loop invariant holds again |
| PathFinding.TurnKeepsExpanding | PathFinder.java:37-47 | every turn of the inner loop keeps the expansion invariant, with one more move tried |
| PathFinding.TurnsKeepExpanding | PathFinder.java:37-47 | all remaining turns of the inner loop keep the expansion invariant, every move then tried |
| PathFinding.TurnsStep | PathFinder.java:37-47 | the inner loop from turn `i` on is turn `i` followed by the loop from turn `i + 1` on |
| PathFinding.LaterMovesElsewhere | PathFinder.java:37-38 | moves later in `values()` reach cells other than the current move's target, so one expansion never finds a cell twice |
| PathFinding.TargetsIgnore | PathFinder.java:41-45 | recording a cell no later move reaches leaves the later enqueued targets unchanged |
| PathFinding.TurnedTargets | PathFinder.java:38-46 | one turn enqueues its target exactly when it is a legal step into a cell with no entry, and leaves the remaining targets to later turns |
| PathFinding.TurnsEnqueue | PathFinder.java:37-47 | the inner loop enqueues exactly the legal targets that had no entry when the expansion began, in `values()` order, each with a layer |
| PathFinding.Expansion | PathFinder.java:29-47 | expanding a dequeued cell that is not the end, every move tried, re-establishes the loop invariant with that cell expanded; the budget never grows, budget plus queue length drops by exactly the dequeued cell, and the queue grows by exactly the fresh targets |
| PathFinding.TurnRecordsOnce | PathFinder.java:38-45 | a turn never overwrites a recorded entry; it records at most one new cell, which is the inside, open target of the tried move, and enqueues at most that cell |
| PathFinding.StepBack | PathFinder.java:61-70 | the move recorded at a discovered non-start cell undoes to an inside cell one layer earlier, and prepending it keeps the replay legal |
| PathFinding.Settled | PathFinder.java:29-48 | when every discovered cell below a layer bound is expanded, every legal replay from the start shorter than the bound ends on an expanded cell whose layer is at most the replay's length |
| PathFinding.SettledBelowFront | PathFinder.java:29-48 | every discovered cell of a layer before the queue's front is expanded; once the queue is empty, every discovered cell is |
| PathFinding.NoShorterWalk | PathFinder.java:29-34 | a cell still unexpanded when its layer is reached has no shorter legal replay from the start |
| PathFinding.FirstUnseen | PathFinder.java:20-25 | before the first dequeue every cell but the start is undiscovered, the search invariant holds, and the budget is one recording per cell of the grid |
| PathFinding.FoundAtFront | PathFinder.java:30-33 | a dequeued ending point has no legal replay from the start shorter than its layer |
| PathFinding.Exhausted | PathFinder.java:29-51 | when the queue runs empty, no legal replay from the start reaches the end |
| PathFinding.PathFinder.constructor | PathFinder.java:7-9 | the solver keeps the world it is given |
| PathFinding.PathFinder.FindShortestPath | PathFinder.java:12-52 | a returned path replays legally from the start to the end and no legal replay is shorter; `None` (null) only when no legal replay reaches the end; the empty path in a one-by-one world whatever its flag; at most rowCount * colCount + 1 dequeues |
| PathFinding.PathFinder.TryAllMoves | PathFinder.java:37-47 | after trying all four moves in `values()` order, the table, queue and ghost state are exactly those of the four turns applied in order, the table mirrors the recorded moves, and the queue grew by exactly the legal targets that had no entry |
| PathFinding.PathFinder.TryRecord | PathFinder.java:38-46 | one move is recorded, and its target enqueued, exactly when the target is inside, open and has no entry yet; otherwise nothing changes; the table stays in step with the ghost map |
| PathFinding.PathFinder.ReconstructPath | PathFinder.java:55-73 | the rebuilt path replays legally from the start to the given cell and has one move per BFS layer; the loop terminates because each step goes back one layer |

## Left out

- Rendering and console output are not modelled: `display`, `printWalk`, the `AnsiColor` constants and every
  `System.out` message. The `print` flag of `validateSolution` is a parameter with no effect on the result.
- `GridWorld.main` is not modelled. It reads standard input and prints.
- `RandomPuzzleGenerator` is not part of this model. It depends on `java.util.Random` and on a `double` density.
- `SinglyLinkedList`, `LinkedQueue` and `AnsiColor` are not part of this model. The lists and the queue are Dafny
  sequences, and `removeFirst`/`dequeue` take the head.
- The `GridWorld` fields `endingPoint` and `previousMoveData` are not modelled. They are written by the constructor
  and never read.
- `createIndex`, `getRowCount` and `getColCount` are not modelled separately. They are the datatype constructor
  and its fields.
- `GridIndex.toString` is not modelled. It only formats text.
- Java `int` overflow is not modelled: coordinates and counts are unbounded integers.
- Null-pointer behaviour is modelled only where the source handles it. Missing coordinates are `Option`, and a
  null later line in the constructor becomes the error `NullLine`.
- Worlds.FromLines: lines are modelled as sequences of Unicode scalar values, not UTF-16 code units, so a line
  with characters outside the Basic Multilingual Plane is measured differently from Java's `length()`/`charAt`.
- Worlds.ValidateSolution: requires at least one column. The source writes `validated[0][0]` unconditionally, so a
  world with no columns throws there.
- PathFinding.PathFinder.TryAllMoves: the inner loop of `findShortestPath` is a separate method, and so is its
  body (`TryRecord`). Their loops and tests are the source's.
- The expected path lengths of the bundled puzzle files are not restated: the puzzle files are not part of this model.
