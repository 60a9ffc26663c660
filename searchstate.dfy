/** Ghost bookkeeping for the breadth-first search of `PathFinder.java`,
    and the invariants the search keeps.

    Beside the source's own state (the move table and the queue) the proof
    tracks: `rec`, the move table as a map from cell to recorded move;
    `lvl`, every discovered cell with its BFS layer (the start is layer 0);
    `ql`, the layer of each queue entry; `done`, the cells already dequeued
    and expanded; and `unseen`, the cells of the grid not yet discovered. */
module SearchState {
  import opened Wrappers
  import opened Moves
  import opened Indices
  import opened Worlds

  /** The move table has one entry per cell of the world. */
  ghost predicate Shaped(w: GridWorld, table: array2<Option<Move>>) {
    table.Length0 == w.rowCount && table.Length1 == w.colCount
  }

  /** The recorded move of a cell, or nothing (Java `null`). */
  function Lookup(rec: map<GridIndex, Move>, x: GridIndex): Option<Move> {
    if x in rec then Some(rec[x]) else None
  }

  /** `rec` holds exactly the non-null entries of the move table. */
  ghost predicate Mirrors(w: GridWorld, table: array2<Option<Move>>, rec: map<GridIndex, Move>)
    reads table
    requires Shaped(w, table)
  {
    (forall x :: x in rec ==> Inside(w, x)) &&
    forall r, c :: 0 <= r < w.rowCount && 0 <= c < w.colCount ==> table[r, c] == Lookup(rec, GridIndex(r, c))
  }

  /** The parent-chain invariant. Every discovered cell other than the start
      has a recorded move; undoing a recorded move (of a cell other than the
      start) leads to a discovered cell exactly one layer earlier, from
      which the move is a legal step. Facts about a parent are triggered by
      reading its entry, so they do not chain on by themselves. */
  ghost predicate ParentChain(w: GridWorld, rec: map<GridIndex, Move>, lvl: map<GridIndex, nat>)
    requires w.Valid()
  {
    StartingPoint() in lvl && lvl[StartingPoint()] == 0 &&
    (forall x :: x in lvl && x != StartingPoint() ==> x in rec) &&
    (forall x {:trigger rec[x]} :: x in rec && x != StartingPoint() ==>
       x in lvl && UndoMove(x, rec[x]) in lvl && lvl[UndoMove(x, rec[x])] + 1 == lvl[x] &&
       Step(w, UndoMove(x, rec[x]), rec[x]) == Some(x))
  }

  /** Every recorded move, the start's included, is a legal step into an
      open inside cell from a cell that has already been dequeued. */
  ghost predicate RecordedFromExpanded(w: GridWorld, rec: map<GridIndex, Move>, done: set<GridIndex>)
    requires w.Valid()
  {
    forall x {:trigger rec[x]} :: x in rec ==>
      Inside(w, x) && UndoMove(x, rec[x]) in done && Step(w, UndoMove(x, rec[x]), rec[x]) == Some(x)
  }

  /** Every expanded cell is discovered, and so is every cell one legal
      step away from it, at most one layer later. */
  ghost predicate Closed(w: GridWorld, lvl: map<GridIndex, nat>, done: set<GridIndex>)
    requires w.Valid()
  {
    (forall x :: x in done ==> x in lvl) &&
    (forall y, m :: y in done && Step(w, y, m).Some? ==>
       Step(w, y, m).value in lvl && lvl[Step(w, y, m).value] <= lvl[y] + 1)
  }

  /** The queue holds discovered cells; each entry carries a layer, equal to
      the cell's own layer except for a re-enqueued start; the layers never
      decrease along the queue and span at most two consecutive values. */
  ghost predicate QueueLayers(queue: seq<GridIndex>, ql: seq<nat>, lvl: map<GridIndex, nat>) {
    |ql| == |queue| &&
    (forall i :: 0 <= i < |queue| ==>
       queue[i] in lvl && (queue[i] != StartingPoint() ==> lvl[queue[i]] == ql[i])) &&
    (forall i, j :: 0 <= i <= j < |ql| ==> ql[i] <= ql[j] <= ql[i] + 1)
  }

  /** Every queued layer is `d` or `d + 1`. */
  ghost predicate QueueWithin(ql: seq<nat>, d: nat) {
    forall k :: 0 <= k < |ql| ==> d <= ql[k] <= d + 1
  }

  /** Every expanded cell lies at a layer no later than any queued one. */
  ghost predicate DoneBeforeQueue(lvl: map<GridIndex, nat>, done: set<GridIndex>, ql: seq<nat>) {
    forall x, k :: x in done && 0 <= k < |ql| ==> x in lvl && lvl[x] <= ql[k]
  }

  /** Every discovered cell other than the start that is not yet expanded
      waits in the queue. */
  ghost predicate Pending(lvl: map<GridIndex, nat>, done: set<GridIndex>, queue: seq<GridIndex>) {
    forall x :: x in lvl && x != StartingPoint() && x !in done ==> x in queue
  }

  /** The cells not yet discovered. */
  ghost predicate Unseen(w: GridWorld, lvl: map<GridIndex, nat>, unseen: set<GridIndex>) {
    forall x :: x in unseen <==> Inside(w, x) && x !in lvl
  }

  /** What is left to record: each undiscovered cell once, and the start's
      own entry while it is still empty. Every recording spends one unit
      and enqueues one cell, which bounds the search. */
  ghost function Budget(w: GridWorld, rec: map<GridIndex, Move>, unseen: set<GridIndex>): nat {
    |unseen| + (if Inside(w, StartingPoint()) && StartingPoint() !in rec then 1 else 0)
  }

  /** The loop invariant of the search, at the head of its loop. */
  ghost predicate Searching(w: GridWorld, rec: map<GridIndex, Move>, queue: seq<GridIndex>, ql: seq<nat>,
                            lvl: map<GridIndex, nat>, done: set<GridIndex>, unseen: set<GridIndex>)
    requires w.Valid()
  {
    ParentChain(w, rec, lvl) && RecordedFromExpanded(w, rec, done) &&
    QueueLayers(queue, ql, lvl) && Closed(w, lvl, done) && Unseen(w, lvl, unseen) &&
    DoneBeforeQueue(lvl, done, ql) && Pending(lvl, done, queue) &&
    (StartingPoint() !in done ==> queue == [StartingPoint()] && ql == [0]) &&
    EndingPoint(w) !in done
  }

  /** The layers around the cell `current` dequeued at layer `d`: it is
      discovered (inside, unless it is the start), it sits at layer `d`
      unless it is an already expanded start, only the very first dequeue
      happens before the start is expanded, expanded cells lie at layers up
      to `d` and discovered ones up to `d + 1`. */
  ghost predicate Layers(w: GridWorld, lvl: map<GridIndex, nat>, done: set<GridIndex>, current: GridIndex, d: nat) {
    current in lvl && (current != StartingPoint() ==> Inside(w, current)) &&
    (current !in done ==> lvl[current] == d) &&
    (StartingPoint() in done || current == StartingPoint()) &&
    (StartingPoint() !in done ==> d == 0) &&
    (forall x :: x in done ==> x in lvl && lvl[x] <= d) &&
    (forall x :: x in lvl ==> lvl[x] <= d + 1)
  }

  /** The first `i` moves of `Move.values()` tried from `current`: each
      legal step leads to a discovered cell at most one layer later. */
  ghost predicate Tried(w: GridWorld, lvl: map<GridIndex, nat>, current: GridIndex, i: nat)
    requires w.Valid()
  {
    i <= |Values| && current in lvl &&
    forall j :: 0 <= j < i && Step(w, current, Values[j]).Some? ==>
      Step(w, current, Values[j]).value in lvl &&
      lvl[Step(w, current, Values[j]).value] <= lvl[current] + 1
  }

  /** The invariant while the cell `current`, dequeued at layer `d`, is
      being expanded, after the first `i` moves of `Move.values()` have
      been tried. `budget0` and `size0` are the budget and the queue length
      just after the dequeue. */
  ghost predicate Expanding(w: GridWorld, rec: map<GridIndex, Move>, queue: seq<GridIndex>, ql: seq<nat>,
                            lvl: map<GridIndex, nat>, done: set<GridIndex>, unseen: set<GridIndex>,
                            current: GridIndex, d: nat, i: nat, budget0: nat, size0: nat)
    requires w.Valid()
  {
    ParentChain(w, rec, lvl) && RecordedFromExpanded(w, rec, done + {current}) &&
    QueueLayers(queue, ql, lvl) && QueueWithin(ql, d) && Closed(w, lvl, done) && Unseen(w, lvl, unseen) &&
    Layers(w, lvl, done, current, d) && Pending(lvl, done + {current}, queue) && Tried(w, lvl, current, i) &&
    EndingPoint(w) !in done && current != EndingPoint(w) &&
    Budget(w, rec, unseen) + |queue| == budget0 + size0 && Budget(w, rec, unseen) <= budget0
  }

  /** The state before the first dequeue: only the start is discovered,
      nothing is recorded and nothing expanded. */
  lemma SearchStarts(w: GridWorld, unseen: set<GridIndex>)
    requires w.Valid() && unseen == w.Cells() - {StartingPoint()}
    ensures Searching(w, map[], [StartingPoint()], [0], map[StartingPoint() := 0], {}, unseen)
  {
    forall x ensures x in unseen <==> Inside(w, x) && x !in map[StartingPoint() := 0] {
      InsideIsCell(w, Some(x));
    }
  }

  /** Expanding one more cell keeps every recorded move pointing back into
      the expanded set. */
  lemma RecordedGrow(w: GridWorld, rec: map<GridIndex, Move>, done: set<GridIndex>, c: GridIndex)
    requires w.Valid() && RecordedFromExpanded(w, rec, done)
    ensures RecordedFromExpanded(w, rec, done + {c})
  {
  }

  /** Dequeuing keeps the rest of the queue in layer order, within one
      layer of the front's. */
  lemma QueueDequeue(queue: seq<GridIndex>, ql: seq<nat>, lvl: map<GridIndex, nat>)
    requires QueueLayers(queue, ql, lvl) && queue != []
    ensures QueueLayers(queue[1..], ql[1..], lvl) && QueueWithin(ql[1..], ql[0])
  {
  }

  /** Every cell still waiting after a dequeue is in the rest of the
      queue, unless it is the dequeued cell itself. */
  lemma PendingDequeue(lvl: map<GridIndex, nat>, done: set<GridIndex>, queue: seq<GridIndex>)
    requires Pending(lvl, done, queue) && queue != []
    ensures Pending(lvl, done + {queue[0]}, queue[1..])
  {
    forall x | x in lvl && x != StartingPoint() && x !in done + {queue[0]}
      ensures x in queue[1..]
    {
      var k :| 0 <= k < |queue| && queue[k] == x;
      assert queue[1..][k - 1] == x;
    }
  }

  /** Expanded cells lie no later than the front of the queue, and no
      discovered cell lies more than one layer beyond it: the start is at
      layer 0 and the other unexpanded cells wait in the queue. */
  lemma LayersBound(lvl: map<GridIndex, nat>, done: set<GridIndex>, queue: seq<GridIndex>, ql: seq<nat>)
    requires StartingPoint() in lvl && lvl[StartingPoint()] == 0
    requires QueueLayers(queue, ql, lvl) && DoneBeforeQueue(lvl, done, ql) && Pending(lvl, done, queue)
    requires queue != []
    ensures forall x :: x in done ==> x in lvl && lvl[x] <= ql[0]
    ensures forall x :: x in lvl ==> lvl[x] <= ql[0] + 1
  {
    forall x | x in lvl
      ensures lvl[x] <= ql[0] + 1
    {
      if x == StartingPoint() {
      } else if x in done {
        assert lvl[x] <= ql[0];
      } else {
        var k :| 0 <= k < |queue| && queue[k] == x;
        assert lvl[x] == ql[k] <= ql[0] + 1;
      }
    }
  }

  /** The layers around a freshly dequeued front cell. */
  lemma LayersBegin(w: GridWorld, rec: map<GridIndex, Move>, queue: seq<GridIndex>, ql: seq<nat>,
                    lvl: map<GridIndex, nat>, done: set<GridIndex>)
    requires w.Valid() && ParentChain(w, rec, lvl) && RecordedFromExpanded(w, rec, done)
    requires QueueLayers(queue, ql, lvl) && DoneBeforeQueue(lvl, done, ql) && Pending(lvl, done, queue)
    requires StartingPoint() !in done ==> queue == [StartingPoint()] && ql == [0]
    requires queue != []
    ensures Layers(w, lvl, done, queue[0], ql[0])
  {
    var current := queue[0];
    if current != StartingPoint() {
      // mentions rec[current], which instantiates ParentChain's quantifier at the front cell
      assert rec[current] == rec[current];
      assert Inside(w, current);
    }
    if StartingPoint() !in done {
      assert current == StartingPoint() && ql[0] == 0;
    }
    assert current !in done ==> lvl[current] == ql[0];
    LayersBound(lvl, done, queue, ql);
  }

  /** One more move tried: its legal step, if any, leads to a discovered
      cell at most one layer later. */
  lemma TriedExtend(w: GridWorld, lvl: map<GridIndex, nat>, current: GridIndex, i: nat)
    requires w.Valid() && Tried(w, lvl, current, i) && i < |Values|
    requires Step(w, current, Values[i]).Some? ==>
      Step(w, current, Values[i]).value in lvl &&
      lvl[Step(w, current, Values[i]).value] <= lvl[current] + 1
    ensures Tried(w, lvl, current, i + 1)
  {
  }

  /** A step into an undiscovered cell cannot start from an expanded one. */
  lemma FreshFromUnexpanded(w: GridWorld, lvl: map<GridIndex, nat>, done: set<GridIndex>,
                            p: GridIndex, m: Move, n: GridIndex)
    requires w.Valid() && Closed(w, lvl, done) && Step(w, p, m) == Some(n) && n !in lvl
    ensures p !in done
  {
  }

  /** Recording a legal step out of an expanded cell keeps every recorded
      move pointing back into the expanded set. */
  lemma RecordedRecord(w: GridWorld, rec: map<GridIndex, Move>, done: set<GridIndex>,
                       p: GridIndex, m: Move, n: GridIndex)
    requires w.Valid() && RecordedFromExpanded(w, rec, done)
    requires p in done && Step(w, p, m) == Some(n)
    ensures RecordedFromExpanded(w, rec[n := m], done)
  {
    RoundTrip(p, m);
    StepIsLegalMove(w, p, m);
  }

  /** Recording the move from a discovered cell into an undiscovered one,
      one layer later, extends the parent chain. */
  lemma ChainRecord(w: GridWorld, rec: map<GridIndex, Move>, lvl: map<GridIndex, nat>,
                    p: GridIndex, m: Move, n: GridIndex, layer: nat)
    requires w.Valid() && ParentChain(w, rec, lvl)
    requires p in lvl && lvl[p] + 1 == layer && Step(w, p, m) == Some(n) && n !in lvl
    ensures ParentChain(w, rec[n := m], lvl[n := layer])
  {
    var rec', lvl' := rec[n := m], lvl[n := layer];
    forall x | x in rec' && x != StartingPoint()
      ensures x in lvl' && UndoMove(x, rec'[x]) in lvl' && lvl'[UndoMove(x, rec'[x])] + 1 == lvl'[x]
      ensures Step(w, UndoMove(x, rec'[x]), rec'[x]) == Some(x)
    {
      if x == n {
        ChainNew(w, lvl, p, m, n, layer);
      } else {
        ChainKept(w, rec, lvl, x, n, layer);
      }
    }
  }

  /** The new entry of `ChainRecord` points back at the cell it was
      recorded from. */
  lemma ChainNew(w: GridWorld, lvl: map<GridIndex, nat>, p: GridIndex, m: Move, n: GridIndex, layer: nat)
    requires w.Valid() && p in lvl && lvl[p] + 1 == layer && Step(w, p, m) == Some(n) && n !in lvl
    ensures UndoMove(n, m) == p && p in lvl[n := layer] && lvl[n := layer][p] + 1 == lvl[n := layer][n]
    ensures Step(w, UndoMove(n, m), m) == Some(n)
  {
    StepIsLegalMove(w, p, m);
    RoundTrip(p, m);
  }

  /** An old entry of `ChainRecord` keeps its parent and layers. */
  lemma ChainKept(w: GridWorld, rec: map<GridIndex, Move>, lvl: map<GridIndex, nat>,
                  x: GridIndex, n: GridIndex, layer: nat)
    requires w.Valid() && ParentChain(w, rec, lvl) && n !in lvl
    requires x in rec && x != StartingPoint() && x != n
    ensures x in lvl[n := layer] && UndoMove(x, rec[x]) in lvl[n := layer]
    ensures lvl[n := layer][UndoMove(x, rec[x])] + 1 == lvl[n := layer][x]
    ensures Step(w, UndoMove(x, rec[x]), rec[x]) == Some(x)
  {
  }

  /** The start's own entry is outside the parent chain. */
  lemma ChainRecordStart(w: GridWorld, rec: map<GridIndex, Move>, lvl: map<GridIndex, nat>, m: Move)
    requires w.Valid() && ParentChain(w, rec, lvl)
    ensures ParentChain(w, rec[StartingPoint() := m], lvl)
  {
  }

  /** Discovering a new cell keeps every expanded cell's neighbours
      discovered, at the same layers. */
  lemma ClosedRecord(w: GridWorld, lvl: map<GridIndex, nat>, done: set<GridIndex>, n: GridIndex, layer: nat)
    requires w.Valid() && Closed(w, lvl, done) && n !in lvl
    ensures Closed(w, lvl[n := layer], done)
  {
  }

  /** Discovering a cell takes it out of the undiscovered set. */
  lemma UnseenRecord(w: GridWorld, lvl: map<GridIndex, nat>, unseen: set<GridIndex>, n: GridIndex, layer: nat)
    requires Unseen(w, lvl, unseen)
    ensures Unseen(w, lvl[n := layer], unseen - {n})
  {
  }

  /** Enqueueing a cell at the layer after `d` keeps the queue's layers in
      order, when every queued layer is `d` or `d + 1`. A fresh cell is
      discovered at that layer; a start keeps its layer. */
  lemma QueueLayersAppend(queue: seq<GridIndex>, ql: seq<nat>, lvl: map<GridIndex, nat>,
                          lvl': map<GridIndex, nat>, n: GridIndex, d: nat)
    requires QueueLayers(queue, ql, lvl) && QueueWithin(ql, d)
    requires (n == StartingPoint() && n in lvl && lvl' == lvl) ||
             (n != StartingPoint() && n !in lvl && lvl' == lvl[n := d + 1])
    ensures QueueLayers(queue + [n], ql + [d + 1], lvl') && QueueWithin(ql + [d + 1], d)
  {
  }

  /** Discovering a new cell at the next layer keeps the layers around the
      cell being expanded. */
  lemma LayersRecord(w: GridWorld, lvl: map<GridIndex, nat>, done: set<GridIndex>, current: GridIndex,
                     d: nat, n: GridIndex)
    requires Layers(w, lvl, done, current, d) && n !in lvl
    ensures Layers(w, lvl[n := d + 1], done, current, d)
  {
  }

  /** A cell discovered together with its enqueueing is waiting in the
      queue. */
  lemma PendingRecord(lvl: map<GridIndex, nat>, lvl': map<GridIndex, nat>, done: set<GridIndex>,
                      queue: seq<GridIndex>, n: GridIndex)
    requires Pending(lvl, done, queue) && lvl'.Keys <= lvl.Keys + {n}
    ensures Pending(lvl', done, queue + [n])
  {
  }

  /** Discovering a new cell keeps the moves already tried. */
  lemma TriedGrow(w: GridWorld, lvl: map<GridIndex, nat>, current: GridIndex, i: nat, n: GridIndex, layer: nat)
    requires w.Valid() && Tried(w, lvl, current, i) && n !in lvl
    ensures Tried(w, lvl[n := layer], current, i)
  {
  }

  /** Recording a move into a fresh inside cell spends one unit of the
      budget: the cell leaves the undiscovered set, or, for the start, its
      empty entry is filled. */
  lemma BudgetRecord(w: GridWorld, rec: map<GridIndex, Move>, unseen: set<GridIndex>, unseen': set<GridIndex>,
                     n: GridIndex, m: Move)
    requires Inside(w, n) && n !in rec
    requires (n == StartingPoint() && unseen' == unseen) ||
             (n != StartingPoint() && n in unseen && unseen' == unseen - {n})
    ensures Budget(w, rec[n := m], unseen') + 1 == Budget(w, rec, unseen)
  {
  }

  /** After all four moves every legal step out of the expanded cell is
      discovered, at most one layer later. */
  lemma ClosedFinish(w: GridWorld, lvl: map<GridIndex, nat>, done: set<GridIndex>, current: GridIndex)
    requires w.Valid() && Closed(w, lvl, done) && Tried(w, lvl, current, |Values|)
    ensures Closed(w, lvl, done + {current})
  {
    forall y, m | y in done + {current} && Step(w, y, m).Some?
      ensures Step(w, y, m).value in lvl && lvl[Step(w, y, m).value] <= lvl[y] + 1
    {
      if y !in done {
        assert Values[Ordinal(m)] == m;
      }
    }
  }

  /** The expanded cell, at a layer no later than `d`, joins the cells
      below every queued layer. */
  lemma DoneFinish(w: GridWorld, lvl: map<GridIndex, nat>, done: set<GridIndex>, current: GridIndex,
                   d: nat, ql: seq<nat>)
    requires Layers(w, lvl, done, current, d) && QueueWithin(ql, d)
    ensures DoneBeforeQueue(lvl, done + {current}, ql)
  {
  }

}
