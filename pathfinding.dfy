/** `PathFinder.java`: breadth-first search from the top-left cell to the
    bottom-right one over a FIFO queue of coordinates, with a per-cell
    table holding the move by which each cell was first reached, walked
    backwards to rebuild the path. The search is proved to return a legal
    path of minimum length when one exists and nothing otherwise. */
module PathFinding {
  import opened Wrappers
  import opened Moves
  import opened Indices
  import opened Worlds
  import opened SearchState

  /** Dequeuing the front cell, when it is not the ending point, starts its
      expansion at the front's layer. */
  lemma BeginExpanding(w: GridWorld, rec: map<GridIndex, Move>, queue: seq<GridIndex>, ql: seq<nat>,
                       lvl: map<GridIndex, nat>, done: set<GridIndex>, unseen: set<GridIndex>)
    requires w.Valid() && Searching(w, rec, queue, ql, lvl, done, unseen)
    requires queue != [] && queue[0] != EndingPoint(w)
    ensures Expanding(w, rec, queue[1..], ql[1..], lvl, done, unseen, queue[0], ql[0], 0,
                      Budget(w, rec, unseen), |queue| - 1)
  {
    RecordedGrow(w, rec, done, queue[0]);
    QueueDequeue(queue, ql, lvl);
    PendingDequeue(lvl, done, queue);
    LayersBegin(w, rec, queue, ql, lvl, done);
  }

  /** A tried move that records nothing keeps the expansion invariant: its
      target, if a legal step, is already discovered no later than the next
      layer. */
  lemma ExpandSkip(w: GridWorld, rec: map<GridIndex, Move>, queue: seq<GridIndex>, ql: seq<nat>,
                   lvl: map<GridIndex, nat>, done: set<GridIndex>, unseen: set<GridIndex>,
                   current: GridIndex, d: nat, i: nat, budget0: nat, size0: nat)
    requires w.Valid() && Expanding(w, rec, queue, ql, lvl, done, unseen, current, d, i, budget0, size0)
    requires i < |Values|
    requires Step(w, current, Values[i]).Some? ==> Step(w, current, Values[i]).value in rec
    ensures Expanding(w, rec, queue, ql, lvl, done, unseen, current, d, i + 1, budget0, size0)
  {
    var s := Step(w, current, Values[i]);
    if s.Some? && s.value != StartingPoint() {
      // mentions rec[s.value], which instantiates ParentChain's quantifier at the target
      assert rec[s.value] == rec[s.value];
    }
    TriedExtend(w, lvl, current, i);
  }

  /** The first half of `ExpandRecord`: the fresh target is an undiscovered
      inside cell, and the parent chain, the recorded moves, the queue
      layers, closure and the undiscovered set all survive its recording. */
  lemma ExpandRecordShape(w: GridWorld, rec: map<GridIndex, Move>, queue: seq<GridIndex>, ql: seq<nat>,
                          lvl: map<GridIndex, nat>, done: set<GridIndex>, unseen: set<GridIndex>,
                          current: GridIndex, d: nat, i: nat, budget0: nat, size0: nat, n: GridIndex)
    requires w.Valid() && Expanding(w, rec, queue, ql, lvl, done, unseen, current, d, i, budget0, size0)
    requires i < |Values| && Step(w, current, Values[i]) == Some(n) && n !in rec && n != StartingPoint()
    ensures n !in lvl && Inside(w, n) && n in unseen
    ensures ParentChain(w, rec[n := Values[i]], lvl[n := d + 1])
    ensures RecordedFromExpanded(w, rec[n := Values[i]], done + {current})
    ensures QueueLayers(queue + [n], ql + [d + 1], lvl[n := d + 1]) && QueueWithin(ql + [d + 1], d)
    ensures Closed(w, lvl[n := d + 1], done) && Unseen(w, lvl[n := d + 1], unseen - {n})
  {
    StepIsLegalMove(w, current, Values[i]);
    assert n !in lvl;
    FreshFromUnexpanded(w, lvl, done, current, Values[i], n);
    ChainRecord(w, rec, lvl, current, Values[i], n, d + 1);
    RecordedRecord(w, rec, done + {current}, current, Values[i], n);
    QueueLayersAppend(queue, ql, lvl, lvl[n := d + 1], n, d);
    ClosedRecord(w, lvl, done, n, d + 1);
    UnseenRecord(w, lvl, unseen, n, d + 1);
  }

  /** The second half of `ExpandRecord`: the layers around `current`, the
      pending cells and the moves tried survive the recording, which spends
      one unit of the budget. */
  lemma ExpandRecordLayers(w: GridWorld, rec: map<GridIndex, Move>, queue: seq<GridIndex>, ql: seq<nat>,
                           lvl: map<GridIndex, nat>, done: set<GridIndex>, unseen: set<GridIndex>,
                           current: GridIndex, d: nat, i: nat, budget0: nat, size0: nat, n: GridIndex)
    requires w.Valid() && Expanding(w, rec, queue, ql, lvl, done, unseen, current, d, i, budget0, size0)
    requires i < |Values| && Step(w, current, Values[i]) == Some(n) && n !in rec && n != StartingPoint()
    requires n !in lvl && Inside(w, n) && n in unseen
    ensures Layers(w, lvl[n := d + 1], done, current, d)
    ensures Pending(lvl[n := d + 1], done + {current}, queue + [n])
    ensures Tried(w, lvl[n := d + 1], current, i + 1)
    ensures Budget(w, rec[n := Values[i]], unseen - {n}) + 1 == Budget(w, rec, unseen)
  {
    LayersRecord(w, lvl, done, current, d, n);
    PendingRecord(lvl, lvl[n := d + 1], done + {current}, queue, n);
    TriedGrow(w, lvl, current, i, n, d + 1);
    TriedExtend(w, lvl[n := d + 1], current, i);
    BudgetRecord(w, rec, unseen, unseen - {n}, n, Values[i]);
  }

  /** Recording the move into a fresh, open, inside cell other than the
      start and enqueueing it discovers it at the next layer, and keeps the
      expansion invariant. */
  lemma ExpandRecord(w: GridWorld, rec: map<GridIndex, Move>, queue: seq<GridIndex>, ql: seq<nat>,
                     lvl: map<GridIndex, nat>, done: set<GridIndex>, unseen: set<GridIndex>,
                     current: GridIndex, d: nat, i: nat, budget0: nat, size0: nat, n: GridIndex)
    requires w.Valid() && Expanding(w, rec, queue, ql, lvl, done, unseen, current, d, i, budget0, size0)
    requires i < |Values| && Step(w, current, Values[i]) == Some(n) && n !in rec && n != StartingPoint()
    ensures Expanding(w, rec[n := Values[i]], queue + [n], ql + [d + 1], lvl[n := d + 1], done, unseen - {n},
                      current, d, i + 1, budget0, size0)
  {
    ExpandRecordShape(w, rec, queue, ql, lvl, done, unseen, current, d, i, budget0, size0, n);
    ExpandRecordLayers(w, rec, queue, ql, lvl, done, unseen, current, d, i, budget0, size0, n);
  }

  /** Recording a move into the start, whose own entry is still empty,
      enqueues it again but leaves it at layer 0: the expansion invariant
      holds with the discovered layers unchanged. */
  lemma ExpandRecordStart(w: GridWorld, rec: map<GridIndex, Move>, queue: seq<GridIndex>, ql: seq<nat>,
                          lvl: map<GridIndex, nat>, done: set<GridIndex>, unseen: set<GridIndex>,
                          current: GridIndex, d: nat, i: nat, budget0: nat, size0: nat)
    requires w.Valid() && Expanding(w, rec, queue, ql, lvl, done, unseen, current, d, i, budget0, size0)
    requires i < |Values| && Step(w, current, Values[i]) == Some(StartingPoint()) && StartingPoint() !in rec
    ensures Expanding(w, rec[StartingPoint() := Values[i]], queue + [StartingPoint()], ql + [d + 1], lvl, done,
                      unseen, current, d, i + 1, budget0, size0)
  {
    StepIsLegalMove(w, current, Values[i]);
    ChainRecordStart(w, rec, lvl, Values[i]);
    RecordedRecord(w, rec, done + {current}, current, Values[i], StartingPoint());
    QueueLayersAppend(queue, ql, lvl, lvl, StartingPoint(), d);
    PendingRecord(lvl, lvl, done + {current}, queue, StartingPoint());
    TriedExtend(w, lvl, current, i);
    BudgetRecord(w, rec, unseen, unseen, StartingPoint(), Values[i]);
  }

  /** After all four moves, the expanded cell joins `done` and the search
      invariant holds again. */
  lemma FinishExpanding(w: GridWorld, rec: map<GridIndex, Move>, queue: seq<GridIndex>, ql: seq<nat>,
                        lvl: map<GridIndex, nat>, done: set<GridIndex>, unseen: set<GridIndex>,
                        current: GridIndex, d: nat, budget0: nat, size0: nat)
    requires w.Valid() && Expanding(w, rec, queue, ql, lvl, done, unseen, current, d, |Values|, budget0, size0)
    ensures Searching(w, rec, queue, ql, lvl, done + {current}, unseen)
  {
    ClosedFinish(w, lvl, done, current);
    DoneFinish(w, lvl, done, current, d, ql);
  }

  /** One backward step of the reconstruction: a discovered cell other than
      the start has a recorded move whose undo stays inside and reaches a
      cell one layer earlier, and prepending the move keeps the replay
      legal. */
  lemma StepBack(w: GridWorld, rec: map<GridIndex, Move>, lvl: map<GridIndex, nat>,
                 here: GridIndex, after: seq<Move>, end: GridIndex)
    requires w.Valid() && ParentChain(w, rec, lvl) && (forall x :: x in rec ==> Inside(w, x))
    requires here in lvl && here != StartingPoint() && Leads(w, here, after, end)
    ensures here in rec
    ensures TryUndoMove(w, here, rec[here]) == Some(UndoMove(here, rec[here]))
    ensures UndoMove(here, rec[here]) in lvl && lvl[UndoMove(here, rec[here])] + 1 == lvl[here]
    ensures Leads(w, UndoMove(here, rec[here]), [rec[here]] + after, end)
  {
    var m := rec[here];
    var p := UndoMove(here, m);
    assert Inside(w, p) by {
      if p != StartingPoint() {
        assert p in rec;
      }
    }
    WalkPrepend(w, p, m, after);
  }

  /** Every legal replay from the start shorter than `bound` ends on an
      expanded cell, at a layer no later than its length, provided every
      discovered cell of an earlier layer has been expanded. */
  lemma {:induction false} Settled(w: GridWorld, lvl: map<GridIndex, nat>, done: set<GridIndex>, bound: int,
                                   ms: seq<Move>)
    requires w.Valid() && StartingPoint() in lvl && lvl[StartingPoint()] == 0 && Closed(w, lvl, done)
    requires forall x :: x in lvl && lvl[x] < bound ==> x in done
    requires Walk(w, StartingPoint(), ms).failure.None? && |ms| < bound
    ensures Final(Walk(w, StartingPoint(), ms)) in done
    ensures lvl[Final(Walk(w, StartingPoint(), ms))] <= |ms|
    decreases |ms|
  {
    if ms != [] {
      var shorter, last := ms[..|ms| - 1], ms[|ms| - 1];
      assert shorter + [last] == ms;
      WalkExtend(w, StartingPoint(), shorter, last);
      Settled(w, lvl, done, bound, shorter);
    }
  }

  /** At the head of the search loop every discovered cell of a layer
      earlier than the queue's front has been expanded; once the queue is
      empty, every discovered cell has. */
  lemma SettledBelowFront(w: GridWorld, rec: map<GridIndex, Move>, queue: seq<GridIndex>, ql: seq<nat>,
                          lvl: map<GridIndex, nat>, done: set<GridIndex>, unseen: set<GridIndex>)
    requires w.Valid() && Searching(w, rec, queue, ql, lvl, done, unseen)
    ensures queue != [] ==> forall x :: x in lvl && lvl[x] < ql[0] ==> x in done
    ensures queue == [] ==> forall x :: x in lvl ==> x in done
  {
    forall x | x in lvl && x !in done
      ensures queue != [] && ql[0] <= lvl[x]
    {
      if x != StartingPoint() {
        var k :| 0 <= k < |queue| && queue[k] == x;
      }
    }
  }

  /** A cell still unexpanded once every earlier layer than `bound` is
      settled cannot be reached by a replay shorter than `bound`. */
  lemma NoShorterWalk(w: GridWorld, lvl: map<GridIndex, nat>, done: set<GridIndex>, bound: int, target: GridIndex)
    requires w.Valid() && StartingPoint() in lvl && lvl[StartingPoint()] == 0 && Closed(w, lvl, done)
    requires forall x :: x in lvl && lvl[x] < bound ==> x in done
    requires target !in done
    ensures forall ms :: Leads(w, StartingPoint(), ms, target) ==> bound <= |ms|
  {
    forall ms | Leads(w, StartingPoint(), ms, target)
      ensures bound <= |ms|
    {
      if |ms| < bound {
        Settled(w, lvl, done, bound, ms);
      }
    }
  }

  /** The part of the search state that one expansion changes: the
      recorded moves, the queue with its layers, the layer of every
      discovered cell and the undiscovered cells. */
  datatype Frontier = Frontier(rec: map<GridIndex, Move>, queue: seq<GridIndex>, ql: seq<nat>,
                               lvl: map<GridIndex, nat>, unseen: set<GridIndex>)

  /** The effect of trying the move `Values[i]` from `current`, dequeued at
      layer `d`: a legal step into a cell without a recorded move records
      the move, enqueues the cell at layer `d + 1` and, unless the cell is
      the start, discovers it; anything else leaves the state alone. */
  function Turned(w: GridWorld, f: Frontier, current: GridIndex, d: nat, i: nat): Frontier
    requires w.Valid() && i < |Values|
  {
    var s := Step(w, current, Values[i]);
    if s.Some? && s.value !in f.rec then
      Frontier(f.rec[s.value := Values[i]], f.queue + [s.value], f.ql + [d + 1],
               if s.value == StartingPoint() then f.lvl else f.lvl[s.value := d + 1],
               if s.value == StartingPoint() then f.unseen else f.unseen - {s.value})
    else
      f
  }

  /** The moves `Values[i..]` tried in order from `current`: the whole inner
      loop of `findShortestPath` from its `i`-th turn on. */
  function Turns(w: GridWorld, f: Frontier, current: GridIndex, d: nat, i: nat): Frontier
    requires w.Valid() && i <= |Values|
    decreases |Values| - i
  {
    if i == |Values| then f else Turns(w, Turned(w, f, current, d, i), current, d, i + 1)
  }

  /** The cells that trying `Values[i..]` from `current` enqueues, in that
      order: every legal target without a recorded move. */
  function Targets(w: GridWorld, rec: map<GridIndex, Move>, current: GridIndex, i: nat): seq<GridIndex>
    requires w.Valid() && i <= |Values|
    decreases |Values| - i
  {
    if i == |Values| then []
    else
      var s := Step(w, current, Values[i]);
      (if s.Some? && s.value !in rec then [s.value] else []) + Targets(w, rec, current, i + 1)
  }

  /** Recording a cell that no later move reaches from `current` leaves the
      later targets alone. */
  lemma {:induction false} TargetsIgnore(w: GridWorld, rec: map<GridIndex, Move>, current: GridIndex, i: nat,
                                         x: GridIndex, m: Move)
    requires w.Valid() && i <= |Values|
    requires forall j :: i <= j < |Values| ==> DoMove(current, Values[j]) != x
    ensures Targets(w, rec[x := m], current, i) == Targets(w, rec, current, i)
    decreases |Values| - i
  {
    if i < |Values| {
      StepIsLegalMove(w, current, Values[i]);
      TargetsIgnore(w, rec, current, i + 1, x, m);
    }
  }

  /** The moves after `Values[i]` all lead somewhere else than it does. */
  lemma LaterMovesElsewhere(current: GridIndex, i: nat)
    requires i < |Values|
    ensures forall j :: i < j < |Values| ==> DoMove(current, Values[j]) != DoMove(current, Values[i])
  {
    ValuesEnumerateMoves(Values[i]);
    forall j | i < j < |Values|
      ensures DoMove(current, Values[j]) != DoMove(current, Values[i])
    {
      if DoMove(current, Values[j]) == DoMove(current, Values[i]) {
        DoMoveInjective(current, Values[i], Values[j]);
      }
    }
  }

  /** One turn enqueues the first of the targets of `Values[i..]`, if it
      has any at `i`, and leaves the others to the later turns: distinct
      moves reach distinct cells, so recording this turn's target does not
      change the later ones. */
  lemma TurnedTargets(w: GridWorld, f: Frontier, current: GridIndex, d: nat, i: nat)
    requires w.Valid() && i < |Values|
    ensures Turned(w, f, current, d, i).queue + Targets(w, Turned(w, f, current, d, i).rec, current, i + 1) ==
            f.queue + Targets(w, f.rec, current, i)
    ensures |Turned(w, f, current, d, i).ql| + |Targets(w, Turned(w, f, current, d, i).rec, current, i + 1)| ==
            |f.ql| + |Targets(w, f.rec, current, i)|
  {
    var s := Step(w, current, Values[i]);
    StepIsLegalMove(w, current, Values[i]);
    if s.Some? && s.value !in f.rec {
      LaterMovesElsewhere(current, i);
      TargetsIgnore(w, f.rec, current, i + 1, s.value, Values[i]);
      var later := Targets(w, f.rec, current, i + 1);
      assert Targets(w, f.rec, current, i) == [s.value] + later;
      assert (f.queue + [s.value]) + later == f.queue + ([s.value] + later);
    } else {
      assert Targets(w, f.rec, current, i) == Targets(w, f.rec, current, i + 1);
    }
  }

  /** The inner loop enqueues exactly the legal targets of `Values[i..]`
      that had no recorded move when the expansion began, in the order of
      `Move.values()`, each with a layer. */
  lemma {:induction false} TurnsEnqueue(w: GridWorld, f: Frontier, current: GridIndex, d: nat, i: nat)
    requires w.Valid() && i <= |Values|
    ensures Turns(w, f, current, d, i).queue == f.queue + Targets(w, f.rec, current, i)
    ensures |Turns(w, f, current, d, i).ql| == |f.ql| + |Targets(w, f.rec, current, i)|
    decreases |Values| - i
  {
    if i < |Values| {
      TurnsEnqueue(w, Turned(w, f, current, d, i), current, d, i + 1);
      TurnedTargets(w, f, current, d, i);
    }
  }

  /** The loop from turn `i` on is turn `i` followed by the loop from turn
      `i + 1` on. */
  lemma TurnsStep(w: GridWorld, f: Frontier, g: Frontier, current: GridIndex, d: nat, i: nat)
    requires w.Valid() && i < |Values| && Turned(w, f, current, d, i) == g
    ensures Turns(w, f, current, d, i) == Turns(w, g, current, d, i + 1)
  {
  }

  /** One turn as a relation between the states before and after it. */
  ghost predicate Turn(w: GridWorld, rec: map<GridIndex, Move>, queue: seq<GridIndex>, ql: seq<nat>,
                       lvl: map<GridIndex, nat>, unseen: set<GridIndex>, current: GridIndex, d: nat, i: nat,
                       rec': map<GridIndex, Move>, queue': seq<GridIndex>, ql': seq<nat>,
                       lvl': map<GridIndex, nat>, unseen': set<GridIndex>)
    requires w.Valid() && i < |Values|
  {
    Turned(w, Frontier(rec, queue, ql, lvl, unseen), current, d, i) == Frontier(rec', queue', ql', lvl', unseen')
  }

  /** Every turn of the inner loop keeps the expansion invariant, one more
      move tried. */
  lemma TurnKeepsExpanding(w: GridWorld, f: Frontier, done: set<GridIndex>, current: GridIndex, d: nat, i: nat,
                           budget0: nat, size0: nat)
    requires w.Valid() && i < |Values|
    requires Expanding(w, f.rec, f.queue, f.ql, f.lvl, done, f.unseen, current, d, i, budget0, size0)
    ensures var g := Turned(w, f, current, d, i);
      Expanding(w, g.rec, g.queue, g.ql, g.lvl, done, g.unseen, current, d, i + 1, budget0, size0)
  {
    var s := Step(w, current, Values[i]);
    if s.Some? && s.value !in f.rec {
      if s.value == StartingPoint() {
        ExpandRecordStart(w, f.rec, f.queue, f.ql, f.lvl, done, f.unseen, current, d, i, budget0, size0);
      } else {
        ExpandRecord(w, f.rec, f.queue, f.ql, f.lvl, done, f.unseen, current, d, i, budget0, size0, s.value);
      }
    } else {
      ExpandSkip(w, f.rec, f.queue, f.ql, f.lvl, done, f.unseen, current, d, i, budget0, size0);
    }
  }

  /** The turns from `i` on keep the expansion invariant, every move then
      tried. */
  lemma {:induction false} TurnsKeepExpanding(w: GridWorld, f: Frontier, done: set<GridIndex>, current: GridIndex,
                                              d: nat, i: nat, budget0: nat, size0: nat)
    requires w.Valid() && i <= |Values|
    requires Expanding(w, f.rec, f.queue, f.ql, f.lvl, done, f.unseen, current, d, i, budget0, size0)
    ensures var g := Turns(w, f, current, d, i);
      Expanding(w, g.rec, g.queue, g.ql, g.lvl, done, g.unseen, current, d, |Values|, budget0, size0)
    decreases |Values| - i
  {
    if i < |Values| {
      TurnKeepsExpanding(w, f, done, current, d, i, budget0, size0);
      TurnsKeepExpanding(w, Turned(w, f, current, d, i), done, current, d, i + 1, budget0, size0);
    }
  }

  /** Expanding the front cell, every move of `Move.values()` tried from it,
      keeps the search invariant with that cell expanded, spends one unit of
      the budget per enqueued cell, and enqueues exactly the targets that
      had no recorded move. */
  lemma Expansion(w: GridWorld, rec: map<GridIndex, Move>, queue: seq<GridIndex>, ql: seq<nat>,
                  lvl: map<GridIndex, nat>, done: set<GridIndex>, unseen: set<GridIndex>)
    requires w.Valid() && Searching(w, rec, queue, ql, lvl, done, unseen)
    requires queue != [] && queue[0] != EndingPoint(w)
    ensures var g := Turns(w, Frontier(rec, queue[1..], ql[1..], lvl, unseen), queue[0], ql[0], 0);
      Searching(w, g.rec, g.queue, g.ql, g.lvl, done + {queue[0]}, g.unseen) &&
      Budget(w, g.rec, g.unseen) <= Budget(w, rec, unseen) &&
      Budget(w, g.rec, g.unseen) + |g.queue| == Budget(w, rec, unseen) + |queue| - 1 &&
      g.queue == queue[1..] + Targets(w, rec, queue[0], 0)
  {
    var f := Frontier(rec, queue[1..], ql[1..], lvl, unseen);
    var g := Turns(w, f, queue[0], ql[0], 0);
    BeginExpanding(w, rec, queue, ql, lvl, done, unseen);
    TurnsKeepExpanding(w, f, done, queue[0], ql[0], 0, Budget(w, rec, unseen), |queue| - 1);
    FinishExpanding(w, g.rec, g.queue, g.ql, g.lvl, done, g.unseen, queue[0], ql[0],
                    Budget(w, rec, unseen), |queue| - 1);
    TurnsEnqueue(w, f, queue[0], ql[0], 0);
  }

  /** A turn never overwrites a recorded move, records at most one new cell,
      which is the inside, open target of the tried move, and enqueues at
      most that cell. */
  lemma TurnRecordsOnce(w: GridWorld, rec: map<GridIndex, Move>, queue: seq<GridIndex>, ql: seq<nat>,
                        lvl: map<GridIndex, nat>, unseen: set<GridIndex>, current: GridIndex, d: nat, i: nat,
                        rec': map<GridIndex, Move>, queue': seq<GridIndex>, ql': seq<nat>,
                        lvl': map<GridIndex, nat>, unseen': set<GridIndex>)
    requires w.Valid() && i < |Values|
    requires Turn(w, rec, queue, ql, lvl, unseen, current, d, i, rec', queue', ql', lvl', unseen')
    ensures forall x :: x in rec ==> x in rec' && rec'[x] == rec[x]
    ensures forall x :: x in rec' && x !in rec ==>
              x == DoMove(current, Values[i]) && Inside(w, x) && !IsBlocked(w, x) && rec'[x] == Values[i]
    ensures queue' == queue || queue' == queue + [DoMove(current, Values[i])]
  {
    StepIsLegalMove(w, current, Values[i]);
  }

  /** The undiscovered cells before the first dequeue: every cell but the
      start. The search invariant holds, and the budget is one recording
      per cell. */
  lemma FirstUnseen(w: GridWorld) returns (unseen: set<GridIndex>)
    requires w.Valid()
    ensures Searching(w, map[], [StartingPoint()], [0], map[StartingPoint() := 0], {}, unseen)
    ensures Budget(w, map[], unseen) == w.rowCount * w.colCount
  {
    unseen := w.Cells() - {StartingPoint()};
    SearchStarts(w, unseen);
    CellCount(w);
    InsideIsCell(w, Some(StartingPoint()));
  }

  /** A search that dequeues the ending point has already reached it by a
      shortest route: no legal replay from the start reaches it in fewer
      moves than its layer. */
  lemma FoundAtFront(w: GridWorld, rec: map<GridIndex, Move>, queue: seq<GridIndex>, ql: seq<nat>,
                     lvl: map<GridIndex, nat>, done: set<GridIndex>, unseen: set<GridIndex>)
    requires w.Valid() && Searching(w, rec, queue, ql, lvl, done, unseen)
    requires queue != [] && queue[0] == EndingPoint(w)
    ensures EndingPoint(w) in lvl && ParentChain(w, rec, lvl)
    ensures forall ms :: Leads(w, StartingPoint(), ms, EndingPoint(w)) ==> lvl[EndingPoint(w)] <= |ms|
  {
    SettledBelowFront(w, rec, queue, ql, lvl, done, unseen);
    assert lvl[EndingPoint(w)] == ql[0] by {
      if EndingPoint(w) == StartingPoint() {
        assert StartingPoint() !in done;
      }
    }
    NoShorterWalk(w, lvl, done, ql[0], EndingPoint(w));
  }

  /** A search whose queue runs empty has expanded every cell reachable
      from the start, and the ending point is not among them. */
  lemma Exhausted(w: GridWorld, rec: map<GridIndex, Move>, queue: seq<GridIndex>, ql: seq<nat>,
                  lvl: map<GridIndex, nat>, done: set<GridIndex>, unseen: set<GridIndex>)
    requires w.Valid() && Searching(w, rec, queue, ql, lvl, done, unseen) && queue == []
    ensures forall ms :: !Leads(w, StartingPoint(), ms, EndingPoint(w))
  {
    SettledBelowFront(w, rec, queue, ql, lvl, done, unseen);
    forall ms | Walk(w, StartingPoint(), ms).failure.None?
      ensures Final(Walk(w, StartingPoint(), ms)) != EndingPoint(w)
    {
      Settled(w, lvl, done, |ms| + 1, ms);
    }
  }

  /** `PathFinder`: a breadth-first solver bound to one grid world. */
  class PathFinder {
    const gridWorld: GridWorld

    constructor (gridWorld: GridWorld)
      ensures this.gridWorld == gridWorld
    {
      this.gridWorld := gridWorld;
    }

    /** `findShortestPath`: breadth-first search from the top-left cell.
        A dequeued cell equal to the ending point ends the search with the
        reconstructed path. Otherwise every move of `Move.values()`, in
        order, whose target is inside the grid, open and still without a
        recorded move gets that move recorded and the target enqueued. The
        start is never marked when it is first enqueued, so it may be
        recorded and enqueued once more. An empty queue means there is no
        path (Java `null`). */
    method FindShortestPath() returns (r: Option<seq<Move>>, ghost dequeues: nat)
      requires gridWorld.Valid()
      ensures r.Some? ==> Leads(gridWorld, StartingPoint(), r.value, EndingPoint(gridWorld))
      ensures r.Some? ==> forall ms :: Leads(gridWorld, StartingPoint(), ms, EndingPoint(gridWorld)) ==>
                                        |r.value| <= |ms|
      ensures r.None? ==> forall ms :: !Leads(gridWorld, StartingPoint(), ms, EndingPoint(gridWorld))
      ensures StartingPoint() == EndingPoint(gridWorld) ==> r == Some([])
      ensures dequeues <= gridWorld.rowCount * gridWorld.colCount + 1
    {
      var w := gridWorld;
      var start := StartingPoint();
      var end := EndingPoint(w);
      var previousMoveData := new Option<Move>[w.rowCount, w.colCount]((_, _) => None);
      var queue := [start];
      ghost var rec: map<GridIndex, Move> := map[];
      ghost var ql: seq<nat> := [0];
      ghost var lvl := map[start := 0];
      ghost var done: set<GridIndex> := {};
      ghost var unseen := FirstUnseen(w);
      dequeues := 0;
      while queue != []
        invariant Shaped(w, previousMoveData) && Mirrors(w, previousMoveData, rec)
        invariant Searching(w, rec, queue, ql, lvl, done, unseen)
        invariant dequeues + Budget(w, rec, unseen) + |queue| == w.rowCount * w.colCount + 1
        decreases Budget(w, rec, unseen), |queue|
      {
        var current := queue[0];
        ghost var queue0, ql0 := queue, ql;
        queue := queue[1..];
        ql := ql[1..];
        dequeues := dequeues + 1;
        if current.row == end.row && current.col == end.col {
          FoundAtFront(w, rec, queue0, ql0, lvl, done, unseen);
          var path := ReconstructPath(previousMoveData, current, rec, lvl);
          return Some(path), dequeues;
        }
        Expansion(w, rec, queue0, ql0, lvl, done, unseen);
        queue, rec, ql, lvl, unseen := TryAllMoves(previousMoveData, current, queue, ql0, rec, lvl, unseen);
        done := done + {current};
      }
      Exhausted(w, rec, queue, ql, lvl, done, unseen);
      return None, dequeues;
    }

    /** The inner loop of `findShortestPath`: every move of `Move.values()`
        is tried from `current`, in order. The new state is the one the
        turns compute, the table mirrors its recorded moves, and the queue
        grows by exactly the legal targets that had no recorded move;
        `Expansion` shows that the search invariant survives. */
    method TryAllMoves(previousMoveData: array2<Option<Move>>, current: GridIndex, queue: seq<GridIndex>,
                       ghost layers: seq<nat>, ghost rec: map<GridIndex, Move>,
                       ghost lvl: map<GridIndex, nat>, ghost unseen: set<GridIndex>)
      returns (queue': seq<GridIndex>, ghost rec': map<GridIndex, Move>, ghost ql': seq<nat>,
               ghost lvl': map<GridIndex, nat>, ghost unseen': set<GridIndex>)
      requires gridWorld.Valid() && Shaped(gridWorld, previousMoveData) && Mirrors(gridWorld, previousMoveData, rec)
      requires layers != []
      modifies previousMoveData
      ensures Mirrors(gridWorld, previousMoveData, rec')
      ensures Frontier(rec', queue', ql', lvl', unseen') ==
              Turns(gridWorld, Frontier(rec, queue, layers[1..], lvl, unseen), current, layers[0], 0)
      ensures queue' == queue + Targets(gridWorld, rec, current, 0)
    {
      var w := gridWorld;
      ghost var d := layers[0];
      queue', rec', ql', lvl', unseen' := queue, rec, layers[1..], lvl, unseen;
      ghost var outcome := Turns(w, Frontier(rec, queue, layers[1..], lvl, unseen), current, d, 0);
      for i := 0 to |Values|
        invariant Mirrors(w, previousMoveData, rec')
        invariant Turns(w, Frontier(rec', queue', ql', lvl', unseen'), current, d, i) == outcome
      {
        ghost var rec0, queue0, ql0, lvl0, unseen0 := rec', queue', ql', lvl', unseen';
        queue', rec', ql', lvl', unseen' :=
          TryRecord(previousMoveData, current, i, queue', rec', ql', lvl', unseen', d);
        TurnsStep(w, Frontier(rec0, queue0, ql0, lvl0, unseen0), Frontier(rec', queue', ql', lvl', unseen'),
                  current, d, i);
      }
      TurnsEnqueue(w, Frontier(rec, queue, layers[1..], lvl, unseen), current, d, 0);
    }

    /** One turn of the inner loop of `findShortestPath`: the move
        `Values[i]` is recorded for its target, and the target enqueued,
        exactly when it stays inside the grid, lands on an open cell and
        that cell has no recorded move yet. */
    method TryRecord(previousMoveData: array2<Option<Move>>, current: GridIndex, i: nat, queue: seq<GridIndex>,
                     ghost rec: map<GridIndex, Move>, ghost ql: seq<nat>, ghost lvl: map<GridIndex, nat>,
                     ghost unseen: set<GridIndex>, ghost d: nat)
      returns (queue': seq<GridIndex>, ghost rec': map<GridIndex, Move>, ghost ql': seq<nat>,
               ghost lvl': map<GridIndex, nat>, ghost unseen': set<GridIndex>)
      requires gridWorld.Valid() && Shaped(gridWorld, previousMoveData) && Mirrors(gridWorld, previousMoveData, rec)
      requires i < |Values|
      modifies previousMoveData
      ensures Turn(gridWorld, rec, queue, ql, lvl, unseen, current, d, i, rec', queue', ql', lvl', unseen')
      ensures Mirrors(gridWorld, previousMoveData, rec')
    {
      var w := gridWorld;
      var move := Values[i];
      var next := TryMove(w, current, move);
      StepIsLegalMove(w, current, move);
      if next.Some? && !IsBlocked(w, next.value) && previousMoveData[next.value.row, next.value.col].None? {
        var n := next.value;
        assert previousMoveData[n.row, n.col] == Lookup(rec, GridIndex(n.row, n.col));
        previousMoveData[n.row, n.col] := Some(move);
        queue', ql', rec' := queue + [n], ql + [d + 1], rec[n := move];
        if n == StartingPoint() {
          lvl', unseen' := lvl, unseen;
        } else {
          lvl', unseen' := lvl[n := d + 1], unseen - {n};
        }
        forall r, c | 0 <= r < w.rowCount && 0 <= c < w.colCount
          ensures previousMoveData[r, c] == Lookup(rec', GridIndex(r, c))
        {
          if GridIndex(r, c) != n {
            assert previousMoveData[r, c] == old(previousMoveData[r, c]);
          }
        }
      } else {
        if next.Some? && !IsBlocked(w, next.value) {
          assert previousMoveData[next.value.row, next.value.col] ==
                 Lookup(rec, GridIndex(next.value.row, next.value.col));
        }
        queue', rec', ql', lvl', unseen' := queue, rec, ql, lvl, unseen;
      }
    }

    /** `reconstructPath`: from `end`, repeatedly look for the move, in
        `Move.values()` order, whose undo stays inside the grid and which
        the table holds for the current cell; prepend it and step back to
        the undone cell, until the starting point is reached. The result
        replays legally from the start to `end`, one move per layer. */
    method ReconstructPath(table: array2<Option<Move>>, end: GridIndex,
                           ghost rec: map<GridIndex, Move>, ghost lvl: map<GridIndex, nat>)
      returns (path: seq<Move>)
      requires gridWorld.Valid() && Shaped(gridWorld, table) && Mirrors(gridWorld, table, rec)
      requires ParentChain(gridWorld, rec, lvl) && end in lvl
      ensures Leads(gridWorld, StartingPoint(), path, end)
      ensures |path| == lvl[end]
    {
      var w := gridWorld;
      path := [];
      var current := end;
      while !IsStartingPoint(current)
        invariant current in lvl
        invariant Leads(w, current, path, end)
        invariant |path| + lvl[current] == lvl[end]
        decreases lvl[current]
      {
        ghost var here, after := current, path;
        StepBack(w, rec, lvl, here, after, end);
        ghost var m := rec[here];
        assert table[here.row, here.col] == Lookup(rec, GridIndex(here.row, here.col));
        assert table[here.row, here.col] == Some(m) && TryUndoMove(w, here, m).Some?;
        ghost var k := Ordinal(m);
        var stepped := false;
        for i := 0 to |Values|
          invariant current == here && path == after && !stepped
          invariant i <= k
        {
          var move := Values[i];
          var prev := TryUndoMove(w, current, move);
          assert i == k ==> move == m;
          if prev.Some? && table[current.row, current.col] == Some(move) {
            path := [move] + path;
            current := prev.value;
            stepped := true;
            break;
          }
        }
      }
    }
  }
}
