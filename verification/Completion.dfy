/** No batch gets stuck: whatever dispatcher and workers have done so far, crashes included, some
    continuation fires every barrier except those of the micro-batches a crash has cut off - and
    without crashes makes the totals exact. */
module Completion {
  import opened FiniteSets
  import opened MicroBatch
  import opened DispatchSafety
  import opened BarrierSafety
  import opened MicroBatchTheorems

  /* ---------- what every run keeps ---------- */

  /** A call in progress has read its micro-batch in full. */
  predicate ReadInFull(c: Config, d: Dispatcher) {
    d.GotItems? || d.Skipping? ==> d.count == Len(c, d.slice)
  }

  /** The dispatcher is not working on a new micro-batch. */
  predicate AtRest(d: Dispatcher) {
    d.Idle? || d.GotCursor? || d.GotItems? || d.Skipping? || d.Cleaning?
  }

  /** Until cleanup, the list is there and is read in full; from then on, nothing is left to do. */
  ghost predicate Steady(c: Config, s: State) {
    if s.cleaned then AllMarked(c, s.marked) && AtRest(s.dispatcher)
    else s.listPresent && ReadInFull(c, s.dispatcher)
  }

  lemma ReadIsFull(c: Config, s: State)
    requires ValidConfig(c) && DispatchInv(c, s) && s.dispatcher.GotCursor? && s.listPresent
    ensures ItemCount(c, s, s.dispatcher.cur) == Len(c, s.dispatcher.slice)
  {
    hide CursorOk, ListOk, TasksOk, Tracks, AtMostOnce, UnmarkedUntouched, PrefixMarked, Positions;
    BoundaryStep(c, s.dispatcher.slice);
  }

  /** A finished batch only ever skips. */
  lemma CleanedStaysSteady(c: Config, s: State)
    requires ValidConfig(c) && DispatchInv(c, s) && Steady(c, s) && s.cleaned
    ensures Steady(c, DispatchStep(c, s))
  {
    hide CursorOk, ListOk, TasksOk, Tracks, AtMostOnce, UnmarkedUntouched, PrefixMarked, Positions, Real, Boundary, Len;
  }

  lemma DispatchStaysSteady(c: Config, s: State)
    requires ValidConfig(c) && DispatchInv(c, s) && TotalsOk(s) && Steady(c, s) && DispatchInv(c, DispatchStep(c, s))
    ensures Steady(c, DispatchStep(c, s))
  {
    hide CursorOk, ListOk, TasksOk, Tracks, AtMostOnce, UnmarkedUntouched, PrefixMarked, Positions, Real, Boundary, Len;
    if s.cleaned { CleanedStaysSteady(c, s); }
    else if s.dispatcher.GotCursor? { ReadIsFull(c, s); }
  }

  lemma ActStaysSteady(c: Config, s: State, a: Action)
    requires ValidConfig(c) && Inv(c, s) && Steady(c, s)
    ensures Inv(c, Act(c, s, a)) && Steady(c, Act(c, s, a))
  {
    assert DispatchInv(c, s) && TotalsOk(s);
    hide Inv, DispatchInv, TotalsOk, DispatchStep, WorkStep;
    match a
    case Dispatch =>
      DispatchKeepsInv(c, s);
      DispatchKeeps(c, s);
      DispatchStaysSteady(c, s);
    case Crash => CrashKeepsInv(c, s);
    case Work(i) => WorkKeepsInv(c, s, i);
  }

  lemma {:induction false} RunStaysSteady(c: Config, s: State, actions: seq<Action>)
    requires ValidConfig(c) && Inv(c, s) && Steady(c, s)
    ensures Inv(c, Run(c, s, actions)) && Steady(c, Run(c, s, actions))
    decreases |actions|
  {
    hide Inv, Steady, Act;
    if actions != [] {
      ActStaysSteady(c, s, actions[0]);
      RunStaysSteady(c, Act(c, s, actions[0]), actions[1..]);
    }
  }

  lemma InitialSteady(c: Config)
    ensures Steady(c, Initial())
  {
  }

  /* ---------- what a crash can lose ---------- */

  /** The bulk dispatcher has marked micro-batch k and may still have to enqueue some of it. */
  predicate Delivering(c: Config, d: Dispatcher, k: nat) {
    c.bulk && (d.Advancing? || d.Enqueuing?) && d.slice == k
  }

  /** Micro-batch k is marked, so that it will be skipped from now on, and was not enqueued in full. */
  predicate Lost(c: Config, s: State, k: nat) {
    Real(c, k) && k in s.marked && !Delivering(c, s.dispatcher, k) && !(Positions(c, k) <= s.enqueued)
  }

  /** The call in progress stands between the mark of micro-batch k and its last enqueue. */
  predicate Exposed(c: Config, d: Dispatcher, k: nat) {
    Delivering(c, d, k) && (d.Enqueuing? ==> d.done < d.count)
  }

  lemma InitialLosesNothing(c: Config, k: nat)
    ensures !Lost(c, Initial(), k)
  {
  }

  /** What is in delivery is in delivery for the first time, and not complete before its end. */
  lemma DeliveryFacts(c: Config, s: State, k: nat)
    requires ValidConfig(c) && DispatchInv(c, s) && Delivering(c, s.dispatcher, k)
    ensures Real(c, k) && k in s.marked
    ensures Positions(c, k) <= s.enqueued <==> !Exposed(c, s.dispatcher, k)
  {
    hide CursorOk, ListOk, TasksOk, Tracks, AtMostOnce, UnmarkedUntouched, PrefixMarked;
    var d := s.dispatcher;
    BoundaryStep(c, k);
    if d.Advancing? {
      assert Boundary(c, k) in Positions(c, k);
    } else {
      SliceFull(c, d.cur, k, d.count);
      if d.done < d.count {
        assert d.cur + d.done in Positions(c, k) && d.cur + d.done !in Range(d.cur, d.cur + d.done);
      }
    }
  }

  lemma CrashLoses(c: Config, s: State, k: nat)
    requires ValidConfig(c) && DispatchInv(c, s)
    ensures Lost(c, Act(c, s, Crash), k) <==> Lost(c, s, k) || Exposed(c, s.dispatcher, k)
  {
    hide DispatchInv, Positions, Real;
    if Delivering(c, s.dispatcher, k) { DeliveryFacts(c, s, k); }
  }

  lemma WorkLosesNothing(c: Config, s: State, i: nat, k: nat)
    requires ValidConfig(c)
    ensures Lost(c, Act(c, s, Work(i)), k) <==> Lost(c, s, k)
  {
    hide WorkStep, Positions, Real;
  }

  /** A mark is set before the first enqueue (bulk) or after the last (ID mode). */
  lemma MarkLosesNothing(c: Config, s: State, k: nat)
    requires ValidConfig(c) && DispatchInv(c, s) && s.dispatcher.Marking?
    ensures Lost(c, DispatchStep(c, s), k) <==> Lost(c, s, k)
  {
    hide CursorOk, ListOk, TasksOk, Tracks, AtMostOnce, UnmarkedUntouched, PrefixMarked, Positions, Real, Boundary, Len;
  }

  lemma SetUpLosesNothing(c: Config, s: State, k: nat)
    requires ValidConfig(c) && (s.dispatcher.Initing? || s.dispatcher.Cleaning?)
    ensures Lost(c, DispatchStep(c, s), k) <==> Lost(c, s, k)
  {
    hide Lost, LocalStep;
    LostFrame(c, s, DispatchStep(c, s), k);
  }

  /** What a reading or moving step does to the mark and the dispatcher. */
  lemma LocalKeepsMarks(c: Config, s: State, k: nat)
    requires ValidConfig(c) && !s.dispatcher.Marking? && !s.dispatcher.Enqueuing? && !s.dispatcher.Initing?
    ensures var l := LocalStep(c, s);
            l.marked == s.marked && (Delivering(c, l.dispatcher, k) <==> Delivering(c, s.dispatcher, k))
  {
    hide ItemCount, CursorValue;
  }

  lemma LocalLosesNothing(c: Config, s: State, k: nat)
    requires ValidConfig(c) && !s.dispatcher.Enqueuing? && !s.dispatcher.Marking?
    ensures Lost(c, DispatchStep(c, s), k) <==> Lost(c, s, k)
  {
    hide Lost, LocalStep, Delivering;
    if s.dispatcher.Initing? || s.dispatcher.Cleaning? {
      SetUpLosesNothing(c, s, k);
    } else {
      LocalKeepsMarks(c, s, k);
      LostFrame(c, s, DispatchStep(c, s), k);
    }
  }

  lemma LostFrame(c: Config, s: State, t: State, k: nat)
    requires t.marked == s.marked && t.enqueued == s.enqueued
    requires Delivering(c, t.dispatcher, k) <==> Delivering(c, s.dispatcher, k)
    ensures Lost(c, t, k) <==> Lost(c, s, k)
  {
    hide Positions, Real;
  }

  lemma EnqueueLosesNothing(c: Config, s: State, k: nat)
    requires ValidConfig(c) && DispatchInv(c, s) && s.dispatcher.Enqueuing?
    ensures Lost(c, DispatchStep(c, s), k) <==> Lost(c, s, k)
  {
    hide CursorOk, ListOk, TasksOk, Tracks, AtMostOnce, UnmarkedUntouched, PrefixMarked, Positions, Real, Boundary, Len, Range;
    var d := s.dispatcher;
    if d.done < d.count {
      SliceFull(c, d.cur, d.slice, d.count);
      if k != d.slice { SlicesDisjoint(c, k, d.slice); }
    } else if Delivering(c, d, k) {
      DeliveryFacts(c, s, k);
    }
  }

  /** A micro-batch is lost exactly when it was lost before or the dispatcher crashes between its mark
      and its last enqueue: nothing else loses one, and nothing brings one back. */
  lemma LostExactly(c: Config, s: State, a: Action, k: nat)
    requires ValidConfig(c) && Inv(c, s)
    ensures Lost(c, Act(c, s, a), k) <==> Lost(c, s, k) || (a.Crash? && Exposed(c, s.dispatcher, k))
  {
    assert DispatchInv(c, s);
    hide Inv, DispatchInv, Lost, Exposed, DispatchStep, WorkStep;
    match a
    case Dispatch =>
      if s.dispatcher.Enqueuing? { EnqueueLosesNothing(c, s, k); }
      else if s.dispatcher.Marking? { MarkLosesNothing(c, s, k); }
      else { LocalLosesNothing(c, s, k); }
    case Crash => CrashLoses(c, s, k);
    case Work(i) => WorkLosesNothing(c, s, i, k);
  }

  predicate CrashFree(actions: seq<Action>) {
    forall i :: 0 <= i < |actions| ==> !actions[i].Crash?
  }

  lemma {:induction false} CrashFreeLosesNothing(c: Config, s: State, actions: seq<Action>, k: nat)
    requires ValidConfig(c) && Inv(c, s) && Steady(c, s) && CrashFree(actions)
    ensures Lost(c, Run(c, s, actions), k) <==> Lost(c, s, k)
    decreases |actions|
  {
    hide Inv, Steady, Act, Lost, Exposed;
    if actions != [] {
      LostExactly(c, s, actions[0], k);
      ActStaysSteady(c, s, actions[0]);
      assert CrashFree(actions[1..]);
      CrashFreeLosesNothing(c, Act(c, s, actions[0]), actions[1..], k);
    }
  }

  /** A micro-batch that has fired was not lost. */
  lemma FiredIsNotLost(c: Config, s: State, k: nat)
    requires Inv(c, s) && k in s.fired
    ensures !Lost(c, s, k)
  {
    hide DispatchInv, WorkersOk, WinnersOk, TotalsOk, Positions, Real, Counts;
    assert Complete(c, k, s.signalled);
  }

  /* ---------- continuations ---------- */

  lemma {:induction false} RunJoins(c: Config, s: State, first: seq<Action>, second: seq<Action>)
    requires ValidConfig(c)
    ensures Run(c, s, first + second) == Run(c, Run(c, s, first), second)
    decreases |first|
  {
    hide Act;
    if first == [] {
      assert first + second == second;
    } else {
      assert (first + second)[1..] == first[1..] + second;
      RunJoins(c, Act(c, s, first[0]), first[1..], second);
    }
  }

  /* ---------- the dispatcher gets through the list ---------- */

  /** Where in the list the dispatcher stands. */
  function Standing(c: Config, s: State): (n: nat) {
    match s.dispatcher
    case Idle => CursorValue(s.cursor)
    case Cleaning(_) => CursorValue(s.cursor)
    case Enqueuing(cur, _, _, _) => if c.bulk then CursorValue(s.cursor) else cur
    case d => d.cur
  }

  /** How far a dispatch call is from moving on to a later place in the list. */
  function Stage(c: Config, d: Dispatcher): (n: nat) {
    match d
    case Enqueuing(_, _, _, _) => if c.bulk then 8 else 3
    case Idle => 7
    case GotCursor(_, _) => 6
    case GotItems(_, _, _) => 5
    case Initing(_, _, _) => 4
    case Marking(_, _, _) => 2
    case Advancing(_, _, _) => 1
    case Skipping(_, _, _) => 1
    case Cleaning(_) => 0
  }

  function ToEnqueue(d: Dispatcher): (n: nat) {
    if d.Enqueuing? && d.done <= d.count then d.count - d.done else 0
  }

  predicate Lower(a: (int, int, int), b: (int, int, int)) {
    a.0 < b.0 || (a.0 == b.0 && (a.1 < b.1 || (a.1 == b.1 && a.2 < b.2)))
  }

  function Distance(c: Config, s: State): (d: (int, int, int)) {
    (c.total - Standing(c, s), Stage(c, s.dispatcher), ToEnqueue(s.dispatcher))
  }

  lemma StandingInList(c: Config, s: State)
    requires DispatchInv(c, s) && !s.dispatcher.Cleaning?
    ensures Standing(c, s) <= c.total
  {
    hide TasksOk, Tracks, AtMostOnce, UnmarkedUntouched, PrefixMarked, Real;
  }

  /** Reads and markings bring the call to its next stage. */
  lemma CallGoesOn(c: Config, s: State)
    requires ValidConfig(c) && !s.cleaned
    requires s.dispatcher.Idle? || s.dispatcher.GotCursor? || s.dispatcher.GotItems? || s.dispatcher.Initing? || s.dispatcher.Marking?
    requires s.dispatcher.Idle? ==> CursorValue(s.cursor) < c.total
    ensures var t := DispatchStep(c, s);
            !t.cleaned && !t.dispatcher.Cleaning? && Lower(Distance(c, t), Distance(c, s))
  {
  }

  /** A call moves the cursor only forwards, past a micro-batch that is not empty. */
  lemma CursorMovesOn(c: Config, s: State)
    requires ValidConfig(c) && DispatchInv(c, s) && Steady(c, s) && !s.cleaned
    requires s.dispatcher.Skipping? || s.dispatcher.Advancing?
    ensures var t := DispatchStep(c, s);
            !t.cleaned && !t.dispatcher.Cleaning? && Lower(Distance(c, t), Distance(c, s))
  {
    hide TasksOk, Tracks, AtMostOnce, UnmarkedUntouched, PrefixMarked, CursorOk;
    BoundaryStep(c, s.dispatcher.slice);
    assert s.dispatcher.count > 0;
  }

  lemma EnqueueGoesOn(c: Config, s: State)
    requires ValidConfig(c) && !s.cleaned && s.dispatcher.Enqueuing? && s.dispatcher.done <= s.dispatcher.count
    ensures var t := DispatchStep(c, s);
            !t.cleaned && !t.dispatcher.Cleaning? && Lower(Distance(c, t), Distance(c, s))
  {
    hide LocalStep, InitStep, CleanStep;
    assert DispatchStep(c, s) == EnqueueStep(c, s);
    hide DispatchStep;
  }

  lemma DispatchComesCloser(c: Config, s: State)
    requires ValidConfig(c) && DispatchInv(c, s) && Steady(c, s) && !s.cleaned && !s.dispatcher.Cleaning?
    requires s.dispatcher.Idle? ==> CursorValue(s.cursor) < c.total
    ensures var t := DispatchStep(c, s);
            !t.cleaned && !t.dispatcher.Cleaning? && Lower(Distance(c, t), Distance(c, s))
  {
    hide Distance, DispatchStep, Steady, TasksOk, Tracks, AtMostOnce, UnmarkedUntouched, PrefixMarked, CursorOk;
    if s.dispatcher.Skipping? || s.dispatcher.Advancing? {
      CursorMovesOn(c, s);
    } else if s.dispatcher.Enqueuing? {
      EnqueueGoesOn(c, s);
    } else {
      CallGoesOn(c, s);
    }
  }

  /** From any state a run can reach before cleanup, crashes included, the dispatcher alone reaches
      the end of the list. */
  lemma {:induction false} DispatcherFinishes(c: Config, s: State) returns (actions: seq<Action>)
    requires ValidConfig(c) && Inv(c, s) && Steady(c, s) && !s.cleaned
    ensures CrashFree(actions)
    ensures var t := Run(c, s, actions); t.dispatcher.Idle? && CursorValue(t.cursor) >= c.total && !t.cleaned
    decreases Distance(c, s).0, Distance(c, s).1, Distance(c, s).2
  {
    hide DispatchStep, Steady, DispatchInv, BarrierOk, WorkersOk, SetsOk, WinnersOk;
    if s.dispatcher.Idle? && CursorValue(s.cursor) >= c.total {
      actions := [];
    } else {
      DispatchComesCloser(c, s);
      ActStaysSteady(c, s, Action.Dispatch);
      var t := DispatchStep(c, s);
      StandingInList(c, s);
      StandingInList(c, t);
      var rest := DispatcherFinishes(c, t);
      actions := [Action.Dispatch] + rest;
      assert actions[1..] == rest;
    }
  }

  /* ---------- every worker finishes ---------- */

  function Rank(w: Worker): (n: nat) {
    match w
    case Pushing => 7
    case Trimming => 6
    case Counting => 5
    case CountingFailure => 4
    case Signalling => 3
    case Reading => 2
    case Storing(_) => 1
    case Finished => 0
  }

  /** What a worker's steps leave to the others. */
  predicate OnlyWorker(s: State, t: State, i: nat) {
    && SameForDispatcher(s, t) && i < |s.workers|
    && forall j :: 0 <= j < |s.workers| && j != i ==> t.workers[j] == s.workers[j]
  }

  lemma WorkComesCloser(c: Config, s: State, i: nat)
    requires i < |s.queue| == |s.workers| && !s.workers[i].Finished?
    ensures OnlyWorker(s, WorkStep(c, s, i), i) && Rank(WorkStep(c, s, i).workers[i]) < Rank(s.workers[i])
  {
    hide RecordStep, SnapshotStep;
    var w := s.workers[i];
    if w.Pushing? || w.Trimming? { RecordComesCloser(c, s, i); }
    else if w.Reading? || w.Storing? { SnapshotComesCloser(c, s, i); }
  }

  lemma RecordComesCloser(c: Config, s: State, i: nat)
    requires i < |s.queue| == |s.workers| && (s.workers[i].Pushing? || s.workers[i].Trimming?)
    ensures OnlyWorker(s, RecordStep(c, s, i), i) && Rank(RecordStep(c, s, i).workers[i]) < Rank(s.workers[i])
  {
    hide LastN;
  }

  lemma SnapshotComesCloser(c: Config, s: State, i: nat)
    requires i < |s.queue| == |s.workers| && (s.workers[i].Reading? || s.workers[i].Storing?)
    ensures OnlyWorker(s, SnapshotStep(s, i), i) && Rank(SnapshotStep(s, i).workers[i]) < Rank(s.workers[i])
  {
  }

  lemma {:induction false} WorkerFinishes(c: Config, s: State, i: nat) returns (actions: seq<Action>)
    requires ValidConfig(c) && i < |s.queue| == |s.workers|
    ensures CrashFree(actions)
    ensures var t := Run(c, s, actions); OnlyWorker(s, t, i) && t.workers[i].Finished?
    decreases Rank(s.workers[i])
  {
    hide WorkStep;
    if s.workers[i].Finished? {
      actions := [];
    } else {
      WorkComesCloser(c, s, i);
      var rest := WorkerFinishes(c, WorkStep(c, s, i), i);
      actions := [Work(i)] + rest;
      assert actions[1..] == rest;
    }
  }

  predicate FinishedFrom(s: State, n: nat) {
    forall j :: n <= j < |s.workers| ==> s.workers[j].Finished?
  }

  lemma {:induction false} WorkersFinish(c: Config, s: State, n: nat) returns (actions: seq<Action>)
    requires ValidConfig(c) && n <= |s.queue| == |s.workers| && FinishedFrom(s, n)
    ensures CrashFree(actions)
    ensures var t := Run(c, s, actions); SameForDispatcher(s, t) && FinishedFrom(t, 0)
    decreases n
  {
    if n == 0 {
      actions := [];
    } else {
      hide Run;
      var first := WorkerFinishes(c, s, n - 1);
      var rest := WorkersFinish(c, Run(c, s, first), n - 1);
      actions := first + rest;
      RunJoins(c, s, first, rest);
    }
  }

  /* ---------- everything fires ---------- */

  /** Nothing is left to dispatch. */
  ghost predicate AllDispatched(c: Config, s: State) {
    AllMarked(c, s.marked) && AtRest(s.dispatcher)
  }

  lemma EndIsAllDispatched(c: Config, s: State)
    requires ValidConfig(c) && DispatchInv(c, s) && s.dispatcher.Idle? && CursorValue(s.cursor) >= c.total
    ensures AllDispatched(c, s)
  {
    hide TasksOk, Tracks, AtMostOnce, UnmarkedUntouched, Positions;
    var n: nat := 0;
    if s.cursor.Some? { n :| s.cursor.value == Boundary(c, n) && PrefixMarked(c, s.marked, n); }
    forall k: nat | Real(c, k) ensures k in s.marked {
      if k >= n { BoundaryMonotone(c, n, k); }
    }
  }

  /** With everything dispatched, whatever is not lost is enqueued in full. */
  lemma EnqueuedUnlessLost(c: Config, s: State, k: nat)
    requires AllDispatched(c, s) && Real(c, k) && !Lost(c, s, k)
    ensures Positions(c, k) <= s.enqueued
  {
    hide Positions, Real;
  }

  /** With everything dispatched and every worker finished, every barrier has fired that can. */
  lemma AllFired(c: Config, s: State)
    requires ValidConfig(c) && Inv(c, s) && AllDispatched(c, s) && FinishedFrom(s, 0)
    ensures forall k: nat :: Real(c, k) ==> (k in s.fired <==> !Lost(c, s, k))
  {
    hide Inv, AllDispatched, Positions, Lost, Real;
    forall k: nat | Real(c, k) ensures k in s.fired <==> !Lost(c, s, k) {
      if !Lost(c, s, k) {
        EnqueuedUnlessLost(c, s, k);
        forall p | p in Positions(c, k) ensures p in s.signalled { FinishedSignalled(c, s, p); }
        FiredWhenSignalled(c, s, k);
      } else if k in s.fired {
        FiredIsNotLost(c, s, k);
      }
    }
  }

  lemma FinishedSignalled(c: Config, s: State, p: nat)
    requires Inv(c, s) && FinishedFrom(s, 0) && p in s.enqueued
    ensures p in s.signalled
  {
    hide BarrierOk, SetsOk, WinnersOk, CursorOk, DispatcherOk, UnmarkedUntouched, AtMostOnce, TasksOk, ListOk;
    var j :| 0 <= j < |s.queue| && s.queue[j].position == p;
    StageAt(c, s, j);
  }

  lemma FiredWhenSignalled(c: Config, s: State, k: nat)
    requires ValidConfig(c) && Inv(c, s) && Real(c, k) && Positions(c, k) <= s.signalled && Positions(c, k) <= s.enqueued
    ensures k in s.fired
  {
    hide WorkersOk, SetsOk, WinnersOk, Positions, DispatchInv, TotalsOk, Counts, Real;
    PositionsNotEmpty(c, k);
    EnqueuedInited(c, s, k, Boundary(c, k));
    assert k in s.barrier ==> Counts(c, k, s.barrier[k], s.signalled);
    NothingToCount(c, k, s.signalled);
    assert k in s.inited - s.fired.Keys ==> k in s.barrier.Keys;
  }

  lemma NothingToCount(c: Config, k: nat, signalled: set<nat>)
    requires Positions(c, k) <= signalled
    ensures forall n :: !Counts(c, k, n, signalled)
  {
    hide Positions;
    assert Positions(c, k) - signalled == {};
  }

  lemma PositionsNotEmpty(c: Config, k: nat)
    requires ValidConfig(c) && Real(c, k)
    ensures Boundary(c, k) in Positions(c, k)
  {
    BoundaryStep(c, k);
  }

  lemma EnqueuedInited(c: Config, s: State, k: nat, p: nat)
    requires DispatchInv(c, s) && p in s.enqueued && p in Positions(c, k)
    ensures k in s.inited
  {
    hide CursorOk, DispatcherOk, UnmarkedUntouched, AtMostOnce, ListOk, Positions;
    var j :| 0 <= j < |s.queue| && s.queue[j].position == p;
    if s.queue[j].slice != k { SlicesDisjoint(c, s.queue[j].slice, k); }
  }

  /** Whatever a run has done before cleanup, crashes included, some continuation fires every barrier
      except those of the micro-batches that were lost on the way. */
  lemma EveryRunCanSettle(c: Config, s: State) returns (rest: seq<Action>)
    requires ValidConfig(c) && Inv(c, s) && Steady(c, s) && !s.cleaned
    ensures CrashFree(rest) && !Run(c, s, rest).cleaned
    ensures forall k: nat :: Real(c, k) ==> (k in Run(c, s, rest).fired <==> !Lost(c, s, k))
  {
    hide Run, Inv, Steady, Real, Lost, AllDispatched;
    var dispatching := DispatcherFinishes(c, s);
    var t := Run(c, s, dispatching);
    RunStaysSteady(c, s, dispatching);
    assert AllDispatched(c, t) by { InvHasDispatch(c, t); EndIsAllDispatched(c, t); }
    WorkersMatch(c, t);
    var working := WorkersFinish(c, t, |t.queue|);
    var u := Run(c, t, working);
    RunStaysSteady(c, t, working);
    SameIsDispatched(c, t, u);
    AllFired(c, u);
    rest := dispatching + working;
    RunJoins(c, s, dispatching, working);
    forall k: nat ensures Lost(c, u, k) <==> Lost(c, s, k) { CrashFreeLosesNothing(c, s, rest, k); }
  }

  lemma InvHasDispatch(c: Config, s: State)
    requires Inv(c, s)
    ensures DispatchInv(c, s)
  {
  }

  lemma SameIsDispatched(c: Config, s: State, t: State)
    requires AllDispatched(c, s) && SameForDispatcher(s, t)
    ensures AllDispatched(c, t)
  {
  }

  /** Whatever a crash-free run has done before cleanup, some continuation fires every barrier, and
      then the totals are exact: the protocol has no deadlock. */
  lemma EveryBatchCanComplete(c: Config, done: seq<Action>) returns (rest: seq<Action>)
    requires ValidConfig(c) && CrashFree(done) && !Run(c, Initial(), done).cleaned
    ensures CrashFree(rest)
    ensures var s := Run(c, Initial(), done + rest);
            && (forall k: nat :: Real(c, k) ==> k in s.fired)
            && s.processed == c.total && s.failed == |FailingPositions(c)|
  {
    hide Run, Inv, Steady, Real, Lost, FailingPositions;
    var s := Run(c, Initial(), done);
    InitialInv(c);
    InitialSteady(c);
    RunStaysSteady(c, Initial(), done);
    rest := EveryRunCanSettle(c, s);
    RunJoins(c, Initial(), done, rest);
    forall k: nat ensures !Lost(c, s, k) {
      InitialLosesNothing(c, k);
      CrashFreeLosesNothing(c, Initial(), done, k);
    }
    var u := Run(c, s, rest);
    assert Reachable(c, u);
    TotalsAreExact(c, u);
  }

  lemma WorkersMatch(c: Config, s: State)
    requires Inv(c, s)
    ensures |s.workers| == |s.queue|
  {
  }
}
