/** What holds in every interleaving of dispatcher steps, dispatcher crashes and worker steps. */
module MicroBatchTheorems {
  import opened FiniteSets
  import opened Barrier
  import opened MicroBatch
  import opened DispatchSafety
  import opened BarrierSafety

  lemma InitialInv(c: Config)
    requires ValidConfig(c)
    ensures Inv(c, Initial())
  {
  }

  lemma {:induction false} RunKeepsInv(c: Config, s: State, actions: seq<Action>)
    requires ValidConfig(c) && Inv(c, s)
    ensures Inv(c, Run(c, s, actions))
    decreases |actions|
  {
    hide Inv, Act;
    if actions != [] {
      match actions[0] {
        case Dispatch => DispatchActs(c, s);
        case Crash => CrashKeepsInv(c, s);
        case Work(i) => WorkKeepsInv(c, s, i);
      }
      RunKeepsInv(c, Act(c, s, actions[0]), actions[1..]);
    }
  }

  lemma DispatchActs(c: Config, s: State)
    requires ValidConfig(c) && Inv(c, s)
    ensures Inv(c, Act(c, s, Dispatch))
  {
    hide Inv;
    DispatchKeepsInv(c, s);
  }

  /** A state some interleaving leads to. */
  ghost predicate Reachable(c: Config, s: State)
    requires ValidConfig(c)
  {
    exists actions :: Run(c, Initial(), actions) == s
  }

  lemma ReachableInv(c: Config, s: State)
    requires ValidConfig(c) && Reachable(c, s)
    ensures Inv(c, s)
  {
    hide Inv, Run;
    var actions :| Run(c, Initial(), actions) == s;
    InitialInv(c);
    RunKeepsInv(c, Initial(), actions);
  }

  /* ---------- at most once ---------- */

  lemma IndexOfPosition(c: Config, p: nat, k: nat)
    requires ValidConfig(c) && p in Positions(c, k)
    ensures p / c.size == k
  {
    assert (k + 1) * c.size == k * c.size + c.size;
    DivIsUnique(p, c.size, k);
  }

  /** No item is ever enqueued twice, and every task carries the micro-batch its item belongs
      to: over any sequence of dispatch calls, with the bulk dispatcher crashing between any two
      commands, and after cleanup has deleted the cursor. */
  lemma NothingEnqueuedTwice(c: Config, s: State)
    requires ValidConfig(c) && Reachable(c, s)
    ensures forall i, j :: 0 <= i < j < |s.queue| ==> s.queue[i].position != s.queue[j].position
    ensures forall i :: 0 <= i < |s.queue| ==>
      s.queue[i].position < c.total && s.queue[i].slice == s.queue[i].position / c.size
  {
    hide BarrierOk, WorkersOk, SetsOk, WinnersOk, Tracks, DispatcherOk, CursorOk, UnmarkedUntouched, Reachable;
    ReachableInv(c, s);
    forall i | 0 <= i < |s.queue|
      ensures s.queue[i].position < c.total && s.queue[i].slice == s.queue[i].position / c.size
    {
      IndexOfPosition(c, s.queue[i].position, s.queue[i].slice);
    }
  }

  /* ---------- the barrier ---------- */

  /** Every open barrier equals the size of its micro-batch minus the signals received, and is
      at least one; a fired one has received them all, and a further signal is answered with -1
      and changes nothing. */
  lemma BarrierIsSizeMinusSignals(c: Config, s: State, k: nat)
    requires ValidConfig(c) && Reachable(c, s)
    ensures k in s.barrier ==>
      s.barrier[k] == |Positions(c, k)| - |Positions(c, k) * s.signalled| && s.barrier[k] >= 1
    ensures k in s.fired ==> Positions(c, k) <= s.signalled && DecrCounter(s.barrier, k) == (-1, s.barrier)
  {
    hide WorkersOk, SetsOk, WinnersOk, DispatchInv, Reachable, Positions;
    ReachableInv(c, s);
    var slice := Positions(c, k);
    assert slice == (slice - s.signalled) + (slice * s.signalled);
  }

  /** The answer a signalling worker gets: never "missing", and zero exactly for the one whose
      signal is the last of its micro-batch; nobody was told so before. */
  lemma LastWorkerIsUnique(c: Config, s: State, i: nat)
    requires ValidConfig(c) && Reachable(c, s)
    requires i < |s.queue| == |s.workers| && s.workers[i].Signalling?
    ensures var task := s.queue[i];
            var rem := DecrCounter(s.barrier, task.slice).0;
            && rem >= 0
            && (rem == 0 <==> Positions(c, task.slice) <= s.signalled + {task.position})
            && task.slice !in s.fired
  {
    hide SetsOk, WinnersOk, DispatchInv, Reachable, Positions, BarrierOk, WorkersOk;
    ReachableInv(c, s);
    StageAt(c, s, i);
    TaskAt(c, s, i);
    BarrierSignals(c, s.barrier, s.inited, s.fired, s.signalled, s.queue[i].slice, s.queue[i].position, i);
  }

  /** A barrier cannot fire while tasks of its micro-batch are still being enqueued. */
  lemma NoFiringWhileEnqueuing(c: Config, s: State)
    requires ValidConfig(c) && Reachable(c, s)
    requires s.dispatcher.Enqueuing? && s.dispatcher.done < s.dispatcher.count
    ensures s.dispatcher.slice !in s.fired
  {
    hide WinnersOk, Reachable, Positions, WorkersOk, DispatchInv;
    ReachableInv(c, s);
    NextIsFresh(c, s);
    NextInSlice(c, s);
  }

  lemma NextInSlice(c: Config, s: State)
    requires DispatchInv(c, s) && s.dispatcher.Enqueuing? && s.dispatcher.done < s.dispatcher.count
    ensures s.dispatcher.cur + s.dispatcher.done in Positions(c, s.dispatcher.slice)
  {
    hide CursorOk, ListOk, TasksOk, Tracks, AtMostOnce, UnmarkedUntouched, PrefixMarked;
    SliceFull(c, s.dispatcher.cur, s.dispatcher.slice, s.dispatcher.count);
  }

  /** The winner of a micro-batch never changes, whatever happens later. */
  lemma WinnerIsForever(c: Config, s: State, actions: seq<Action>, k: nat)
    requires ValidConfig(c) && Reachable(c, s) && k in s.fired
    ensures var t := Run(c, s, actions); k in t.fired && t.fired[k] == s.fired[k]
  {
    hide Reachable, Inv, Run;
    ReachableInv(c, s);
    WinnerSurvivesRun(c, s, actions, k);
  }

  lemma {:induction false} WinnerSurvivesRun(c: Config, s: State, actions: seq<Action>, k: nat)
    requires ValidConfig(c) && Inv(c, s) && k in s.fired
    ensures var t := Run(c, s, actions); k in t.fired && t.fired[k] == s.fired[k]
    decreases |actions|
  {
    hide Inv, Act;
    if actions != [] {
      WinnerSurvives(c, s, actions[0], k);
      match actions[0] {
        case Dispatch => DispatchActs(c, s);
        case Crash => CrashKeepsInv(c, s);
        case Work(i) => WorkKeepsInv(c, s, i);
      }
      WinnerSurvivesRun(c, Act(c, s, actions[0]), actions[1..], k);
    }
  }

  lemma WinnerSurvives(c: Config, s: State, a: Action, k: nat)
    requires ValidConfig(c) && Inv(c, s) && k in s.fired
    ensures var t := Act(c, s, a); k in t.fired && t.fired[k] == s.fired[k]
  {
    hide LocalStep, DispatchInv, SetsOk, WinnersOk, TotalsOk, BarrierOk, WorkersOk, Positions, DecrCounter, RecordStep, CountStep, SnapshotStep;
    if a.Work? && a.delivery < |s.queue| && |s.workers| == |s.queue| {
      var i := a.delivery;
      FiredFrame(c, s, i);
      if s.workers[i].Signalling? {
        StageAt(c, s, i);
        TaskAt(c, s, i);
        BarrierSignals(c, s.barrier, s.inited, s.fired, s.signalled, s.queue[i].slice, s.queue[i].position, i);
      }
    }
  }

  lemma FiredFrame(c: Config, s: State, i: nat)
    requires i < |s.queue| && |s.workers| == |s.queue|
    ensures RecordStep(c, s, i).fired == s.fired && CountStep(c, s, i).fired == s.fired
    ensures SnapshotStep(s, i).fired == s.fired
  {
  }

  /* ---------- outcomes ---------- */

  lemma EveryPositionInSlice(c: Config, p: nat)
    requires ValidConfig(c) && p < c.total
    ensures p in Positions(c, p / c.size) && Real(c, p / c.size)
  {
    var q, r := p / c.size, p % c.size;
    assert p == q * c.size + r;
    assert (q + 1) * c.size == q * c.size + c.size;
  }

  function FailingPositions(c: Config): (s: set<nat>) {
    set p | p in Range(0, c.total) && c.fails(p)
  }

  /** Once every barrier has fired and before cleanup, the totals are exact: every item was
      processed, and the failed total is the number of failures. */
  lemma TotalsAreExact(c: Config, s: State)
    requires ValidConfig(c) && Reachable(c, s)
    requires !s.cleaned && forall k: nat :: Real(c, k) ==> k in s.fired
    ensures s.processed == c.total
    ensures s.failed == |FailingPositions(c)|
  {
    hide Reachable, WorkersOk, WinnersOk, DispatchInv;
    ReachableInv(c, s);
    EnqueuedInRange(c, s);
    AllSignalled(c, s);
    assert s.counted == Range(0, c.total);
    assert s.countedFailed == FailingPositions(c);
  }

  lemma AllSignalled(c: Config, s: State)
    requires ValidConfig(c) && BarrierOk(c, s.barrier, s.inited, s.fired, s.signalled)
    requires forall k: nat :: Real(c, k) ==> k in s.fired
    ensures Range(0, c.total) <= s.signalled
  {
    hide BarrierOk, Positions, Real, Range;
    forall p | p in Range(0, c.total) ensures p in s.signalled {
      EveryPositionInSlice(c, p);
      FiredIsComplete(c, s, p / c.size);
    }
  }

  lemma FiredIsComplete(c: Config, s: State, k: nat)
    requires BarrierOk(c, s.barrier, s.inited, s.fired, s.signalled) && k in s.fired
    ensures Positions(c, k) <= s.signalled
  {
    hide Positions, Real, Counts;
    assert Complete(c, k, s.signalled);
  }

  lemma EnqueuedInRange(c: Config, s: State)
    requires DispatchInv(c, s)
    ensures s.enqueued <= Range(0, c.total)
  {
    hide CursorOk, ListOk, DispatcherOk, AtMostOnce, UnmarkedUntouched;
    forall p | p in s.enqueued ensures p in Range(0, c.total) {
      var i :| 0 <= i < |s.queue| && s.queue[i].position == p;
      assert p in Positions(c, s.queue[i].slice);
    }
  }
}
