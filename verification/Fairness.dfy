/** Every fair crash-free schedule completes the batch: as long as the dispatcher has items left it
    gets another turn, and so does every unfinished worker - then, in whatever order the turns
    come, all items are enqueued and all barriers fire. */
module Fairness {
  import opened FiniteSets
  import opened MicroBatch
  import opened DispatchSafety
  import opened BarrierSafety
  import opened MicroBatchTheorems
  import opened Completion

  /** An endless schedule: who acts at each moment. */
  type Schedule = nat -> Action

  /** The state at a moment of a schedule. */
  function StateAt(c: Config, sched: Schedule, n: nat): (s: State)
    requires ValidConfig(c)
  {
    if n == 0 then Initial() else Act(c, StateAt(c, sched, n - 1), sched(n - 1))
  }

  ghost predicate DispatchesAfter(sched: Schedule, n: nat) {
    exists m :: n <= m && sched(m) == Action.Dispatch
  }

  ghost predicate WorksAfter(sched: Schedule, i: nat, n: nat) {
    exists m :: n <= m && sched(m) == Work(i)
  }

  /** The whole list has been dispatched and cleanup has not begun. */
  predicate AtTheEnd(c: Config, s: State) {
    s.dispatcher.Idle? && CursorValue(s.cursor) >= c.total && !s.cleaned
  }

  ghost predicate DispatcherServed(c: Config, sched: Schedule, n: nat)
    requires ValidConfig(c)
  {
    var s := StateAt(c, sched, n);
    !s.cleaned && !AtTheEnd(c, s) ==> DispatchesAfter(sched, n)
  }

  ghost predicate WorkerServed(c: Config, sched: Schedule, i: nat, n: nat)
    requires ValidConfig(c)
  {
    var s := StateAt(c, sched, n);
    i < |s.workers| && !s.workers[i].Finished? ==> WorksAfter(sched, i, n)
  }

  /** From moment `from` on there are no more crashes; while part of the list is left the dispatcher
      gets another turn, and so does every worker that has not finished. */
  ghost predicate FairFrom(c: Config, sched: Schedule, from: nat)
    requires ValidConfig(c)
  {
    && (forall n :: from <= n ==> sched(n) != Crash)
    && (forall n: nat :: from <= n ==> DispatcherServed(c, sched, n))
    && (forall i: nat, n: nat :: from <= n ==> WorkerServed(c, sched, i, n))
  }

  /** The moments of a schedule are the prefixes of a run. */
  lemma {:induction false} MomentsAreRuns(c: Config, sched: Schedule, n: nat)
    requires ValidConfig(c)
    ensures StateAt(c, sched, n) == Run(c, Initial(), seq(n, i requires 0 <= i < n => sched(i)))
  {
    hide Act;
    if n > 0 {
      var front := seq(n - 1, i requires 0 <= i < n - 1 => sched(i));
      assert seq(n, i requires 0 <= i < n => sched(i)) == front + [sched(n - 1)];
      MomentsAreRuns(c, sched, n - 1);
      RunJoins(c, Initial(), front, [sched(n - 1)]);
      assert [sched(n - 1)][1..] == [];
    }
  }

  lemma MomentOk(c: Config, sched: Schedule, n: nat)
    requires ValidConfig(c)
    ensures Inv(c, StateAt(c, sched, n)) && Steady(c, StateAt(c, sched, n))
  {
    hide Inv, Steady, Run;
    MomentsAreRuns(c, sched, n);
    InitialInv(c);
    InitialSteady(c);
    RunStaysSteady(c, Initial(), seq(n, i requires 0 <= i < n => sched(i)));
  }

  /* ---------- the dispatcher reaches the end ---------- */

  lemma WorkKeepsDistance(c: Config, s: State, i: nat)
    requires ValidConfig(c)
    ensures var t := Act(c, s, Work(i)); Distance(c, t) == Distance(c, s) && t.cleaned == s.cleaned
  {
    hide WorkStep;
  }

  /** From moment n, with the dispatcher's next turn at m, the end of the list is reached. */
  lemma {:induction false} DispatcherArrives(c: Config, sched: Schedule, from: nat, n: nat, m: nat) returns (k: nat)
    requires ValidConfig(c) && FairFrom(c, sched, from) && from <= n <= m && sched(m) == Action.Dispatch
    requires !StateAt(c, sched, n).cleaned
    ensures n <= k && AtTheEnd(c, StateAt(c, sched, k))
    decreases Distance(c, StateAt(c, sched, n)).0, Distance(c, StateAt(c, sched, n)).1, Distance(c, StateAt(c, sched, n)).2, m - n
  {
    hide Distance, Inv, Steady, DispatchStep;
    var s := StateAt(c, sched, n);
    MomentOk(c, sched, n);
    MomentOk(c, sched, n + 1);
    NotCleaning(c, s);
    if AtTheEnd(c, s) {
      k := n;
    } else if sched(n) == Action.Dispatch {
      CloserAndBounded(c, s);
      if AtTheEnd(c, StateAt(c, sched, n + 1)) {
        k := n + 1;
      } else {
        assert DispatcherServed(c, sched, n + 1);
        var m' :| n + 1 <= m' && sched(m') == Action.Dispatch;
        k := DispatcherArrives(c, sched, from, n + 1, m');
      }
    } else {
      WorkKeepsDistance(c, s, sched(n).delivery);
      k := DispatcherArrives(c, sched, from, n + 1, m);
    }
  }

  lemma NotCleaning(c: Config, s: State)
    requires Inv(c, s) && !s.cleaned
    ensures !s.dispatcher.Cleaning?
  {
  }

  lemma CloserAndBounded(c: Config, s: State)
    requires ValidConfig(c) && Inv(c, s) && Steady(c, s) && !s.cleaned && !AtTheEnd(c, s)
    ensures var t := DispatchStep(c, s);
            && !t.cleaned && Lower(Distance(c, t), Distance(c, s))
            && 0 <= Distance(c, t).0 && 0 <= Distance(c, t).1 && 0 <= Distance(c, t).2
            && 0 <= Distance(c, s).0 && 0 <= Distance(c, s).1 && 0 <= Distance(c, s).2
  {
    hide DispatchStep, Steady, DispatchInv, BarrierOk, WorkersOk, SetsOk, WinnersOk;
    DispatchComesCloser(c, s);
    ActStaysSteady(c, s, Action.Dispatch);
    StandingInList(c, s);
    StandingInList(c, DispatchStep(c, s));
  }

  /* ---------- the workers finish ---------- */

  /** Tasks stay where they are, and no worker falls back. */
  predicate Onward(s: State, t: State) {
    && |s.queue| == |s.workers| && |t.queue| == |t.workers| && |s.queue| <= |t.queue|
    && (forall i :: 0 <= i < |s.queue| ==> t.queue[i] == s.queue[i] && Rank(t.workers[i]) <= Rank(s.workers[i]))
    && s.enqueued <= t.enqueued
  }

  lemma ActGoesOnward(c: Config, s: State, a: Action)
    requires ValidConfig(c) && |s.queue| == |s.workers|
    ensures Onward(s, Act(c, s, a))
    ensures a.Work? && a.delivery < |s.queue| && !s.workers[a.delivery].Finished? ==>
              Rank(Act(c, s, a).workers[a.delivery]) < Rank(s.workers[a.delivery])
  {
    hide LocalStep, WorkStep, CleanStep;
    if a.Work? && a.delivery < |s.queue| {
      if s.workers[a.delivery].Finished? { FinishedRests(c, s, a.delivery); } else { WorkComesCloser(c, s, a.delivery); }
    } else if a.Dispatch? {
      DispatchGoesOnward(c, s);
    }
  }

  lemma FinishedRests(c: Config, s: State, i: nat)
    requires i < |s.queue| == |s.workers| && s.workers[i].Finished?
    ensures WorkStep(c, s, i) == s
  {
  }

  lemma DispatchGoesOnward(c: Config, s: State)
    requires ValidConfig(c) && |s.queue| == |s.workers|
    ensures Onward(s, DispatchStep(c, s))
  {
    hide LocalStep, EnqueueStep, Rank;
    if s.dispatcher.Enqueuing? { EnqueueGoesOnward(c, s); }
  }

  lemma EnqueueGoesOnward(c: Config, s: State)
    requires ValidConfig(c) && s.dispatcher.Enqueuing? && |s.queue| == |s.workers|
    ensures Onward(s, DispatchStep(c, s))
  {
    hide Rank;
  }

  lemma {:induction false} LaterIsOnward(c: Config, sched: Schedule, n: nat, m: nat)
    requires ValidConfig(c) && n <= m && |StateAt(c, sched, n).queue| == |StateAt(c, sched, n).workers|
    ensures Onward(StateAt(c, sched, n), StateAt(c, sched, m))
    decreases m - n
  {
    hide Act;
    if n < m {
      LaterIsOnward(c, sched, n, m - 1);
      ActGoesOnward(c, StateAt(c, sched, m - 1), sched(m - 1));
    }
  }

  /** From moment n, with the next turn of worker i at m, worker i finishes. */
  lemma {:induction false} WorkerArrives(c: Config, sched: Schedule, from: nat, i: nat, n: nat, m: nat) returns (k: nat)
    requires ValidConfig(c) && FairFrom(c, sched, from) && from <= n <= m && sched(m) == Work(i)
    requires i < |StateAt(c, sched, n).queue| == |StateAt(c, sched, n).workers|
    ensures n <= k && i < |StateAt(c, sched, k).workers| && StateAt(c, sched, k).workers[i].Finished?
    decreases Rank(StateAt(c, sched, n).workers[i]), m - n
  {
    hide Act;
    var s := StateAt(c, sched, n);
    if s.workers[i].Finished? {
      k := n;
    } else {
      ActGoesOnward(c, s, sched(n));
      if StateAt(c, sched, n + 1).workers[i].Finished? {
        k := n + 1;
      } else if sched(n) == Work(i) {
        assert WorkerServed(c, sched, i, n + 1);
        var m' :| n + 1 <= m' && sched(m') == Work(i);
        k := WorkerArrives(c, sched, from, i, n + 1, m');
      } else {
        k := WorkerArrives(c, sched, from, i, n + 1, m);
      }
    }
  }

  predicate FinishedUpTo(s: State, l: nat) {
    l <= |s.workers| && forall i :: 0 <= i < l ==> s.workers[i].Finished?
  }

  lemma StaysFinished(s: State, t: State, l: nat)
    requires Onward(s, t) && FinishedUpTo(s, l)
    ensures FinishedUpTo(t, l)
  {
    forall i | 0 <= i < l ensures t.workers[i].Finished? {
      assert Rank(t.workers[i]) <= Rank(s.workers[i]);
    }
  }

  lemma {:induction false} WorkersArrive(c: Config, sched: Schedule, from: nat, n: nat, l: nat) returns (k: nat)
    requires ValidConfig(c) && FairFrom(c, sched, from) && from <= n && l <= |StateAt(c, sched, n).queue| == |StateAt(c, sched, n).workers|
    ensures n <= k && FinishedUpTo(StateAt(c, sched, k), l)
    decreases l
  {
    hide StateAt, Act;
    if l == 0 {
      k := n;
    } else {
      var j := WorkersArrive(c, sched, from, n, l - 1);
      LaterIsOnward(c, sched, n, j);
      k := j;
      if !StateAt(c, sched, j).workers[l - 1].Finished? {
        assert WorkerServed(c, sched, l - 1, j);
        var m :| j <= m && sched(m) == Work(l - 1);
        k := WorkerArrives(c, sched, from, l - 1, j, m);
      }
      LaterIsOnward(c, sched, j, k);
      StaysFinished(StateAt(c, sched, j), StateAt(c, sched, k), l - 1);
    }
  }

  /* ---------- everything fires ---------- */

  /** Everything was dispatched at s, and the tasks there have finished at t. */
  lemma AllFiredLater(c: Config, s: State, t: State)
    requires ValidConfig(c) && Inv(c, s) && AllDispatched(c, s)
    requires Inv(c, t) && Onward(s, t) && FinishedUpTo(t, |s.queue|)
    ensures forall k: nat :: Real(c, k) && !Lost(c, s, k) ==> k in t.fired
  {
    hide Inv, AllDispatched, Positions, Real, Lost;
    forall k: nat | Real(c, k) && !Lost(c, s, k) ensures k in t.fired {
      EnqueuedUnlessLost(c, s, k);
      forall p | p in Positions(c, k) ensures p in t.signalled { EnqueuedThenSignalled(c, s, t, p); }
      FiredWhenSignalled(c, t, k);
    }
  }

  lemma EnqueuedThenSignalled(c: Config, s: State, t: State, p: nat)
    requires Inv(c, s) && Inv(c, t) && Onward(s, t) && FinishedUpTo(t, |s.queue|) && p in s.enqueued
    ensures p in t.signalled
  {
    hide BarrierOk, SetsOk, WinnersOk, CursorOk, DispatcherOk, UnmarkedUntouched, AtMostOnce, TasksOk, ListOk;
    var j :| 0 <= j < |s.queue| && s.queue[j].position == p;
    StageAt(c, t, j);
  }

  /** From the last crash on, nothing more is lost. */
  lemma {:induction false} LostForGood(c: Config, sched: Schedule, from: nat, n: nat, k: nat)
    requires ValidConfig(c) && FairFrom(c, sched, from) && from <= n
    ensures Lost(c, StateAt(c, sched, n), k) <==> Lost(c, StateAt(c, sched, from), k)
    decreases n - from
  {
    hide Act, Inv, Steady, Lost, Exposed;
    if from < n {
      LostForGood(c, sched, from, n - 1, k);
      MomentOk(c, sched, n - 1);
      LostExactly(c, StateAt(c, sched, n - 1), sched(n - 1), k);
    }
  }

  /** A moment at which everything has been dispatched. */
  lemma DispatchEnds(c: Config, sched: Schedule, from: nat) returns (n: nat)
    requires ValidConfig(c) && FairFrom(c, sched, from)
    ensures from <= n && AllDispatched(c, StateAt(c, sched, n))
  {
    hide Inv, StateAt;
    var s := StateAt(c, sched, from);
    MomentOk(c, sched, from);
    n := from;
    if !s.cleaned {
      if !AtTheEnd(c, s) {
        assert DispatcherServed(c, sched, from);
        var m :| from <= m && sched(m) == Action.Dispatch;
        n := DispatcherArrives(c, sched, from, from, m);
      }
      MomentOk(c, sched, n);
      InvHasDispatch(c, StateAt(c, sched, n));
      EndIsAllDispatched(c, StateAt(c, sched, n));
    }
  }

  /** With finitely many crashes, the last before moment `from`, every fair schedule comes to a moment
      from which on exactly those barriers have fired whose micro-batches no crash has cut off
      between mark and last enqueue. */
  lemma EveryFairScheduleSettles(c: Config, sched: Schedule, from: nat) returns (k: nat)
    requires ValidConfig(c) && FairFrom(c, sched, from)
    ensures from <= k
    ensures forall n, slice: nat :: k <= n && Real(c, slice) ==>
              (slice in StateAt(c, sched, n).fired <==> !Lost(c, StateAt(c, sched, from), slice))
  {
    hide Inv, Steady, Act, Real, Lost, AllDispatched, StateAt;
    var n := DispatchEnds(c, sched, from);
    var s := StateAt(c, sched, n);
    MomentOk(c, sched, n);
    WorkersMatch(c, s);
    k := WorkersArrive(c, sched, from, n, |s.queue|);
    MomentOk(c, sched, k);
    LaterIsOnward(c, sched, n, k);
    AllFiredLater(c, s, StateAt(c, sched, k));
    forall later, slice: nat | k <= later && Real(c, slice)
      ensures slice in StateAt(c, sched, later).fired <==> !Lost(c, StateAt(c, sched, from), slice)
    {
      MomentOk(c, sched, later);
      LostForGood(c, sched, from, n, slice);
      LostForGood(c, sched, from, later, slice);
      if slice in StateAt(c, sched, k).fired { FiredStays(c, sched, k, later, slice); }
      if slice in StateAt(c, sched, later).fired { FiredIsNotLost(c, StateAt(c, sched, later), slice); }
    }
  }

  /** Without crashes: in every fair schedule there comes a moment when every task has signalled and
      every barrier has fired, and from then on all of them have. */
  lemma EveryFairScheduleCompletes(c: Config, sched: Schedule) returns (k: nat)
    requires ValidConfig(c) && FairFrom(c, sched, 0)
    ensures forall n, slice: nat :: k <= n && Real(c, slice) ==> slice in StateAt(c, sched, n).fired
    ensures Range(0, c.total) <= StateAt(c, sched, k).signalled
  {
    hide Inv, Steady, Act, Real, Range, Lost;
    k := EveryFairScheduleSettles(c, sched, 0);
    forall slice: nat ensures !Lost(c, StateAt(c, sched, 0), slice) { InitialLosesNothing(c, slice); }
    MomentOk(c, sched, k);
    SignalledAll(c, StateAt(c, sched, k));
  }

  lemma SignalledAll(c: Config, s: State)
    requires ValidConfig(c) && Inv(c, s) && forall k: nat :: Real(c, k) ==> k in s.fired
    ensures Range(0, c.total) <= s.signalled
  {
    hide DispatchInv, WorkersOk, SetsOk, WinnersOk, BarrierOk, Real, Range;
    AllSignalled(c, s);
  }

  lemma {:induction false} FiredStays(c: Config, sched: Schedule, n: nat, m: nat, k: nat)
    requires ValidConfig(c) && n <= m && k in StateAt(c, sched, n).fired
    ensures k in StateAt(c, sched, m).fired
    decreases m - n
  {
    hide Act, Inv, Steady;
    if n < m {
      FiredStays(c, sched, n, m - 1, k);
      MomentOk(c, sched, m - 1);
      WinnerSurvives(c, StateAt(c, sched, m - 1), sched(m - 1), k);
    }
  }
}
