/** The outcome window under concurrent pushes and trims: always a suffix of the outcomes pushed,
    never shorter than the last N outcomes, never longer than N plus the trims still to come. */
module WindowSafety {
  import opened MicroBatch
  import opened MicroBatchTheorems
  import Metrics

  predicate SuffixOf(w: seq<bool>, log: seq<bool>) {
    |w| <= |log| && w == log[|log| - |w|..]
  }

  /** The outcomes of the pushed tasks, oldest first. */
  function History(c: Config, pushes: seq<nat>): (log: seq<bool>)
    ensures |log| == |pushes|
    ensures forall i :: 0 <= i < |pushes| ==> log[i] == c.fails(pushes[i])
  {
    seq(|pushes|, i requires 0 <= i < |pushes| => c.fails(pushes[i]))
  }

  /** Workers that have pushed and not yet trimmed. */
  function PendingTrims(workers: seq<Worker>): (s: set<nat>)
    ensures forall i :: i in s <==> 0 <= i < |workers| && workers[i].Trimming?
  {
    set i | 0 <= i < |workers| && workers[i].Trimming?
  }

  predicate WindowOk(c: Config, window: seq<bool>, pushes: seq<nat>, workers: seq<Worker>) {
    && SuffixOf(window, History(c, pushes))
    && Min(|pushes|, c.windowN) <= |window| <= c.windowN + |PendingTrims(workers)|
  }

  ghost predicate WindowInv(c: Config, s: State) {
    && |s.workers| == |s.queue|
    && (s.dispatcher.Cleaning? ==> s.cleaned)
    && (!s.cleaned ==> WindowOk(c, s.window, s.pushes, s.workers))
  }

  lemma TrimsMove(workers: seq<Worker>, i: nat, w: Worker)
    requires i < |workers|
    ensures PendingTrims(workers[i := w]) == if w.Trimming? then PendingTrims(workers) + {i} else PendingTrims(workers) - {i}
  {
  }

  lemma TrimsGrow(workers: seq<Worker>)
    ensures PendingTrims(workers + [Pushing]) == PendingTrims(workers)
  {
  }

  lemma SuffixPush(w: seq<bool>, log: seq<bool>, b: bool)
    requires SuffixOf(w, log)
    ensures SuffixOf(w + [b], log + [b])
  {
  }

  lemma SuffixTrim(w: seq<bool>, log: seq<bool>, n: nat)
    requires SuffixOf(w, log)
    ensures SuffixOf(LastN(w, n), log) && |LastN(w, n)| == Min(|w|, n)
  {
  }

  lemma PushKeepsWindow(c: Config, s: State, i: nat)
    requires WindowInv(c, s) && i < |s.queue| && s.workers[i].Pushing?
    ensures WindowInv(c, RecordStep(c, s, i))
  {
    hide SuffixOf, PendingTrims, History;
    var t, bad := RecordStep(c, s, i), c.fails(s.queue[i].position);
    TrimsMove(s.workers, i, Trimming);
    assert i !in PendingTrims(s.workers);
    if !s.cleaned {
      SuffixPush(s.window, History(c, s.pushes), bad);
      assert History(c, t.pushes) == History(c, s.pushes) + [bad];
    }
  }

  lemma TrimKeepsWindow(c: Config, s: State, i: nat)
    requires WindowInv(c, s) && i < |s.queue| && s.workers[i].Trimming?
    ensures WindowInv(c, RecordStep(c, s, i))
  {
    hide SuffixOf, PendingTrims, History, LastN;
    TrimsMove(s.workers, i, Counting);
    assert i in PendingTrims(s.workers);
    if !s.cleaned { SuffixTrim(s.window, History(c, s.pushes), c.windowN); }
  }

  /** The other worker steps leave window, pushes and pending trims alone. */
  lemma OtherWorkKeepsWindow(c: Config, s: State, i: nat)
    requires WindowInv(c, s) && i < |s.queue| && !s.workers[i].Pushing? && !s.workers[i].Trimming?
    ensures WindowInv(c, WorkStep(c, s, i))
  {
    hide SuffixOf, PendingTrims, RecordStep, CountStep, SignalStep, SnapshotStep;
    var t := WorkStep(c, s, i);
    TrimsMove(s.workers, i, t.workers[i]);
    assert i !in PendingTrims(s.workers);
    assert PendingTrims(t.workers) == PendingTrims(s.workers);
  }

  lemma DispatchKeepsWindow(c: Config, s: State)
    requires ValidConfig(c) && WindowInv(c, s)
    ensures WindowInv(c, DispatchStep(c, s))
  {
    hide SuffixOf, PendingTrims, LocalStep, WindowOk;
    if s.dispatcher.Enqueuing? {
      EnqueueKeepsWindow(c, s);
    }
  }

  lemma EnqueueKeepsWindow(c: Config, s: State)
    requires ValidConfig(c) && WindowInv(c, s) && s.dispatcher.Enqueuing?
    ensures WindowInv(c, EnqueueStep(c, s))
  {
    hide SuffixOf, PendingTrims;
    TrimsGrow(s.workers);
  }

  lemma ActKeepsWindow(c: Config, s: State, a: Action)
    requires ValidConfig(c) && WindowInv(c, s)
    ensures WindowInv(c, Act(c, s, a))
  {
    hide RecordStep, CountStep, SignalStep, SnapshotStep, DispatchStep, WindowOk;
    match a {
      case Dispatch => DispatchKeepsWindow(c, s);
      case Crash =>
      case Work(i) =>
        if i < |s.queue| {
          if s.workers[i].Pushing? { PushKeepsWindow(c, s, i); }
          else if s.workers[i].Trimming? { TrimKeepsWindow(c, s, i); }
          else { OtherWorkKeepsWindow(c, s, i); }
        }
    }
  }

  lemma {:induction false} RunKeepsWindow(c: Config, s: State, actions: seq<Action>)
    requires ValidConfig(c) && WindowInv(c, s)
    ensures WindowInv(c, Run(c, s, actions))
    decreases |actions|
  {
    hide WindowInv, Act;
    if actions != [] {
      ActKeepsWindow(c, s, actions[0]);
      RunKeepsWindow(c, Act(c, s, actions[0]), actions[1..]);
    }
  }

  /** Under any interleaving, until cleanup starts, the window is a suffix of the outcomes pushed, of
      length between min(n, N) and N plus the pending trims. */
  lemma WindowIsRecentOutcomes(c: Config, s: State)
    requires ValidConfig(c) && Reachable(c, s) && !s.cleaned
    ensures WindowOk(c, s.window, s.pushes, s.workers)
  {
    hide Run;
    var actions :| Run(c, Initial(), actions) == s;
    assert WindowInv(c, Initial());
    RunKeepsWindow(c, Initial(), actions);
  }

  /** With no trim pending and the last N outcomes all successes, the window is exactly those
      outcomes and the evaluator cannot call the batch severe, whatever the policy. */
  lemma SuccessesAreNotSevere(c: Config, s: State, policy: Metrics.FailurePolicy)
    requires ValidConfig(c) && Reachable(c, s) && !s.cleaned
    requires PendingTrims(s.workers) == {}
    requires |s.pushes| >= c.windowN && forall j :: |s.pushes| - c.windowN <= j < |s.pushes| ==> !c.fails(s.pushes[j])
    ensures s.window == History(c, s.pushes)[|s.pushes| - c.windowN..]
    ensures Metrics.FailureRate(s.window) < Metrics.ApplyDefaults(policy).severeFailureThreshold
  {
    hide Reachable;
    WindowIsRecentOutcomes(c, s);
    forall i | 0 <= i < |s.window| ensures s.window[i] == false {
      assert s.window[i] == History(c, s.pushes)[|s.pushes| - c.windowN + i];
    }
    Metrics.RateBounds(s.window);
  }
}
