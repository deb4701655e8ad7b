/** What a stored micro-batch rate means: the failure fraction of a stretch of consecutive outcomes
    that ends only after every outcome of the micro-batch has been pushed. */
module SnapshotSafety {
  import opened MicroBatch
  import opened DispatchSafety
  import opened BarrierSafety
  import opened MicroBatchTheorems
  import opened OutcomeSafety
  import opened WindowSafety
  import Metrics

  /** seen is what the window held after b pushes: their latest outcomes, with micro-batch k all
      among those pushes, and - unless cleanup interfered - at least the last N of them. */
  predicate SeenAt(c: Config, pushes: seq<nat>, k: nat, seen: seq<bool>, cleaned: bool, b: nat) {
    && b <= |pushes|
    && SuffixOf(seen, History(c, pushes[..b]))
    && (forall p :: p in Positions(c, k) ==> p in pushes[..b])
    && (cleaned || Min(b, c.windowN) <= |seen|)
  }

  ghost predicate Seen(c: Config, pushes: seq<nat>, k: nat, seen: seq<bool>, cleaned: bool) {
    exists b: nat :: SeenAt(c, pushes, k, seen, cleaned, b)
  }

  ghost predicate RateOf(c: Config, pushes: seq<nat>, k: nat, rate: real, cleaned: bool) {
    exists seen :: Seen(c, pushes, k, seen, cleaned) && rate == Metrics.FailureRate(seen)
  }

  ghost predicate SnapshotsOk(
      c: Config, queue: seq<Task>, workers: seq<Worker>, pushes: seq<nat>, rates: map<nat, real>, cleaned: bool)
  {
    && |workers| == |queue|
    && (forall i :: 0 <= i < |queue| && workers[i].Storing? ==> Seen(c, pushes, queue[i].slice, workers[i].seen, cleaned))
    && (forall k :: k in rates ==> RateOf(c, pushes, k, rates[k], cleaned))
  }

  ghost predicate SnapshotInv(c: Config, s: State) {
    && SnapshotsOk(c, s.queue, s.workers, s.pushes, s.rates, s.cleaned)
    && SuffixOf(s.window, History(c, s.pushes))
  }

  /* ---------- snapshots stay what they are ---------- */

  lemma SeenStays(c: Config, pushes: seq<nat>, more: seq<nat>, k: nat, seen: seq<bool>, cleaned: bool, cleaned': bool)
    requires Seen(c, pushes, k, seen, cleaned) && (cleaned ==> cleaned')
    ensures Seen(c, pushes + more, k, seen, cleaned')
  {
    hide Positions, SuffixOf, History;
    var b: nat :| SeenAt(c, pushes, k, seen, cleaned, b);
    assert (pushes + more)[..b] == pushes[..b];
    assert SeenAt(c, pushes + more, k, seen, cleaned', b);
  }

  /** More pushes, and cleanup setting in, do not change what was seen. */
  lemma SnapshotsStay(c: Config, queue: seq<Task>, workers: seq<Worker>, pushes: seq<nat>, more: seq<nat>,
                      rates: map<nat, real>, cleaned: bool, cleaned': bool)
    requires SnapshotsOk(c, queue, workers, pushes, rates, cleaned) && (cleaned ==> cleaned')
    ensures SnapshotsOk(c, queue, workers, pushes + more, rates, cleaned')
  {
    hide Seen;
    forall i | 0 <= i < |queue| && workers[i].Storing?
      ensures Seen(c, pushes + more, queue[i].slice, workers[i].seen, cleaned')
    {
      SeenStays(c, pushes, more, queue[i].slice, workers[i].seen, cleaned, cleaned');
    }
    forall k | k in rates ensures RateOf(c, pushes + more, k, rates[k], cleaned') {
      var seen :| Seen(c, pushes, k, seen, cleaned) && rates[k] == Metrics.FailureRate(seen);
      SeenStays(c, pushes, more, k, seen, cleaned, cleaned');
    }
  }

  lemma WorkerLeaves(c: Config, queue: seq<Task>, workers: seq<Worker>, pushes: seq<nat>,
                     rates: map<nat, real>, cleaned: bool, i: nat, w: Worker)
    requires SnapshotsOk(c, queue, workers, pushes, rates, cleaned) && i < |queue|
    requires w.Storing? ==> Seen(c, pushes, queue[i].slice, w.seen, cleaned)
    ensures SnapshotsOk(c, queue, workers[i := w], pushes, rates, cleaned)
  {
    hide Seen, RateOf;
  }

  lemma RateStored(c: Config, queue: seq<Task>, workers: seq<Worker>, pushes: seq<nat>,
                   rates: map<nat, real>, cleaned: bool, i: nat)
    requires SnapshotsOk(c, queue, workers, pushes, rates, cleaned) && i < |queue| && workers[i].Storing?
    ensures SnapshotsOk(c, queue, workers[i := Finished], pushes,
                        rates[queue[i].slice := Metrics.FailureRate(workers[i].seen)], cleaned)
  {
    hide Seen;
    assert RateOf(c, pushes, queue[i].slice, Metrics.FailureRate(workers[i].seen), cleaned);
  }

  lemma TaskDelivered(c: Config, queue: seq<Task>, workers: seq<Worker>, pushes: seq<nat>,
                      rates: map<nat, real>, cleaned: bool, task: Task)
    requires SnapshotsOk(c, queue, workers, pushes, rates, cleaned)
    ensures SnapshotsOk(c, queue + [task], workers + [Pushing], pushes, rates, cleaned)
  {
    hide Seen, RateOf;
  }

  /* ---------- every step ---------- */

  lemma DispatchKeepsSnapshots(c: Config, s: State)
    requires ValidConfig(c) && SnapshotInv(c, s)
    ensures SnapshotInv(c, DispatchStep(c, s))
  {
    hide LocalStep, SnapshotsOk, History;
    var t := DispatchStep(c, s);
    if s.dispatcher.Enqueuing? && s.dispatcher.done < s.dispatcher.count {
      var d := s.dispatcher;
      TaskDelivered(c, s.queue, s.workers, s.pushes, s.rates, s.cleaned, Task(d.cur + d.done, d.slice));
    } else {
      SnapshotsStay(c, s.queue, s.workers, s.pushes, [], s.rates, s.cleaned, t.cleaned);
      assert s.pushes + [] == s.pushes;
    }
  }

  lemma RecordKeepsSnapshots(c: Config, s: State, i: nat)
    requires SnapshotInv(c, s) && i < |s.queue| == |s.workers| && (s.workers[i].Pushing? || s.workers[i].Trimming?)
    ensures SnapshotInv(c, RecordStep(c, s, i))
  {
    hide SnapshotsOk, SuffixOf, History;
    var t, p := RecordStep(c, s, i), s.queue[i].position;
    if s.workers[i].Pushing? {
      SnapshotsStay(c, s.queue, s.workers, s.pushes, [p], s.rates, s.cleaned, s.cleaned);
      SuffixPush(s.window, History(c, s.pushes), c.fails(p));
      assert History(c, t.pushes) == History(c, s.pushes) + [c.fails(p)];
    } else {
      SuffixTrim(s.window, History(c, s.pushes), c.windowN);
    }
    WorkerLeaves(c, s.queue, s.workers, t.pushes, s.rates, s.cleaned, i, t.workers[i]);
  }

  lemma CountKeepsSnapshots(c: Config, s: State, i: nat)
    requires SnapshotInv(c, s) && i < |s.queue| == |s.workers|
    ensures SnapshotInv(c, CountStep(c, s, i))
  {
    hide SnapshotsOk, SuffixOf;
    var t := CountStep(c, s, i);
    WorkerLeaves(c, s.queue, s.workers, s.pushes, s.rates, s.cleaned, i, t.workers[i]);
  }

  lemma SignalKeepsSnapshots(c: Config, s: State, i: nat)
    requires SnapshotInv(c, s) && i < |s.queue| == |s.workers|
    ensures SnapshotInv(c, SignalStep(c, s, i))
  {
    hide SnapshotsOk, SuffixOf;
    var t := SignalStep(c, s, i);
    WorkerLeaves(c, s.queue, s.workers, s.pushes, s.rates, s.cleaned, i, t.workers[i]);
  }

  /** What the winner reads. */
  lemma WinnerSees(c: Config, s: State, i: nat)
    requires Inv(c, s) && OutcomeInv(s) && WindowInv(c, s) && SnapshotInv(c, s)
    requires i < |s.queue| == |s.workers| && s.workers[i].Reading?
    ensures Seen(c, s.pushes, s.queue[i].slice, s.window, s.cleaned)
  {
    hide SnapshotsOk, SuffixOf, History, Positions, DispatchInv, WorkersOk, SetsOk, PushesOk, RatesOk;
    var k, b := s.queue[i].slice, |s.pushes|;
    assert s.pushes[..b] == s.pushes;
    forall p | p in Positions(c, k) ensures p in s.pushes {
      assert Complete(c, k, s.signalled);
      SignalledIsPushed(c, s, p);
    }
    assert SeenAt(c, s.pushes, k, s.window, s.cleaned, b);
  }

  lemma SnapshotKeepsSnapshots(c: Config, s: State, i: nat)
    requires Inv(c, s) && OutcomeInv(s) && WindowInv(c, s) && SnapshotInv(c, s)
    requires i < |s.queue| == |s.workers| && (s.workers[i].Reading? || s.workers[i].Storing? || s.workers[i].Finished?)
    ensures SnapshotInv(c, SnapshotStep(s, i))
  {
    hide SnapshotsOk, SuffixOf, Inv, OutcomeInv, WindowInv, Seen;
    if s.workers[i].Reading? {
      WinnerSees(c, s, i);
      WorkerLeaves(c, s.queue, s.workers, s.pushes, s.rates, s.cleaned, i, Storing(s.window));
    } else if s.workers[i].Storing? {
      RateStored(c, s.queue, s.workers, s.pushes, s.rates, s.cleaned, i);
    }
  }

  lemma WorkKeepsSnapshots(c: Config, s: State, i: nat)
    requires ValidConfig(c) && Inv(c, s) && OutcomeInv(s) && WindowInv(c, s) && SnapshotInv(c, s)
    ensures SnapshotInv(c, Act(c, s, Work(i)))
  {
    hide Inv, OutcomeInv, WindowInv, SnapshotInv, RecordStep, CountStep, SignalStep, SnapshotStep;
    if i < |s.queue| && |s.workers| == |s.queue| {
      match s.workers[i]
      case Pushing => RecordKeepsSnapshots(c, s, i);
      case Trimming => RecordKeepsSnapshots(c, s, i);
      case Counting => CountKeepsSnapshots(c, s, i);
      case CountingFailure => CountKeepsSnapshots(c, s, i);
      case Signalling => SignalKeepsSnapshots(c, s, i);
      case _ => SnapshotKeepsSnapshots(c, s, i);
    }
  }

  lemma {:induction false} RunKeepsSnapshots(c: Config, s: State, actions: seq<Action>)
    requires ValidConfig(c) && Inv(c, s) && OutcomeInv(s) && WindowInv(c, s) && SnapshotInv(c, s)
    ensures SnapshotInv(c, Run(c, s, actions))
    decreases |actions|
  {
    hide Inv, WindowInv, OutcomeInv, SnapshotsOk, DispatchStep, WorkStep;
    if actions != [] {
      var a := actions[0];
      RunKeepsInv(c, s, [a]);
      RunKeepsOutcomes(c, s, [a]);
      ActKeepsWindow(c, s, a);
      assert Run(c, s, [a]) == Act(c, s, a) by { assert [a][1..] == []; }
      match a {
        case Dispatch => DispatchKeepsSnapshots(c, s);
        case Crash =>
        case Work(i) => WorkKeepsSnapshots(c, s, i);
      }
      RunKeepsSnapshots(c, Act(c, s, a), actions[1..]);
    }
  }

  /** In every reachable state, a stored rate is the failure fraction of consecutive outcomes: the
      latest ones at a moment when every outcome of its micro-batch had been pushed, and - until
      cleanup starts - at least the last N of them. */
  lemma RatesAreTrue(c: Config, s: State, k: nat)
    requires ValidConfig(c) && Reachable(c, s) && k in s.rates
    ensures RateOf(c, s.pushes, k, s.rates[k], s.cleaned)
  {
    hide Inv, Run, Act, RateOf, History;
    var actions :| Run(c, Initial(), actions) == s;
    InitialInv(c);
    assert OutcomeInv(Initial()) && WindowInv(c, Initial()) && SnapshotInv(c, Initial());
    RunKeepsSnapshots(c, Initial(), actions);
  }
}
