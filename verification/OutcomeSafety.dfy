/** Every task's outcome is pushed once, before it is signalled, and every barrier that fires has
    its failure rate stored once by its winner. */
module OutcomeSafety {
  import opened FiniteSets
  import opened Barrier
  import opened MicroBatch
  import opened DispatchSafety
  import opened BarrierSafety
  import opened MicroBatchTheorems
  import Metrics

  /** The pushes so far are those of the workers past their push, each once. */
  ghost predicate PushesOk(queue: seq<Task>, workers: seq<Worker>, enqueued: set<nat>, pushes: seq<nat>) {
    && |workers| == |queue|
    && Distinct(pushes)
    && (forall j :: 0 <= j < |pushes| ==> pushes[j] in enqueued)
    && (forall i :: 0 <= i < |queue| ==> (workers[i].Pushing? <==> queue[i].position !in pushes))
  }

  /** The barrier of micro-batch k has fired and its winner is done. */
  predicate Settled(workers: seq<Worker>, fired: map<nat, nat>, k: nat) {
    k in fired && fired[k] < |workers| && workers[fired[k]].Finished?
  }

  /** A rate is stored exactly for the settled micro-batches, and every rate is a proportion. */
  ghost predicate RatesOk(workers: seq<Worker>, fired: map<nat, nat>, rates: map<nat, real>) {
    && (forall k :: k in rates <==> Settled(workers, fired, k))
    && (forall k :: k in rates ==> 0.0 <= rates[k] <= 1.0)
  }

  ghost predicate OutcomeInv(s: State) {
    PushesOk(s.queue, s.workers, s.enqueued, s.pushes) && RatesOk(s.workers, s.fired, s.rates)
  }

  /* ---------- pushes ---------- */

  lemma PushesDeliver(queue: seq<Task>, workers: seq<Worker>, enqueued: set<nat>, pushes: seq<nat>, task: Task)
    requires PushesOk(queue, workers, enqueued, pushes) && task.position !in enqueued
    ensures PushesOk(queue + [task], workers + [Pushing], enqueued + {task.position}, pushes)
  {
  }

  lemma PushesGrow(queue: seq<Task>, workers: seq<Worker>, enqueued: set<nat>, pushes: seq<nat>, i: nat)
    requires PushesOk(queue, workers, enqueued, pushes) && AtMostOnce(queue)
    requires i < |queue| && workers[i].Pushing? && queue[i].position in enqueued
    ensures PushesOk(queue, workers[i := Trimming], enqueued, pushes + [queue[i].position])
  {
    var p := queue[i].position;
    forall j | 0 <= j < |queue|
      ensures workers[i := Trimming][j].Pushing? <==> queue[j].position !in pushes + [p]
    {
      if j != i { assert queue[j].position != p; }
    }
  }

  lemma PushesStay(queue: seq<Task>, workers: seq<Worker>, enqueued: set<nat>, pushes: seq<nat>, i: nat, w: Worker)
    requires PushesOk(queue, workers, enqueued, pushes)
    requires i < |queue| && !workers[i].Pushing? && !w.Pushing?
    ensures PushesOk(queue, workers[i := w], enqueued, pushes)
  {
  }

  /* ---------- rates ---------- */

  /** A worker that moves without settling anything. */
  lemma RatesStay(workers: seq<Worker>, fired: map<nat, nat>, rates: map<nat, real>, i: nat, w: Worker)
    requires RatesOk(workers, fired, rates) && i < |workers|
    requires (!workers[i].Finished? && !w.Finished?) || (forall k :: k in fired ==> fired[k] != i)
    ensures RatesOk(workers[i := w], fired, rates)
  {
    forall k ensures Settled(workers[i := w], fired, k) <==> Settled(workers, fired, k) {
    }
  }

  lemma RatesCrown(workers: seq<Worker>, fired: map<nat, nat>, rates: map<nat, real>, i: nat, k: nat)
    requires RatesOk(workers, fired, rates) && i < |workers| && k !in fired && !workers[i].Finished?
    ensures RatesOk(workers[i := Reading], fired[k := i], rates)
  {
    forall j ensures Settled(workers[i := Reading], fired[k := i], j) <==> Settled(workers, fired, j) {
    }
  }

  lemma RatesStore(queue: seq<Task>, workers: seq<Worker>, fired: map<nat, nat>, rates: map<nat, real>, i: nat, rate: real)
    requires RatesOk(workers, fired, rates) && WinnersOk(queue, workers, fired)
    requires i < |queue| && workers[i].Storing? && 0.0 <= rate <= 1.0
    ensures RatesOk(workers[i := Worker.Finished], fired, rates[queue[i].slice := rate])
  {
    forall k ensures Settled(workers[i := Worker.Finished], fired, k) <==> k == queue[i].slice || Settled(workers, fired, k) {
    }
  }

  /* ---------- every step ---------- */

  lemma DispatchKeepsOutcomes(c: Config, s: State)
    requires ValidConfig(c) && Inv(c, s) && OutcomeInv(s)
    ensures OutcomeInv(DispatchStep(c, s))
  {
    hide LocalStep, DispatchInv, BarrierOk, WorkersOk, SetsOk, PushesOk, RatesOk;
    if s.dispatcher.Enqueuing? && s.dispatcher.done < s.dispatcher.count {
      var d := s.dispatcher;
      NextIsFresh(c, s);
      PushesDeliver(s.queue, s.workers, s.enqueued, s.pushes, Task(d.cur + d.done, d.slice));
      RatesDeliver(s.queue, s.workers, s.fired, s.rates);
    }
  }

  lemma RatesDeliver(queue: seq<Task>, workers: seq<Worker>, fired: map<nat, nat>, rates: map<nat, real>)
    requires RatesOk(workers, fired, rates) && WinnersOk(queue, workers, fired)
    ensures RatesOk(workers + [Pushing], fired, rates)
  {
    forall k ensures Settled(workers + [Pushing], fired, k) <==> Settled(workers, fired, k) {
    }
  }

  lemma RecordKeepsOutcomes(c: Config, s: State, i: nat)
    requires Inv(c, s) && OutcomeInv(s) && i < |s.queue| == |s.workers|
    requires s.workers[i].Pushing? || s.workers[i].Trimming?
    ensures OutcomeInv(RecordStep(c, s, i))
  {
    hide DispatchInv, BarrierOk, WorkersOk, SetsOk, WinnersOk, PushesOk, RatesOk;
    QueueFacts(c, s);
    TaskAt(c, s, i);
    if s.workers[i].Pushing? { PushesGrow(s.queue, s.workers, s.enqueued, s.pushes, i); }
    else { PushesStay(s.queue, s.workers, s.enqueued, s.pushes, i, Counting); }
    RatesStay(s.workers, s.fired, s.rates, i, RecordStep(c, s, i).workers[i]);
  }

  lemma CountKeepsOutcomes(c: Config, s: State, i: nat)
    requires OutcomeInv(s) && i < |s.queue| == |s.workers| && (s.workers[i].Counting? || s.workers[i].CountingFailure?)
    ensures OutcomeInv(CountStep(c, s, i))
  {
    hide PushesOk, RatesOk;
    var w := CountStep(c, s, i).workers[i];
    PushesStay(s.queue, s.workers, s.enqueued, s.pushes, i, w);
    RatesStay(s.workers, s.fired, s.rates, i, w);
  }

  lemma SignalKeepsOutcomes(c: Config, s: State, i: nat)
    requires Inv(c, s) && OutcomeInv(s) && i < |s.queue| == |s.workers| && s.workers[i].Signalling?
    ensures OutcomeInv(SignalStep(c, s, i))
  {
    hide DispatchInv, BarrierOk, WorkersOk, SetsOk, PushesOk, RatesOk, DecrCounter, Positions;
    var t := SignalStep(c, s, i);
    StageAt(c, s, i);
    TaskAt(c, s, i);
    BarrierSignals(c, s.barrier, s.inited, s.fired, s.signalled, s.queue[i].slice, s.queue[i].position, i);
    PushesStay(s.queue, s.workers, s.enqueued, s.pushes, i, t.workers[i]);
    if t.workers[i].Reading? {
      RatesCrown(s.workers, s.fired, s.rates, i, s.queue[i].slice);
    } else {
      RatesStay(s.workers, s.fired, s.rates, i, t.workers[i]);
    }
  }

  lemma SnapshotKeepsOutcomes(c: Config, s: State, i: nat)
    requires Inv(c, s) && OutcomeInv(s) && i < |s.queue| == |s.workers|
    requires s.workers[i].Reading? || s.workers[i].Storing? || s.workers[i].Finished?
    ensures OutcomeInv(SnapshotStep(s, i))
  {
    hide DispatchInv, BarrierOk, WorkersOk, SetsOk, PushesOk, RatesOk, WinnersOk;
    var w := SnapshotStep(s, i).workers[i];
    PushesStay(s.queue, s.workers, s.enqueued, s.pushes, i, w);
    if s.workers[i].Reading? {
      RatesStay(s.workers, s.fired, s.rates, i, w);
    } else if s.workers[i].Storing? {
      Metrics.RateBounds(s.workers[i].seen);
      RatesStore(s.queue, s.workers, s.fired, s.rates, i, Metrics.FailureRate(s.workers[i].seen));
    }
  }

  lemma WorkKeepsOutcomes(c: Config, s: State, i: nat)
    requires ValidConfig(c) && Inv(c, s) && OutcomeInv(s)
    ensures OutcomeInv(Act(c, s, Work(i)))
  {
    hide Inv, OutcomeInv, RecordStep, CountStep, SignalStep, SnapshotStep;
    if i < |s.queue| && |s.workers| == |s.queue| {
      match s.workers[i]
      case Pushing => RecordKeepsOutcomes(c, s, i);
      case Trimming => RecordKeepsOutcomes(c, s, i);
      case Counting => CountKeepsOutcomes(c, s, i);
      case CountingFailure => CountKeepsOutcomes(c, s, i);
      case Signalling => SignalKeepsOutcomes(c, s, i);
      case _ => SnapshotKeepsOutcomes(c, s, i);
    }
  }

  lemma {:induction false} RunKeepsOutcomes(c: Config, s: State, actions: seq<Action>)
    requires ValidConfig(c) && Inv(c, s) && OutcomeInv(s)
    ensures OutcomeInv(Run(c, s, actions))
    decreases |actions|
  {
    hide Inv, DispatchStep, WorkStep;
    if actions != [] {
      match actions[0] {
        case Dispatch => DispatchKeepsOutcomes(c, s); DispatchActs(c, s);
        case Crash => CrashKeepsInv(c, s);
        case Work(i) => WorkKeepsOutcomes(c, s, i); WorkKeepsInv(c, s, i);
      }
      RunKeepsOutcomes(c, Act(c, s, actions[0]), actions[1..]);
    }
  }

  lemma ReachableOutcomes(c: Config, s: State)
    requires ValidConfig(c) && Reachable(c, s)
    ensures Inv(c, s) && OutcomeInv(s)
  {
    hide Inv, Run, Act;
    var actions :| Run(c, Initial(), actions) == s;
    ReachableInv(c, s);
    InitialInv(c);
    RunKeepsOutcomes(c, Initial(), actions);
  }

  /* ---------- theorems ---------- */

  /** When the winner takes its snapshot, every outcome of its micro-batch has been pushed to the
      window and counted, and counted as failed exactly if it failed. */
  lemma SnapshotSeesEveryOutcome(c: Config, s: State, i: nat, p: nat)
    requires ValidConfig(c) && Reachable(c, s)
    requires i < |s.queue| == |s.workers| && (s.workers[i].Reading? || s.workers[i].Storing?)
    requires p in Positions(c, s.queue[i].slice)
    ensures p in s.pushes && p in s.counted && (c.fails(p) <==> p in s.countedFailed)
    ensures s.queue[i].slice in s.fired && s.fired[s.queue[i].slice] == i
  {
    hide Reachable, Positions, RatesOk, DispatchInv;
    ReachableOutcomes(c, s);
    assert p in s.signalled;
    SignalledIsPushed(c, s, p);
  }

  lemma SignalledIsPushed(c: Config, s: State, p: nat)
    requires Inv(c, s) && OutcomeInv(s) && p in s.signalled
    ensures p in s.pushes
  {
    hide Positions, RatesOk, BarrierOk, WinnersOk, AtMostOnce, CursorOk, DispatcherOk, UnmarkedUntouched, TasksOk, ListOk;
    var j :| 0 <= j < |s.queue| && s.queue[j].position == p;
    assert StageOk(c, s.workers[j], p, s.counted, s.countedFailed, s.signalled);
  }

  /** In every reachable state no outcome has been pushed twice and each pushed outcome belongs to
      an enqueued item. Once all barriers have fired, each item's outcome has been pushed. */
  lemma EachOutcomeOnce(c: Config, s: State)
    requires ValidConfig(c) && Reachable(c, s)
    ensures Distinct(s.pushes) && Elements(s.pushes) <= s.enqueued
    ensures (forall k: nat :: Real(c, k) ==> k in s.fired) ==>
              Elements(s.pushes) == Range(0, c.total) && |s.pushes| == c.total
  {
    hide Reachable, DispatchInv, WorkersOk, SetsOk, WinnersOk, RatesOk, Real;
    ReachableOutcomes(c, s);
    if forall k: nat :: Real(c, k) ==> k in s.fired {
      AllSignalled(c, s);
      EnqueuedInRange(c, s);
      forall p | p in Range(0, c.total) ensures p in s.pushes { SignalledIsPushed(c, s, p); }
      DistinctCount(s.pushes);
    }
  }

  /** A rate is stored for a micro-batch exactly when its barrier has fired and the winner has
      finished; it is always a proportion. */
  lemma RatesAreSnapshots(c: Config, s: State, k: nat)
    requires ValidConfig(c) && Reachable(c, s)
    ensures k in s.rates <==> Settled(s.workers, s.fired, k)
    ensures k in s.rates ==> 0.0 <= s.rates[k] <= 1.0
  {
    hide Reachable, Inv, PushesOk;
    ReachableOutcomes(c, s);
  }
}
