/** What every interleaving of dispatcher and workers keeps: each open barrier counts exactly the
    tasks still to signal, each barrier fires once, and an outcome is recorded before it is
    signalled. */
module BarrierSafety {
  import opened FiniteSets
  import opened Barrier
  import opened MicroBatch
  import opened DispatchSafety

  /* ---------- the invariant ---------- */

  /** n is the number of tasks of micro-batch k that have not signalled, and there is one. */
  predicate Counts(c: Config, k: nat, n: int, signalled: set<nat>) {
    n == |Positions(c, k) - signalled| && n >= 1
  }

  /** Every task of micro-batch k has signalled. */
  predicate Complete(c: Config, k: nat, signalled: set<nat>) {
    Positions(c, k) <= signalled
  }

  /** An open barrier equals the number of its tasks that have not signalled, and that is at
      least one; a barrier that has fired has all its tasks signalled. */
  ghost predicate BarrierOk(c: Config, barrier: map<nat, int>, inited: set<nat>, fired: map<nat, nat>, signalled: set<nat>) {
    && fired.Keys <= inited
    && barrier.Keys == inited - fired.Keys
    && (forall k :: k in barrier ==> Counts(c, k, barrier[k], signalled))
    && (forall k :: k in fired ==> Complete(c, k, signalled))
    && (forall k :: k in inited ==> Real(c, k))
  }

  /** How far the worker of the task at position p has come, in terms of the history sets. */
  predicate StageOk(c: Config, w: Worker, p: nat, counted: set<nat>, countedFailed: set<nat>, signalled: set<nat>) {
    match w
    case CountingFailure => p in counted && c.fails(p) && p !in countedFailed && p !in signalled
    case Signalling => p in counted && (c.fails(p) <==> p in countedFailed) && p !in signalled
    case Reading => p in counted && (c.fails(p) <==> p in countedFailed) && p in signalled
    case Storing(_) => p in counted && (c.fails(p) <==> p in countedFailed) && p in signalled
    case Finished => p in counted && (c.fails(p) <==> p in countedFailed) && p in signalled
    case _ => p !in counted && p !in countedFailed && p !in signalled
  }

  ghost predicate WorkersOk(
      c: Config, queue: seq<Task>, workers: seq<Worker>,
      counted: set<nat>, countedFailed: set<nat>, signalled: set<nat>)
  {
    |workers| == |queue| &&
    forall i :: 0 <= i < |queue| ==>
      StageOk(c, workers[i], queue[i].position, counted, countedFailed, signalled)
  }

  /** An outcome is counted before it is signalled, and nothing is counted that was not enqueued. */
  ghost predicate SetsOk(c: Config, enqueued: set<nat>, counted: set<nat>, countedFailed: set<nat>, signalled: set<nat>) {
    && signalled <= counted <= enqueued
    && (forall p :: p in countedFailed ==> p in counted && c.fails(p))
    && (forall p :: p in signalled && c.fails(p) ==> p in countedFailed)
  }

  /** Only the winner of a barrier that has fired takes a snapshot. */
  ghost predicate WinnersOk(queue: seq<Task>, workers: seq<Worker>, fired: map<nat, nat>) {
    && |workers| == |queue|
    && (forall i :: 0 <= i < |queue| && (workers[i].Reading? || workers[i].Storing?) ==>
          queue[i].slice in fired && fired[queue[i].slice] == i)
    && (forall k :: k in fired ==> fired[k] < |queue| && queue[fired[k]].slice == k)
  }

  ghost predicate TotalsOk(s: State) {
    && (s.dispatcher.Cleaning? ==> s.cleaned)
    && (!s.cleaned ==> s.processed == |s.counted| && s.failed == |s.countedFailed|)
  }

  ghost predicate Inv(c: Config, s: State) {
    && DispatchInv(c, s)
    && BarrierOk(c, s.barrier, s.inited, s.fired, s.signalled)
    && WorkersOk(c, s.queue, s.workers, s.counted, s.countedFailed, s.signalled)
    && SetsOk(c, s.enqueued, s.counted, s.countedFailed, s.signalled)
    && WinnersOk(s.queue, s.workers, s.fired)
    && TotalsOk(s)
  }

  /* ---------- dispatcher steps ---------- */

  /** Setting up a barrier: fresh for a new micro-batch, left alone for one that a crashed call
      had already set up. */
  lemma BarrierInits(c: Config, barrier: map<nat, int>, inited: set<nat>, fired: map<nat, nat>, signalled: set<nat>, k: nat)
    requires BarrierOk(c, barrier, inited, fired, signalled)
    requires Real(c, k) && k !in fired && |Positions(c, k) - signalled| >= 1
    ensures BarrierOk(c, InitCounter(barrier, k, |Positions(c, k) - signalled|), inited + {k}, fired, signalled)
  {
    hide Positions, Real, Complete;
  }

  lemma InitKeepsBarrier(c: Config, s: State)
    requires ValidConfig(c) && Inv(c, s) && s.dispatcher.Initing?
    ensures var t := DispatchStep(c, s); BarrierOk(c, t.barrier, t.inited, t.fired, t.signalled)
  {
    hide DispatchInv, WorkersOk, WinnersOk, TotalsOk, Positions, Real;
    var k := s.dispatcher.slice;
    InitingFacts(c, s);
    assert Positions(c, k) - s.signalled == Positions(c, k);
    assert !Complete(c, k, s.signalled);
    BarrierInits(c, s.barrier, s.inited, s.fired, s.signalled, k);
  }

  lemma InitingFacts(c: Config, s: State)
    requires DispatchInv(c, s) && s.dispatcher.Initing? && ValidConfig(c)
    ensures var k := s.dispatcher.slice;
            && Real(c, k) && Positions(c, k) !! s.enqueued
            && s.dispatcher.count == |Positions(c, k)| >= 1 && Positions(c, k) != {}
  {
    hide CursorOk, UnmarkedUntouched, TasksOk, Tracks, AtMostOnce, ListOk, PrefixMarked, Boundary;
    BoundaryStep(c, s.dispatcher.slice);
    assert Boundary(c, s.dispatcher.slice) in Positions(c, s.dispatcher.slice);
  }

  /** Delivering a new task: its position is in no history set yet. */
  lemma WorkersGrow(c: Config, queue: seq<Task>, workers: seq<Worker>, task: Task,
                    counted: set<nat>, countedFailed: set<nat>, signalled: set<nat>)
    requires WorkersOk(c, queue, workers, counted, countedFailed, signalled)
    requires task.position !in counted && task.position !in countedFailed && task.position !in signalled
    ensures WorkersOk(c, queue + [task], workers + [Pushing], counted, countedFailed, signalled)
  {
  }

  lemma WinnersGrow(queue: seq<Task>, workers: seq<Worker>, task: Task, fired: map<nat, nat>)
    requires WinnersOk(queue, workers, fired)
    ensures WinnersOk(queue + [task], workers + [Pushing], fired)
  {
  }

  lemma EnqueueKeepsWorkers(c: Config, s: State)
    requires ValidConfig(c) && Inv(c, s) && s.dispatcher.Enqueuing?
    ensures var t := EnqueueStep(c, s);
            && WorkersOk(c, t.queue, t.workers, t.counted, t.countedFailed, t.signalled)
            && SetsOk(c, t.enqueued, t.counted, t.countedFailed, t.signalled)
            && WinnersOk(t.queue, t.workers, t.fired)
  {
    hide BarrierOk, TotalsOk, DispatchInv, WorkersOk, WinnersOk;
    var d := s.dispatcher;
    if d.done < d.count {
      NextIsFresh(c, s);
      var task := Task(d.cur + d.done, d.slice);
      WorkersGrow(c, s.queue, s.workers, task, s.counted, s.countedFailed, s.signalled);
      WinnersGrow(s.queue, s.workers, task, s.fired);
    }
  }

  lemma NextIsFresh(c: Config, s: State)
    requires DispatchInv(c, s) && s.dispatcher.Enqueuing? && s.dispatcher.done < s.dispatcher.count
    ensures s.dispatcher.cur + s.dispatcher.done !in s.enqueued
  {
    hide CursorOk, ListOk, TasksOk, Tracks, AtMostOnce, UnmarkedUntouched, PrefixMarked, Boundary, Real, Len, Range, Positions;
    var d := s.dispatcher;
    SliceFull(c, d.cur, d.slice, d.count);
    RangeGrows(s.enqueued, Positions(c, d.slice), d.cur, d.cur + d.done);
  }

  /** The steps that only read, mark or move the cursor. */
  lemma LocalKeepsInv(c: Config, s: State)
    requires ValidConfig(c) && Inv(c, s) && !s.dispatcher.Initing? && !s.dispatcher.Enqueuing? && !s.dispatcher.Cleaning?
    requires DispatchInv(c, DispatchStep(c, s))
    ensures Inv(c, DispatchStep(c, s))
  {
    hide LocalStep, DispatchInv, BarrierOk, WorkersOk, SetsOk, WinnersOk;
  }

  lemma CleanKeepsInv(c: Config, s: State)
    requires ValidConfig(c) && Inv(c, s) && s.dispatcher.Cleaning? && DispatchInv(c, DispatchStep(c, s))
    ensures Inv(c, DispatchStep(c, s))
  {
    hide DispatchInv, BarrierOk, WorkersOk, SetsOk, WinnersOk;
  }

  lemma InitKeepsInv(c: Config, s: State)
    requires ValidConfig(c) && Inv(c, s) && s.dispatcher.Initing? && DispatchInv(c, DispatchStep(c, s))
    ensures Inv(c, DispatchStep(c, s))
  {
    hide DispatchInv, BarrierOk, WorkersOk, SetsOk, WinnersOk, InitCounter;
    InitKeepsBarrier(c, s);
  }

  lemma EnqueueKeepsInv(c: Config, s: State)
    requires ValidConfig(c) && Inv(c, s) && s.dispatcher.Enqueuing? && DispatchInv(c, DispatchStep(c, s))
    ensures Inv(c, DispatchStep(c, s))
  {
    hide DispatchInv, BarrierOk, WorkersOk, SetsOk, WinnersOk;
    EnqueueKeepsWorkers(c, s);
  }

  lemma DispatchKeepsInv(c: Config, s: State)
    requires ValidConfig(c) && Inv(c, s)
    ensures Inv(c, DispatchStep(c, s))
  {
    assert DispatchInv(c, DispatchStep(c, s)) by {
      hide DispatchInv, DispatchStep, BarrierOk, WorkersOk, SetsOk, WinnersOk;
      DispatchKeeps(c, s);
    }
    hide Inv, DispatchStep, DispatchInv;
    if s.dispatcher.Initing? { InitKeepsInv(c, s); }
    else if s.dispatcher.Enqueuing? { EnqueueKeepsInv(c, s); }
    else if s.dispatcher.Cleaning? { CleanKeepsInv(c, s); }
    else { LocalKeepsInv(c, s); }
  }

  lemma CrashKeepsInv(c: Config, s: State)
    requires ValidConfig(c) && Inv(c, s)
    ensures Inv(c, Act(c, s, Crash))
  {
    hide DispatchInv, BarrierOk, WorkersOk, SetsOk, WinnersOk;
    CrashKeeps(c, s);
  }

  /* ---------- worker steps ---------- */

  /** A set after a worker's step: unchanged, or with the worker's own position added. */
  predicate Grown(a: set<nat>, b: set<nat>, p: nat) {
    b == a || b == a + {p}
  }

  /** One worker moves on; the others' stages do not notice, since positions are distinct. */
  lemma WorkerMoves(c: Config, queue: seq<Task>, workers: seq<Worker>, i: nat, w: Worker,
                    counted: set<nat>, countedFailed: set<nat>, signalled: set<nat>,
                    counted': set<nat>, countedFailed': set<nat>, signalled': set<nat>)
    requires WorkersOk(c, queue, workers, counted, countedFailed, signalled) && AtMostOnce(queue) && i < |queue|
    requires var p := queue[i].position;
             Grown(counted, counted', p) && Grown(countedFailed, countedFailed', p) && Grown(signalled, signalled', p)
    requires StageOk(c, w, queue[i].position, counted', countedFailed', signalled')
    ensures WorkersOk(c, queue, workers[i := w], counted', countedFailed', signalled')
  {
    var p := queue[i].position;
    forall j | 0 <= j < |queue|
      ensures StageOk(c, workers[i := w][j], queue[j].position, counted', countedFailed', signalled')
    {
      if j != i {
        assert queue[j].position != p;
        assert StageOk(c, workers[j], queue[j].position, counted, countedFailed, signalled);
      }
    }
  }

  /** A signal of one micro-batch leaves the counts of the others as they are. */
  lemma OthersUnaffected(c: Config, k: nat, p: nat, signalled: set<nat>)
    requires p in Positions(c, k)
    ensures forall j: nat, n: int :: j != k && Counts(c, j, n, signalled) ==> Counts(c, j, n, signalled + {p})
    ensures forall j: nat :: Complete(c, j, signalled) ==> Complete(c, j, signalled + {p})
  {
    hide Positions;
    forall j: nat, n: int | j != k && Counts(c, j, n, signalled) ensures Counts(c, j, n, signalled + {p}) {
      SlicesDisjoint(c, j, k);
      assert Positions(c, j) - (signalled + {p}) == Positions(c, j) - signalled;
    }
  }

  lemma OneFewer(slice: set<nat>, signalled: set<nat>, p: nat)
    requires p in slice && p !in signalled
    ensures |slice - (signalled + {p})| == |slice - signalled| - 1
    ensures |slice - (signalled + {p})| == 0 <==> slice <= signalled + {p}
  {
    assert slice - signalled == slice - (signalled + {p}) + {p};
    assert slice - (signalled + {p}) == {} <==> slice <= signalled + {p};
  }

  /** What an open count says about one more signal. */
  lemma SignalCounts(c: Config, k: nat, n: int, signalled: set<nat>, p: nat)
    requires Counts(c, k, n, signalled) && p in Positions(c, k) && p !in signalled
    ensures n - 1 == |Positions(c, k) - (signalled + {p})|
    ensures if n - 1 == 0 then Complete(c, k, signalled + {p})
            else !Complete(c, k, signalled + {p}) && Counts(c, k, n - 1, signalled + {p})
  {
    hide Positions;
    OneFewer(Positions(c, k), signalled, p);
  }

  /** The barrier scripts, one signal: the count goes down by the one new signal, the barrier
      is found, and it fires exactly when this signal completes the micro-batch. */
  lemma BarrierSignals(c: Config, barrier: map<nat, int>, inited: set<nat>, fired: map<nat, nat>, signalled: set<nat>,
                       k: nat, p: nat, i: nat)
    requires BarrierOk(c, barrier, inited, fired, signalled)
    requires k in inited && p in Positions(c, k) && p !in signalled
    ensures var (rem, after) := DecrCounter(barrier, k);
            && k !in fired
            && rem == |Positions(c, k) - (signalled + {p})| >= 0
            && (rem == 0 <==> Complete(c, k, signalled + {p}))
            && BarrierOk(c, after, inited, if rem == 0 then fired[k := i] else fired, signalled + {p})
  {
    hide Real, Positions, Counts, Complete;
    NotComplete(c, k, p, signalled);
    SignalCounts(c, k, barrier[k], signalled, p);
    OthersUnaffected(c, k, p, signalled);
  }

  lemma NotComplete(c: Config, k: nat, p: nat, signalled: set<nat>)
    requires p in Positions(c, k) && p !in signalled
    ensures !Complete(c, k, signalled)
  {
  }

  lemma WinnersKeep(queue: seq<Task>, workers: seq<Worker>, fired: map<nat, nat>, i: nat, w: Worker)
    requires WinnersOk(queue, workers, fired) && i < |queue|
    requires w.Storing? ==> workers[i].Reading?
    requires !w.Reading?
    ensures WinnersOk(queue, workers[i := w], fired)
  {
  }

  lemma WinnerCrowned(queue: seq<Task>, workers: seq<Worker>, fired: map<nat, nat>, i: nat)
    requires WinnersOk(queue, workers, fired) && i < |queue| && queue[i].slice !in fired
    ensures WinnersOk(queue, workers[i := Reading], fired[queue[i].slice := i])
  {
  }

  lemma QueueFacts(c: Config, s: State)
    requires DispatchInv(c, s)
    ensures AtMostOnce(s.queue) && TasksOk(c, s.queue, s.inited) && Tracks(s.queue, s.enqueued) && |s.workers| == |s.queue|
  {
  }

  /** Pushing and trimming touch only the outcome window. */
  lemma RecordKeepsInv(c: Config, s: State, i: nat)
    requires Inv(c, s) && i < |s.queue| == |s.workers| && (s.workers[i].Pushing? || s.workers[i].Trimming?)
    ensures Inv(c, RecordStep(c, s, i))
  {
    hide DispatchInv, BarrierOk, SetsOk, AtMostOnce, WinnersOk, WorkersOk;
    var t := RecordStep(c, s, i);
    SameKeepsDispatch(c, s, t);
    QueueFacts(c, s);
    StageAt(c, s, i);
    WorkerMoves(c, s.queue, s.workers, i, t.workers[i],
                s.counted, s.countedFailed, s.signalled, s.counted, s.countedFailed, s.signalled);
    WinnersKeep(s.queue, s.workers, s.fired, i, t.workers[i]);
  }

  /** Snapshots touch only the rates. */
  lemma SnapshotKeepsInv(c: Config, s: State, i: nat)
    requires Inv(c, s) && i < |s.queue| == |s.workers| && (s.workers[i].Reading? || s.workers[i].Storing? || s.workers[i].Finished?)
    ensures Inv(c, SnapshotStep(s, i))
  {
    hide DispatchInv, BarrierOk, SetsOk, AtMostOnce, WinnersOk, WorkersOk;
    var t := SnapshotStep(s, i);
    SameKeepsDispatch(c, s, t);
    QueueFacts(c, s);
    StageAt(c, s, i);
    if !s.workers[i].Finished? {
      WorkerMoves(c, s.queue, s.workers, i, t.workers[i],
                  s.counted, s.countedFailed, s.signalled, s.counted, s.countedFailed, s.signalled);
      WinnersKeep(s.queue, s.workers, s.fired, i, t.workers[i]);
    }
  }

  lemma StageAt(c: Config, s: State, i: nat)
    requires WorkersOk(c, s.queue, s.workers, s.counted, s.countedFailed, s.signalled) && i < |s.queue|
    ensures StageOk(c, s.workers[i], s.queue[i].position, s.counted, s.countedFailed, s.signalled)
  {
  }

  lemma NotYetSignalled(c: Config, s: State, i: nat)
    requires i < |s.queue| == |s.workers| && s.workers[i].Signalling?
    requires StageOk(c, s.workers[i], s.queue[i].position, s.counted, s.countedFailed, s.signalled)
    ensures s.queue[i].position !in s.signalled
  {
  }

  lemma TaskAt(c: Config, s: State, i: nat)
    requires DispatchInv(c, s) && i < |s.queue|
    ensures s.queue[i].position in Positions(c, s.queue[i].slice) && s.queue[i].slice in s.inited
    ensures s.queue[i].position in s.enqueued
  {
  }

  lemma SetsCount(c: Config, s: State, i: nat)
    requires SetsOk(c, s.enqueued, s.counted, s.countedFailed, s.signalled) && TotalsOk(s)
    requires i < |s.queue| == |s.workers| && s.queue[i].position in s.enqueued
    requires s.workers[i].Counting? || s.workers[i].CountingFailure?
    requires StageOk(c, s.workers[i], s.queue[i].position, s.counted, s.countedFailed, s.signalled)
    ensures var t := CountStep(c, s, i);
            && SetsOk(c, t.enqueued, t.counted, t.countedFailed, t.signalled) && TotalsOk(t)
            && StageOk(c, t.workers[i], t.queue[i].position, t.counted, t.countedFailed, t.signalled)
  {
  }

  lemma CountKeepsInv(c: Config, s: State, i: nat)
    requires Inv(c, s) && i < |s.queue| == |s.workers| && (s.workers[i].Counting? || s.workers[i].CountingFailure?)
    ensures Inv(c, CountStep(c, s, i))
  {
    hide DispatchInv, BarrierOk, AtMostOnce, WinnersOk, WorkersOk, Positions, SetsOk, TotalsOk, StageOk;
    var t := CountStep(c, s, i);
    SameKeepsDispatch(c, s, t);
    QueueFacts(c, s);
    TaskAt(c, s, i);
    StageAt(c, s, i);
    SetsCount(c, s, i);
    WorkerMoves(c, s.queue, s.workers, i, t.workers[i],
                s.counted, s.countedFailed, s.signalled, t.counted, t.countedFailed, t.signalled);
    WinnersKeep(s.queue, s.workers, s.fired, i, t.workers[i]);
  }

  lemma SetsSignal(c: Config, s: State, i: nat)
    requires SetsOk(c, s.enqueued, s.counted, s.countedFailed, s.signalled) && TotalsOk(s)
    requires i < |s.queue| == |s.workers| && s.workers[i].Signalling?
    requires StageOk(c, s.workers[i], s.queue[i].position, s.counted, s.countedFailed, s.signalled)
    ensures var t := SignalStep(c, s, i);
            && SetsOk(c, t.enqueued, t.counted, t.countedFailed, t.signalled) && TotalsOk(t)
            && StageOk(c, t.workers[i], t.queue[i].position, t.counted, t.countedFailed, t.signalled)
  {
    hide DecrCounter;
  }

  lemma SignalKeepsInv(c: Config, s: State, i: nat)
    requires Inv(c, s) && i < |s.queue| == |s.workers| && s.workers[i].Signalling?
    ensures Inv(c, SignalStep(c, s, i))
  {
    hide DispatchInv, BarrierOk, AtMostOnce, WinnersOk, WorkersOk, Positions, DecrCounter, SetsOk, TotalsOk, StageOk;
    var t := SignalStep(c, s, i);
    SameKeepsDispatch(c, s, t);
    QueueFacts(c, s);
    TaskAt(c, s, i);
    StageAt(c, s, i);
    SetsSignal(c, s, i);
    assert s.queue[i].position !in s.signalled by { NotYetSignalled(c, s, i); }
    WorkerMoves(c, s.queue, s.workers, i, t.workers[i],
                s.counted, s.countedFailed, s.signalled, t.counted, t.countedFailed, t.signalled);
    BarrierSignals(c, s.barrier, s.inited, s.fired, s.signalled, s.queue[i].slice, s.queue[i].position, i);
    if t.workers[i].Reading? {
      WinnerCrowned(s.queue, s.workers, s.fired, i);
    } else {
      WinnersKeep(s.queue, s.workers, s.fired, i, t.workers[i]);
    }
  }

  lemma WorkKeepsInv(c: Config, s: State, i: nat)
    requires ValidConfig(c) && Inv(c, s)
    ensures Inv(c, Act(c, s, Work(i)))
  {
    hide Inv, RecordStep, CountStep, SignalStep, SnapshotStep;
    if i < |s.queue| && |s.workers| == |s.queue| {
      match s.workers[i]
      case Pushing => RecordKeepsInv(c, s, i);
      case Trimming => RecordKeepsInv(c, s, i);
      case Counting => CountKeepsInv(c, s, i);
      case CountingFailure => CountKeepsInv(c, s, i);
      case Signalling => SignalKeepsInv(c, s, i);
      case _ => SnapshotKeepsInv(c, s, i);
    }
  }
}
