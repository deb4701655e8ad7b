/** What every step of the dispatcher keeps: the cursor stands at a micro-batch boundary, every
    micro-batch below it is marked, and no item is ever enqueued twice. */
module DispatchSafety {
  import opened Outcomes
  import opened FiniteSets
  import opened MicroBatch

  /* ---------- slices partition the items ---------- */

  lemma BoundaryMonotone(c: Config, j: nat, k: nat)
    requires j <= k
    ensures Boundary(c, j) <= Boundary(c, k)
  {
    assert j * c.size <= k * c.size;
  }

  lemma SlicesDisjoint(c: Config, j: nat, k: nat)
    requires j != k
    ensures Positions(c, j) !! Positions(c, k)
  {
    hide Boundary;
    BoundaryStep(c, j);
    BoundaryStep(c, k);
    if j < k { BoundaryMonotone(c, j + 1, k); } else { BoundaryMonotone(c, k + 1, j); }
  }

  lemma Scale(a: int, b: int, n: nat)
    requires a <= b
    ensures a * n <= b * n
  {
  }

  lemma DivIsUnique(p: nat, n: nat, k: nat)
    requires n >= 1 && k * n <= p < k * n + n
    ensures p / n == k
  {
    var q := p / n;
    assert q * n <= p < q * n + n;
    if q < k { Scale(q + 1, k, n); } else if k < q { Scale(k + 1, q, n); }
  }

  lemma SliceIndex(c: Config, k: nat)
    requires c.size >= 1 && Real(c, k)
    ensures Boundary(c, k) / c.size == k
  {
    DivIsUnique(k * c.size, c.size, k);
  }

  function Len(c: Config, k: nat): (n: nat) {
    BoundaryStep(c, k);
    Boundary(c, k + 1) - Boundary(c, k)
  }

  /* ---------- the invariant ---------- */

  ghost predicate PrefixMarked(c: Config, marked: set<nat>, k: nat) {
    forall j: nat :: j < k && Real(c, j) ==> j in marked
  }

  ghost predicate AllMarked(c: Config, marked: set<nat>) {
    forall j: nat :: Real(c, j) ==> j in marked
  }

  predicate Untouched(c: Config, enqueued: set<nat>, k: nat) {
    Positions(c, k) !! enqueued
  }

  ghost predicate CursorOk(c: Config, cursor: Option<nat>, marked: set<nat>) {
    cursor.Some? ==> exists k: nat :: cursor.value == Boundary(c, k) && PrefixMarked(c, marked, k)
  }

  /** A dispatch call works on micro-batch k, and everything before k is marked. */
  ghost predicate At(c: Config, marked: set<nat>, cur: nat, k: nat) {
    cur == Boundary(c, k) && Real(c, k) && PrefixMarked(c, marked, k)
  }

  ghost predicate DispatcherOk(c: Config, d: Dispatcher, marked: set<nat>, inited: set<nat>, enqueued: set<nat>) {
    match d
    case Idle => true
    case GotCursor(cur, k) => At(c, marked, cur, k)
    case GotItems(cur, k, n) => At(c, marked, cur, k) && (n == Len(c, k) || (n == 0 && k in marked))
    case Skipping(cur, k, n) => At(c, marked, cur, k) && (n == Len(c, k) || n == 0) && k in marked
    case Initing(cur, k, n) =>
      At(c, marked, cur, k) && n == Len(c, k) && k !in marked && Untouched(c, enqueued, k)
    case Marking(cur, k, n) =>
      At(c, marked, cur, k) && n == Len(c, k) && k !in marked && k in inited &&
      (if c.bulk then Untouched(c, enqueued, k) else Positions(c, k) <= enqueued)
    case Advancing(cur, k, n) =>
      At(c, marked, cur, k) && n == Len(c, k) && k in marked && k in inited &&
      (c.bulk ==> Untouched(c, enqueued, k))
    case Enqueuing(cur, k, n, j) =>
      At(c, marked, cur, k) && n == Len(c, k) && j <= n && k in inited && (k in marked <==> c.bulk) &&
      enqueued * Positions(c, k) == Range(cur, cur + j)
    case Cleaning(_) => AllMarked(c, marked)
  }

  /** In ID mode the micro-batch being enqueued is not marked yet. */
  predicate InProgress(c: Config, d: Dispatcher, k: nat) {
    !c.bulk && (d.Enqueuing? || d.Marking?) && d.slice == k
  }

  /** Nothing of an unmarked micro-batch has been enqueued, except by the call in progress. */
  ghost predicate UnmarkedUntouched(c: Config, d: Dispatcher, marked: set<nat>, enqueued: set<nat>) {
    forall k: nat :: Real(c, k) && k !in marked && !InProgress(c, d, k) ==> Untouched(c, enqueued, k)
  }

  /** Every task belongs to the micro-batch it names, whose barrier has been set up. */
  ghost predicate TasksOk(c: Config, queue: seq<Task>, inited: set<nat>) {
    forall i :: 0 <= i < |queue| ==>
      queue[i].position in Positions(c, queue[i].slice) && queue[i].slice in inited
  }

  /** The queue holds exactly the enqueued positions. */
  ghost predicate Tracks(queue: seq<Task>, enqueued: set<nat>) {
    && (forall i :: 0 <= i < |queue| ==> queue[i].position in enqueued)
    && (forall p :: p in enqueued ==> exists i :: 0 <= i < |queue| && queue[i].position == p)
  }

  /** No item is enqueued twice. */
  ghost predicate AtMostOnce(queue: seq<Task>) {
    forall i, j :: 0 <= i < j < |queue| ==> queue[i].position != queue[j].position
  }

  ghost predicate ListOk(c: Config, listPresent: bool, marked: set<nat>) {
    && (!c.bulk && !listPresent ==> AllMarked(c, marked))
    && (c.bulk ==> listPresent)
  }

  ghost predicate DispatchInv(c: Config, s: State) {
    && CursorOk(c, s.cursor, s.marked)
    && DispatcherOk(c, s.dispatcher, s.marked, s.inited, s.enqueued)
    && UnmarkedUntouched(c, s.dispatcher, s.marked, s.enqueued)
    && |s.workers| == |s.queue|
    && TasksOk(c, s.queue, s.inited)
    && Tracks(s.queue, s.enqueued)
    && AtMostOnce(s.queue)
    && ListOk(c, s.listPresent, s.marked)
  }

  /* ---------- preservation ---------- */

  lemma ReadCursorKeeps(c: Config, s: State)
    requires ValidConfig(c) && DispatchInv(c, s) && s.dispatcher.Idle?
    ensures DispatchInv(c, DispatchStep(c, s))
  {
    hide TasksOk, Tracks, AtMostOnce;
    var cur := CursorValue(s.cursor);
    var k: nat := 0;
    if s.cursor.Some? {
      k :| s.cursor.value == Boundary(c, k) && PrefixMarked(c, s.marked, k);
    }
    if cur < c.total {
      SliceIndex(c, k);
      assert At(c, s.marked, cur, k);
    } else {
      forall j: nat | Real(c, j) ensures j in s.marked {
        if j >= k { BoundaryMonotone(c, k, j); }
      }
    }
  }

  lemma ReadItemsKeeps(c: Config, s: State)
    requires ValidConfig(c) && DispatchInv(c, s) && (s.dispatcher.GotCursor? || s.dispatcher.GotItems?)
    ensures DispatchInv(c, DispatchStep(c, s))
  {
    hide TasksOk, Tracks, AtMostOnce, CursorOk;
    BoundaryStep(c, s.dispatcher.slice);
  }

  /** Moving the cursor to the end of a marked micro-batch (or leaving it where it is). */
  lemma AdvanceKeeps(c: Config, s: State)
    requires ValidConfig(c) && DispatchInv(c, s) && (s.dispatcher.Skipping? || s.dispatcher.Advancing?)
    ensures DispatchInv(c, DispatchStep(c, s))
  {
    hide TasksOk, Tracks, AtMostOnce, CursorOk, UnmarkedUntouched, ListOk, Positions, PrefixMarked, Boundary, Real, Range;
    var t := DispatchStep(c, s);
    var k, cur := s.dispatcher.slice, s.dispatcher.cur;
    AdvancedCursor(c, s.marked, cur, k, s.dispatcher.count);
    StillUntouched(c, s.dispatcher, t.dispatcher, s.marked, s.enqueued);
    assert t.dispatcher.Enqueuing? ==> t.enqueued * Positions(c, k) == {} == Range(cur, cur);
  }

  lemma AdvancedCursor(c: Config, marked: set<nat>, cur: nat, k: nat, n: nat)
    requires ValidConfig(c) && At(c, marked, cur, k) && k in marked && (n == Len(c, k) || n == 0)
    ensures CursorOk(c, Some(cur + n), marked)
  {
    hide Boundary, Real;
    BoundaryStep(c, k);
    assert PrefixMarked(c, marked, k + 1);
  }

  lemma InitKeeps(c: Config, s: State)
    requires ValidConfig(c) && DispatchInv(c, s) && s.dispatcher.Initing?
    ensures DispatchInv(c, DispatchStep(c, s))
  {
    hide TasksOk, Tracks, AtMostOnce, CursorOk, UnmarkedUntouched, ListOk, Positions, PrefixMarked, Boundary, Real, Len;
    var k, cur := s.dispatcher.slice, s.dispatcher.cur;
    assert s.enqueued * Positions(c, k) == {} == Range(cur, cur);
    InitedGrows(c, s.queue, s.inited, k);
    StillUntouched(c, s.dispatcher, DispatchStep(c, s).dispatcher, s.marked, s.enqueued);
  }

  lemma InitedGrows(c: Config, queue: seq<Task>, inited: set<nat>, k: nat)
    requires TasksOk(c, queue, inited)
    ensures TasksOk(c, queue, inited + {k})
  {
    hide Positions;
  }

  /** A call that is not yet, or no longer, enqueuing without a mark changes nothing here. */
  lemma StillUntouched(c: Config, d: Dispatcher, d': Dispatcher, marked: set<nat>, enqueued: set<nat>)
    requires UnmarkedUntouched(c, d, marked, enqueued) && (d.Initing? || d.Skipping? || d.Advancing?)
    ensures UnmarkedUntouched(c, d', marked, enqueued)
  {
    hide Real, Untouched;
  }

  lemma MarkKeeps(c: Config, s: State)
    requires ValidConfig(c) && DispatchInv(c, s) && s.dispatcher.Marking?
    ensures DispatchInv(c, DispatchStep(c, s))
  {
    hide TasksOk, Tracks, AtMostOnce;
    var t := DispatchStep(c, s);
    if t.cursor.Some? {
      var j: nat :| s.cursor.value == Boundary(c, j) && PrefixMarked(c, s.marked, j);
      assert PrefixMarked(c, t.marked, j);
    }
  }

  lemma EnqueueKeeps(c: Config, s: State)
    requires ValidConfig(c) && DispatchInv(c, s) && s.dispatcher.Enqueuing?
    ensures DispatchInv(c, DispatchStep(c, s))
  {
    if s.dispatcher.done < s.dispatcher.count { EnqueueOneKeeps(c, s); } else { EndEnqueueKeeps(c, s); }
  }

  lemma SliceFull(c: Config, cur: nat, k: nat, n: nat)
    requires cur == Boundary(c, k) && n == Len(c, k)
    ensures Range(cur, cur + n) == Positions(c, k)
    ensures forall p :: cur <= p < cur + n ==> p in Positions(c, k)
  {
  }

  lemma RangeGrows(enqueued: set<nat>, slice: set<nat>, cur: nat, p: nat)
    requires cur <= p && p in slice && enqueued * slice == Range(cur, p)
    ensures p !in enqueued
    ensures (enqueued + {p}) * slice == Range(cur, p + 1)
  {
    assert p !in Range(cur, p);
    assert (enqueued + {p}) * slice == enqueued * slice + {p};
    assert Range(cur, p + 1) == Range(cur, p) + {p};
  }

  lemma EnqueueOneKeeps(c: Config, s: State)
    requires ValidConfig(c) && DispatchInv(c, s) && s.dispatcher.Enqueuing? && s.dispatcher.done < s.dispatcher.count
    ensures DispatchInv(c, DispatchStep(c, s))
  {
    hide CursorOk, ListOk, TasksOk, Tracks, AtMostOnce, UnmarkedUntouched, Positions, PrefixMarked, Range, Boundary, Real, Len;
    var d := s.dispatcher;
    var p := d.cur + d.done;
    SliceFull(c, d.cur, d.slice, d.count);
    RangeGrows(s.enqueued, Positions(c, d.slice), d.cur, p);
    QueueGrows(c, s.queue, s.inited, s.enqueued, Task(p, d.slice));
    OthersUntouched(c, d, DispatchStep(c, s).dispatcher, s.marked, s.enqueued, p);
  }

  lemma EndEnqueueKeeps(c: Config, s: State)
    requires ValidConfig(c) && DispatchInv(c, s) && s.dispatcher.Enqueuing? && s.dispatcher.done >= s.dispatcher.count
    ensures DispatchInv(c, DispatchStep(c, s))
  {
    hide CursorOk, ListOk, TasksOk, Tracks, AtMostOnce, Positions, PrefixMarked, Range, Boundary, Real, Len;
    var d := s.dispatcher;
    SliceFull(c, d.cur, d.slice, d.count);
  }

  /** Appending a task for a fresh position keeps the queue in step and free of repeats. */
  lemma QueueGrows(c: Config, queue: seq<Task>, inited: set<nat>, enqueued: set<nat>, task: Task)
    requires TasksOk(c, queue, inited) && Tracks(queue, enqueued) && AtMostOnce(queue)
    requires task.position in Positions(c, task.slice) && task.slice in inited && task.position !in enqueued
    ensures TasksOk(c, queue + [task], inited)
    ensures Tracks(queue + [task], enqueued + {task.position})
    ensures AtMostOnce(queue + [task])
  {
    hide Positions;
    var longer := queue + [task];
    forall q | q in enqueued + {task.position}
      ensures exists i :: 0 <= i < |longer| && longer[i].position == q
    {
      if q == task.position {
        assert longer[|queue|].position == q;
      } else {
        var i :| 0 <= i < |queue| && queue[i].position == q;
        assert longer[i].position == q;
      }
    }
  }

  lemma OthersUntouched(c: Config, d: Dispatcher, d': Dispatcher, marked: set<nat>, enqueued: set<nat>, p: nat)
    requires d.Enqueuing? && d'.Enqueuing? && d.slice == d'.slice && p in Positions(c, d.slice)
    requires d.slice in marked || !c.bulk
    requires UnmarkedUntouched(c, d, marked, enqueued)
    ensures UnmarkedUntouched(c, d', marked, enqueued + {p})
  {
    hide Positions, Real;
    forall j: nat | Real(c, j) && j !in marked && !InProgress(c, d', j)
      ensures Untouched(c, enqueued + {p}, j)
    {
      assert j != d.slice;
      SlicesDisjoint(c, j, d.slice);
      assert Untouched(c, enqueued, j);
    }
  }

  lemma CleanKeeps(c: Config, s: State)
    requires ValidConfig(c) && DispatchInv(c, s) && s.dispatcher.Cleaning?
    ensures DispatchInv(c, DispatchStep(c, s))
  {
    hide TasksOk, Tracks, AtMostOnce, Untouched, AllMarked;
  }

  lemma DispatchKeeps(c: Config, s: State)
    requires ValidConfig(c) && DispatchInv(c, s)
    ensures DispatchInv(c, DispatchStep(c, s))
  {
    hide DispatchInv, DispatchStep;
    match s.dispatcher
    case Idle => ReadCursorKeeps(c, s);
    case GotCursor(_, _) => ReadItemsKeeps(c, s);
    case GotItems(_, _, _) => ReadItemsKeeps(c, s);
    case Skipping(_, _, _) => AdvanceKeeps(c, s);
    case Advancing(_, _, _) => AdvanceKeeps(c, s);
    case Initing(_, _, _) => InitKeeps(c, s);
    case Marking(_, _, _) => MarkKeeps(c, s);
    case Enqueuing(_, _, _, _) => EnqueueKeeps(c, s);
    case Cleaning(_) => CleanKeeps(c, s);
  }

  /** Losing the dispatcher's locals at any point is harmless in bulk mode. */
  lemma CrashKeeps(c: Config, s: State)
    requires ValidConfig(c) && DispatchInv(c, s)
    ensures DispatchInv(c, Act(c, s, Crash))
  {
    hide TasksOk, Tracks, AtMostOnce, Untouched, CursorOk, ListOk;
  }

  /** Workers touch nothing the dispatcher relies on. */
  lemma SameKeepsDispatch(c: Config, s: State, t: State)
    requires DispatchInv(c, s) && SameForDispatcher(s, t)
    ensures DispatchInv(c, t)
  {
    hide TasksOk, Tracks, AtMostOnce, CursorOk, ListOk, UnmarkedUntouched, DispatcherOk;
  }
}
