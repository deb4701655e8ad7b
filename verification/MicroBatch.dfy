/** The micro-batch protocol as a step system (pkg/batch/orchestrator.go, barrier.go,
    metrics.go). One step is one Redis command or one Lua script; the commands of a pipeline
    are separate steps. One dispatcher is active per batch, any number of workers run beside
    it, and every delivered task is worked on once. */
module MicroBatch {
  import opened Outcomes
  import opened FiniteSets
  import opened Barrier
  import Metrics

  /** A batch of `total` stored items cut into micro-batches of `size`. In bulk mode a
      micro-batch is marked before it is enqueued and the dispatcher may crash at any point;
      in ID mode it is enqueued first and crashes are outside the model. `fails` says which
      items' tasks will fail. */
  datatype Config = Config(total: nat, size: nat, bulk: bool, windowN: nat, fails: nat -> bool)

  predicate ValidConfig(c: Config) {
    c.size >= 1 && c.windowN >= 1
  }

  /* ---------- slices ---------- */

  function Min(a: nat, b: nat): (r: nat) { if a <= b then a else b }

  /** Where micro-batch k begins; total for every k past the last one. */
  function Boundary(c: Config, k: nat): (r: nat)
    ensures r <= c.total
  {
    Min(k * c.size, c.total)
  }

  lemma BoundaryStep(c: Config, k: nat)
    ensures Boundary(c, k) <= Boundary(c, k + 1)
    ensures ValidConfig(c) && Boundary(c, k) < c.total ==>
      Boundary(c, k) < Boundary(c, k + 1) == Min(Boundary(c, k) + c.size, c.total)
  {
    assert (k + 1) * c.size == k * c.size + c.size;
  }

  function Positions(c: Config, k: nat): (s: set<nat>)
    ensures forall p :: p in s ==> p < c.total
  {
    BoundaryStep(c, k);
    Range(Boundary(c, k), Boundary(c, k + 1))
  }

  /** A micro-batch that exists: it has at least one item. */
  predicate Real(c: Config, k: nat) {
    Boundary(c, k) < c.total
  }

  /* ---------- state ---------- */

  datatype Dispatcher =
    | Idle
    | GotCursor(cur: nat, slice: nat)
    | GotItems(cur: nat, slice: nat, count: nat)
    | Skipping(cur: nat, slice: nat, count: nat)
    | Initing(cur: nat, slice: nat, count: nat)
    | Enqueuing(cur: nat, slice: nat, count: nat, done: nat)
    | Marking(cur: nat, slice: nat, count: nat)
    | Advancing(cur: nat, slice: nat, count: nat)
    | Cleaning(stage: nat)

  datatype Worker =
    | Pushing | Trimming | Counting | CountingFailure | Signalling
    | Reading | Storing(seen: seq<bool>) | Finished

  /** A queued task carries the item's position and its micro-batch. */
  datatype Task = Task(position: nat, slice: nat)

  datatype State = State(
    // Redis
    listPresent: bool,
    cursor: Option<nat>,
    marked: set<nat>,
    barrier: map<nat, int>,
    window: seq<bool>,
    processed: nat,
    failed: nat,
    rates: map<nat, real>,
    // the queue, in order of enqueueing, and the worker of each delivery
    queue: seq<Task>,
    workers: seq<Worker>,
    // the dispatcher's program counter
    dispatcher: Dispatcher,
    // history variables: sets of positions, the positions in the order of their pushes, and the
    // delivery that fired each barrier
    enqueued: set<nat>,
    signalled: set<nat>,
    counted: set<nat>,
    countedFailed: set<nat>,
    pushes: seq<nat>,
    inited: set<nat>,
    fired: map<nat, nat>,
    cleaned: bool)

  function Initial(): (s: State) {
    State(true, None, {}, map[], [], 0, 0, map[], [], [], Idle, {}, {}, {}, {}, [], {}, map[], false)
  }

  /* ---------- the dispatcher ---------- */

  /** The cursor a dispatch call works with: zero when the key is missing. */
  function CursorValue(cursor: Option<nat>): (n: nat) {
    if cursor.Some? then cursor.value else 0
  }

  /** LRANGE from the cursor: the rest of the micro-batch, or nothing once cleanup has deleted
      the list of IDs. Cleanup does not know the key of the bulk list. */
  function ItemCount(c: Config, s: State, cur: nat): (n: nat) {
    if !c.bulk && !s.listPresent then 0 else Min(cur + c.size, c.total) - Min(cur, c.total)
  }

  /** What a step that only reads, marks or moves the cursor can change. */
  datatype Local = Local(cursor: Option<nat>, marked: set<nat>, dispatcher: Dispatcher, cleaned: bool)

  function LocalStep(c: Config, s: State): (l: Local)
    requires ValidConfig(c)
    ensures (s.cleaned ==> l.cleaned) && (l.dispatcher.Cleaning? && !s.dispatcher.Cleaning? ==> l.cleaned)
  {
    var here := Local(s.cursor, s.marked, s.dispatcher, s.cleaned);
    match s.dispatcher
    case Idle =>
      var cur := CursorValue(s.cursor);
      if cur >= c.total then here.(dispatcher := Cleaning(0), cleaned := true)
      else here.(dispatcher := GotCursor(cur, cur / c.size))
    case GotCursor(cur, k) =>
      here.(dispatcher := GotItems(cur, k, ItemCount(c, s, cur)))
    case GotItems(cur, k, n) =>
      here.(dispatcher := if k in s.marked then Skipping(cur, k, n) else Initing(cur, k, n))
    case Skipping(cur, k, n) =>
      here.(cursor := Some(cur + n), dispatcher := Idle)
    case Marking(cur, k, n) =>
      here.(marked := s.marked + {k}, dispatcher := Advancing(cur, k, n))
    case Advancing(cur, k, n) =>
      here.(cursor := Some(cur + n), dispatcher := if c.bulk then Enqueuing(cur, k, n, 0) else Idle)
    case _ => here
  }

  function InitStep(c: Config, s: State): (t: State)
    requires s.dispatcher.Initing?
  {
    var Initing(cur, k, n) := s.dispatcher;
    s.(barrier := InitCounter(s.barrier, k, n), inited := s.inited + {k},
       dispatcher := if c.bulk then Marking(cur, k, n) else Enqueuing(cur, k, n, 0))
  }

  function EnqueueStep(c: Config, s: State): (t: State)
    requires s.dispatcher.Enqueuing?
  {
    var Enqueuing(cur, k, n, j) := s.dispatcher;
    if j < n then
      s.(queue := s.queue + [Task(cur + j, k)], workers := s.workers + [Pushing],
         enqueued := s.enqueued + {cur + j}, dispatcher := Enqueuing(cur, k, n, j + 1))
    else s.(dispatcher := if c.bulk then Idle else Marking(cur, k, n))
  }

  /** The next step of the dispatch handler. From Idle a new dispatch call begins: read the
      cursor, read the items, check the marker, set up the barrier, and then mark, advance the
      cursor and enqueue (bulk) or enqueue, mark and advance (ID mode). */
  function DispatchStep(c: Config, s: State): (t: State)
    requires ValidConfig(c)
  {
    match s.dispatcher
    case Initing(_, _, _) => InitStep(c, s)
    case Enqueuing(_, _, _, _) => EnqueueStep(c, s)
    case Cleaning(stage) => CleanStep(c, s, stage)
    case _ =>
      var l := LocalStep(c, s);
      s.(cursor := l.cursor, marked := l.marked, dispatcher := l.dispatcher, cleaned := l.cleaned)
  }

  /** cleanupBatchResources deletes its keys one by one: the ID list, the cursor, the window, the
      two totals and the resume flag - but neither barriers nor dispatched markers. */
  function CleanStep(c: Config, s: State, stage: nat): (t: State) {
    s.(listPresent := if stage == 0 && !c.bulk then false else s.listPresent,
       cursor := if stage == 1 then None else s.cursor,
       window := if stage == 2 then [] else s.window,
       processed := if stage == 3 then 0 else s.processed,
       failed := if stage == 4 then 0 else s.failed,
       dispatcher := if stage >= 5 then Idle else Cleaning(stage + 1))
  }

  /* ---------- a worker ---------- */

  function LastN(w: seq<bool>, n: nat): (r: seq<bool>) {
    if |w| <= n then w else w[|w| - n..]
  }

  /** What no worker touches. */
  predicate SameForDispatcher(s: State, t: State) {
    && t.cursor == s.cursor && t.dispatcher == s.dispatcher && t.listPresent == s.listPresent
    && t.marked == s.marked && t.inited == s.inited && t.enqueued == s.enqueued && t.cleaned == s.cleaned
    && t.queue == s.queue && |t.workers| == |s.workers|
  }

  /** The steps after recording leave the window alone and no trim behind. */
  predicate SameWindow(s: State, t: State, i: nat) {
    && t.window == s.window && t.pushes == s.pushes
    && i < |s.workers| == |t.workers| && !t.workers[i].Trimming? && t.workers == s.workers[i := t.workers[i]]
  }

  /** RPUSH of the outcome, or LTRIM of the window to its last N entries. */
  function RecordStep(c: Config, s: State, i: nat): (t: State)
    requires i < |s.queue| && |s.workers| == |s.queue|
    ensures SameForDispatcher(s, t)
  {
    var bad := c.fails(s.queue[i].position);
    if s.workers[i].Pushing? then
      s.(window := s.window + [bad], pushes := s.pushes + [s.queue[i].position], workers := s.workers[i := Trimming])
    else
      s.(window := LastN(s.window, c.windowN), workers := s.workers[i := Counting])
  }

  /** INCR of the processed total, and of the failed total for a failure. */
  function CountStep(c: Config, s: State, i: nat): (t: State)
    requires i < |s.queue| && |s.workers| == |s.queue|
    ensures SameForDispatcher(s, t) && SameWindow(s, t, i)
  {
    var p := s.queue[i].position;
    if s.workers[i].Counting? then
      s.(processed := s.processed + 1, counted := s.counted + {p},
         workers := s.workers[i := if c.fails(p) then CountingFailure else Signalling])
    else
      s.(failed := s.failed + 1, countedFailed := s.countedFailed + {p}, workers := s.workers[i := Signalling])
  }

  /** The decrement script; the caller that gets zero goes on to snapshot the rate. */
  function SignalStep(c: Config, s: State, i: nat): (t: State)
    requires i < |s.queue| && |s.workers| == |s.queue|
    ensures SameForDispatcher(s, t) && SameWindow(s, t, i)
  {
    var task := s.queue[i];
    var (rem, barrier) := DecrCounter(s.barrier, task.slice);
    s.(barrier := barrier, signalled := s.signalled + {task.position},
       fired := if rem == 0 then s.fired[task.slice := i] else s.fired,
       workers := s.workers[i := if rem == 0 then Reading else Finished])
  }

  /** LRANGE of the window, then SET of the rate computed from it. */
  function SnapshotStep(s: State, i: nat): (t: State)
    requires i < |s.queue| && |s.workers| == |s.queue|
    ensures SameForDispatcher(s, t)
    ensures !s.workers[i].Trimming? ==> SameWindow(s, t, i)
  {
    match s.workers[i]
    case Reading => s.(workers := s.workers[i := Storing(s.window)])
    case Storing(seen) =>
      s.(rates := s.rates[s.queue[i].slice := Metrics.FailureRate(seen)], workers := s.workers[i := Finished])
    case _ => s
  }

  /** The next step of the worker of delivery i: record the outcome (push, trim, count), then
      signal the barrier, then - for the last worker - snapshot the rate. */
  function WorkStep(c: Config, s: State, i: nat): (t: State)
    requires i < |s.queue| && |s.workers| == |s.queue|
    ensures SameForDispatcher(s, t)
  {
    match s.workers[i]
    case Pushing => RecordStep(c, s, i)
    case Trimming => RecordStep(c, s, i)
    case Counting => CountStep(c, s, i)
    case CountingFailure => CountStep(c, s, i)
    case Signalling => SignalStep(c, s, i)
    case _ => SnapshotStep(s, i)
  }

  /* ---------- runs ---------- */

  datatype Action = Dispatch | Crash | Work(delivery: nat)

  /** One action; an action that is not possible changes nothing. */
  function Act(c: Config, s: State, a: Action): (t: State)
    requires ValidConfig(c)
  {
    match a
    case Dispatch => DispatchStep(c, s)
    case Crash => if c.bulk then s.(dispatcher := Idle) else s
    case Work(i) => if i < |s.queue| && |s.workers| == |s.queue| then WorkStep(c, s, i) else s
  }

  /** The state after any interleaving of actions. */
  function Run(c: Config, s: State, actions: seq<Action>): (t: State)
    requires ValidConfig(c)
    decreases |actions|
  {
    if actions == [] then s else Run(c, Act(c, s, actions[0]), actions[1..])
  }
}
