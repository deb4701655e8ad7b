/** The dispatch handlers as they run undisturbed (pkg/batch/orchestrator.go): storing the list,
    cutting it into micro-batches, and what a sequence of dispatch calls adds up to. */
module Dispatch {
  import opened Outcomes
  import opened FiniteSets
  import opened Barrier
  import opened MicroBatch
  import opened DispatchSafety

  const DEFAULT_MICRO_BATCH_SIZE := 1000
  const CHUNK_SIZE := 1000

  /** The micro-batch size a handler works with when the input says `raw`. */
  function EffectiveSize(raw: int): (n: nat)
    ensures n >= 1
  {
    if raw <= 0 then DEFAULT_MICRO_BATCH_SIZE else raw
  }

  /** A queued execution: the stored item, its micro-batch, and the index in its name. */
  datatype Payload = Payload(item: string, slice: nat, executionIndex: int)

  /** The Redis keys of one batch and the queue. */
  datatype Keys = Keys(
    list: seq<string>,
    cursor: Option<nat>,
    dispatched: set<nat>,
    barriers: map<nat, int>,
    queue: seq<Payload>)

  /** A list of `total` items cut as the handlers cut it. */
  function Cut(total: nat, raw: int): (c: Config)
    ensures ValidConfig(c)
  {
    Config(total, EffectiveSize(raw), true, 1, _ => false)
  }

  /** Position p lies in micro-batch k when every micro-batch has `size` items. */
  predicate Holds(k: nat, size: nat, p: nat) {
    k * size <= p < k * size + size
  }

  lemma HoldsOne(k: nat, size: nat, p: nat)
    requires size >= 1 && Holds(k, size, p)
    ensures p / size == k
  {
    DivIsUnique(p, size, k);
  }

  /** What a dispatch call reports. */
  datatype Answer = Complete | Dispatched(slice: nat, size: nat, already: bool)

  function LRange(list: seq<string>, from: nat, until: nat): (r: seq<string>) {
    if from >= |list| || until <= from then [] else list[from..Min(until, |list|)]
  }

  /** One payload per item. The bulk handler counts from the start of the micro-batch as the
      raw size gives it; the ID handler counts within the micro-batch. */
  function Payloads(items: seq<string>, k: nat, first: int): (r: seq<Payload>)
    ensures |r| == |items|
    ensures forall i :: 0 <= i < |items| ==> r[i] == Payload(items[i], k, first + i)
  {
    seq(|items|, i requires 0 <= i < |items| => Payload(items[i], k, first + i))
  }

  function FirstIndex(bulk: bool, raw: int, k: nat): (r: int) {
    if bulk then k * raw else 0
  }

  /** One undisturbed dispatch call. */
  function DispatchCall(bulk: bool, total: nat, raw: int, s: Keys): (r: (Keys, Answer)) {
    var size := EffectiveSize(raw);
    var cur := CursorValue(s.cursor);
    if cur >= total then (s.(cursor := None, list := if bulk then s.list else []), Complete)
    else
      var k := cur / size;
      var items := LRange(s.list, cur, Min(cur + size, total));
      var n := |items|;
      if k in s.dispatched then (s.(cursor := Some(cur + n)), Dispatched(k, n, true))
      else
        (Keys(s.list, Some(cur + n), s.dispatched + {k}, InitCounter(s.barriers, k, n),
              s.queue + Payloads(items, k, FirstIndex(bulk, raw, k))),
         Dispatched(k, n, false))
  }

  /* ---------- the handlers ---------- */

  class Batch {
    var keys: Keys
    const bulk: bool

    constructor (bulk: bool)
      ensures keys == Keys([], None, {}, map[], []) && this.bulk == bulk
    {
      this.bulk := bulk;
      keys := Keys([], None, {}, map[], []);
    }

    /** storeIDs: pushed in chunks of a thousand, the list comes out whole and in order. */
    method StoreIDs(ids: seq<string>)
      modifies this`keys
      ensures keys == old(keys).(list := old(keys).list + ids)
    {
      var start := 0;
      while start < |ids|
        invariant 0 <= start
        invariant keys == old(keys).(list := old(keys).list + ids[..Min(start, |ids|)])
      {
        var end := start + CHUNK_SIZE;
        if end > |ids| { end := |ids|; }
        assert ids[..start] + ids[start..end] == ids[..end];
        keys := keys.(list := keys.list + ids[start..end]);
        start := start + CHUNK_SIZE;
      }
      assert ids[..|ids|] == ids;
    }

    /** computeDispatchSlice: None exactly when the list is used up; otherwise the cursor and the
        micro-batch it lies in - at the beginning of micro-batch k, exactly that micro-batch. */
    method ComputeDispatchSlice(total: nat, raw: int) returns (r: Option<(nat, nat)>)
      ensures r.None? <==> CursorValue(keys.cursor) >= total
      ensures r.Some? ==> r.value.0 == CursorValue(keys.cursor) && Holds(r.value.1, EffectiveSize(raw), CursorValue(keys.cursor))
      ensures var c := Cut(total, raw);
              forall k: nat :: Real(c, k) && CursorValue(keys.cursor) == Boundary(c, k) ==> r == Some((Boundary(c, k), k))
    {
      var size := EffectiveSize(raw);
      var cur := CursorValue(keys.cursor);
      if cur >= total { return None; }
      var c := Cut(total, raw);
      forall k: nat | Real(c, k) && cur == Boundary(c, k) ensures cur / size == k { SliceIndex(c, k); }
      return Some((cur, cur / size));
    }

    method MarkDispatched(k: nat, newCursor: nat)
      modifies this`keys
      ensures keys == old(keys).(dispatched := old(keys).dispatched + {k}, cursor := Some(newCursor))
    {
      keys := keys.(dispatched := keys.dispatched + {k});
      keys := keys.(cursor := Some(newCursor));
    }

    /** enqueueIDs and enqueueBulkInputs: build one payload per item, then push them in order. */
    method Enqueue(items: seq<string>, k: nat, raw: int)
      modifies this`keys
      ensures keys == old(keys).(queue := old(keys).queue + Payloads(items, k, FirstIndex(bulk, raw, k)))
    {
      var first := if bulk then k * raw else 0;
      var payloads := [];
      for i := 0 to |items|
        invariant |payloads| == i
        invariant forall j :: 0 <= j < i ==> payloads[j] == Payload(items[j], k, first + j)
      {
        payloads := payloads + [Payload(items[i], k, first + i)];
      }
      assert payloads == Payloads(items, k, first);
      for i := 0 to |payloads|
        invariant keys == old(keys).(queue := old(keys).queue + payloads[..i])
      {
        assert payloads[..i + 1] == payloads[..i] + [payloads[i]];
        keys := keys.(queue := keys.queue + [payloads[i]]);
      }
      assert payloads[..|payloads|] == payloads;
    }

    /** handleDispatch and handleDispatchBulk: bulk marks before it enqueues, IDs after. */
    method HandleDispatch(total: nat, raw: int) returns (answer: Answer)
      modifies this`keys
      ensures (keys, answer) == DispatchCall(bulk, total, raw, old(keys))
    {
      var size := EffectiveSize(raw);
      var slice := ComputeDispatchSlice(total, raw);
      if slice.None? {
        keys := keys.(cursor := None, list := if bulk then keys.list else []);
        return Complete;
      }
      var (cur, k) := slice.value;
      HoldsOne(k, size, cur);
      var items := LRange(keys.list, cur, Min(cur + size, total));
      if k in keys.dispatched {
        keys := keys.(cursor := Some(cur + |items|));
        return Dispatched(k, |items|, true);
      }
      keys := keys.(barriers := InitCounter(keys.barriers, k, |items|));
      if bulk {
        MarkDispatched(k, cur + |items|);
        Enqueue(items, k, raw);
      } else {
        Enqueue(items, k, raw);
        MarkDispatched(k, cur + |items|);
      }
      return Dispatched(k, |items|, false);
    }
  }

  /** A call that finds its micro-batch marked - after a crash behind the mark, or after cleanup - puts
      nothing on the queue and sets up no barrier; it says so, and moves the cursor past what it read. */
  lemma MarkedIsSkipped(bulk: bool, total: nat, raw: int, s: Keys, k: nat)
    requires CursorValue(s.cursor) < total && Holds(k, EffectiveSize(raw), CursorValue(s.cursor)) && k in s.dispatched
    ensures var (t, answer) := DispatchCall(bulk, total, raw, s);
            && t.queue == s.queue && t.barriers == s.barriers && t.dispatched == s.dispatched && t.list == s.list
            && t.cursor.Some? && t.cursor.value == CursorValue(s.cursor) + answer.size
            && answer.Dispatched? && answer.already && answer.slice == k
  {
    HoldsOne(k, EffectiveSize(raw), CursorValue(s.cursor));
  }

  /** A call with the list used up reports completion, forgets the cursor and the list of IDs - the bulk
      list stays - and touches nothing else. */
  lemma UsedUpIsComplete(bulk: bool, total: nat, raw: int, s: Keys)
    requires CursorValue(s.cursor) >= total
    ensures var (t, answer) := DispatchCall(bulk, total, raw, s);
            && answer == Complete && t.cursor.None? && t.list == (if bulk then s.list else [])
            && t.queue == s.queue && t.barriers == s.barriers && t.dispatched == s.dispatched
  {
  }

  /* ---------- a sequence of calls ---------- */

  function Calls(bulk: bool, total: nat, raw: int, s: Keys, n: nat): (r: (Keys, seq<Answer>))
    ensures |r.1| == n
  {
    if n == 0 then (s, [])
    else
      var (t, answers) := Calls(bulk, total, raw, s, n - 1);
      var (u, answer) := DispatchCall(bulk, total, raw, t);
      (u, answers + [answer])
  }

  function Fresh(items: seq<string>): (s: Keys) {
    Keys(items, None, {}, map[], [])
  }

  function Shape(items: seq<string>, raw: int): (c: Config)
    ensures ValidConfig(c)
  {
    Cut(|items|, raw)
  }

  /** The task of position i as the handler builds it: the item itself, the micro-batch its
      position belongs to, and its distance from where that micro-batch begins. */
  predicate TaskOf(c: Config, bulk: bool, raw: int, items: seq<string>, i: nat, p: Payload) {
    && i < |items| && p.item == items[i]
    && i in Positions(c, p.slice)
    && p.executionIndex == FirstIndex(bulk, raw, p.slice) + i - Boundary(c, p.slice)
  }

  /** How the keys stand after n dispatches: the cursor at boundary n, exactly the first n
      micro-batches marked, and the queue holding the items before the cursor in their order. */
  ghost predicate After(bulk: bool, items: seq<string>, raw: int, s: Keys, n: nat) {
    var c := Shape(items, raw);
    && s.list == items
    && s.cursor == (if n == 0 then None else Some(Boundary(c, n)))
    && s.dispatched == Range(0, n)
    && |s.queue| == Boundary(c, n)
    && TasksOf(c, bulk, raw, items, s.queue)
  }

  /** The call that dispatches micro-batch n, worked out. */
  lemma CallResult(bulk: bool, items: seq<string>, raw: int, s: Keys, n: nat)
    requires var c := Shape(items, raw);
             Real(c, n) && s.list == items && n !in s.dispatched &&
             s.cursor == (if n == 0 then None else Some(Boundary(c, n)))
    ensures var c := Shape(items, raw);
            Boundary(c, n) <= Boundary(c, n + 1) &&
            DispatchCall(bulk, |items|, raw, s) ==
              (Keys(items, Some(Boundary(c, n + 1)), s.dispatched + {n}, InitCounter(s.barriers, n, Len(c, n)),
                    s.queue + Payloads(items[Boundary(c, n)..Boundary(c, n + 1)], n, FirstIndex(bulk, raw, n))),
               Dispatched(n, Len(c, n), false))
  {
    hide Positions, Range, Payloads;
    var c := Shape(items, raw);
    SliceIndex(c, n);
    BoundaryStep(c, n);
    assert LRange(items, Boundary(c, n), Min(Boundary(c, n) + c.size, |items|)) == items[Boundary(c, n)..Boundary(c, n + 1)];
  }

  lemma MarksGrow(n: nat)
    ensures Range(0, n) + {n} == Range(0, n + 1)
  {
  }

  lemma SliceHolds(c: Config, n: nat, i: nat)
    requires Boundary(c, n) <= i < Boundary(c, n + 1)
    ensures i in Positions(c, n)
  {
    hide Boundary;
  }

  ghost predicate TasksOf(c: Config, bulk: bool, raw: int, items: seq<string>, queue: seq<Payload>) {
    forall i :: 0 <= i < |queue| ==> TaskOf(c, bulk, raw, items, i, queue[i])
  }

  /** The payloads of micro-batch n, appended behind those of the micro-batches before it. */
  lemma TasksGrow(c: Config, bulk: bool, raw: int, items: seq<string>, queue: seq<Payload>, n: nat)
    requires TasksOf(c, bulk, raw, items, queue) && |queue| == Boundary(c, n) <= Boundary(c, n + 1) <= |items|
    ensures TasksOf(c, bulk, raw, items,
                    queue + Payloads(items[Boundary(c, n)..Boundary(c, n + 1)], n, FirstIndex(bulk, raw, n)))
  {
    hide Boundary, Positions, Payloads, FirstIndex, TaskOf;
    var cur := Boundary(c, n);
    var added := Payloads(items[cur..Boundary(c, n + 1)], n, FirstIndex(bulk, raw, n));
    forall i | 0 <= i < |queue + added| ensures TaskOf(c, bulk, raw, items, i, (queue + added)[i]) {
      if i >= cur { FreshTask(c, bulk, raw, items, n, i, added[i - cur]); }
    }
  }

  lemma FreshTask(c: Config, bulk: bool, raw: int, items: seq<string>, n: nat, i: nat, p: Payload)
    requires Boundary(c, n) <= i < Boundary(c, n + 1) <= |items|
    requires p == Payload(items[i], n, FirstIndex(bulk, raw, n) + (i - Boundary(c, n)))
    ensures TaskOf(c, bulk, raw, items, i, p)
  {
    hide Boundary, Positions, FirstIndex;
    SliceHolds(c, n, i);
  }

  lemma CallDispatches(bulk: bool, items: seq<string>, raw: int, s: Keys, n: nat)
    requires After(bulk, items, raw, s, n) && Real(Shape(items, raw), n)
    ensures var (t, answer) := DispatchCall(bulk, |items|, raw, s);
            && answer == Dispatched(n, Len(Shape(items, raw), n), false)
            && After(bulk, items, raw, t, n + 1)
  {
    hide DispatchCall, Boundary, Real, Positions, Range, Payloads, TaskOf, TasksOf, FirstIndex, InitCounter, Len;
    var c := Shape(items, raw);
    CallResult(bulk, items, raw, s, n);
    MarksGrow(n);
    TasksGrow(c, bulk, raw, items, s.queue, n);
  }

  /** Crash-free dispatch partitions the list: the first n calls, as long as items remain, report
      the micro-batches 0, 1, 2, ... in order, none repeated, and enqueue every item before the
      cursor exactly once and in order. */
  lemma {:induction false} DispatchPartitions(bulk: bool, items: seq<string>, raw: int, n: nat)
    requires n == 0 || Real(Shape(items, raw), n - 1)
    ensures var (s, answers) := Calls(bulk, |items|, raw, Fresh(items), n);
            && After(bulk, items, raw, s, n)
            && forall i :: 0 <= i < n ==> answers[i] == Dispatched(i, Len(Shape(items, raw), i), false)
  {
    hide After, Len, DispatchCall, Boundary;
    if n == 0 {
      StartsFresh(bulk, items, raw);
    } else {
      BoundaryMonotone(Shape(items, raw), if n == 1 then 0 else n - 2, n - 1);
      DispatchPartitions(bulk, items, raw, n - 1);
      CallDispatches(bulk, items, raw, Calls(bulk, |items|, raw, Fresh(items), n - 1).0, n - 1);
    }
  }

  lemma StartsFresh(bulk: bool, items: seq<string>, raw: int)
    ensures After(bulk, items, raw, Fresh(items), 0)
  {
  }

  /** ceil(total / size). */
  function SliceCount(items: seq<string>, raw: int): (n: nat) {
    (|items| + EffectiveSize(raw) - 1) / EffectiveSize(raw)
  }

  lemma SliceCountBounds(items: seq<string>, raw: int)
    ensures var c := Shape(items, raw); var n := SliceCount(items, raw);
            Boundary(c, n) == |items| && (n > 0 ==> Boundary(c, n - 1) < |items|)
  {
    var c, n, t := Shape(items, raw), SliceCount(items, raw), |items| + EffectiveSize(raw) - 1;
    assert n * c.size <= t < n * c.size + c.size;
    if n > 0 { assert (n - 1) * c.size == n * c.size - c.size; }
  }

  /** Completion is first reported by the call after exactly ceil(total / size) dispatches; by then
      the whole list has been enqueued, item by item in order. */
  lemma CompletionComesExactlyWhenDone(bulk: bool, items: seq<string>, raw: int)
    ensures var n := SliceCount(items, raw);
            var (s, answers) := Calls(bulk, |items|, raw, Fresh(items), n);
            && (forall i :: 0 <= i < n ==> answers[i] != Complete)
            && DispatchCall(bulk, |items|, raw, s).1 == Complete
            && |s.queue| == |items| && forall i :: 0 <= i < |items| ==> s.queue[i].item == items[i]
  {
    var n := SliceCount(items, raw);
    SliceCountBounds(items, raw);
    DispatchPartitions(bulk, items, raw, n);
    var s := Calls(bulk, |items|, raw, Fresh(items), n).0;
    assert forall i :: 0 <= i < |s.queue| ==> TaskOf(Shape(items, raw), bulk, raw, items, i, s.queue[i]);
  }

  /* ---------- the index in the name ---------- */

  /** The bulk handler scales by the size in its input, not by the size it cut with, so the index
      in a task's name is the item's position in the whole list exactly when the input gives a
      positive size, or everything fits into one default micro-batch. */
  lemma BulkIndexIsPosition(items: seq<string>, raw: int)
    ensures var s := Calls(true, |items|, raw, Fresh(items), SliceCount(items, raw)).0;
            |s.queue| == |items| &&
            ((forall i :: 0 <= i < |items| ==> s.queue[i].executionIndex == i)
             <==> raw > 0 || |items| <= 1000)
  {
    hide DispatchCall, Calls, Positions;
    var c, n := Shape(items, raw), SliceCount(items, raw);
    SliceCountBounds(items, raw);
    DispatchPartitions(true, items, raw, n);
    var s := Calls(true, |items|, raw, Fresh(items), n).0;
    if raw > 0 || |items| <= DEFAULT_MICRO_BATCH_SIZE {
      forall i | 0 <= i < |items| ensures s.queue[i].executionIndex == i {
        assert TaskOf(c, true, raw, items, i, s.queue[i]);
        IndexRight(items, raw, i, s.queue[i].slice);
      }
    } else {
      var i := DEFAULT_MICRO_BATCH_SIZE;
      assert TaskOf(c, true, raw, items, i, s.queue[i]);
      IndexWrong(items, raw, s.queue[i].slice);
      assert s.queue[i].executionIndex != i;
    }
  }

  lemma IndexRight(items: seq<string>, raw: int, i: nat, k: nat)
    requires i in Positions(Shape(items, raw), k) && (raw > 0 || |items| <= DEFAULT_MICRO_BATCH_SIZE)
    ensures k * raw + i - Boundary(Shape(items, raw), k) == i
  {
    var c := Shape(items, raw);
    if raw <= 0 {
      if k > 0 { BoundaryMonotone(c, 1, k); }
    }
  }

  /** The first item of the second default micro-batch is named too low. */
  lemma IndexWrong(items: seq<string>, raw: int, k: nat)
    requires raw <= 0 && |items| > DEFAULT_MICRO_BATCH_SIZE
    requires DEFAULT_MICRO_BATCH_SIZE in Positions(Shape(items, raw), k)
    ensures k * raw + DEFAULT_MICRO_BATCH_SIZE - Boundary(Shape(items, raw), k) != DEFAULT_MICRO_BATCH_SIZE
  {
    var c := Shape(items, raw);
    assert Boundary(c, 1) == DEFAULT_MICRO_BATCH_SIZE;
    assert DEFAULT_MICRO_BATCH_SIZE in Positions(c, 1);
    if k != 1 { SlicesDisjoint(c, 1, k); }
  }
}
