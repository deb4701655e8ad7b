/** The undisturbed dispatch call and the step system agree: running the dispatcher's steps from
    idle to idle with nobody in between has the effect of one call of the handler. */
module DispatchRefinement {
  import opened Outcomes
  import opened Barrier
  import opened MicroBatch
  import opened Dispatch

  /** n steps of the dispatcher with nobody in between. */
  function Steps(c: Config, s: State, n: nat): (t: State)
    requires ValidConfig(c)
    decreases n
  {
    if n == 0 then s else Steps(c, DispatchStep(c, s), n - 1)
  }

  lemma {:induction false} StepsAreARun(c: Config, s: State, n: nat)
    requires ValidConfig(c)
    ensures Steps(c, s, n) == Run(c, s, seq(n, _ => Action.Dispatch))
    decreases n
  {
    if n > 0 {
      var actions := seq(n, _ => Action.Dispatch);
      assert actions[0] == Action.Dispatch && actions[1..] == seq(n - 1, _ => Action.Dispatch);
      StepsAreARun(c, DispatchStep(c, s), n - 1);
    }
  }

  lemma {:induction false} StepsAdd(c: Config, s: State, m: nat, n: nat)
    requires ValidConfig(c)
    ensures Steps(c, s, m + n) == Steps(c, Steps(c, s, m), n)
    decreases m
  {
    if m > 0 { StepsAdd(c, DispatchStep(c, s), m - 1, n); }
  }

  /* ---------- the two views of the same keys ---------- */

  predicate Matches(items: seq<string>, queue: seq<Task>, payloads: seq<Payload>) {
    && |queue| == |payloads|
    && forall i :: 0 <= i < |queue| ==>
         queue[i].position < |items| && payloads[i].item == items[queue[i].position] && payloads[i].slice == queue[i].slice
  }

  predicate Same(c: Config, items: seq<string>, s: State, keys: Keys) {
    && keys.cursor == s.cursor && keys.dispatched == s.marked && keys.barriers == s.barrier
    && keys.list == (if c.bulk || s.listPresent then items else [])
    && Matches(items, s.queue, keys.queue)
  }

  predicate Fits(c: Config, items: seq<string>, raw: int) {
    c.total == |items| && c.size == EffectiveSize(raw)
  }

  /** A stretch of dispatcher steps from s to t. */
  ghost predicate Leads(c: Config, s: State, t: State)
    requires ValidConfig(c)
  {
    exists n: nat :: Steps(c, s, n) == t
  }

  lemma LeadsSelf(c: Config, s: State)
    requires ValidConfig(c)
    ensures Leads(c, s, s)
  {
    assert Steps(c, s, 0) == s;
  }

  lemma LeadsStep(c: Config, s: State, t: State)
    requires ValidConfig(c) && Leads(c, DispatchStep(c, s), t)
    ensures Leads(c, s, t)
  {
    var n: nat :| Steps(c, DispatchStep(c, s), n) == t;
    assert Steps(c, s, n + 1) == t;
  }

  /* ---------- the enqueue loop ---------- */

  /** Enqueuing item by item appends exactly the payloads of the micro-batch. */
  lemma {:induction false} EnqueueLoop(
      c: Config, items: seq<string>, s: State, payloads: seq<Payload>, chunk: seq<string>, first: int) returns (t: State)
    requires ValidConfig(c) && s.dispatcher.Enqueuing?
    requires var Enqueuing(cur, k, n, j) := s.dispatcher;
             j <= n == |chunk| && cur + n <= |items| && chunk == items[cur..cur + n] &&
             Matches(items, s.queue, payloads + Payloads(chunk, k, first)[..j])
    ensures t.dispatcher == s.dispatcher.(done := s.dispatcher.count) && Leads(c, s, t)
    ensures t.cursor == s.cursor && t.marked == s.marked && t.barrier == s.barrier && t.listPresent == s.listPresent
    ensures Matches(items, t.queue, payloads + Payloads(chunk, s.dispatcher.slice, first))
    decreases s.dispatcher.count - s.dispatcher.done
  {
    hide Leads, Steps;
    var Enqueuing(cur, k, n, j) := s.dispatcher;
    var all := Payloads(chunk, k, first);
    if j == n {
      assert all[..j] == all;
      LeadsSelf(c, s);
      t := s;
    } else {
      var u := DispatchStep(c, s);
      assert all[..j + 1] == all[..j] + [all[j]];
      MatchesGrows(items, s.queue, payloads + all[..j], Task(cur + j, k), all[j]);
      assert payloads + all[..j + 1] == payloads + all[..j] + [all[j]];
      t := EnqueueLoop(c, items, u, payloads, chunk, first);
      LeadsStep(c, s, t);
    }
  }

  lemma MatchesGrows(items: seq<string>, queue: seq<Task>, payloads: seq<Payload>, task: Task, p: Payload)
    requires Matches(items, queue, payloads)
    requires task.position < |items| && p.item == items[task.position] && p.slice == task.slice
    ensures Matches(items, queue + [task], payloads + [p])
  {
  }

  /* ---------- the whole call ---------- */

  /** The three reads a call begins with change nothing but the dispatcher's locals. */
  lemma Reads(c: Config, s: State, t: State)
    requires ValidConfig(c) && s.dispatcher.Idle?
    requires CursorValue(s.cursor) < c.total
    requires var cur := CursorValue(s.cursor);
             var k, n := cur / c.size, ItemCount(c, s, cur);
             Leads(c, s.(dispatcher := if k in s.marked then Skipping(cur, k, n) else Initing(cur, k, n)), t)
    ensures Leads(c, s, t)
  {
    hide Leads, InitStep, EnqueueStep, CleanStep;
    var s1 := DispatchStep(c, s);
    var s2 := DispatchStep(c, s1);
    LeadsStep(c, s2, t);
    LeadsStep(c, s1, t);
    LeadsStep(c, s, t);
  }

  /** The items a call reads are as many as the step system counts, and they are the stored items
      from the cursor on. */
  lemma ChunkIs(c: Config, items: seq<string>, s: State, keys: Keys, cur: nat) returns (chunk: seq<string>)
    requires ValidConfig(c) && c.total == |items| && cur < c.total && Same(c, items, s, keys)
    ensures chunk == LRange(keys.list, cur, Min(cur + c.size, c.total)) && |chunk| == ItemCount(c, s, cur)
    ensures cur + |chunk| <= |items| && chunk == items[cur..cur + |chunk|]
  {
    hide Matches;
    chunk := LRange(keys.list, cur, Min(cur + c.size, c.total));
  }

  /** What the call leaves behind in each of its two dispatching branches. */
  lemma CallKeys(c: Config, items: seq<string>, raw: int, keys: Keys, cur: nat, k: nat, chunk: seq<string>)
    requires ValidConfig(c) && Fits(c, items, raw) && cur < c.total && k == cur / c.size
    requires cur == CursorValue(keys.cursor)
    requires chunk == LRange(keys.list, cur, Min(cur + c.size, c.total))
    ensures DispatchCall(c.bulk, |items|, raw, keys).0 ==
            if k in keys.dispatched then keys.(cursor := Some(cur + |chunk|))
            else Keys(keys.list, Some(cur + |chunk|), keys.dispatched + {k}, InitCounter(keys.barriers, k, |chunk|),
                      keys.queue + Payloads(chunk, k, FirstIndex(c.bulk, raw, k)))
  {
    hide LRange;
  }

  /** From idle, some number of uninterrupted steps leads back to idle with exactly the keys and
      the queue that one call of the handler leaves - whichever branch the call takes. */
  lemma CallIsUninterruptedSteps(c: Config, items: seq<string>, raw: int, s: State, keys: Keys) returns (t: State)
    requires ValidConfig(c) && Fits(c, items, raw) && s.dispatcher.Idle? && Same(c, items, s, keys)
    ensures Leads(c, s, t) && t.dispatcher.Idle?
    ensures Same(c, items, t, DispatchCall(c.bulk, |items|, raw, keys).0)
  {
    var cur := CursorValue(s.cursor);
    if cur >= c.total {
      hide Leads, Matches, DispatchStep, Payloads, InitCounter, LRange;
      t := CleanRun(c, items, s, keys);
    } else {
      t := ItemsRun(c, items, raw, s, keys, cur);
    }
  }

  lemma ItemsRun(c: Config, items: seq<string>, raw: int, s: State, keys: Keys, cur: nat) returns (t: State)
    requires ValidConfig(c) && Fits(c, items, raw) && s.dispatcher.Idle? && Same(c, items, s, keys)
    requires cur == CursorValue(s.cursor) && cur < c.total
    ensures Leads(c, s, t) && t.dispatcher.Idle?
    ensures Same(c, items, t, DispatchCall(c.bulk, |items|, raw, keys).0)
  {
    hide Leads, Matches, DispatchStep, DispatchCall, LRange, Payloads, ItemCount, FirstIndex, InitCounter, Min;
    var chunk := ChunkIs(c, items, s, keys, cur);
    var k, n := cur / c.size, |chunk|;
    CallKeys(c, items, raw, keys, cur, k, chunk);
    if k in s.marked {
      t := s.(cursor := Some(cur + n));
      SkipRun(c, s, cur, k, n);
    } else {
      t := FreshRun(c, items, raw, s.(dispatcher := Initing(cur, k, n)), keys, chunk);
    }
    Reads(c, s, t);
  }

  lemma SkipRun(c: Config, s: State, cur: nat, k: nat, n: nat)
    requires ValidConfig(c) && s.dispatcher.Idle?
    ensures Leads(c, s.(dispatcher := Skipping(cur, k, n)), s.(cursor := Some(cur + n)))
  {
    hide Leads;
    LeadsSelf(c, s.(cursor := Some(cur + n)));
    LeadsStep(c, s.(dispatcher := Skipping(cur, k, n)), s.(cursor := Some(cur + n)));
  }

  /** Cleanup from a given stage runs through to idle. */
  lemma {:induction false} CleanFrom(c: Config, s: State, stage: nat) returns (t: State)
    requires ValidConfig(c) && s.dispatcher == Cleaning(stage) && stage <= 5
    ensures Leads(c, s, t) && t.dispatcher.Idle?
    ensures t.marked == s.marked && t.barrier == s.barrier && t.queue == s.queue
    ensures t.cursor == (if stage <= 1 then None else s.cursor)
    ensures t.listPresent == (if stage == 0 && !c.bulk then false else s.listPresent)
    ensures t.window == (if stage <= 2 then [] else s.window)
    ensures t.processed == (if stage <= 3 then 0 else s.processed) && t.failed == (if stage <= 4 then 0 else s.failed)
    ensures t.rates == s.rates && t.workers == s.workers
    decreases 5 - stage
  {
    hide Leads;
    var u := DispatchStep(c, s);
    if stage < 5 {
      t := CleanFrom(c, u, stage + 1);
    } else {
      t := u;
      LeadsSelf(c, t);
    }
    LeadsStep(c, s, t);
  }

  lemma CleanRun(c: Config, items: seq<string>, s: State, keys: Keys) returns (t: State)
    requires ValidConfig(c) && c.total == |items| && s.dispatcher.Idle? && Same(c, items, s, keys)
    requires CursorValue(s.cursor) >= c.total
    ensures Leads(c, s, t) && t.dispatcher.Idle?
    ensures Same(c, items, t, keys.(cursor := None, list := if c.bulk then keys.list else []))
  {
    hide Leads, Matches;
    t := CleanFrom(c, DispatchStep(c, s), 0);
    LeadsStep(c, s, t);
  }

  /** From the barrier set-up of a micro-batch that is not marked yet. */
  lemma FreshRun(c: Config, items: seq<string>, raw: int, s: State, keys: Keys, chunk: seq<string>) returns (t: State)
    requires ValidConfig(c) && Fits(c, items, raw) && s.dispatcher.Initing? && Same(c, items, s, keys)
    requires var Initing(cur, k, n) := s.dispatcher;
             n == |chunk| && cur + n <= |items| && chunk == items[cur..cur + n]
    ensures Leads(c, s, t) && t.dispatcher.Idle?
    ensures var Initing(cur, k, n) := s.dispatcher;
            Same(c, items, t, Keys(keys.list, Some(cur + n), keys.dispatched + {k}, InitCounter(keys.barriers, k, n),
                                   keys.queue + Payloads(chunk, k, FirstIndex(c.bulk, raw, k))))
  {
    hide Leads, Matches, Payloads, FirstIndex, InitCounter;
    var first := FirstIndex(c.bulk, raw, s.dispatcher.slice);
    assert keys.queue + Payloads(chunk, s.dispatcher.slice, first)[..0] == keys.queue;
    var s1 := DispatchStep(c, s);
    if c.bulk {
      t := MarkThenEnqueue(c, items, s1, keys.queue, chunk, first);
    } else {
      t := EnqueueThenMark(c, items, s1, keys.queue, chunk, first);
    }
    LeadsStep(c, s, t);
  }

  /** Bulk mode: mark, advance the cursor, enqueue. */
  lemma MarkThenEnqueue(
      c: Config, items: seq<string>, s: State, queued: seq<Payload>, chunk: seq<string>, first: int) returns (t: State)
    requires ValidConfig(c) && c.bulk && s.dispatcher.Marking?
    requires var Marking(cur, k, n) := s.dispatcher;
             n == |chunk| && cur + n <= |items| && chunk == items[cur..cur + n] &&
             Matches(items, s.queue, queued + Payloads(chunk, k, first)[..0])
    ensures Leads(c, s, t) && t.dispatcher.Idle? && t.barrier == s.barrier && t.listPresent == s.listPresent
    ensures var Marking(cur, k, n) := s.dispatcher;
            t.cursor == Some(cur + n) && t.marked == s.marked + {k} &&
            Matches(items, t.queue, queued + Payloads(chunk, k, first))
  {
    hide Leads, Matches, Payloads;
    var s1 := DispatchStep(c, s);
    var s2 := DispatchStep(c, s1);
    var s3 := EnqueueLoop(c, items, s2, queued, chunk, first);
    t := DispatchStep(c, s3);
    LeadsSelf(c, t);
    LeadsStep(c, s3, t);
    LeadsJoin(c, s2, s3, t);
    LeadsStep(c, s1, t);
    LeadsStep(c, s, t);
  }

  /** ID mode: enqueue, mark, advance the cursor. */
  lemma EnqueueThenMark(
      c: Config, items: seq<string>, s: State, queued: seq<Payload>, chunk: seq<string>, first: int) returns (t: State)
    requires ValidConfig(c) && !c.bulk && s.dispatcher.Enqueuing? && s.dispatcher.done == 0
    requires var Enqueuing(cur, k, n, j) := s.dispatcher;
             n == |chunk| && cur + n <= |items| && chunk == items[cur..cur + n] &&
             Matches(items, s.queue, queued + Payloads(chunk, k, first)[..0])
    ensures Leads(c, s, t) && t.dispatcher.Idle? && t.barrier == s.barrier && t.listPresent == s.listPresent
    ensures var Enqueuing(cur, k, n, j) := s.dispatcher;
            t.cursor == Some(cur + n) && t.marked == s.marked + {k} &&
            Matches(items, t.queue, queued + Payloads(chunk, k, first))
  {
    hide Leads, Matches, Payloads;
    var s1 := EnqueueLoop(c, items, s, queued, chunk, first);
    var s2 := DispatchStep(c, s1);
    var s3 := DispatchStep(c, s2);
    t := DispatchStep(c, s3);
    LeadsSelf(c, t);
    LeadsStep(c, s3, t);
    LeadsStep(c, s2, t);
    LeadsStep(c, s1, t);
    LeadsJoin(c, s, s1, t);
  }

  lemma LeadsJoin(c: Config, s: State, t: State, u: State)
    requires ValidConfig(c) && Leads(c, s, t) && Leads(c, t, u)
    ensures Leads(c, s, u)
  {
    var m: nat :| Steps(c, s, m) == t;
    var n: nat :| Steps(c, t, n) == u;
    StepsAdd(c, s, m, n);
  }
}
