/** The Redis fork-join barrier: two atomic scripts on a counter (pkg/batch/barrier.go). */
module Barrier {
  import opened Outcomes

  /** barrierInitScript: SET NX, so an existing counter is left alone. */
  function InitCounter<K>(counters: map<K, int>, key: K, size: int): (r: map<K, int>) {
    if key in counters then counters else counters[key := size]
  }

  /** barrierDecrScript: -1 when the key is missing; the counter that reaches zero is deleted. */
  function DecrCounter<K>(counters: map<K, int>, key: K): (r: (int, map<K, int>)) {
    if key !in counters then (-1, counters)
    else
      var rem := counters[key] - 1;
      if rem == 0 then (0, counters - {key}) else (rem, counters[key := rem])
  }

  datatype BarrierResult = BarrierResult(remaining: int, isLastWorker: bool)

  class Barrier {
    var counters: map<string, int>

    constructor ()
      ensures counters == map[]
    {
      counters := map[];
    }

    method Init(mbID: string, size: int)
      modifies this
      ensures counters == InitCounter(old(counters), mbID, size)
    {
      if mbID !in counters { counters := counters[mbID := size]; }
    }

    method Decrement(mbID: string) returns (r: BarrierResult)
      modifies this
      ensures (r.remaining, counters) == DecrCounter(old(counters), mbID)
      ensures r.isLastWorker <==> r.remaining == 0
    {
      if mbID !in counters { return BarrierResult(-1, false); }
      counters := counters[mbID := counters[mbID] - 1];
      var rem := counters[mbID];
      if rem == 0 {
        counters := counters - {mbID};
        assert counters == old(counters) - {mbID};
      }
      return BarrierResult(rem, rem == 0);
    }
  }

  /* ---------- one key over a whole history of calls ---------- */

  datatype Call = Init(size: int) | Decrement

  /** What a history of calls on one key has produced: the counter, how many Init calls
      created it, and how many callers were told they are the last worker. */
  datatype Ledger = Ledger(counter: Option<int>, created: nat, winners: nat)

  function Apply(l: Ledger, call: Call): (r: Ledger) {
    match call
    case Init(size) =>
      if l.counter.Some? then l else Ledger(Some(size), l.created + 1, l.winners)
    case Decrement =>
      if l.counter.None? then l
      else
        var rem := l.counter.value - 1;
        if rem == 0 then Ledger(None, l.created, l.winners + 1) else l.(counter := Some(rem))
  }

  function ApplyAll(l: Ledger, calls: seq<Call>): (r: Ledger)
    decreases |calls|
  {
    if calls == [] then l else ApplyAll(Apply(l, calls[0]), calls[1..])
  }

  /** The ledger follows the two scripts on a one-key store. */
  lemma LedgerFollowsScripts(counters: map<string, int>, key: string, l: Ledger, size: int)
    requires l.counter == if key in counters then Some(counters[key]) else None
    ensures var after := InitCounter(counters, key, size);
            Apply(l, Init(size)).counter == if key in after then Some(after[key]) else None
    ensures var (rem, after) := DecrCounter(counters, key);
            && Apply(l, Decrement).counter == (if key in after then Some(after[key]) else None)
            && (rem == 0 <==> Apply(l, Decrement).winners == l.winners + 1)
            && (key !in counters ==> rem == -1)
  {
  }

  /** Over any history of Init and Decrement calls, each creation has at most one winner: every
      created counter has either fired exactly once or is still there. */
  lemma {:induction false} OneWinnerPerInit(l: Ledger, calls: seq<Call>)
    requires l.created == l.winners + (if l.counter.Some? then 1 else 0)
    ensures var r := ApplyAll(l, calls); r.created == r.winners + (if r.counter.Some? then 1 else 0)
    decreases |calls|
  {
    if calls != [] { OneWinnerPerInit(Apply(l, calls[0]), calls[1..]); }
  }

  /** From a counter of n, the first n decrements fire it exactly at the n-th, and every later
      one finds the key missing and changes nothing. */
  lemma {:induction false} FiresAtTheLast(created: nat, winners: nat, n: nat, calls: seq<Call>)
    requires n >= 1 && forall i :: 0 <= i < |calls| ==> calls[i].Decrement?
    ensures ApplyAll(Ledger(Some(n), created, winners), calls) ==
      if |calls| < n then Ledger(Some(n - |calls|), created, winners)
      else Ledger(None, created, winners + 1)
    decreases |calls|
  {
    if calls != [] {
      if n == 1 { LateCallsDoNothing(Ledger(None, created, winners + 1), calls[1..]); }
      else { FiresAtTheLast(created, winners, n - 1, calls[1..]); }
    }
  }

  lemma {:induction false} LateCallsDoNothing(l: Ledger, calls: seq<Call>)
    requires l.counter.None? && forall i :: 0 <= i < |calls| ==> calls[i].Decrement?
    ensures ApplyAll(l, calls) == l
    decreases |calls|
  {
    if calls != [] { LateCallsDoNothing(l, calls[1..]); }
  }
}
