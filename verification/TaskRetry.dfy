/** Retrying and catching in the Task state (internal/states/task.go). Durations are reals in
    seconds; the handler is an arbitrary function of the attempt number. */
module TaskRetry {
  import opened Outcomes
  import opened Json

  datatype RetryPolicy = RetryPolicy(
    errorEquals: seq<string>,
    maxAttempts: Option<int>,
    backoffRate: Option<real>,
    maxDelaySeconds: Option<int>)

  datatype CatchPolicy = CatchPolicy(errorEquals: seq<string>, resultPath: Option<string>, next: string)

  type Handler = nat -> Outcome<Value>

  /** What the context reports during the wait after an attempt: None, or its error. */
  type Cancellation = nat -> Option<string>

  predicate ErrorMatches(e: string, patterns: seq<string>) {
    "States.ALL" in patterns || e in patterns
  }

  /** The policy sets a limit that counts. */
  predicate Limits(p: RetryPolicy) {
    p.maxAttempts.Some? && p.maxAttempts.value > 0
  }

  /** calculateMaxAttempts: the first policy with a positive limit decides, else one retry.
      A limit of zero is passed over, so it does not mean "never retry". */
  function MaxAttempts(retry: seq<RetryPolicy>): (n: nat)
    ensures n >= 1
  {
    if retry == [] then 1
    else if Limits(retry[0]) then retry[0].maxAttempts.value
    else MaxAttempts(retry[1..])
  }

  /** With nothing that limits before position k, the policy at k decides, and behind the last
      policy the default of one. */
  lemma {:induction false} MaxAttemptsIs(retry: seq<RetryPolicy>, k: nat)
    requires k <= |retry| && (forall j :: 0 <= j < k ==> !Limits(retry[j]))
    requires k < |retry| ==> Limits(retry[k])
    ensures MaxAttempts(retry) == if k < |retry| then retry[k].maxAttempts.value else 1
    decreases k
  {
    if k > 0 { MaxAttemptsIs(retry[1..], k - 1); }
  }

  predicate ShouldRetry(retry: seq<RetryPolicy>, e: string, attempt: nat) {
    attempt < MaxAttempts(retry) &&
    exists i :: 0 <= i < |retry| && ErrorMatches(e, retry[i].errorEquals)
  }

  /* ---------- backoff ---------- */

  function Stretch(p: RetryPolicy, d: real): (r: real) {
    var longer := if p.backoffRate.Some? && p.backoffRate.value > 1.0 then d * p.backoffRate.value else d;
    if p.maxDelaySeconds.Some? && longer > p.maxDelaySeconds.value as real
    then p.maxDelaySeconds.value as real else longer
  }

  /** calculateBackoffDuration: the first policy that matches the error stretches the wait. */
  function NextBackoff(retry: seq<RetryPolicy>, e: string, d: real): (r: real) {
    if retry == [] then d
    else if ErrorMatches(e, retry[0].errorEquals) then Stretch(retry[0], d)
    else NextBackoff(retry[1..], e, d)
  }

  /** The first policy that matches stretches the wait, wherever it stands in the list; with no match
      the wait stays. */
  lemma {:induction false} NextBackoffIs(retry: seq<RetryPolicy>, e: string, d: real, k: nat)
    requires k <= |retry| && (forall j :: 0 <= j < k ==> !ErrorMatches(e, retry[j].errorEquals))
    requires k < |retry| ==> ErrorMatches(e, retry[k].errorEquals)
    ensures NextBackoff(retry, e, d) == if k < |retry| then Stretch(retry[k], d) else d
    decreases k
  {
    if k > 0 { NextBackoffIs(retry[1..], e, d, k - 1); }
  }

  /** A rate of at most one, or none, leaves a wait alone; a cap bounds it; and short of the cap the
      wait is multiplied by the rate. */
  lemma StretchIs(p: RetryPolicy, d: real)
    ensures p.backoffRate.None? && p.maxDelaySeconds.None? ==> Stretch(p, d) == d
    ensures p.backoffRate.Some? && p.backoffRate.value <= 1.0 && p.maxDelaySeconds.None? ==> Stretch(p, d) == d
    ensures p.backoffRate.Some? && p.backoffRate.value > 1.0 && p.maxDelaySeconds.None? ==> Stretch(p, d) == p.backoffRate.value * d
    ensures p.maxDelaySeconds.Some? ==>
              Stretch(p, d) == Capped(Stretch(p.(maxDelaySeconds := None), d), p.maxDelaySeconds) <= p.maxDelaySeconds.value as real
  {
  }

  /** calculateBackoffDuration: the search loop. */
  method CalculateBackoff(retry: seq<RetryPolicy>, e: string, current: real) returns (r: real)
    ensures r == NextBackoff(retry, e, current)
  {
    for i := 0 to |retry|
      invariant forall j :: 0 <= j < i ==> !ErrorMatches(e, retry[j].errorEquals)
    {
      if ErrorMatches(e, retry[i].errorEquals) {
        NextBackoffIs(retry, e, current, i);
        r := current;
        if retry[i].backoffRate.Some? && retry[i].backoffRate.value > 1.0 { r := r * retry[i].backoffRate.value; }
        if retry[i].maxDelaySeconds.Some? && r > retry[i].maxDelaySeconds.value as real { r := retry[i].maxDelaySeconds.value as real; }
        return;
      }
    }
    NextBackoffIs(retry, e, current, |retry|);
    return current;
  }

  /** errorMatches: the search loop over the patterns. */
  method MatchError(e: string, patterns: seq<string>) returns (r: bool)
    ensures r <==> exists i :: 0 <= i < |patterns| && (patterns[i] == "States.ALL" || patterns[i] == e)
    ensures r <==> ErrorMatches(e, patterns)
  {
    for i := 0 to |patterns|
      invariant forall j :: 0 <= j < i ==> patterns[j] != "States.ALL" && patterns[j] != e
    {
      if patterns[i] == "States.ALL" || patterns[i] == e { return true; }
    }
    return false;
  }

  /** The wait after a run of failures, starting from one second. */
  function Backoff(retry: seq<RetryPolicy>, errors: seq<string>): (r: real) {
    if errors == [] then 1.0
    else NextBackoff(retry, errors[|errors| - 1], Backoff(retry, errors[..|errors| - 1]))
  }

  function Pow(x: real, k: nat): (r: real) {
    if k == 0 then 1.0 else x * Pow(x, k - 1)
  }

  function Capped(x: real, cap: Option<int>): (r: real) {
    if cap.Some? && x > cap.value as real then cap.value as real else x
  }

  lemma {:induction false} PowAtLeastOne(x: real, k: nat)
    requires x >= 1.0
    ensures Pow(x, k) >= 1.0
  {
    if k > 0 { PowAtLeastOne(x, k - 1); assert x * Pow(x, k - 1) >= Pow(x, k - 1); }
  }

  lemma StretchOnce(p: RetryPolicy, rate: real, k: nat)
    requires rate == (if p.backoffRate.Some? then p.backoffRate.value else 1.0) && rate >= 1.0
    requires p.maxDelaySeconds.Some? ==> p.maxDelaySeconds.value >= 0
    ensures Stretch(p, Capped(Pow(rate, k), p.maxDelaySeconds)) == Capped(Pow(rate, k + 1), p.maxDelaySeconds)
  {
    var d := Pow(rate, k);
    PowAtLeastOne(rate, k);
    assert Pow(rate, k + 1) == rate * d && rate * d >= d;
    if p.maxDelaySeconds.Some? {
      var cap := p.maxDelaySeconds.value as real;
      if d > cap { assert cap * rate >= cap; }
    }
  }

  /** With one policy whose rate is at least 1 and whose cap is not negative, the k-th wait is
      the capped k-th power of the rate. */
  lemma {:induction false} BackoffIsCappedPower(p: RetryPolicy, rate: real, errors: seq<string>)
    requires rate == (if p.backoffRate.Some? then p.backoffRate.value else 1.0) && rate >= 1.0
    requires p.maxDelaySeconds.Some? ==> p.maxDelaySeconds.value >= 0
    requires forall i :: 0 <= i < |errors| ==> ErrorMatches(errors[i], p.errorEquals)
    requires |errors| >= 1
    ensures Backoff([p], errors) == Capped(Pow(rate, |errors|), p.maxDelaySeconds)
  {
    var k := |errors| - 1;
    var before := errors[..k];
    if k == 0 {
      assert Backoff([p], before) == 1.0 == Pow(rate, 0);
      assert Pow(rate, 1) == rate * Pow(rate, 0);
    } else {
      BackoffIsCappedPower(p, rate, before);
      StretchOnce(p, rate, k);
    }
  }

  /* ---------- the retry loop ---------- */

  /** The attempt that ends the loop: not an error, or not to be retried, or cancelled while
      waiting for the next one. */
  predicate Final(retry: seq<RetryPolicy>, h: Handler, cancelled: Cancellation, k: nat) {
    !h(k).Err? || !ShouldRetry(retry, h(k).error, k) || cancelled(k).Some?
  }

  /** What the loop returns when attempt k is final. */
  function FinalOutcome(retry: seq<RetryPolicy>, h: Handler, cancelled: Cancellation, k: nat): (r: Outcome<Value>)
  {
    if h(k).Err? && ShouldRetry(retry, h(k).error, k) && cancelled(k).Some?
    then Err(cancelled(k).value) else h(k)
  }

  function LastAttempt(retry: seq<RetryPolicy>, h: Handler, cancelled: Cancellation, k: nat): (n: nat)
    requires k <= MaxAttempts(retry)
    ensures k <= n <= MaxAttempts(retry)
    ensures Final(retry, h, cancelled, n)
    ensures forall j :: k <= j < n ==> !Final(retry, h, cancelled, j)
    decreases MaxAttempts(retry) - k
  {
    if Final(retry, h, cancelled, k) then k else LastAttempt(retry, h, cancelled, k + 1)
  }

  /** The outcome of the whole retry loop. */
  function Retried(retry: seq<RetryPolicy>, h: Handler, cancelled: Cancellation): (r: Outcome<Value>) {
    FinalOutcome(retry, h, cancelled, LastAttempt(retry, h, cancelled, 0))
  }

  /** The final attempt is the only one with nothing final before it. */
  lemma LastAttemptIs(retry: seq<RetryPolicy>, h: Handler, cancelled: Cancellation, k: nat)
    requires k <= MaxAttempts(retry) && Final(retry, h, cancelled, k)
    requires forall j :: 0 <= j < k ==> !Final(retry, h, cancelled, j)
    ensures LastAttempt(retry, h, cancelled, 0) == k
    ensures Retried(retry, h, cancelled) == FinalOutcome(retry, h, cancelled, k)
  {
    var n := LastAttempt(retry, h, cancelled, 0);
    assert !(n < k) && !(k < n);
  }

  /** What the retries end with: the answer of the final attempt, or the error of the context when it
      was cancelled during the wait that would have followed. */
  lemma RetriedAnswers(retry: seq<RetryPolicy>, h: Handler, cancelled: Cancellation, k: nat)
    requires k <= MaxAttempts(retry) && forall j :: 0 <= j < k ==> !Final(retry, h, cancelled, j)
    ensures !h(k).Err? ==> Retried(retry, h, cancelled) == h(k)
    ensures h(k).Err? && !ShouldRetry(retry, h(k).error, k) ==> Retried(retry, h, cancelled) == h(k)
    ensures h(k).Err? && ShouldRetry(retry, h(k).error, k) && cancelled(k).Some? ==>
              Retried(retry, h, cancelled) == Err(cancelled(k).value)
  {
    hide MaxAttempts, LastAttempt;
    if Final(retry, h, cancelled, k) { LastAttemptIs(retry, h, cancelled, k); }
  }

  /** A handler that keeps failing with errors some policy matches is called exactly limit + 1 times,
      and the last error is the outcome. */
  lemma KeepsFailing(retry: seq<RetryPolicy>, h: Handler, cancelled: Cancellation)
    requires forall k :: h(k).Err? && cancelled(k).None?
    requires forall k :: exists i :: 0 <= i < |retry| && ErrorMatches(h(k).error, retry[i].errorEquals)
    ensures LastAttempt(retry, h, cancelled, 0) == MaxAttempts(retry)
    ensures Retried(retry, h, cancelled) == h(MaxAttempts(retry))
  {
    hide MaxAttempts, ErrorMatches;
    var n := MaxAttempts(retry);
    assert !ShouldRetry(retry, h(n).error, n);
    forall j | 0 <= j < n ensures !Final(retry, h, cancelled, j) {
      assert ShouldRetry(retry, h(j).error, j);
    }
    LastAttemptIs(retry, h, cancelled, n);
  }

  /** No limit prevents the first retry: a failed first attempt is followed by a second exactly when
      some policy matches its error and the wait is not cancelled. */
  lemma FirstRetryIsFree(retry: seq<RetryPolicy>, h: Handler, cancelled: Cancellation)
    requires h(0).Err?
    ensures LastAttempt(retry, h, cancelled, 0) >= 1 <==>
              (exists i :: 0 <= i < |retry| && ErrorMatches(h(0).error, retry[i].errorEquals)) && cancelled(0).None?
  {
  }

  /** Each wait is the backoff of the errors up to it. */
  predicate WaitsMatch(retry: seq<RetryPolicy>, errors: seq<string>, waits: seq<real>) {
    |errors| == |waits| &&
    forall i :: 0 <= i < |waits| ==> waits[i] == Backoff(retry, errors[..i + 1])
  }

  lemma BackoffStart(retry: seq<RetryPolicy>)
    ensures Backoff(retry, []) == 1.0
  {
  }

  lemma WaitsGrow(retry: seq<RetryPolicy>, errors: seq<string>, waits: seq<real>, e: string)
    requires WaitsMatch(retry, errors, waits)
    ensures Backoff(retry, errors + [e]) == NextBackoff(retry, e, Backoff(retry, errors))
    ensures WaitsMatch(retry, errors + [e], waits + [Backoff(retry, errors + [e])])
  {
    var seen := errors + [e];
    assert seen[..|errors|] == errors && seen[..|errors| + 1] == seen;
    forall i | 0 <= i < |waits|
      ensures waits[i] == Backoff(retry, seen[..i + 1])
    {
      assert seen[..i + 1] == errors[..i + 1];
    }
  }

  /** executeWithRetry. The handler is called at most MaxAttempts + 1 times; the flag is false
      whenever there is an error, so no error bypasses the catch policies; the exit after the
      loop is never taken; and the i-th wait is the backoff of the first i + 1 errors. */
  method ExecuteWithRetry(retry: seq<RetryPolicy>, h: Handler, cancelled: Cancellation)
    returns (r: Outcome<Value>, exhausted: bool, calls: nat, errors: seq<string>, waits: seq<real>)
    ensures r == Retried(retry, h, cancelled)
    ensures exhausted <==> r.Ok?
    ensures calls == LastAttempt(retry, h, cancelled, 0) + 1 <= MaxAttempts(retry) + 1
    ensures calls - 1 <= |errors| <= calls
    ensures forall j :: 0 <= j < |errors| ==> h(j) == Err(errors[j])
    ensures WaitsMatch(retry, errors, waits)
  {
    hide MaxAttempts, LastAttempt, Backoff, NextBackoff;
    var maxAttempts := CalculateMaxAttempts(retry);
    var backoff := 1.0;
    var attempt := 0;
    calls, errors, waits := 0, [], [];
    BackoffStart(retry);
    while attempt <= maxAttempts
      invariant 0 <= attempt <= maxAttempts
      invariant calls == attempt == |errors|
      invariant forall j :: 0 <= j < attempt ==> !Final(retry, h, cancelled, j)
      invariant forall j :: 0 <= j < |errors| ==> h(j) == Err(errors[j])
      invariant backoff == Backoff(retry, errors)
      invariant WaitsMatch(retry, errors, waits)
      decreases maxAttempts - attempt
    {
      var result := h(attempt);
      calls := calls + 1;
      if !result.Err? || !ShouldRetry(retry, result.error, attempt) {
        LastAttemptIs(retry, h, cancelled, attempt);
        return result, result.Ok?, calls, errors, waits;
      }
      WaitsGrow(retry, errors, waits, result.error);
      backoff := CalculateBackoff(retry, result.error, backoff);
      errors, waits := errors + [result.error], waits + [backoff];
      if cancelled(attempt).Some? {
        LastAttemptIs(retry, h, cancelled, attempt);
        return Err(cancelled(attempt).value), false, calls, errors, waits;
      }
      attempt := attempt + 1;
    }
    assert false;
  }

  /** The search loop: the value of the first positive limit, or one when no limit is positive. */
  method CalculateMaxAttempts(retry: seq<RetryPolicy>) returns (n: nat)
    ensures n == MaxAttempts(retry)
    ensures (forall i :: 0 <= i < |retry| ==> !Limits(retry[i])) ==> n == 1
    ensures (exists i :: 0 <= i < |retry| && Limits(retry[i])) ==>
              exists i :: 0 <= i < |retry| && Limits(retry[i]) && n == retry[i].maxAttempts.value &&
                          forall j :: 0 <= j < i ==> !Limits(retry[j])
  {
    for i := 0 to |retry|
      invariant forall j :: 0 <= j < i ==> !Limits(retry[j])
    {
      if retry[i].maxAttempts.Some? && retry[i].maxAttempts.value > 0 {
        assert Limits(retry[i]);
        MaxAttemptsIs(retry, i);
        return retry[i].maxAttempts.value;
      }
    }
    MaxAttemptsIs(retry, |retry|);
    return 1;
  }

  /* ---------- catching ---------- */

  /** Position of the first catch policy that matches; the number of policies if none does. */
  function CatchIndex(catches: seq<CatchPolicy>, e: string): (k: nat)
    ensures k <= |catches|
    ensures forall j :: 0 <= j < k ==> !ErrorMatches(e, catches[j].errorEquals)
    ensures k < |catches| ==> ErrorMatches(e, catches[k].errorEquals)
  {
    if catches == [] || ErrorMatches(e, catches[0].errorEquals) then 0
    else 1 + CatchIndex(catches[1..], e)
  }

  /** The search loop of handleTaskFailure. */
  method FindCatch(catches: seq<CatchPolicy>, e: string) returns (k: nat)
    ensures k == CatchIndex(catches, e)
  {
    for i := 0 to |catches|
      invariant forall j :: 0 <= j < i ==> !ErrorMatches(e, catches[j].errorEquals)
    {
      if ErrorMatches(e, catches[i].errorEquals) { return i; }
    }
    return |catches|;
  }
}
