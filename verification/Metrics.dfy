/** Failure rates over the outcome window and the evaluator's verdict
    (pkg/batch/metrics.go, pkg/batch/evaluator.go). Outcomes are booleans, true = failed;
    rates are reals. */
module Metrics {

  function Failures(entries: seq<bool>): (n: nat)
    ensures n <= |entries|
  {
    if entries == [] then 0
    else Failures(entries[..|entries| - 1]) + (if entries[|entries| - 1] then 1 else 0)
  }

  /** The fraction of failures; zero for an empty window. */
  function FailureRate(entries: seq<bool>): (r: real) {
    if entries == [] then 0.0 else Failures(entries) as real / |entries| as real
  }

  /** computeFailureRate: the accumulating loop; its result is always a proportion. */
  method ComputeFailureRate(entries: seq<bool>) returns (r: real)
    ensures r == FailureRate(entries)
    ensures 0.0 <= r <= 1.0
    ensures r == 0.0 <==> AllEqual(entries, false)
    ensures entries != [] ==> (r == 1.0 <==> AllEqual(entries, true))
  {
    RateBounds(entries);
    if |entries| == 0 { return 0.0; }
    var failures := 0.0;
    for i := 0 to |entries|
      invariant failures == Failures(entries[..i]) as real
    {
      assert entries[..i + 1][..i] == entries[..i];
      failures := failures + (if entries[i] then 1.0 else 0.0);
    }
    assert entries[..|entries|] == entries;
    return failures / |entries| as real;
  }

  predicate AllEqual(entries: seq<bool>, b: bool) {
    forall i :: 0 <= i < |entries| ==> entries[i] == b
  }

  lemma {:induction false} FailuresExtremes(entries: seq<bool>)
    ensures Failures(entries) == 0 <==> AllEqual(entries, false)
    ensures Failures(entries) == |entries| <==> AllEqual(entries, true)
  {
    if entries != [] {
      var front, last := entries[..|entries| - 1], entries[|entries| - 1];
      FailuresExtremes(front);
      AllEqualLast(entries, false);
      AllEqualLast(entries, true);
    }
  }

  lemma AllEqualLast(entries: seq<bool>, b: bool)
    requires entries != []
    ensures AllEqual(entries, b) <==> AllEqual(entries[..|entries| - 1], b) && entries[|entries| - 1] == b
  {
    var front := entries[..|entries| - 1];
    if AllEqual(front, b) && entries[|entries| - 1] == b {
      forall i | 0 <= i < |entries| ensures entries[i] == b {
        if i < |front| { assert entries[i] == front[i]; }
      }
    }
  }

  lemma Quotient(a: real, n: real)
    requires 0.0 <= a <= n && n > 0.0
    ensures 0.0 <= a / n <= 1.0
    ensures a / n == 0.0 <==> a == 0.0
    ensures a / n == 1.0 <==> a == n
  {
    assert a / n * n == a;
  }

  lemma RateBounds(entries: seq<bool>)
    ensures 0.0 <= FailureRate(entries) <= 1.0
    ensures FailureRate(entries) == 0.0 <==> AllEqual(entries, false)
    ensures entries != [] ==> (FailureRate(entries) == 1.0 <==> AllEqual(entries, true))
  {
    FailuresExtremes(entries);
    if entries != [] { Quotient(Failures(entries) as real, |entries| as real); }
  }

  /** The positions of the failures. */
  function FailurePositions(entries: seq<bool>): (s: set<nat>) {
    set i: nat | i < |entries| && entries[i]
  }

  /** The rate times the length of the window is the number of failures in it. */
  lemma {:induction false} FailuresCount(entries: seq<bool>)
    ensures Failures(entries) == |FailurePositions(entries)|
  {
    if entries != [] {
      var n := |entries| - 1;
      FailuresCount(entries[..n]);
      assert FailurePositions(entries) == FailurePositions(entries[..n]) + (if entries[n] then {n} else {});
    }
  }

  lemma RateIsFraction(entries: seq<bool>)
    ensures FailureRate(entries) * |entries| as real == |FailurePositions(entries)| as real
  {
    FailuresCount(entries);
    if entries == [] {
      assert FailurePositions(entries) == {};
    } else {
      var a, n := Failures(entries) as real, |entries| as real;
      assert n > 0.0 && a / n * n == a;
    }
  }

  /* ---------- rolling average ---------- */

  const DEFAULT_WINDOW_M := 5

  /** Sum and number of the stored micro-batch rates with index from lo up to hi. */
  function RateSum(rates: map<int, real>, lo: int, hi: int): (r: (real, nat))
    decreases hi - lo
  {
    if lo > hi then (0.0, 0)
    else
      var (sum, n) := RateSum(rates, lo, hi - 1);
      if hi in rates then (sum + rates[hi], n + 1) else (sum, n)
  }

  function RollingStart(current: int, windowM: int): (r: int) {
    var m := if windowM <= 0 then DEFAULT_WINDOW_M else windowM;
    if current - m + 1 < 0 then 0 else current - m + 1
  }

  function RollingRate(rates: map<int, real>, current: int, windowM: int): (r: real) {
    var (sum, n) := RateSum(rates, RollingStart(current, windowM), current);
    if n == 0 then 0.0 else sum / n as real
  }

  ghost predicate Proportions(rates: map<int, real>) {
    forall k :: k in rates ==> 0.0 <= rates[k] <= 1.0
  }

  lemma {:induction false} RateSumBounds(rates: map<int, real>, lo: int, hi: int)
    requires Proportions(rates)
    ensures 0.0 <= RateSum(rates, lo, hi).0 <= RateSum(rates, lo, hi).1 as real
    decreases hi - lo
  {
    if lo <= hi { RateSumBounds(rates, lo, hi - 1); }
  }

  /** The rates stored for micro-batches lo to hi, in order. */
  function StoredRates(rates: map<int, real>, lo: int, hi: int): (s: seq<real>)
    decreases hi - lo
  {
    if lo > hi then [] else StoredRates(rates, lo, hi - 1) + (if hi in rates then [rates[hi]] else [])
  }

  function Sum(s: seq<real>): (r: real) {
    if s == [] then 0.0 else Sum(s[..|s| - 1]) + s[|s| - 1]
  }

  lemma {:induction false} RateSumIs(rates: map<int, real>, lo: int, hi: int)
    ensures RateSum(rates, lo, hi) == (Sum(StoredRates(rates, lo, hi)), |StoredRates(rates, lo, hi)|)
    decreases hi - lo
  {
    if lo <= hi {
      RateSumIs(rates, lo, hi - 1);
      var before := StoredRates(rates, lo, hi - 1);
      assert before + [] == before;
      if hi in rates { assert (before + [rates[hi]])[..|before|] == before; }
    }
  }

  /** A stored rate counts exactly when its micro-batch is among those from lo to hi. */
  lemma {:induction false} StoredRatesAre(rates: map<int, real>, lo: int, hi: int)
    ensures |StoredRates(rates, lo, hi)| == |set i | i in rates && lo <= i <= hi|
    decreases hi - lo
  {
    var now := set i | i in rates && lo <= i <= hi;
    if lo <= hi {
      StoredRatesAre(rates, lo, hi - 1);
      var before := set i | i in rates && lo <= i <= hi - 1;
      assert now == before + (if hi in rates then {hi} else {});
    } else {
      assert now == {};
    }
  }

  /** The rolling rate times the number of rates stored for the last M micro-batches is their sum, with
      M five when the policy gives none; micro-batches before those do not matter. */
  lemma RollingRateIsMean(rates: map<int, real>, current: int, windowM: int)
    ensures var m := if windowM <= 0 then 5 else windowM;
            var first := if current - m + 1 < 0 then 0 else current - m + 1;
            var counted := set i | i in rates && first <= i <= current;
            && |counted| == |StoredRates(rates, first, current)|
            && RollingRate(rates, current, windowM) * |counted| as real == Sum(StoredRates(rates, first, current))
            && (counted == {} ==> RollingRate(rates, current, windowM) == 0.0)
  {
    hide RateSum, StoredRates, Sum;
    var m := if windowM <= 0 then 5 else windowM;
    var first := if current - m + 1 < 0 then 0 else current - m + 1;
    RateSumIs(rates, first, current);
    StoredRatesAre(rates, first, current);
    if |StoredRates(rates, first, current)| == 0 { NothingSums(rates, first, current); }
    else { Quotients(Sum(StoredRates(rates, first, current)), |StoredRates(rates, first, current)|); }
  }

  lemma NothingSums(rates: map<int, real>, lo: int, hi: int)
    requires |StoredRates(rates, lo, hi)| == 0
    ensures Sum(StoredRates(rates, lo, hi)) == 0.0
  {
  }

  lemma Quotients(sum: real, n: nat)
    requires n > 0
    ensures sum / n as real * n as real == sum
  {
  }

  lemma {:induction false} OnlyTheWindowCounts(rates: map<int, real>, other: map<int, real>, lo: int, hi: int)
    requires forall i :: lo <= i <= hi ==> (i in rates <==> i in other) && (i in rates ==> rates[i] == other[i])
    ensures StoredRates(rates, lo, hi) == StoredRates(other, lo, hi)
    decreases hi - lo
  {
    if lo <= hi { OnlyTheWindowCounts(rates, other, lo, hi - 1); }
  }

  /** RollingAverageFailureRate: the mean of the stored snapshots among the last M, missing
      ones skipped; a proportion when the snapshots are. */
  method RollingAverageFailureRate(rates: map<int, real>, current: int, windowM: int) returns (r: real)
    ensures r == RollingRate(rates, current, windowM)
    ensures Proportions(rates) ==> 0.0 <= r <= 1.0
  {
    var start := RollingStart(current, windowM);
    var total, count := 0.0, 0;
    var i := start;
    while i <= current
      invariant i <= current + 1 || i == start
      invariant (total, count) == RateSum(rates, start, i - 1)
    {
      if i in rates {
        total := total + rates[i];
        count := count + 1;
      }
      i := i + 1;
    }
    if i > current + 1 { assert RateSum(rates, start, current) == (0.0, 0); }
    if count == 0 { return 0.0; }
    if Proportions(rates) {
      RateSumBounds(rates, start, current);
      Quotient(total, count as real);
    }
    return total / count as real;
  }

  /* ---------- the evaluator ---------- */

  datatype FailurePolicy = FailurePolicy(
    windowN: int,
    windowM: int,
    severeFailureThreshold: real,
    softFailureThreshold: real)

  datatype Evaluation = Evaluation(severeFailure: bool, belowThreshold: bool, instantRate: real, rollingRate: real)

  function ApplyDefaults(p: FailurePolicy): (r: FailurePolicy) {
    FailurePolicy(
      if p.windowN <= 0 then 500 else p.windowN,
      if p.windowM <= 0 then DEFAULT_WINDOW_M else p.windowM,
      if p.severeFailureThreshold <= 0.0 then 0.5 else p.severeFailureThreshold,
      if p.softFailureThreshold <= 0.0 then 0.2 else p.softFailureThreshold)
  }

  /** The defaults replace only what a policy leaves out. */
  lemma DefaultsAre(p: FailurePolicy)
    ensures ApplyDefaults(FailurePolicy(0, 0, 0.0, 0.0)) == FailurePolicy(500, 5, 0.5, 0.2)
    ensures p.windowN > 0 ==> ApplyDefaults(p).windowN == p.windowN
    ensures p.windowM > 0 ==> ApplyDefaults(p).windowM == p.windowM
    ensures p.severeFailureThreshold > 0.0 ==> ApplyDefaults(p).severeFailureThreshold == p.severeFailureThreshold
    ensures p.softFailureThreshold > 0.0 ==> ApplyDefaults(p).softFailureThreshold == p.softFailureThreshold
    ensures var q := ApplyDefaults(p);
            q.windowN > 0 && q.windowM > 0 && q.severeFailureThreshold > 0.0 && q.softFailureThreshold > 0.0
  {
  }

  /** Evaluate: the verdict on the current window and the stored snapshots. Severe and pause are
      never both set, and a window without failures is never severe, whatever thresholds the
      policy carries. */
  method Evaluate(policy: FailurePolicy, window: seq<bool>, rates: map<int, real>, completed: int)
    returns (e: Evaluation)
    ensures e.instantRate == FailureRate(window)
    ensures e.rollingRate == RollingRate(rates, completed, ApplyDefaults(policy).windowM)
    ensures e.severeFailure <==> FailureRate(window) >= ApplyDefaults(policy).severeFailureThreshold
    ensures e.belowThreshold <==>
      !e.severeFailure &&
      RollingRate(rates, completed, ApplyDefaults(policy).windowM) >= ApplyDefaults(policy).softFailureThreshold
    ensures !(e.severeFailure && e.belowThreshold)
    ensures AllEqual(window, false) ==> !e.severeFailure
  {
    var p := ApplyDefaults(policy);
    var instant := ComputeFailureRate(window);
    var rolling := RollingAverageFailureRate(rates, completed, p.windowM);
    var severe := instant >= p.severeFailureThreshold;
    e := Evaluation(severe, !severe && rolling >= p.softFailureThreshold, instant, rolling);
  }
}
