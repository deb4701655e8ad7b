/** The Parallel state's fan-out and fan-in (internal/states/parallel.go). */
module ParallelBranches {
  import opened Outcomes
  import opened Json
  import opened FiniteSets

  /** How one branch ends. */
  datatype Branch = Finished(value: Value) | Failed(error: string)

  /** Lowest index of a failed branch; the number of branches when none failed. */
  function FirstFailure(bs: seq<Branch>): (k: nat)
    ensures k <= |bs|
    ensures forall j :: 0 <= j < k ==> bs[j].Finished?
    ensures k < |bs| ==> bs[k].Failed?
  {
    if bs == [] || bs[0].Failed? then 0 else 1 + FirstFailure(bs[1..])
  }

  /** The joined outcome: the error of the lowest failing branch, else the results in
      branch order. */
  function Join(bs: seq<Branch>): (r: Outcome<seq<Value>>)
    ensures r.Ok? <==> forall j :: 0 <= j < |bs| ==> bs[j].Finished?
    ensures r.Ok? ==> |r.value| == |bs| && forall j :: 0 <= j < |bs| ==> bs[j] == Finished(r.value[j])
    ensures forall k :: 0 <= k < |bs| && bs[k].Failed? && (forall j :: 0 <= j < k ==> bs[j].Finished?) ==>
              r == Err(bs[k].error)
  {
    var k := FirstFailure(bs);
    if k < |bs| then Err(bs[k].error)
    else Ok(seq(|bs|, j requires 0 <= j < |bs| => bs[j].value))
  }

  /** An order in which the branches finish: every branch exactly once. */
  ghost predicate IsSchedule(order: seq<nat>, n: nat) {
    && |order| == n
    && (forall i :: 0 <= i < |order| ==> order[i] < n)
    && Distinct(order)
  }

  /** Once a schedule is exhausted, every branch has been seen. */
  lemma ScheduleCovers(order: seq<nat>, n: nat)
    requires IsSchedule(order, n)
    ensures forall b :: 0 <= b < n ==> b in order
  {
    DistinctCount(order);
    SubsetCount(Elements(order), Range(0, n));
  }

  /** Execute's fan-out and fan-in. Each branch goroutine stores its own slot under the mutex
      when it finishes; the slots are read after the wait group. For every schedule the
      outcome is the same: it depends on the branches alone. */
  method RunBranches(branches: seq<Branch>, order: seq<nat>) returns (r: Outcome<seq<Value>>)
    requires IsSchedule(order, |branches|)
    ensures r == Join(branches)
  {
    var n := |branches|;
    var results := new Value[n](_ => Null);
    var errors := new Option<string>[n](_ => None);
    for t := 0 to n
      invariant forall b :: 0 <= b < n && b in order[..t] ==>
        match branches[b]
        case Finished(v) => results[b] == v && errors[b] == None
        case Failed(e) => results[b] == Null && errors[b] == Some(e)
    {
      var b := order[t];
      match branches[b] {
        case Finished(v) => results[b], errors[b] := v, None;
        case Failed(e) => results[b], errors[b] := Null, Some(e);
      }
      assert order[..t + 1] == order[..t] + [b];
    }
    assert order[..n] == order;
    ScheduleCovers(order, n);
    for b := 0 to n
      invariant forall j :: 0 <= j < b ==> errors[j] == None
    {
      if errors[b].Some? {
        assert FirstFailure(branches) == b;
        return Err(errors[b].value);
      }
    }
    assert FirstFailure(branches) == n;
    assert results[..] == seq(n, j requires 0 <= j < n => branches[j].value);
    return Ok(results[..]);
  }
}
