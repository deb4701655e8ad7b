/** The branches of a Parallel state running side by side, state by state
    (internal/states/parallel.go). However their steps interleave, each branch ends as it would
    alone, so the joined outcome does not depend on the schedule. */
module ParallelRuns {
  import opened Outcomes
  import opened Json
  import opened JsonPath
  import opened States
  import opened ParallelBranches

  datatype BranchDef = BranchDef(startAt: string, states: Definition)

  /** A goroutine's progress: about to execute a state, finished, or taken down by a panic. */
  datatype Slot =
    | Running(name: string, input: Value, step: nat)
    | Done(outcome: Branch)
    | Crashed

  function Start(b: BranchDef, input: Value): (s: Slot) {
    Running(b.startAt, input, 0)
  }

  /** One iteration of executeBranch. The output alone becomes the next input. */
  function Advance(b: BranchDef, env: Env, s: Slot): (t: Slot) {
    if !s.Running? then s
    else if s.name !in b.states then Done(Failed("state '" + s.name + "' not found in branch"))
    else
      var state := b.states[s.name];
      var r := Execute(env, s.step, state, s.input);
      if r.Panicked? then Crashed
      else if r.error.Some? then Done(Failed(r.error.value))
      else if IsEnd(state) || r.next.None? then Done(Branch.Finished(r.output))
      else Running(r.next.value, r.output, s.step + 1)
  }

  /** n iterations of one branch on its own. */
  function Alone(b: BranchDef, env: Env, s: Slot, n: nat): (t: Slot)
    decreases n
  {
    if n == 0 then s else Alone(b, env, Advance(b, env, s), n - 1)
  }

  /** executeBranch, with the context found cancelled at iteration `deadline`. */
  method ExecuteBranch(b: BranchDef, env: Env, input: Value, deadline: nat) returns (r: Slot)
    ensures var s := Alone(b, env, Start(b, input), deadline);
            r == if s.Running? then Done(Failed("context canceled")) else s
  {
    hide Execute;
    var name, current := b.startAt, input;
    for step := 0 to deadline
      invariant Alone(b, env, Start(b, input), deadline) == Alone(b, env, Running(name, current, step), deadline - step)
    {
      ghost var here := Running(name, current, step);
      if name !in b.states {
        StaysDone(b, env, Advance(b, env, here), deadline - step - 1);
        return Done(Failed("state '" + name + "' not found in branch"));
      }
      var state := b.states[name];
      var result := Execute(env, step, state, current);
      if result.Panicked? {
        StaysDone(b, env, Advance(b, env, here), deadline - step - 1);
        return Crashed;
      }
      if result.error.Some? {
        StaysDone(b, env, Advance(b, env, here), deadline - step - 1);
        return Done(Failed(result.error.value));
      }
      if IsEnd(state) || result.next.None? {
        StaysDone(b, env, Advance(b, env, here), deadline - step - 1);
        return Done(Branch.Finished(result.output));
      }
      name, current := result.next.value, result.output;
    }
    return Done(Failed("context canceled"));
  }

  /** A branch that has stopped running does not change any more. */
  lemma {:induction false} StaysDone(b: BranchDef, env: Env, s: Slot, n: nat)
    requires !s.Running?
    ensures Alone(b, env, s, n) == s
    decreases n
  {
    if n > 0 { StaysDone(b, env, s, n - 1); }
  }

  lemma {:induction false} AloneAdds(b: BranchDef, env: Env, s: Slot, m: nat, n: nat)
    ensures Alone(b, env, s, m + n) == Alone(b, env, Alone(b, env, s, m), n)
    decreases m
  {
    if m > 0 { AloneAdds(b, env, Advance(b, env, s), m - 1, n); }
  }

  /** All the ways of letting a branch run until it stops end alike. */
  lemma StopsOneWay(b: BranchDef, env: Env, s: Slot, m: nat, n: nat)
    requires !Alone(b, env, s, m).Running? && !Alone(b, env, s, n).Running?
    ensures Alone(b, env, s, m) == Alone(b, env, s, n)
  {
    var lo, hi := if m <= n then m else n, if m <= n then n else m;
    AloneAdds(b, env, s, lo, hi - lo);
    StaysDone(b, env, Alone(b, env, s, lo), hi - lo);
  }

  /* ---------- what a branch does ---------- */

  /** The states a branch goes through and what each is given: the first its start and the input of
      the Parallel state, every other the name and the output the one before it returned. */
  ghost predicate Goes(b: BranchDef, env: Env, input: Value, names: seq<string>, inputs: seq<Value>) {
    && |names| == |inputs| >= 1 && names[0] == b.startAt && inputs[0] == input
    && (forall i :: 0 <= i < |names| - 1 ==>
          && names[i] in b.states && !IsEnd(b.states[names[i]])
          && Execute(env, i, b.states[names[i]], inputs[i]) == Result(inputs[i + 1], Some(names[i + 1]), None))
  }

  /** Along that way the branch stands, after as many steps, at the last of them. */
  lemma {:induction false} StandsAt(b: BranchDef, env: Env, input: Value, names: seq<string>, inputs: seq<Value>)
    requires Goes(b, env, input, names, inputs)
    ensures var n := |names| - 1; Alone(b, env, Start(b, input), n) == Running(names[n], inputs[n], n)
    decreases |names|
  {
    hide Execute;
    var n := |names| - 1;
    if n > 0 {
      assert Goes(b, env, input, names[..n], inputs[..n]);
      StandsAt(b, env, input, names[..n], inputs[..n]);
      AloneAdds(b, env, Start(b, input), n - 1, 1);
      var here := Running(names[n - 1], inputs[n - 1], n - 1);
      assert Alone(b, env, here, 1) == Alone(b, env, Advance(b, env, here), 0);
      assert names[..n][n - 1] == names[n - 1] && inputs[..n][n - 1] == inputs[n - 1];
      assert Execute(env, n - 1, b.states[names[n - 1]], inputs[n - 1]) == Result(inputs[n - 1 + 1], Some(names[n - 1 + 1]), None);
    }
  }

  /** How the state it stands at ends a branch: an end state, or one that names no next, finishes it
      with its output; an error, or a missing state, fails it. */
  lemma BranchEnds(b: BranchDef, env: Env, input: Value, names: seq<string>, inputs: seq<Value>)
    requires Goes(b, env, input, names, inputs)
    ensures var n := |names| - 1;
            var t := Alone(b, env, Start(b, input), n + 1);
            if names[n] !in b.states then t.Done? && t.outcome.Failed?
            else match Execute(env, n, b.states[names[n]], inputs[n])
                 case Panicked => t == Crashed
                 case Result(out, next, error) =>
                   if error.Some? then t == Done(Failed(error.value))
                   else if IsEnd(b.states[names[n]]) || next.None? then t == Done(Branch.Finished(out))
                   else t == Running(next.value, out, n + 1)
  {
    hide Execute;
    var n := |names| - 1;
    StandsAt(b, env, input, names, inputs);
    AloneAdds(b, env, Start(b, input), n, 1);
    var here := Running(names[n], inputs[n], n);
    assert Alone(b, env, here, 1) == Alone(b, env, Advance(b, env, here), 0);
  }

  /** So executeBranch returns the output of the end state the way leads to. */
  lemma BranchReturns(b: BranchDef, env: Env, input: Value, names: seq<string>, inputs: seq<Value>, out: Value, next: Option<string>, deadline: nat)
    requires Goes(b, env, input, names, inputs) && names[|names| - 1] in b.states && |names| <= deadline
    requires Execute(env, |names| - 1, b.states[names[|names| - 1]], inputs[|names| - 1]) == Result(out, next, None)
    requires IsEnd(b.states[names[|names| - 1]]) || next.None?
    ensures Alone(b, env, Start(b, input), deadline) == Done(Branch.Finished(out))
  {
    hide Execute, Alone;
    BranchEnds(b, env, input, names, inputs);
    AloneAdds(b, env, Start(b, input), |names|, deadline - |names|);
    StaysDone(b, env, Done(Branch.Finished(out)), deadline - |names|);
  }

  /* ---------- interleavings ---------- */

  /** A fan-out: the branches and the world each of them sees. */
  datatype FanOut = FanOut(branches: seq<BranchDef>, envs: seq<Env>)

  predicate Paired(f: FanOut) {
    |f.branches| == |f.envs|
  }

  function Starts(f: FanOut, input: Value): (slots: seq<Slot>)
    ensures |slots| == |f.branches|
    ensures forall i :: 0 <= i < |slots| ==> slots[i] == Start(f.branches[i], input)
  {
    seq(|f.branches|, i requires 0 <= i < |f.branches| => Start(f.branches[i], input))
  }

  /** Any interleaving: each entry of the schedule lets one branch take one step. */
  function Interleave(f: FanOut, slots: seq<Slot>, schedule: seq<nat>): (r: seq<Slot>)
    requires Paired(f) && |slots| == |f.branches|
    ensures |r| == |slots|
    decreases |schedule|
  {
    if schedule == [] then slots
    else
      var i := schedule[0];
      var next := if i < |slots| then slots[i := Advance(f.branches[i], f.envs[i], slots[i])] else slots;
      Interleave(f, next, schedule[1..])
  }

  function Turns(schedule: seq<nat>, i: nat): (n: nat) {
    if schedule == [] then 0 else (if schedule[0] == i then 1 else 0) + Turns(schedule[1..], i)
  }

  /** Each branch is exactly as far as it would be alone after the turns it was given. */
  lemma {:induction false} BranchesDoNotInterfere(f: FanOut, slots: seq<Slot>, schedule: seq<nat>, i: nat)
    requires Paired(f) && |slots| == |f.branches| && i < |slots|
    ensures Interleave(f, slots, schedule)[i] == Alone(f.branches[i], f.envs[i], slots[i], Turns(schedule, i))
    decreases |schedule|
  {
    hide Advance;
    if schedule != [] {
      var j := schedule[0];
      var next := if j < |slots| then slots[j := Advance(f.branches[j], f.envs[j], slots[j])] else slots;
      BranchesDoNotInterfere(f, next, schedule[1..], i);
    }
  }

  predicate AllDone(slots: seq<Slot>) {
    forall i :: 0 <= i < |slots| ==> slots[i].Done?
  }

  function OutcomesOf(slots: seq<Slot>): (bs: seq<Branch>)
    requires AllDone(slots)
    ensures |bs| == |slots| && forall i :: 0 <= i < |slots| ==> bs[i] == slots[i].outcome
  {
    seq(|slots|, i requires 0 <= i < |slots| => slots[i].outcome)
  }

  /** Two interleavings that let every branch finish leave the same slots: those of the branches
      run alone. */
  lemma SlotsAgree(f: FanOut, input: Value, first: seq<nat>, second: seq<nat>)
    requires Paired(f)
    requires AllDone(Interleave(f, Starts(f, input), first)) && AllDone(Interleave(f, Starts(f, input), second))
    ensures Interleave(f, Starts(f, input), first) == Interleave(f, Starts(f, input), second)
    ensures Join(OutcomesOf(Interleave(f, Starts(f, input), first)))
         == Join(OutcomesOf(Interleave(f, Starts(f, input), second)))
    ensures forall i, n: nat :: 0 <= i < |f.branches| && Alone(f.branches[i], f.envs[i], Start(f.branches[i], input), n).Done? ==>
              Interleave(f, Starts(f, input), first)[i] == Alone(f.branches[i], f.envs[i], Start(f.branches[i], input), n)
  {
    hide Alone, Interleave, Turns, Advance;
    var slots := Starts(f, input);
    var a, b := Interleave(f, slots, first), Interleave(f, slots, second);
    forall i | 0 <= i < |slots|
      ensures a[i] == b[i]
      ensures forall n: nat :: Alone(f.branches[i], f.envs[i], slots[i], n).Done? ==>
                a[i] == Alone(f.branches[i], f.envs[i], slots[i], n)
    {
      BranchesDoNotInterfere(f, slots, first, i);
      BranchesDoNotInterfere(f, slots, second, i);
      StopsOneWay(f.branches[i], f.envs[i], slots[i], Turns(first, i), Turns(second, i));
      forall n: nat | Alone(f.branches[i], f.envs[i], slots[i], n).Done?
        ensures a[i] == Alone(f.branches[i], f.envs[i], slots[i], n)
      {
        StopsOneWay(f.branches[i], f.envs[i], slots[i], Turns(first, i), n);
      }
    }
    assert a == b;
  }

  /* ---------- the Parallel state itself ---------- */

  /** The environment in which the branches of the Parallel state have ended like this. */
  function WithBranches(env: Env, bs: seq<Branch>): (e: Env) {
    env.(branches := (_, _) => bs)
  }

  lemma StateSeesBranches(env: Env, step: nat, s: State, input: Value, v: Value, bs: seq<Branch>)
    requires s.Parallel? && ApplyInputPath(input, s.base.inputPath) == Ok(v)
    ensures Execute(WithBranches(env, bs), step, s, input) == ExecuteParallel(WithBranches(env, bs), step, s, v)
    ensures Join(bs).Err? ==> Execute(WithBranches(env, bs), step, s, input) == Result(Null, None, Some(Join(bs).error))
  {
    hide ApplyInputPath, Finish, Expanded;
  }

  /** Executing the state gives one result for all interleavings of its branches, and when some
      branch fails, the error is that of the lowest one that fails when run alone. */
  lemma ScheduleIndependent(
      env: Env, step: nat, s: State, input: Value, v: Value, f: FanOut, first: seq<nat>, second: seq<nat>)
    requires s.Parallel? && ApplyInputPath(input, s.base.inputPath) == Ok(v) && Paired(f)
    requires AllDone(Interleave(f, Starts(f, v), first)) && AllDone(Interleave(f, Starts(f, v), second))
    ensures Execute(WithBranches(env, OutcomesOf(Interleave(f, Starts(f, v), first))), step, s, input)
         == Execute(WithBranches(env, OutcomesOf(Interleave(f, Starts(f, v), second))), step, s, input)
    ensures forall k, n: nat, e ::
              0 <= k < |f.branches| && Alone(f.branches[k], f.envs[k], Start(f.branches[k], v), n) == Done(Failed(e)) &&
              (forall j :: 0 <= j < k ==> Interleave(f, Starts(f, v), first)[j].outcome.Finished?) ==>
              Execute(WithBranches(env, OutcomesOf(Interleave(f, Starts(f, v), first))), step, s, input)
              == Result(Null, None, Some(e))
  {
    hide Execute, ExecuteParallel, ApplyInputPath, Interleave, Alone;
    SlotsAgree(f, v, first, second);
    var bs := OutcomesOf(Interleave(f, Starts(f, v), first));
    StateSeesBranches(env, step, s, input, v, bs);
  }
}
