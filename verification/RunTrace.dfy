/** What the history of a run says: every record holds what its state answered on its input, each
    input is the context accumulated so far, and the status and output of the execution follow from
    the records (pkg/statemachine/persistent/persistent.go). */
module RunTrace {
  import opened Outcomes
  import opened Json
  import opened JsonPath
  import opened States
  import opened StateResults
  import opened Interpreter

  /* ---------- one record ---------- */

  /** The context after a state: its output laid over its input, which stays when there is none. */
  function Context(r: Record): (v: Value) {
    if r.output == Null then r.input
    else if r.input.Obj? && r.output.Obj? then Obj(Merge(r.input.fields, r.output.fields))
    else r.output
  }

  /** What a state answers when it does not panic: its own result, except that an error without
      output hands the input on. A panic is an error whose output is the input with a note. */
  ghost predicate Answers(env: Env, step: nat, s: State, input: Value, a: Result) {
    var x := Execute(env, step, s, input);
    if x.Panicked? then
      var note := Obj(map["__exec_failure___" + s.base.name := Obj(map["error" := env.panicValue(step)])]);
      a.Result? && a.error.Some? && a.next.None? && a.output == (if input.Obj? then Obj(Merge(input.fields, note.fields)) else note)
    else if x.error.Some? && x.output == Null then a == Result(input, x.next, x.error)
    else a == x
  }

  lemma GuardedAnswers(env: Env, step: nat, s: State, input: Value)
    ensures Answers(env, step, s, input, Guarded(env, step, s, input))
  {
    hide Execute, MergeInputs;
    MergeInputsIsOverlay(input, Obj(map[PanicKey(s.base.name) := Obj(map["error" := env.panicValue(step)])]));
  }

  /** A record tells what its state answered: it waits when the answer is a pause request, else it
      has failed or succeeded with that output. */
  ghost predicate Tells(m: Definition, env: Env, step: nat, r: Record) {
    && r.stateName in m
    && exists a :: Answers(env, step, m[r.stateName], r.input, a) && TellsAnswer(r, a)
  }

  predicate TellsAnswer(r: Record, a: Result) {
    && a.Result? && r.output == a.output
    && (r.status == WAITING <==> a.output.Waiting?)
    && (r.status == FAILED <==> a.error.Some? && !a.output.Waiting?)
    && (r.status == SUCCEEDED <==> a.error.None? && !a.output.Waiting?)
    && (r.status == FAILED ==> r.error == a.error) && (r.status != FAILED ==> r.error.None?)
  }

  /** The state succeeded, is not an end, and names the next state: the run goes on there. */
  ghost predicate GoesOn(m: Definition, env: Env, step: nat, r: Record, next: string) {
    && r.stateName in m && !IsEnd(m[r.stateName]) && r.status == SUCCEEDED && next != ""
    && exists a :: Answers(env, step, m[r.stateName], r.input, a) && a.Result? && a.next == Some(next)
  }

  ghost predicate LeadsOn(m: Definition, env: Env, step: nat, r: Record) {
    exists next :: GoesOn(m, env, step, r, next)
  }

  /** Records of consecutive steps: each tells its state's answer, and each but the last leads on to
      the next one, which works on the context so far. */
  ghost predicate Trace(m: Definition, env: Env, step: nat, rs: seq<Record>) {
    && (forall i :: 0 <= i < |rs| ==> Tells(m, env, step + i, rs[i]))
    && (forall i :: 0 <= i < |rs| - 1 ==> GoesOn(m, env, step + i, rs[i], rs[i + 1].stateName))
    && (forall i :: 0 <= i < |rs| - 1 ==> rs[i + 1].input == Context(rs[i]))
  }

  /* ---------- one iteration ---------- */

  /** What one iteration records, and what it leaves for the next. */
  lemma TurnTells(m: Definition, env: Env, step: nat, e: Exec)
    requires e.currentState in m
    ensures var t := Turn(m, env, step, e);
            && |t.exec.history| == |e.history| + 1
            && var r := t.exec.history[|e.history|];
               && Tells(m, env, step, r) && r.stateName == e.currentState && r.input == e.input
               && (t.Continue? <==> GoesOn(m, env, step, r, t.exec.currentState) && t.exec.input == Context(r))
               && (t.Continue? <==> LeadsOn(m, env, step, r))
  {
    hide Execute, Guarded, MergeInputs, IsEnd;
    var s := m[e.currentState];
    var a := Guarded(env, step, s, e.input);
    GuardedAnswers(env, step, s, e.input);
    OneAnswer(env, step, s, e.input);
    MergeInputsIsOverlay(e.input, a.output);
    var t := Turn(m, env, step, e);
    var r := t.exec.history[|e.history|];
    assert TellsAnswer(r, a);
    if t.Continue? { assert GoesOn(m, env, step, r, t.exec.currentState); }
  }

  /** Up to the wording of a panic, the answer is unique: next state, output and whether it failed. */
  lemma OneAnswer(env: Env, step: nat, s: State, input: Value)
    ensures forall a, b :: Answers(env, step, s, input, a) && Answers(env, step, s, input, b) ==>
              a.Result? ==> b.Result? && a.output == b.output && a.next == b.next && (a.error.Some? <==> b.error.Some?)
  {
    hide Execute;
  }

  /** How an iteration that stops leaves the execution. */
  lemma TurnStops(m: Definition, env: Env, step: nat, e: Exec)
    requires e.currentState in m && Turn(m, env, step, e).Stop?
    ensures var d := Turn(m, env, step, e).exec;
            && |d.history| == |e.history| + 1
            && var r := d.history[|e.history|];
               && d.input == e.input && d.currentState == e.currentState
               && (r.status == WAITING ==> d.status == PAUSED && d.output == r.input)
               && (r.status == FAILED ==> d.status == FAILED && d.error == r.error && d.output == e.output)
               && (r.status == SUCCEEDED && IsEnd(m[r.stateName]) ==> d.status == SUCCEEDED && d.output == r.output)
               && (r.status == SUCCEEDED && !IsEnd(m[r.stateName]) ==> d.status == FAILED && d.output == e.output)
  {
    hide Guarded, MergeInputs, IsEnd;
    var a := Guarded(env, step, m[e.currentState], e.input);
    MergeInputsIsOverlay(e.input, a.output);
  }

  lemma MissingStops(m: Definition, env: Env, step: nat, e: Exec)
    requires e.currentState !in m
    ensures var t := Turn(m, env, step, e);
            t.Stop? && t.exec.history == e.history && t.exec.status == FAILED && t.exec.output == e.output &&
            t.exec.input == e.input && t.exec.currentState == e.currentState
  {
  }

  /** An iteration that goes on leaves status, output and error alone. */
  lemma TurnContinues(m: Definition, env: Env, step: nat, e: Exec)
    requires Turn(m, env, step, e).Continue?
    ensures e.currentState in m
    ensures var d := Turn(m, env, step, e).exec; d.output == e.output && d.status == e.status && d.error == e.error
  {
    hide Guarded, MergeInputs, IsEnd;
  }

  /* ---------- the whole run ---------- */

  /** Where the run stands after its records: at the last one's state, or - when that one leads on -
      at the state it leads to with the context so far. */
  ghost predicate Stands(m: Definition, env: Env, step: nat, e: Exec, rs: seq<Record>, done: Exec) {
    if rs == [] then done.currentState == e.currentState && done.input == e.input
    else
      var n := |rs| - 1;
      if LeadsOn(m, env, step + n, rs[n])
      then GoesOn(m, env, step + n, rs[n], done.currentState) && done.input == Context(rs[n])
      else done.currentState == rs[n].stateName && done.input == rs[n].input
  }

  /** How the records decide status and output. */
  ghost predicate Decides(m: Definition, env: Env, step: nat, deadline: nat, e: Exec, rs: seq<Record>, done: Exec) {
    if |rs| == deadline - step && (rs == [] || LeadsOn(m, env, deadline - 1, rs[|rs| - 1]))
    then done.status == CANCELLED && done.output == e.output
    else if rs == [] then done.status == FAILED && done.output == e.output && e.currentState !in m
    else
      var n := |rs| - 1;
      var last := rs[n];
      if last.status == WAITING then done.status == PAUSED && done.output == last.input
      else if last.status == SUCCEEDED && last.stateName in m && IsEnd(m[last.stateName]) then
        done.status == SUCCEEDED && done.output == last.output
      else
        // a failed state, a state that names no next one, or a next one that does not exist
        done.status == FAILED && done.output == e.output && (last.status == FAILED ==> done.error == last.error)
  }

  /** Starting at e, the records begin with e's state and input. */
  predicate Begins(e: Exec, rs: seq<Record>) {
    rs != [] ==> rs[0].stateName == e.currentState && rs[0].input == e.input
  }

  ghost predicate Told(m: Definition, env: Env, step: nat, deadline: nat, e: Exec, done: Exec)
    requires step <= deadline
  {
    && e.history <= done.history
    && var rs := Added(e, done);
       && |rs| <= deadline - step
       && Begins(e, rs) && Trace(m, env, step, rs)
       && Stands(m, env, step, e, rs, done) && Decides(m, env, step, deadline, e, rs, done)
  }

  lemma TraceCons(m: Definition, env: Env, step: nat, r: Record, rs: seq<Record>)
    requires Tells(m, env, step, r) && Trace(m, env, step + 1, rs)
    requires rs != [] ==> GoesOn(m, env, step, r, rs[0].stateName) && rs[0].input == Context(r)
    ensures Trace(m, env, step, [r] + rs)
  {
    hide Tells, GoesOn, Context;
    var all := [r] + rs;
    forall i | 0 <= i < |all| ensures Tells(m, env, step + i, all[i]) {
      if i > 0 { assert all[i] == rs[i - 1] && step + i == step + 1 + (i - 1); }
    }
    forall i | 0 <= i < |all| - 1
      ensures GoesOn(m, env, step + i, all[i], all[i + 1].stateName) && all[i + 1].input == Context(all[i])
    {
      if i > 0 { assert all[i] == rs[i - 1] && all[i + 1] == rs[i] && step + i == step + 1 + (i - 1); }
    }
  }

  /** The run is told by its records: each state's answer, the accumulated context from state to
      state, where the run stands, and its status and output. */
  lemma {:induction false} RunIsTold(m: Definition, env: Env, step: nat, deadline: nat, e: Exec)
    requires step <= deadline
    ensures Told(m, env, step, deadline, e, RunFrom(m, env, step, deadline, e).0)
    decreases deadline - step
  {
    hide Turn, Tells, GoesOn, LeadsOn, Context;
    var done := RunFrom(m, env, step, deadline, e).0;
    if step == deadline {
      assert Added(e, done) == [];
    } else {
      var t := Turn(m, env, step, e);
      if e.currentState !in m {
        MissingStops(m, env, step, e);
        assert Added(e, done) == [];
      } else if t.Stop? {
        StopIsTold(m, env, step, deadline, e);
      } else {
        RunIsTold(m, env, step + 1, deadline, t.exec);
        ContinueIsTold(m, env, step, deadline, e, done);
      }
    }
  }

  lemma StopIsTold(m: Definition, env: Env, step: nat, deadline: nat, e: Exec)
    requires step < deadline && e.currentState in m && Turn(m, env, step, e).Stop?
    ensures Told(m, env, step, deadline, e, Turn(m, env, step, e).exec)
  {
    hide Turn, Tells, GoesOn, LeadsOn, Context;
    var d := Turn(m, env, step, e).exec;
    TurnAdds(m, env, step, e);
    TurnTells(m, env, step, e);
    TurnStops(m, env, step, e);
    var r := d.history[|e.history|];
    assert Added(e, d) == [r];
    assert step + 0 == step;
    TellsStatus(m, env, step, r);
  }

  lemma TellsStatus(m: Definition, env: Env, step: nat, r: Record)
    requires Tells(m, env, step, r)
    ensures r.stateName in m && (r.status == WAITING || r.status == FAILED || r.status == SUCCEEDED)
  {
  }

  lemma LeadsOnFacts(m: Definition, env: Env, step: nat, r: Record)
    requires LeadsOn(m, env, step, r)
    ensures r.status == SUCCEEDED && r.stateName in m && !IsEnd(m[r.stateName])
  {
  }

  lemma ContinueIsTold(m: Definition, env: Env, step: nat, deadline: nat, e: Exec, done: Exec)
    requires step < deadline && Turn(m, env, step, e).Continue?
    requires Told(m, env, step + 1, deadline, Turn(m, env, step, e).exec, done)
    ensures Told(m, env, step, deadline, e, done)
  {
    hide Turn, Tells, GoesOn, LeadsOn, Context, Trace;
    var t := Turn(m, env, step, e);
    TurnContinues(m, env, step, e);
    TurnAdds(m, env, step, e);
    TurnTells(m, env, step, e);
    AddedChain(e, t.exec, done);
    var r, rest := t.exec.history[|e.history|], Added(t.exec, done);
    assert Added(e, t.exec) == [r];
    assert Added(e, done) == [r] + rest;
    TraceCons(m, env, step, r, rest);
    LeadsOnFacts(m, env, step, r);
    if rest != [] { assert ([r] + rest)[|rest|] == rest[|rest| - 1] && step + |rest| == step + 1 + (|rest| - 1); }
  }

  /* ---------- what a caller sees ---------- */

  /** A run that succeeds returns the output of its last state; one that pauses hands its input back. */
  lemma RunReturns(m: Definition, env: Env, step: nat, deadline: nat, e: Exec)
    requires step <= deadline
    ensures var done := RunFrom(m, env, step, deadline, e).0;
            && e.history <= done.history
            && var rs := Added(e, done);
               && (done.status == SUCCEEDED ==> rs != [] && done.output == rs[|rs| - 1].output)
               && (done.status == PAUSED ==> rs != [] && rs[|rs| - 1].status == WAITING && done.output == done.input == rs[|rs| - 1].input)
               && (done.status == FAILED || done.status == CANCELLED ==> done.output == e.output)
  {
    hide Trace, GoesOn, LeadsOn, RunFrom, Tells;
    RunIsTold(m, env, step, deadline, e);
    var done := RunFrom(m, env, step, deadline, e).0;
    var rs := Added(e, done);
    if rs != [] && rs[|rs| - 1].status == WAITING { WaitingDoesNotGoOn(m, env, step + |rs| - 1, rs[|rs| - 1]); }
  }

  /** The first state of a run works on the input of the call, or on the stored one when there is none. */
  lemma RunBegins(m: Definition, env: Env, deadline: nat, input: Value, e: Exec)
    ensures var done := Run(m, env, deadline, input, e).0;
            && e.history <= done.history
            && (Added(e, done) != [] ==> Added(e, done)[0].stateName == e.currentState &&
                                         Added(e, done)[0].input == if input != Null then input else e.input)
            && (deadline > 0 && e.currentState in m ==> Added(e, done) != [])
  {
    hide Trace, GoesOn, LeadsOn, RunFrom, Tells, Stands;
    RunIsTold(m, env, 0, deadline, Entered(e, input));
  }

  lemma WaitingDoesNotGoOn(m: Definition, env: Env, step: nat, r: Record)
    requires r.status == WAITING
    ensures !LeadsOn(m, env, step, r)
  {
  }

  /** A run that reaches a Succeed state ends there, SUCCEEDED, with its input through the paths. */
  lemma SucceedEndsRun(m: Definition, env: Env, step: nat, deadline: nat, e: Exec, input: Value, out: Value)
    requires step < deadline && e.currentState in m && m[e.currentState].Succeed? && !out.Waiting?
    requires Receives(m[e.currentState], e.input, input) && ApplyOutputPath(input, m[e.currentState].base.outputPath) == Ok(out)
    ensures var done := RunFrom(m, env, step, deadline, e).0;
            done.status == SUCCEEDED && done.output == out && done.currentState == e.currentState
  {
    hide Execute, ApplyOutputPath, Receives;
    SucceedYields(env, step, m[e.currentState], e.input, input, out);
  }
}
