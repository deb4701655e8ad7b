/** The persistent run loop (pkg/statemachine/persistent/persistent.go) on execution records
    (pkg/execution/execution.go), and what every run keeps. A run that never returns has no
    outcome to speak about; every other run is covered by letting the context be cancelled
    at an arbitrary iteration. */
module Interpreter {
  import opened Outcomes
  import opened Json
  import opened JsonPath
  import opened JsonPathLaws
  import PathSyntax
  import opened PauseRequests
  import opened States
  import opened Graph
  import Validator

  datatype Status = RUNNING | SUCCEEDED | FAILED | CANCELLED | PAUSED | WAITING

  datatype Record = Record(
    stateName: string,
    status: Status,
    input: Value,
    output: Value,
    sequenceNumber: int,
    error: Option<string>)

  /** The recovery metadata the loop keeps up to date. */
  datatype Recovery = Recovery(lastState: string, lastOutput: Value)

  /** The fields of an Execution that the loop reads or writes. */
  datatype Exec = Exec(
    status: Status,
    input: Value,
    output: Value,
    error: Option<string>,
    currentState: string,
    history: seq<Record>,
    sequenceNumber: int,
    recovery: Option<Recovery>)

  /** MergeInputs: nil on either side yields the other; otherwise the result path "$.". */
  function MergeInputs(input: Value, result: Value): (r: Outcome<Value>) {
    if input == Null then Ok(result)
    else if result == Null then Ok(input)
    else ApplyResultPath(input, result, Some("$."))
  }

  /** The path "$." addresses the root, so merging never fails and is the deep merge of two
      objects; anything else is replaced. */
  lemma MergeInputsIsOverlay(input: Value, result: Value)
    ensures MergeInputs(input, result)
         == Ok(if result == Null then input else Overlay(input, result))
  {
    assert "$."[1..] == "." && "."[1..] == "";
    assert PathSyntax.PathParts("$.") == [];
    assert SetParts(input, [], result) == Ok(Overlay(input, result));
  }

  function PanicKey(name: string): (k: string) { "__exec_failure___" + name }

  /** executeStateWithRecovery: an error without output carries the input along; a panic
      becomes an error whose output is the input merged with a note about it. */
  function Guarded(env: Env, step: nat, s: State, input: Value): (r: Result)
    ensures r.Result?
  {
    var r := Execute(env, step, s, input);
    if r.Panicked? then
      var merged := MergeInputs(input, Obj(map[PanicKey(s.base.name) := Obj(map["error" := env.panicValue(step)])]));
      Result(if merged.Ok? then merged.value else input, None, Some("state execution panic"))
    else if r.error.Some? && r.output == Null then r.(output := input)
    else r
  }

  /* ---------- one iteration, and the loop ---------- */

  datatype Progress = Continue(exec: Exec) | Stop(exec: Exec, error: Option<string>)

  function Failing(e: Exec, message: string): (r: Progress) {
    Stop(e.(status := FAILED, error := Some(message)), Some(message))
  }

  /** One iteration of the loop after the context check. */
  function Turn(m: Definition, env: Env, step: nat, e: Exec): (r: Progress) {
    var name := e.currentState;
    if name !in m then Failing(e, "state not found: " + name) else
    var s := m[name];
    var n := e.sequenceNumber + 1;
    var r := Guarded(env, step, s, e.input);
    if r.output.Waiting? then
      Stop(e.(history := e.history + [Record(name, WAITING, e.input, r.output, n, None)],
              sequenceNumber := n, status := PAUSED, output := e.input), None)
    else if r.error.Some? then
      Failing(e.(history := e.history + [Record(name, FAILED, e.input, r.output, n, r.error)],
                 sequenceNumber := n), r.error.value)
    else
      var done := e.(history := e.history + [Record(name, SUCCEEDED, e.input, r.output, n, None)],
                     sequenceNumber := n, recovery := Some(Recovery(name, r.output)));
      if IsEnd(s) then Stop(done.(status := SUCCEEDED, output := r.output), None)
      else if r.next.None? || r.next.value == "" then
        Failing(done, "non-terminal state " + name + " did not provide next state")
      else
        var moved := done.(currentState := r.next.value);
        var merged := MergeInputs(e.input, r.output);
        if merged.Ok? then Continue(moved.(input := merged.value))
        else Stop(moved, Some("merge failed"))
  }

  /** The loop: the context is found cancelled at iteration `deadline`, if the run gets there. */
  function RunFrom(m: Definition, env: Env, step: nat, deadline: nat, e: Exec): (r: (Exec, Option<string>))
    requires step <= deadline
    decreases deadline - step
  {
    if step == deadline then
      (e.(status := CANCELLED, error := Some("context canceled")), Some("context canceled"))
    else
      match Turn(m, env, step, e)
      case Stop(done, error) => (done, error)
      case Continue(next) => RunFrom(m, env, step + 1, deadline, next)
  }

  /** A non-nil input replaces the stored one. */
  function Entered(e: Exec, input: Value): (r: Exec) {
    if input != Null then e.(input := input) else e
  }

  /** RunExecution: take the input, then the loop runs. */
  function Run(m: Definition, env: Env, deadline: nat, input: Value, e: Exec): (r: (Exec, Option<string>)) {
    RunFrom(m, env, 0, deadline, Entered(e, input))
  }

  /* ---------- how every run ends ---------- */

  predicate Terminal(s: Status) {
    s == SUCCEEDED || s == FAILED || s == CANCELLED || s == PAUSED
  }

  /** Every return leaves the execution finished or paused, whatever its status was before;
      an error is returned exactly when it failed or was cancelled. In particular the exit
      on a merge error is never taken. */
  lemma {:induction false} RunEnds(m: Definition, env: Env, step: nat, deadline: nat, e: Exec)
    requires step <= deadline
    ensures var (done, error) := RunFrom(m, env, step, deadline, e);
            && Terminal(done.status)
            && (error.Some? <==> done.status == FAILED || done.status == CANCELLED)
            && (error.Some? ==> done.error == error)
    decreases deadline - step
  {
    if step < deadline {
      TurnEnds(m, env, step, e);
      var t := Turn(m, env, step, e);
      if t.Continue? { RunEnds(m, env, step + 1, deadline, t.exec); }
    }
  }

  lemma TurnEnds(m: Definition, env: Env, step: nat, e: Exec)
    ensures var t := Turn(m, env, step, e);
            t.Stop? ==>
              && Terminal(t.exec.status)
              && (t.error.Some? <==> t.exec.status == FAILED || t.exec.status == CANCELLED)
              && (t.error.Some? ==> t.exec.error == t.error)
  {
    if e.currentState in m {
      var r := Guarded(env, step, m[e.currentState], e.input);
      MergeInputsIsOverlay(e.input, r.output);
    }
  }

  /* ---------- history ---------- */

  /** The records a run appended. */
  function Added(before: Exec, after: Exec): (rs: seq<Record>)
    requires before.history <= after.history
  {
    after.history[|before.history|..]
  }

  /** History only grows, and the new records are numbered consecutively from the counter. */
  predicate Numbered(before: Exec, after: Exec) {
    && before.history <= after.history
    && after.sequenceNumber == before.sequenceNumber + |Added(before, after)|
    && forall i :: 0 <= i < |Added(before, after)| ==>
         Added(before, after)[i].sequenceNumber == before.sequenceNumber + 1 + i
  }

  /** What one iteration adds: nothing when the state is missing, else one record of it. */
  lemma TurnAdds(m: Definition, env: Env, step: nat, e: Exec)
    ensures var t := Turn(m, env, step, e);
            && Numbered(e, t.exec)
            && |Added(e, t.exec)| == (if e.currentState in m then 1 else 0)
            && (e.currentState in m ==> Added(e, t.exec)[0].stateName == e.currentState)
            && (e.currentState in m ==> t.exec.history == e.history + [Added(e, t.exec)[0]])
  {
    hide MergeInputs, Guarded;
  }

  lemma AddedChain(a: Exec, b: Exec, c: Exec)
    requires a.history <= b.history <= c.history
    ensures a.history <= c.history && Added(a, c) == Added(a, b) + Added(b, c)
  {
  }

  lemma {:induction false} RunNumbers(m: Definition, env: Env, step: nat, deadline: nat, e: Exec)
    requires step <= deadline
    ensures Numbered(e, RunFrom(m, env, step, deadline, e).0)
    decreases deadline - step
  {
    if step < deadline {
      TurnAdds(m, env, step, e);
      var t := Turn(m, env, step, e);
      if t.Continue? {
        RunNumbers(m, env, step + 1, deadline, t.exec);
        AddedChain(e, t.exec, RunFrom(m, env, step, deadline, e).0);
      }
    }
  }

  /* ---------- visited states form a path ---------- */

  /** A list of records runs along edges of the graph from a state: each record is of an
      existing state the previous one leads to, and the run ends standing at the last recorded
      state or at a successor of it. */
  predicate Walk(m: Definition, from: string, rs: seq<Record>, to: string)
    decreases |rs|
  {
    if rs == [] then to == from
    else
      && rs[0].stateName == from && from in m
      && (if |rs| == 1 then to == from || Edge(m, from, to)
          else Edge(m, from, rs[1].stateName) && Walk(m, rs[1].stateName, rs[1..], to))
  }

  predicate Walked(m: Definition, before: Exec, after: Exec)
    requires before.history <= after.history
  {
    Walk(m, before.currentState, Added(before, after), after.currentState)
  }

  /** An iteration that goes on has moved along an edge. */
  lemma TurnMoves(m: Definition, env: Env, step: nat, e: Exec)
    ensures var t := Turn(m, env, step, e);
            && (t.Continue? ==> Edge(m, e.currentState, t.exec.currentState))
            && (t.Stop? ==> t.exec.currentState == e.currentState)
  {
    if e.currentState in m {
      var s := m[e.currentState];
      var r := Guarded(env, step, s, e.input);
      MergeInputsIsOverlay(e.input, r.output);
      var t := Turn(m, env, step, e);
      if t.Continue? { ExecuteFollowsGraph(env, step, s, e.input, t.exec.currentState); }
    }
  }

  lemma WalkOn(m: Definition, a: Exec, b: Exec, c: Exec)
    requires a.history <= b.history <= c.history
    requires |Added(a, b)| == 1 && Added(a, b)[0].stateName == a.currentState && a.currentState in m
    requires Edge(m, a.currentState, b.currentState) && Walked(m, b, c)
    ensures Walked(m, a, c)
  {
    hide Edge;
    AddedChain(a, b, c);
    assert Added(a, c)[1..] == Added(b, c);
  }

  /** For any environment, the states a run visits form a path in the validator's graph. */
  lemma {:induction false} RunWalks(m: Definition, env: Env, step: nat, deadline: nat, e: Exec)
    requires step <= deadline
    ensures e.history <= RunFrom(m, env, step, deadline, e).0.history
    ensures Walked(m, e, RunFrom(m, env, step, deadline, e).0)
    decreases deadline - step
  {
    hide Edge, Turn;
    var done := RunFrom(m, env, step, deadline, e).0;
    if step < deadline {
      TurnAdds(m, env, step, e);
      TurnMoves(m, env, step, e);
      var t := Turn(m, env, step, e);
      if t.Continue? {
        RunWalks(m, env, step + 1, deadline, t.exec);
        WalkOn(m, e, t.exec, done);
      }
    }
  }

  /* ---------- runs of accepted definitions ---------- */

  /** Every recorded state of a walk exists and is reachable from where the walk began. */
  lemma {:induction false} WalkReaches(m: Definition, from: string, rs: seq<Record>, to: string, i: nat)
    requires Walk(m, from, rs, to) && i < |rs|
    ensures rs[i].stateName in m && Reaches(m, from, rs[i].stateName)
    decreases |rs|
  {
    if i == 0 {
      ReachesSelf(m, from);
    } else {
      var next := rs[1].stateName;
      WalkReaches(m, next, rs[1..], to, i - 1);
      ReachesStep(m, from, next, rs[i].stateName);
    }
  }

  /** In every run of an accepted definition from its start, with any handlers, each visited
      state is reachable from the start and still has a path to an end state; and so has the
      state the run stands at, unless that name does not exist. */
  lemma AcceptedRunsCanEnd(m: Definition, startAt: string, env: Env, deadline: nat, input: Value, e: Exec)
    requires Validator.Sound(m, startAt) && e.currentState == startAt && startAt in m
    ensures var done := Run(m, env, deadline, input, e).0;
            && e.history <= done.history
            && Walked(m, e, done)
            && (forall i :: 0 <= i < |Added(e, done)| ==>
                  Reaches(m, startAt, Added(e, done)[i].stateName) && ReachesEnd(m, Added(e, done)[i].stateName))
            && (done.currentState in m ==> ReachesEnd(m, done.currentState))
  {
    hide Edge, Reaches, ReachesEnd, RunFrom;
    var e1 := Entered(e, input);
    var done := Run(m, env, deadline, input, e).0;
    RunWalks(m, env, 0, deadline, e1);
    assert Added(e, done) == Added(e1, done) && Walked(m, e, done);
    forall i | 0 <= i < |Added(e, done)|
      ensures Reaches(m, startAt, Added(e, done)[i].stateName) && ReachesEnd(m, Added(e, done)[i].stateName)
    {
      WalkReaches(m, startAt, Added(e, done), done.currentState, i);
    }
  }

  /* ---------- recovery metadata ---------- */

  /** What a backwards scan of the history finds: the last successful record. */
  function LastSuccess(h: seq<Record>): (r: Option<Recovery>) {
    if h == [] then None
    else
      var last := h[|h| - 1];
      if last.status == SUCCEEDED then Some(Recovery(last.stateName, last.output))
      else LastSuccess(h[..|h| - 1])
  }

  lemma LastSuccessOf(h: seq<Record>, r: Record)
    ensures LastSuccess(h + [r]) ==
              if r.status == SUCCEEDED then Some(Recovery(r.stateName, r.output)) else LastSuccess(h)
  {
    assert (h + [r])[..|h|] == h;
  }

  lemma TurnKeepsRecovery(m: Definition, env: Env, step: nat, e: Exec)
    requires e.recovery == LastSuccess(e.history)
    ensures var t := Turn(m, env, step, e); t.exec.recovery == LastSuccess(t.exec.history)
  {
    hide MergeInputs, Guarded, IsEnd, LastSuccess;
    if e.currentState in m {
      TurnAdds(m, env, step, e);
      var t := Turn(m, env, step, e);
      LastSuccessOf(e.history, t.exec.history[|e.history|]);
    }
  }

  /** The metadata kept step by step always equals what recovery finds by scanning. */
  lemma {:induction false} RunKeepsRecovery(m: Definition, env: Env, step: nat, deadline: nat, e: Exec)
    requires step <= deadline && e.recovery == LastSuccess(e.history)
    ensures var done := RunFrom(m, env, step, deadline, e).0; done.recovery == LastSuccess(done.history)
    decreases deadline - step
  {
    hide Turn;
    if step < deadline {
      TurnKeepsRecovery(m, env, step, e);
      var t := Turn(m, env, step, e);
      if t.Continue? { RunKeepsRecovery(m, env, step + 1, deadline, t.exec); }
    }
  }

  /* ---------- context accumulation ---------- */

  /** Every successful record among those added has an object as its output. */
  predicate ObjectOutputs(rs: seq<Record>) {
    forall i :: 0 <= i < |rs| ==> rs[i].status == SUCCEEDED ==> rs[i].output.Obj?
  }

  /** No successful record among those added sets the key. */
  predicate NeverSets(rs: seq<Record>, k: string) {
    forall i :: 0 <= i < |rs| ==> rs[i].status == SUCCEEDED && rs[i].output.Obj? ==> !Has(rs[i].output.fields, k)
  }

  lemma TurnKeepsKey(m: Definition, env: Env, step: nat, e: Exec, k: string)
    requires e.input.Obj? && Has(e.input.fields, k)
    requires var t := Turn(m, env, step, e);
             t.Continue? ==> t.exec.history != [] && t.exec.history[|t.exec.history| - 1].output.Obj?
    ensures var t := Turn(m, env, step, e);
            && t.exec.input.Obj? && Has(t.exec.input.fields, k)
            && (t.Stop? ==> t.exec.input == e.input)
            && (t.Continue? && !Has(t.exec.history[|t.exec.history| - 1].output.fields, k) ==>
                  t.exec.input.fields[k] == e.input.fields[k])
  {
    hide MergeInputs, Guarded;
    if e.currentState in m {
      var r := Guarded(env, step, m[e.currentState], e.input);
      MergeInputsIsOverlay(e.input, r.output);
      if r.output.Obj? { MergeKeeps(e.input.fields, r.output.fields, k); }
    }
  }

  lemma OutputsOf(first: seq<Record>, rest: seq<Record>, k: string)
    ensures ObjectOutputs(first + rest) <==> ObjectOutputs(first) && ObjectOutputs(rest)
    ensures NeverSets(first + rest, k) <==> NeverSets(first, k) && NeverSets(rest, k)
    ensures |first| == 1 ==> (ObjectOutputs(first) <==> (first[0].status == SUCCEEDED ==> first[0].output.Obj?))
    ensures |first| == 1 && first[0].status == SUCCEEDED && first[0].output.Obj? ==>
              (NeverSets(first, k) <==> !Has(first[0].output.fields, k))
  {
    var rs := first + rest;
    assert forall i :: 0 <= i < |first| ==> rs[i] == first[i];
    assert forall i :: 0 <= i < |rest| ==> rs[|first| + i] == rest[i];
  }

  /** While all outputs are objects, every non-null key of the execution input stays present
      and non-null to the end of the run; a key no output sets keeps its very value. */
  lemma {:induction false} RunKeepsContext(m: Definition, env: Env, step: nat, deadline: nat, e: Exec, k: string)
    requires step <= deadline && e.input.Obj? && Has(e.input.fields, k)
    requires e.history <= RunFrom(m, env, step, deadline, e).0.history
    requires ObjectOutputs(Added(e, RunFrom(m, env, step, deadline, e).0))
    ensures var done := RunFrom(m, env, step, deadline, e).0;
            && done.input.Obj? && Has(done.input.fields, k)
            && (NeverSets(Added(e, done), k) ==> done.input.fields[k] == e.input.fields[k])
    decreases deadline - step
  {
    hide Turn, ObjectOutputs, NeverSets;
    var done := RunFrom(m, env, step, deadline, e).0;
    if step < deadline {
      var t := Turn(m, env, step, e);
      TurnAdds(m, env, step, e);
      TurnRecords(m, env, step, e);
      if t.Continue? {
        RunNumbers(m, env, step + 1, deadline, t.exec);
        AddedChain(e, t.exec, done);
        OutputsOf(Added(e, t.exec), Added(t.exec, done), k);
        TurnKeepsKey(m, env, step, e, k);
        RunKeepsContext(m, env, step + 1, deadline, t.exec, k);
      } else {
        TurnKeepsKey(m, env, step, e, k);
      }
    }
  }

  /** An iteration that goes on has recorded a success. */
  lemma TurnRecords(m: Definition, env: Env, step: nat, e: Exec)
    ensures var t := Turn(m, env, step, e);
            t.Continue? ==> e.currentState in m && t.exec.history != [] &&
                            t.exec.history[|t.exec.history| - 1].status == SUCCEEDED
  {
    hide MergeInputs, Guarded;
  }

  /* ---------- pausing ---------- */

  /** The input holds neither a timeout trigger nor a received message for the state. */
  predicate AwaitsMessage(s: State, input: Value)
    requires s.Message?
  {
    input.Obj? ==>
      TimeoutKey(s.base.name) !in input.fields &&
      !(ReceivedKey(s.base.name) in input.fields && input.fields[ReceivedKey(s.base.name)].Obj?)
  }

  /** The run reaches the phase of a Message state that asks to be paused, with this input. */
  predicate AboutToWait(s: State, input: Value) {
    && s.Message?
    && var v := ApplyInputPath(input, s.base.inputPath);
       v.Ok? && AwaitsMessage(s, v.value) && ApplyInputPath(v.value, s.correlationValuePath).Ok?
  }

  function PauseRequest(s: State, input: Value): (w: Value)
    requires AboutToWait(s, input)
    ensures w.Waiting?
  {
    Waiting(s.correlationKey, ApplyInputPath(ApplyInputPath(input, s.base.inputPath).value, s.correlationValuePath).value)
  }

  /** A request for a pause goes the way of every result: ResultPath, then OutputPath. */
  lemma RequestIsFinished(env: Env, step: nat, s: State, input: Value)
    requires AboutToWait(s, input)
    ensures Execute(env, step, s, input) == Finish(s.base, input, PauseRequest(s, input), None)
  {
    hide Finish, ApplyInputPath;
  }

  lemma PlacedAt(d: Value, w: Value, path: Option<string>)
    requires Rooted(path) && w.Waiting?
    ensures ApplyResultPath(d, w, path) == SetParts(d, Address(path), w)
  {
    hide PathSyntax.PathParts;
  }

  lemma SelectedFrom(d: Value, path: Option<string>)
    requires Rooted(path)
    ensures var qs := Address(path); var read := GetParts(d, qs);
            ApplyOutputPath(d, path) == (if read.Err? then WrapParts(qs, d) else read) && (read.Err? ==> qs != [])
  {
    hide PathSyntax.PathParts;
  }

  lemma WrappedIsNoRequest(qs: seq<string>, d: Value)
    requires qs != [] && WrapParts(qs, d).Ok?
    ensures !WrapParts(qs, d).value.Waiting?
  {
  }

  /** When both paths are in order and the OutputPath reads where the ResultPath has written. */
  predicate Pauses(base: Base, d: Value) {
    && Rooted(base.resultPath) && Settable(Address(base.resultPath))
    && Rooted(base.outputPath)
    && Lands(d, Address(base.resultPath), Address(base.outputPath))
  }

  lemma SelectsRequestExactly(d: Value, path: Option<string>)
    ensures ApplyOutputPath(d, path).Ok? && ApplyOutputPath(d, path).value.Waiting?
        <==> Rooted(path) && Finds(d, Address(path))
  {
    if Rooted(path) {
      hide ApplyOutputPath, Address, WrapParts, GetParts;
      SelectedFrom(d, path);
      var qs := Address(path);
      if qs != [] && WrapParts(qs, d).Ok? { WrappedIsNoRequest(qs, d); }
    }
  }

  lemma FinishPausesExactly(base: Base, d: Value, w: Value)
    requires w.Waiting?
    ensures var r := Finish(base, d, w, None); (r.Result? && r.output.Waiting?) <==> Pauses(base, d)
  {
    if Rooted(base.resultPath) {
      hide ApplyResultPath, ApplyOutputPath, Address, SetParts, Settable, Lands, Finds;
      var ps := Address(base.resultPath);
      PlacedAt(d, w, base.resultPath);
      SetSucceeds(d, ps, w);
      if Settable(ps) {
        var placed := SetParts(d, ps, w).value;
        SelectsRequestExactly(placed, base.outputPath);
        if Rooted(base.outputPath) { FoundExactlyWhereItLands(d, ps, Address(base.outputPath), w); }
      }
    }
  }

  /** One of the two paths gives an error, and not a panic. */
  predicate PathsFail(base: Base, d: Value, w: Value) {
    var placed := ApplyResultPath(d, w, base.resultPath);
    placed.Err? || (placed.Ok? && ApplyOutputPath(placed.value, base.outputPath).Err?)
  }

  lemma FinishFailsExactly(base: Base, d: Value, w: Value)
    ensures var r := Finish(base, d, w, None); (r.Result? && r.error.Some?) <==> PathsFail(base, d, w)
    ensures var r := Finish(base, d, w, None); r.Result? && r.error.Some? ==> r.output == Null
  {
    hide ApplyResultPath, ApplyOutputPath;
  }

  /** A Message state that still has to wait pauses the run exactly when its OutputPath reads a pause
      request where its ResultPath has put one - or, for an input that is itself a pause request,
      when the paths fail, since an error hands the input on. Otherwise the request is lost in a
      document, and the run ends at once: it fails, or - if the state is marked as an end - may
      succeed without the message. */
  lemma MessagePausesExactly(m: Definition, env: Env, step: nat, e: Exec)
    requires e.currentState in m && AboutToWait(m[e.currentState], e.input)
    ensures var s, t := m[e.currentState], Turn(m, env, step, e);
            var w := PauseRequest(s, e.input);
            var pauses := Pauses(s.base, e.input) || (e.input.Waiting? && PathsFail(s.base, e.input, w));
            && t.Stop?
            && (t.exec.status == PAUSED <==> pauses)
            && (!pauses ==> t.exec.status == FAILED || (IsEnd(s) && t.exec.status == SUCCEEDED))
  {
    hide Execute, Finish, MergeInputs, Pauses, AboutToWait, PathsFail;
    var s := m[e.currentState];
    var w := PauseRequest(s, e.input);
    RequestIsFinished(env, step, s, e.input);
    FinishPausesExactly(s.base, e.input, w);
    FinishFailsExactly(s.base, e.input, w);
    FinishNext(s.base, e.input, w, None);
    PanicNote(env, step, s, e.input);
  }

  /** A run that does not begin with a pause request as its input never has one as the input of a
      state: the last case above does not arise. */
  lemma {:induction false} InputsAreDocuments(m: Definition, env: Env, step: nat, deadline: nat, e: Exec)
    requires step <= deadline && !e.input.Waiting?
    ensures var done := RunFrom(m, env, step, deadline, e).0;
            && e.history <= done.history
            && (forall i :: 0 <= i < |Added(e, done)| ==> !Added(e, done)[i].input.Waiting?)
            && !done.input.Waiting?
    decreases deadline - step
  {
    hide Turn;
    var done := RunFrom(m, env, step, deadline, e).0;
    if step < deadline {
      TurnAdds(m, env, step, e);
      TurnKeepsDocument(m, env, step, e);
      var t := Turn(m, env, step, e);
      if t.Continue? {
        InputsAreDocuments(m, env, step + 1, deadline, t.exec);
        AddedChain(e, t.exec, done);
      }
    }
  }

  lemma TurnKeepsDocument(m: Definition, env: Env, step: nat, e: Exec)
    requires !e.input.Waiting?
    ensures var t := Turn(m, env, step, e);
            && !t.exec.input.Waiting? && e.history <= t.exec.history
            && forall i :: 0 <= i < |Added(e, t.exec)| ==> !Added(e, t.exec)[i].input.Waiting?
  {
    hide Guarded, MergeInputs;
    TurnAdds(m, env, step, e);
    if e.currentState in m {
      var r := Guarded(env, step, m[e.currentState], e.input);
      MergeInputsIsOverlay(e.input, r.output);
    }
  }

  lemma PanicNote(env: Env, step: nat, s: State, input: Value)
    ensures Execute(env, step, s, input).Panicked? ==>
              Guarded(env, step, s, input).error.Some? && !Guarded(env, step, s, input).output.Waiting?
  {
    hide Execute, MergeInputs;
    var note := Obj(map[PanicKey(s.base.name) := Obj(map["error" := env.panicValue(step)])]);
    MergeInputsIsOverlay(input, note);
  }

  /** The same for paths at the root, whatever the input: with an OutputPath at the root the run
      pauses exactly when the ResultPath is at the root too; with the ResultPath at the root and an
      OutputPath below it, the request is wrapped and the run never pauses. */
  lemma WaitingPausesExactlyAtTheRoot(m: Definition, env: Env, step: nat, e: Exec)
    requires e.currentState in m && AboutToWait(m[e.currentState], e.input)
    requires var base := m[e.currentState].base;
             && Rooted(base.resultPath) && Settable(Address(base.resultPath))
             && Rooted(base.outputPath) && Settable(Address(base.outputPath))
             && (Address(base.resultPath) == [] || Address(base.outputPath) == [])
    ensures var s, t := m[e.currentState], Turn(m, env, step, e);
            t.Stop? && t.exec.status ==
              if Address(s.base.resultPath) == [] && Address(s.base.outputPath) == [] then PAUSED
              else if IsEnd(s) then SUCCEEDED else FAILED
  {
    hide Execute, MergeInputs, ApplyResultPath, ApplyOutputPath, Address, Settable, AboutToWait, SetParts, WrapParts;
    var s := m[e.currentState];
    var w := PauseRequest(s, e.input);
    RequestIsFinished(env, step, s, e.input);
    var ps, qs := Address(s.base.resultPath), Address(s.base.outputPath);
    PlacedAt(e.input, w, s.base.resultPath);
    SetSucceeds(e.input, ps, w);
    var placed := SetParts(e.input, ps, w).value;
    SelectedFrom(placed, s.base.outputPath);
    if ps == [] {
      RootPlaces(e.input, w);
      RequestIsUnreadable(w, qs);
      if qs != [] {
        WrapSucceeds(qs, w);
        WrappedIsNoRequest(qs, w);
      }
    } else {
      BuriedIsNotFound(e.input, ps, w);
    }
  }

  lemma WrapSucceeds(ps: seq<string>, v: Value)
    requires Settable(ps)
    ensures WrapParts(ps, v).Ok?
  {
    SetSucceeds(Null, ps, v);
  }

  lemma RequestIsUnreadable(w: Value, qs: seq<string>)
    requires w.Waiting?
    ensures if qs == [] then GetParts(w, qs) == Ok(w) else GetParts(w, qs).Err?
  {
  }

  lemma RootPlaces(d: Value, v: Value)
    requires v.Waiting?
    ensures SetParts(d, [], v) == Ok(v)
  {
  }

  /* ---------- success ---------- */

  /** The last record added is the success of an end state. */
  predicate EndedWell(m: Definition, rs: seq<Record>) {
    && |rs| > 0
    && var last := rs[|rs| - 1];
       last.status == SUCCEEDED && last.stateName in m && IsEnd(m[last.stateName])
  }

  lemma TurnSucceedsExactly(m: Definition, env: Env, step: nat, e: Exec)
    ensures var t := Turn(m, env, step, e);
            && e.history <= t.exec.history
            && (t.Stop? ==> (t.exec.status == SUCCEEDED <==> EndedWell(m, Added(e, t.exec))))
            && (t.Continue? ==> !EndedWell(m, Added(e, t.exec)))
  {
    hide MergeInputs, Guarded;
    TurnAdds(m, env, step, e);
    if e.currentState in m {
      var r := Guarded(env, step, m[e.currentState], e.input);
      MergeInputsIsOverlay(e.input, r.output);
    }
  }

  /** A run is SUCCEEDED exactly when the last state it executed is an end state that returned
      without an error - a Fail state is as good as any. */
  lemma {:induction false} RunSucceedsExactly(m: Definition, env: Env, step: nat, deadline: nat, e: Exec)
    requires step <= deadline
    ensures var done := RunFrom(m, env, step, deadline, e).0;
            e.history <= done.history && (done.status == SUCCEEDED <==> EndedWell(m, Added(e, done)) )
    decreases deadline - step
  {
    hide Turn, EndedWell;
    var done := RunFrom(m, env, step, deadline, e).0;
    if step == deadline {
      NothingEnded(m, Added(e, done));
    } else {
      TurnSucceedsExactly(m, env, step, e);
      var t := Turn(m, env, step, e);
      if t.Continue? {
        RunSucceedsExactly(m, env, step + 1, deadline, t.exec);
        AddedChain(e, t.exec, done);
        EndedLater(m, Added(e, t.exec), Added(t.exec, done));
      }
    }
  }

  lemma NothingEnded(m: Definition, rs: seq<Record>)
    requires rs == []
    ensures !EndedWell(m, rs)
  {
  }

  lemma EndedLater(m: Definition, first: seq<Record>, second: seq<Record>)
    requires !EndedWell(m, first)
    ensures EndedWell(m, first + second) <==> EndedWell(m, second)
  {
    if second == [] { assert first + second == first; }
  }

  /** A Fail state hands its input back without an error, so the run ends there as a success - or
      pauses, should the input itself be a pause request. */
  lemma FailStateSucceeds(m: Definition, env: Env, step: nat, e: Exec)
    requires e.currentState in m && m[e.currentState].Fail?
    ensures var t := Turn(m, env, step, e);
            t.Stop? && t.error.None? && t.exec.status == if e.input.Waiting? then PAUSED else SUCCEEDED
  {
  }
}
