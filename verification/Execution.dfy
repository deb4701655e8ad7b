/** Execution records as the engine updates them in place, the run loop over them, and the
    backwards scans of crash recovery. */
module Execution {
  import opened Outcomes
  import opened Json
  import opened States
  import opened Interpreter
  import opened RunTrace

  class Execution {
    var status: Status
    var input: Value
    var output: Value
    var error: Option<string>
    var currentState: string
    var history: seq<Record>
    var historySequenceNumber: int
    var recovery: Option<Recovery>

    ghost function View(): (e: Exec)
      reads this
    {
      Exec(status, input, output, error, currentState, history, historySequenceNumber, recovery)
    }

    /** NewContext: a running execution with an empty history. */
    constructor (startAt: string, input: Value)
      ensures View() == Exec(RUNNING, input, Null, None, startAt, [], 0, None)
    {
      status, this.input, output, error := RUNNING, input, Null, None;
      currentState, history, historySequenceNumber, recovery := startAt, [], 0, None;
    }

    method MarkFailed(message: string)
      modifies this`status, this`error
      ensures View() == old(View()).(status := FAILED, error := Some(message))
    {
      status := FAILED;
      error := Some(message);
    }

    method UpdateRecoveryMetadata(stateName: string, stateOutput: Value)
      modifies this`recovery
      ensures View() == old(View()).(recovery := Some(Recovery(stateName, stateOutput)))
    {
      recovery := Some(Recovery(stateName, stateOutput));
    }

    /** newStateHistory: takes the next sequence number for a record still to be finalised. */
    method NewStateHistory(stateName: string) returns (r: Record)
      modifies this`historySequenceNumber
      ensures View() == old(View()).(sequenceNumber := old(historySequenceNumber) + 1)
      ensures r == Record(stateName, RUNNING, input, Null, historySequenceNumber, None)
    {
      historySequenceNumber := historySequenceNumber + 1;
      r := Record(stateName, RUNNING, input, Null, historySequenceNumber, None);
    }

    /** handleWaitingState: record the wait and pause where we stand, keeping the input. */
    method HandleWaitingState(record: Record, stateOutput: Value, stateName: string)
      modifies this
      ensures View() == old(View()).(
        history := old(history) + [record.(status := WAITING, output := stateOutput)],
        status := PAUSED, currentState := stateName, output := old(input))
    {
      history := history + [record.(status := WAITING, output := stateOutput)];
      status := PAUSED;
      currentState := stateName;
      output := input;
    }
  }

  function FinalizeHistory(record: Record, output: Value, error: Option<string>): (r: Record) {
    record.(output := output, status := if error.Some? then FAILED else SUCCEEDED, error := error)
  }

  /** RunExecution. The context is found cancelled at iteration `deadline`. Beyond computing
      the run, every return leaves a terminal status, a consecutively numbered history, a path
      of the validator's graph, recovery metadata that a scan would find, and records that tell
      every state's answer, the context handed on, and the output. */
  method RunExecution(m: Definition, env: Env, deadline: nat, input: Value, exec: Execution)
    returns (error: Option<string>)
    modifies exec
    ensures (exec.View(), error) == Run(m, env, deadline, input, old(exec.View()))
    ensures Terminal(exec.status)
    ensures error.Some? <==> exec.status == FAILED || exec.status == CANCELLED
    ensures Numbered(old(exec.View()), exec.View())
    ensures Walked(m, old(exec.View()), exec.View())
    ensures old(exec.recovery == LastSuccess(exec.history)) ==> exec.recovery == LastSuccess(exec.history)
    ensures Told(m, env, 0, deadline, Entered(old(exec.View()), input), exec.View())
    ensures exec.status == SUCCEEDED ==> exec.history != [] && exec.output == exec.history[|exec.history| - 1].output
  {
    hide RunFrom, Walk, LastSuccess, Told;
    ghost var e0 := exec.View();
    ghost var e1 := Entered(e0, input);
    if input != Null { exec.input := input; }
    assert exec.View() == e1;
    error := RunLoop(m, env, deadline, exec);
    RunEnds(m, env, 0, deadline, e1);
    RunNumbers(m, env, 0, deadline, e1);
    RunWalks(m, env, 0, deadline, e1);
    RunIsTold(m, env, 0, deadline, e1);
    RunReturns(m, env, 0, deadline, e1);
    if e0.recovery == LastSuccess(e0.history) { RunKeepsRecovery(m, env, 0, deadline, e1); }
  }

  method RunLoop(m: Definition, env: Env, deadline: nat, exec: Execution) returns (error: Option<string>)
    modifies exec
    ensures (exec.View(), error) == RunFrom(m, env, 0, deadline, old(exec.View()))
  {
    hide Turn;
    var step := 0;
    while true
      invariant step <= deadline
      invariant RunFrom(m, env, 0, deadline, old(exec.View())) == RunFrom(m, env, step, deadline, exec.View())
      decreases deadline - step
    {
      if step == deadline {
        exec.status := CANCELLED;
        exec.error := Some("context canceled");
        return Some("context canceled");
      }
      var stopped;
      stopped, error := RunTurn(m, env, step, exec);
      if stopped { return; }
      step := step + 1;
    }
  }

  /** The body of the loop after the context check. */
  method RunTurn(m: Definition, env: Env, step: nat, exec: Execution) returns (stopped: bool, error: Option<string>)
    modifies exec
    ensures Turn(m, env, step, old(exec.View()))
         == if stopped then Stop(exec.View(), error) else Continue(exec.View())
  {
    hide Guarded, MergeInputs;
    var name := exec.currentState;
    if name !in m {
      exec.MarkFailed("state not found: " + name);
      return true, exec.error;
    }
    var state := m[name];
    var record := exec.NewStateHistory(name);
    var r := Guarded(env, step, state, exec.input);
    if r.output.Waiting? {
      exec.HandleWaitingState(record, r.output, name);
      return true, None;
    }
    exec.history := exec.history + [FinalizeHistory(record, r.output, r.error)];
    if r.error.Some? {
      exec.MarkFailed(r.error.value);
      return true, r.error;
    }
    exec.UpdateRecoveryMetadata(name, r.output);
    if IsEnd(state) {
      exec.status := SUCCEEDED;
      exec.output := r.output;
      return true, None;
    }
    if r.next.None? || r.next.value == "" {
      exec.MarkFailed("non-terminal state " + name + " did not provide next state");
      return true, exec.error;
    }
    exec.currentState := r.next.value;
    var merged := MergeInputs(exec.input, r.output);
    if !merged.Ok? { return true, Some("merge failed"); }
    exec.input := merged.value;
    return false, None;
  }

  /* ---------- recovery scans ---------- */

  lemma {:induction false} NoSuccessAfter(h: seq<Record>, i: nat)
    requires i <= |h| && forall j :: i <= j < |h| ==> h[j].status != SUCCEEDED
    ensures LastSuccess(h) == LastSuccess(h[..i])
    decreases |h| - i
  {
    if i < |h| {
      var front := h[..|h| - 1];
      NoSuccessAfter(front, i);
      assert front[..i] == h[..i];
    } else {
      assert h[..i] == h;
    }
  }

  /** findLastSuccessfulState: the empty name when nothing succeeded yet. */
  method FindLastSuccessfulState(history: seq<Record>) returns (name: string)
    ensures name == match LastSuccess(history) case None => "" case Some(r) => r.lastState
  {
    var i := |history|;
    while i > 0
      invariant 0 <= i <= |history|
      invariant forall j :: i <= j < |history| ==> history[j].status != SUCCEEDED
    {
      if history[i - 1].status == SUCCEEDED {
        NoSuccessAfter(history, i);
        return history[i - 1].stateName;
      }
      i := i - 1;
    }
    NoSuccessAfter(history, 0);
    return "";
  }

  predicate SucceededAs(r: Record, name: string) {
    r.stateName == name && r.status == SUCCEEDED
  }

  /** getLastSuccessfulStateOutput: the output of the latest success of that state, Null when it
      never succeeded; asked for the state the first scan found, the output of that very record. */
  method GetLastSuccessfulStateOutput(history: seq<Record>, stateName: string) returns (output: Value)
    ensures forall i :: 0 <= i < |history| ==>
              SucceededAs(history[i], stateName) ==>
              (forall j :: i < j < |history| ==> !SucceededAs(history[j], stateName)) ==>
              output == history[i].output
    ensures (forall j :: 0 <= j < |history| ==> !SucceededAs(history[j], stateName)) ==> output == Null
    ensures LastSuccess(history).Some? && stateName == LastSuccess(history).value.lastState
         ==> output == LastSuccess(history).value.lastOutput
  {
    var i := |history|;
    while i > 0
      invariant 0 <= i <= |history|
      invariant forall j :: i <= j < |history| ==> !SucceededAs(history[j], stateName)
    {
      if history[i - 1].stateName == stateName && history[i - 1].status == SUCCEEDED {
        if LastSuccess(history).Some? && stateName == LastSuccess(history).value.lastState {
          LatestWins(history, i - 1, stateName);
        }
        return history[i - 1].output;
      }
      i := i - 1;
    }
    if LastSuccess(history).Some? && stateName == LastSuccess(history).value.lastState {
      LatestExists(history);
    }
    return Null;
  }

  /** The record the scan stops at is one of the history. */
  lemma {:induction false} LatestExists(h: seq<Record>)
    requires LastSuccess(h).Some?
    ensures exists j :: 0 <= j < |h| && SucceededAs(h[j], LastSuccess(h).value.lastState)
  {
    if h[|h| - 1].status != SUCCEEDED {
      var front := h[..|h| - 1];
      LatestExists(front);
      var j :| 0 <= j < |front| && SucceededAs(front[j], LastSuccess(front).value.lastState);
      assert h[j] == front[j];
    }
  }

  /** With no later success of the same state, a success of that state is the latest one. */
  lemma {:induction false} LatestWins(h: seq<Record>, i: nat, name: string)
    requires i < |h| && SucceededAs(h[i], name)
    requires forall j :: i < j < |h| ==> !SucceededAs(h[j], name)
    requires LastSuccess(h).Some? && LastSuccess(h).value.lastState == name
    ensures LastSuccess(h).value.lastOutput == h[i].output
    decreases |h|
  {
    if i < |h| - 1 {
      var front := h[..|h| - 1];
      LatestWins(front, i, name);
    }
  }
}
