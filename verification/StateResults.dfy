/** What executing a state yields: for every kind of state, which value is placed by ResultPath and
    selected by OutputPath, and where the run goes next (internal/states). */
module StateResults {
  import opened Outcomes
  import opened Json
  import opened JsonPath
  import opened ChoiceRules
  import opened TaskRetry
  import opened ParallelBranches
  import opened States

  /* ---------- ends and successors ---------- */

  /** Succeed and Fail always end a run, Choice never does, the others when they are marked so. */
  lemma EndsByKind(s: State)
    ensures s.Succeed? || s.Fail? ==> IsEnd(s)
    ensures s.Choice? ==> !IsEnd(s)
    ensures s.Pass? || s.Task? || s.Wait? || s.Parallel? || s.Message? ==> (IsEnd(s) <==> s.base.end)
  {
  }

  /** The successors by kind. Succeed and Fail have none, and a Choice does not use its Next; a
      listed name counts only when it is not empty, Next always. */
  lemma TargetsByKind(s: State, name: string)
    ensures s.Succeed? || s.Fail? ==> !Target(s, name)
    ensures s.Pass? || s.Wait? || s.Parallel? ==> (Target(s, name) <==> s.base.next == Some(name))
    ensures s.Choice? ==>
      (Target(s, name) <==> name != "" && ((exists i :: 0 <= i < |s.choices| && s.choices[i].next == name) || s.otherwise == Some(name)))
    ensures s.Task? ==>
      (Target(s, name) <==>
         s.base.next == Some(name) || (name != "" && exists i :: 0 <= i < |s.catches| && s.catches[i].next == name))
    ensures s.Message? ==>
      (Target(s, name) <==> s.base.next == Some(name) || (name != "" && (s.timeoutPath == Some(name) || name in s.catchTargets)))
  {
    if s.Choice? { ListedRule(s.choices, name); }
    if s.Task? { ListedCatch(s.catches, name); }
  }

  lemma ListedRule(rules: seq<Rule>, name: string)
    ensures name in RuleTargets(rules) <==> exists i :: 0 <= i < |rules| && rules[i].next == name
  {
    var names := RuleTargets(rules);
    if i :| 0 <= i < |rules| && rules[i].next == name { assert names[i] == name; }
    if name in names { var i :| 0 <= i < |names| && names[i] == name; }
  }

  lemma ListedCatch(catches: seq<CatchPolicy>, name: string)
    ensures name in CatchTargets(catches) <==> exists i :: 0 <= i < |catches| && catches[i].next == name
  {
    var names := CatchTargets(catches);
    if i :| 0 <= i < |catches| && catches[i].next == name { assert names[i] == name; }
    if name in names { var i :| 0 <= i < |names| && names[i] == name; }
  }

  /* ---------- the way of a result ---------- */

  /** A result takes this way through the paths of a state: placed into the state's own input by
      ResultPath, then selected by OutputPath. */
  ghost predicate Passes(base: Base, input: Value, result: Value, out: Value) {
    exists placed ::
      ApplyResultPath(input, result, base.resultPath) == Ok(placed) && ApplyOutputPath(placed, base.outputPath) == Ok(out)
  }

  /** Without paths a result comes out as it is. */
  lemma PassesWithoutPaths(base: Base, input: Value, result: Value)
    requires base.resultPath.None? && base.outputPath.None?
    ensures Passes(base, input, result, result)
  {
    assert ApplyResultPath(input, result, base.resultPath) == Ok(result);
  }

  lemma FinishPasses(base: Base, input: Value, result: Value, next: Option<string>, out: Value)
    requires Passes(base, input, result, out)
    ensures Finish(base, input, result, next) == Result(out, next, None)
  {
    hide ApplyResultPath, ApplyOutputPath;
  }

  /** A failing path ends the state with that error, no output and no next state. */
  lemma FinishFails(base: Base, input: Value, result: Value, next: Option<string>, e: string)
    requires var placed := ApplyResultPath(input, result, base.resultPath);
             placed == Err(e) || (placed.Ok? && ApplyOutputPath(placed.value, base.outputPath) == Err(e))
    ensures Finish(base, input, result, next) == Result(Null, None, Some(e))
  {
    hide ApplyResultPath, ApplyOutputPath;
  }

  /** An InputPath that fails ends every state but Fail with that error. */
  lemma InputPathFails(env: Env, step: nat, s: State, raw: Value, e: string)
    requires !s.Fail? && ApplyInputPath(raw, s.base.inputPath) == Err(e)
    ensures Execute(env, step, s, raw) == Result(Null, None, Some(e))
  {
    hide ApplyInputPath;
  }

  /** The state works on this input. */
  predicate Receives(s: State, raw: Value, input: Value) {
    ApplyInputPath(raw, s.base.inputPath) == Ok(input)
  }

  lemma ReceivesWithoutPath(s: State, raw: Value)
    requires s.base.inputPath.None?
    ensures Receives(s, raw, raw)
  {
  }

  /** What a template makes of a document; a missing template leaves it alone. */
  predicate Fills(env: Env, template: Option<Value>, document: Value, v: Value) {
    if template.None? then v == document else env.expand(template.value, Obj(map["$" := document])) == Ok(v)
  }

  /* ---------- Pass, Wait, Succeed, Fail ---------- */

  /** A Pass yields its fixed result, else its parameters, else its input. */
  lemma PassYields(env: Env, step: nat, s: State, raw: Value, input: Value, out: Value)
    requires s.Pass? && Receives(s, raw, input)
    requires s.fixedResult != Null ==> Passes(s.base, input, s.fixedResult, out)
    requires s.fixedResult == Null && s.parameters.Some? ==> Passes(s.base, input, s.parameters.value, out)
    requires s.fixedResult == Null && s.parameters.None? ==> Passes(s.base, input, input, out)
    ensures Execute(env, step, s, raw) == Result(out, s.base.next, None)
  {
    hide Finish, Passes, ApplyInputPath;
    FinishPasses(s.base, input, if s.fixedResult != Null then s.fixedResult else if s.parameters.Some? then s.parameters.value else input,
                 s.base.next, out);
  }

  lemma WaitYields(env: Env, step: nat, s: State, raw: Value, input: Value, out: Value)
    requires s.Wait? && Receives(s, raw, input) && env.wait(step, input).Ok? && Passes(s.base, input, input, out)
    ensures Execute(env, step, s, raw) == Result(out, s.base.next, None)
  {
    hide Finish, Passes, ApplyInputPath;
    FinishPasses(s.base, input, input, s.base.next, out);
  }

  lemma WaitFails(env: Env, step: nat, s: State, raw: Value, input: Value, e: string)
    requires s.Wait? && Receives(s, raw, input) && env.wait(step, input) == Err(e)
    ensures Execute(env, step, s, raw) == Result(Null, None, Some(e))
  {
    hide ApplyInputPath;
  }

  /** Succeed applies both paths to its input and has no successor; its ResultPath plays no part. */
  lemma SucceedYields(env: Env, step: nat, s: State, raw: Value, input: Value, out: Value)
    requires s.Succeed? && Receives(s, raw, input) && ApplyOutputPath(input, s.base.outputPath) == Ok(out)
    ensures Execute(env, step, s, raw) == Result(out, None, None)
  {
    hide ApplyInputPath, ApplyOutputPath;
  }

  lemma FailYields(env: Env, step: nat, s: State, raw: Value)
    requires s.Fail?
    ensures Execute(env, step, s, raw) == Result(raw, None, None)
  {
  }

  /* ---------- Task ---------- */

  /** Attempt k is the one that ends the retries of this Task. */
  ghost predicate EndsAt(env: Env, step: nat, s: State, taskInput: Value, k: nat)
    requires s.Task?
  {
    var h, cancelled := (a: nat) => env.handler(step, a, taskInput), (a: nat) => env.cancelled(step, a);
    && k <= MaxAttempts(s.retry) && Final(s.retry, h, cancelled, k)
    && forall i :: 0 <= i < k ==> !Final(s.retry, h, cancelled, i)
  }

  /** The answer of the handler on the filled-in parameters, through ResultSelector and the paths, is
      what a Task yields, and it moves on to its Next. */
  lemma TaskYields(env: Env, step: nat, s: State, raw: Value, input: Value, taskInput: Value, k: nat, v: Value, chosen: Value, out: Value)
    requires s.Task? && Receives(s, raw, input) && Fills(env, s.parameters, input, taskInput)
    requires EndsAt(env, step, s, taskInput, k) && env.handler(step, k, taskInput) == Ok(v)
    requires Fills(env, s.resultSelector, v, chosen) && Passes(s.base, input, chosen, out)
    ensures Execute(env, step, s, raw) == Result(out, s.base.next, None)
  {
    hide Finish, Passes, ApplyInputPath, MaxAttempts;
    var h, cancelled := (a: nat) => env.handler(step, a, taskInput), (a: nat) => env.cancelled(step, a);
    LastAttemptIs(s.retry, h, cancelled, k);
    assert FinalOutcome(s.retry, h, cancelled, k) == Ok(v);
    assert Expanded(env, s.parameters, input) == Ok(taskInput) && Expanded(env, s.resultSelector, v) == Ok(chosen);
    FinishPasses(s.base, input, chosen, s.base.next, out);
  }

  /** With no paths and no templates: the handler is given the input, and its answer is the output. */
  lemma PlainTaskYields(env: Env, step: nat, s: State, raw: Value, k: nat, v: Value)
    requires s.Task? && s.parameters.None? && s.resultSelector.None?
    requires s.base.inputPath.None? && s.base.resultPath.None? && s.base.outputPath.None?
    requires EndsAt(env, step, s, raw, k) && env.handler(step, k, raw) == Ok(v)
    ensures Execute(env, step, s, raw) == Result(v, s.base.next, None)
  {
    hide Execute, EndsAt, Passes;
    ReceivesWithoutPath(s, raw);
    PassesWithoutPaths(s.base, raw, v);
    TaskYields(env, step, s, raw, raw, raw, k, v, v, v);
  }

  /** A template that cannot be filled ends the Task with that error, before or after the call. */
  lemma TemplateFails(env: Env, step: nat, s: State, raw: Value, input: Value, e: string)
    requires s.Task? && Receives(s, raw, input)
    requires s.parameters.Some? && env.expand(s.parameters.value, Obj(map["$" := input])) == Err(e)
    ensures Execute(env, step, s, raw) == Result(Null, None, Some(e))
  {
    hide ApplyInputPath;
  }

  lemma SelectorFails(env: Env, step: nat, s: State, raw: Value, input: Value, taskInput: Value, k: nat, v: Value, e: string)
    requires s.Task? && Receives(s, raw, input) && Fills(env, s.parameters, input, taskInput)
    requires EndsAt(env, step, s, taskInput, k) && env.handler(step, k, taskInput) == Ok(v)
    requires s.resultSelector.Some? && env.expand(s.resultSelector.value, Obj(map["$" := v])) == Err(e)
    ensures Execute(env, step, s, raw) == Result(Null, None, Some(e))
  {
    hide Finish, ApplyInputPath, MaxAttempts;
    var h, cancelled := (a: nat) => env.handler(step, a, taskInput), (a: nat) => env.cancelled(step, a);
    LastAttemptIs(s.retry, h, cancelled, k);
    assert FinalOutcome(s.retry, h, cancelled, k) == Ok(v);
    assert Expanded(env, s.parameters, input) == Ok(taskInput);
  }

  /* ---------- Choice ---------- */

  /** The first rule that is true, with every earlier one false, decides where a Choice goes; its
      output is its input through the paths. */
  lemma ChoiceMoves(env: Env, step: nat, s: State, raw: Value, input: Value, k: nat, out: Value)
    requires s.Choice? && Receives(s, raw, input) && Passes(s.base, input, input, out)
    requires k < |s.choices| && AllFalse(env.compare, s.choices, input, k) && Eval(env.compare, s.choices[k], input) == Ok(true)
    ensures Execute(env, step, s, raw) == Result(out, Some(s.choices[k].next), None)
  {
    hide Finish, Passes, ApplyInputPath, Eval, FirstMatch;
    FirstMatchDecides(env.compare, s.choices, input, k);
    FinishPasses(s.base, input, input, Some(s.choices[k].next), out);
  }

  /** With every rule false a Choice goes to its Default, and fails without one. */
  lemma ChoiceDefaults(env: Env, step: nat, s: State, raw: Value, input: Value, out: Value)
    requires s.Choice? && Receives(s, raw, input) && AllFalse(env.compare, s.choices, input, |s.choices|)
    requires s.otherwise.Some? ==> Passes(s.base, input, input, out)
    ensures var r := Execute(env, step, s, raw);
            if s.otherwise.Some? then r == Result(out, s.otherwise, None)
            else r.Result? && r.output == Null && r.next.None? && r.error.Some?
  {
    hide Finish, Passes, ApplyInputPath, Eval, FirstMatch;
    FirstMatchDecides(env.compare, s.choices, input, |s.choices|);
    if s.otherwise.Some? { FinishPasses(s.base, input, input, s.otherwise, out); }
  }

  /** A rule that fails, with every earlier one false, fails the Choice. */
  lemma ChoiceFails(env: Env, step: nat, s: State, raw: Value, input: Value, k: nat, e: string)
    requires s.Choice? && Receives(s, raw, input)
    requires k < |s.choices| && AllFalse(env.compare, s.choices, input, k) && Eval(env.compare, s.choices[k], input) == Err(e)
    ensures Execute(env, step, s, raw) == Result(Null, None, Some(e))
  {
    hide Finish, ApplyInputPath, Eval, FirstMatch;
    FirstMatchDecides(env.compare, s.choices, input, k);
  }

  /* ---------- Parallel ---------- */

  /** When all branches finish, a Parallel yields their results as an array in branch order, through
      ResultSelector and the paths. */
  lemma ParallelYields(env: Env, step: nat, s: State, raw: Value, input: Value, results: seq<Value>, chosen: Value, out: Value)
    requires s.Parallel? && Receives(s, raw, input)
    requires var bs := env.branches(step, input);
             |bs| == |results| && forall i :: 0 <= i < |bs| ==> bs[i] == Finished(results[i])
    requires Fills(env, s.resultSelector, Arr(results), chosen) && Passes(s.base, input, chosen, out)
    ensures Execute(env, step, s, raw) == Result(out, s.base.next, None)
  {
    hide Finish, Passes, ApplyInputPath;
    var joined := Join(env.branches(step, input));
    assert joined.Ok? && joined.value == results;
    FinishPasses(s.base, input, chosen, s.base.next, out);
  }

  /** When some branch fails, a Parallel fails with the error of the lowest one. */
  lemma ParallelFails(env: Env, step: nat, s: State, raw: Value, input: Value, k: nat, e: string)
    requires s.Parallel? && Receives(s, raw, input)
    requires var bs := env.branches(step, input);
             k < |bs| && bs[k] == Failed(e) && forall i :: 0 <= i < k ==> bs[i].Finished?
    ensures Execute(env, step, s, raw) == Result(Null, None, Some(e))
  {
    hide Finish, ApplyInputPath;
  }

  /* ---------- Message ---------- */

  /** A timed-out Message yields its timeout result, placed into the input it received, and goes to
      its TimeoutPath; without one it fails, but still has that output. */
  lemma MessageTimesOut(env: Env, step: nat, s: State, raw: Value, input: Value, out: Value)
    requires s.Message? && Receives(s, raw, input) && input.Obj? && "__timeout_trigger___" + s.base.name in input.fields
    requires var notice := "Message state '" + s.base.name + "' timed out waiting for correlation";
             Passes(s.base, input, Obj(map["status" := Str("TIMEOUT"), "message" := Str(notice)]), out)
    ensures var r := Execute(env, step, s, raw);
            if s.timeoutPath.Some? then r == Result(out, s.timeoutPath, None)
            else r.Result? && r.output == out && r.next.None? && r.error.Some?
  {
    hide Finish, Passes, ApplyInputPath;
    FinishPasses(s.base, input, TimeoutResult(s.base.name), s.timeoutPath, out);
  }

  /** A Message that has received its message yields the data in it - or the whole input, when a
      MessagePath below the root is given - placed into the input before InputPath. */
  lemma MessageReceives(env: Env, step: nat, s: State, raw: Value, input: Value, body: Value, out: Value)
    requires s.Message? && Receives(s, raw, input) && input.Obj? && "__timeout_trigger___" + s.base.name !in input.fields
    requires var key := "__received_message___" + s.base.name;
             && key in input.fields && input.fields[key].Obj?
             && var message := input.fields[key].fields;
                if s.messagePath.Some? && s.messagePath.value != "$" then body == input
                else if "data" in message then body == message["data"] else body == Null
    requires Passes(s.base, raw, body, out)
    ensures Execute(env, step, s, raw) == Result(out, s.base.next, None)
  {
    hide Finish, Passes, ApplyInputPath;
    FinishPasses(s.base, raw, body, s.base.next, out);
  }
}
