/** State definitions, the successor names the validator reads off them, and one execution
    of a state (internal/states). Everything outside the engine - task handlers, value
    comparisons, template expansion, waiting, Parallel branches - is an arbitrary function
    of the environment. */
module States {
  import opened Outcomes
  import opened Json
  import opened JsonPath
  import opened ChoiceRules
  import opened TaskRetry
  import opened ParallelBranches

  datatype Base = Base(
    name: string,
    next: Option<string>,
    end: bool,
    inputPath: Option<string>,
    resultPath: Option<string>,
    outputPath: Option<string>)

  datatype State =
    | Pass(base: Base, fixedResult: Value, parameters: Option<Value>)
    | Task(base: Base, parameters: Option<Value>, retry: seq<RetryPolicy>, catches: seq<CatchPolicy>,
           resultSelector: Option<Value>)
    | Choice(base: Base, choices: seq<Rule>, otherwise: Option<string>)
    | Wait(base: Base)
    | Succeed(base: Base)
    | Fail(base: Base)
    | Parallel(base: Base, resultSelector: Option<Value>)
    | Message(base: Base, correlationKey: string, correlationValuePath: Option<string>,
              timeoutPath: Option<string>, messagePath: Option<string>, catchTargets: seq<string>)

  type Definition = map<string, State>

  /* ---------- what the validator reads ---------- */

  predicate IsEnd(s: State) {
    s.Succeed? || s.Fail? || (!s.Choice? && s.base.end)
  }

  function GetNext(s: State): (n: Option<string>) {
    if s.Succeed? || s.Fail? || s.Choice? then None else s.base.next
  }

  function OptionToSeq(o: Option<string>): (r: seq<string>) {
    if o.Some? then [o.value] else []
  }

  /** The names a list of rules or catch policies leads to, in order. */
  function NamesOf<T>(items: seq<T>, next: T -> string): (r: seq<string>)
    ensures |r| == |items|
    ensures forall i :: 0 <= i < |items| ==> r[i] == next(items[i])
  {
    seq(|items|, i requires 0 <= i < |items| => next(items[i]))
  }

  function RuleTargets(rules: seq<Rule>): (r: seq<string>) {
    NamesOf(rules, (rule: Rule) => rule.next)
  }

  function CatchTargets(catches: seq<CatchPolicy>): (r: seq<string>) {
    NamesOf(catches, (policy: CatchPolicy) => policy.next)
  }

  /** getAllNextStateNames, through each type's GetNextStates. */
  function AllNextNames(s: State): (r: seq<string>) {
    match s
    case Choice(_, choices, otherwise) => RuleTargets(choices) + OptionToSeq(otherwise)
    case Task(base, _, _, catches, _) => OptionToSeq(base.next) + CatchTargets(catches)
    case Message(base, _, _, timeoutPath, _, catchTargets) =>
      OptionToSeq(base.next) + OptionToSeq(timeoutPath) + catchTargets + OptionToSeq(timeoutPath)
    case _ => OptionToSeq(GetNext(s))
  }

  /** The names both graph searches follow: every non-empty listed name, and Next as it is. */
  predicate Target(s: State, name: string) {
    (name != "" && name in AllNextNames(s)) || GetNext(s) == Some(name)
  }

  /* ---------- one execution of a state ---------- */

  /** The world outside the engine. The first argument of each is the step of the run, so a
      handler may answer differently every time it is asked. */
  datatype Env = Env(
    handler: (nat, nat, Value) -> Outcome<Value>,
    cancelled: (nat, nat) -> Option<string>,
    compare: Comparison,
    expand: (Value, Value) -> Outcome<Value>,
    wait: (nat, Value) -> Outcome<bool>,
    branches: (nat, Value) -> seq<Branch>,
    panicValue: nat -> Value)

  /** What Execute returns: output, next state and error, or a panic. */
  datatype Result = Result(output: Value, next: Option<string>, error: Option<string>) | Panicked

  function Failure<T>(o: Outcome<T>): (r: Result)
    requires !o.Ok?
  {
    if o.Err? then Result(Null, None, Some(o.error)) else Panicked
  }

  /** ResultPath, then OutputPath, then move on. */
  function Finish(base: Base, input: Value, result: Value, next: Option<string>): (r: Result) {
    var placed := ApplyResultPath(input, result, base.resultPath);
    if !placed.Ok? then Failure(placed) else
    var selected := ApplyOutputPath(placed.value, base.outputPath);
    if !selected.Ok? then Failure(selected) else
    Result(selected.value, next, None)
  }

  /** A template applied to a document, when there is one. */
  function Expanded(env: Env, template: Option<Value>, document: Value): (r: Outcome<Value>) {
    if template.None? then Ok(document)
    else env.expand(template.value, Obj(map["$" := document]))
  }

  function ExecuteTask(env: Env, step: nat, s: State, input: Value): (r: Result)
    requires s.Task?
  {
    var taskInput := Expanded(env, s.parameters, input);
    if !taskInput.Ok? then Failure(taskInput) else
    var outcome := Retried(s.retry, (k: nat) => env.handler(step, k, taskInput.value), (k: nat) => env.cancelled(step, k));
    match outcome
    case Panic => Panicked
    case Ok(value) =>
      var selected := Expanded(env, s.resultSelector, value);
      if !selected.Ok? then Failure(selected) else Finish(s.base, input, selected.value, s.base.next)
    case Err(e) =>
      var k := CatchIndex(s.catches, e);
      if k == |s.catches| then Failure(outcome) else
      var placed := ApplyResultPath(input, ErrorNote(e), s.catches[k].resultPath);
      if !placed.Ok? then Failure(placed) else Result(placed.value, Some(s.catches[k].next), None)
  }

  /** What a caught error looks like to the next state. */
  function ErrorNote(e: string): (v: Value) {
    Obj(map["Error" := Str(e), "Cause" := Str(e)])
  }

  /** Whatever error ends the retries - of the handler or of a cancelled wait - goes to the first
      catch policy that matches it, and to the caller when none does. */
  lemma FinalErrorIsCaught(env: Env, step: nat, s: State, input: Value, taskInput: Value, k: nat, j: nat)
    requires s.Task? && Expanded(env, s.parameters, input) == Ok(taskInput)
    requires var h, cancelled := (a: nat) => env.handler(step, a, taskInput), (a: nat) => env.cancelled(step, a);
             && k <= MaxAttempts(s.retry) && Final(s.retry, h, cancelled, k)
             && (forall i :: 0 <= i < k ==> !Final(s.retry, h, cancelled, i))
             && FinalOutcome(s.retry, h, cancelled, k).Err?
             && var e := FinalOutcome(s.retry, h, cancelled, k).error;
                j <= |s.catches|
                && (forall i :: 0 <= i < j ==> !ErrorMatches(e, s.catches[i].errorEquals))
                && (j < |s.catches| ==> ErrorMatches(e, s.catches[j].errorEquals))
    ensures var e := FinalOutcome(s.retry, (a: nat) => env.handler(step, a, taskInput), (a: nat) => env.cancelled(step, a), k).error;
            var r := ExecuteTask(env, step, s, input);
            if j == |s.catches| then r == Result(Null, None, Some(e))
            else
              var note := Obj(map["Error" := Str(e), "Cause" := Str(e)]);
              var placed := ApplyResultPath(input, note, s.catches[j].resultPath);
              r == if placed.Ok? then Result(placed.value, Some(s.catches[j].next), None) else Failure(placed)
  {
    hide ApplyResultPath, Expanded;
    var h, cancelled := (a: nat) => env.handler(step, a, taskInput), (a: nat) => env.cancelled(step, a);
    LastAttemptIs(s.retry, h, cancelled, k);
    var e := FinalOutcome(s.retry, h, cancelled, k).error;
    var first := CatchIndex(s.catches, e);
    assert !(first < j) && !(j < first);
  }

  function ExecuteChoice(env: Env, s: State, input: Value): (r: Result)
    requires s.Choice?
  {
    var k := FirstMatch(env.compare, s.choices, input);
    if !k.Ok? then Failure(k)
    else if k.value < |s.choices| then Finish(s.base, input, input, Some(s.choices[k.value].next))
    else if s.otherwise.Some? then Finish(s.base, input, input, s.otherwise)
    else Result(Null, None, Some("no choice rule matched and no default specified"))
  }

  function ExecuteParallel(env: Env, step: nat, s: State, input: Value): (r: Result)
    requires s.Parallel?
  {
    var joined := Join(env.branches(step, input));
    if !joined.Ok? then Failure(joined) else
    var selected := Expanded(env, s.resultSelector, Arr(joined.value));
    if !selected.Ok? then Failure(selected) else Finish(s.base, input, selected.value, s.base.next)
  }

  function TimeoutKey(name: string): (k: string) { "__timeout_trigger___" + name }
  function ReceivedKey(name: string): (k: string) { "__received_message___" + name }

  function TimeoutResult(name: string): (v: Value) {
    Obj(map["status" := Str("TIMEOUT"),
            "message" := Str("Message state '" + name + "' timed out waiting for correlation")])
  }

  /** The three phases of a Message state: timed out, message received, or about to pause. */
  function ExecuteMessage(s: State, original: Value, input: Value): (r: Result)
    requires s.Message?
  {
    var name := s.base.name;
    if input.Obj? && TimeoutKey(name) in input.fields then
      var finished := Finish(s.base, input, TimeoutResult(name), s.timeoutPath);
      if finished.Panicked? || finished.error.Some? || s.timeoutPath.Some? then finished
      else finished.(error := Some("message state '" + name + "' timed out"))
    else if input.Obj? && ReceivedKey(name) in input.fields && input.fields[ReceivedKey(name)].Obj? then
      var message := input.fields[ReceivedKey(name)].fields;
      var data := if "data" in message then message["data"] else Null;
      var body := if s.messagePath.Some? && s.messagePath.value != "$" then input else data;
      Finish(s.base, original, body, s.base.next)
    else
      var correlation := ApplyInputPath(input, s.correlationValuePath);
      if !correlation.Ok? then Failure(correlation) else
      Finish(s.base, original, Waiting(s.correlationKey, correlation.value), None)
  }

  function Execute(env: Env, step: nat, s: State, input: Value): (r: Result) {
    if s.Fail? then Result(input, None, None) else
    var selected := ApplyInputPath(input, s.base.inputPath);
    if !selected.Ok? then Failure(selected) else
    var v := selected.value;
    match s
    case Pass(base, fixedResult, parameters) =>
      Finish(base, v, if fixedResult != Null then fixedResult else if parameters.Some? then parameters.value else v, base.next)
    case Task(_, _, _, _, _) => ExecuteTask(env, step, s, v)
    case Choice(_, _, _) => ExecuteChoice(env, s, v)
    case Wait(base) =>
      var waited := env.wait(step, v);
      if !waited.Ok? then Failure(waited) else Finish(base, v, v, base.next)
    case Parallel(_, _) => ExecuteParallel(env, step, s, v)
    case Message(_, _, _, _, _, _) => ExecuteMessage(s, input, v)
    case Succeed(base) =>
      var output := ApplyOutputPath(v, base.outputPath);
      if !output.Ok? then Failure(output) else Result(output.value, None, None)
    case Fail(_) => Result(input, None, None)
  }

  lemma FinishNext(base: Base, input: Value, result: Value, next: Option<string>)
    ensures var r := Finish(base, input, result, next);
            r.Panicked? || (r.next == next && r.error.None?) || (r.next.None? && r.error.Some?)
  {
  }

  /** Whatever the environment does, a state moves on only to a name the validator's graph
      gives it: the simulation step between runs and the graph. */
  lemma ExecuteFollowsGraph(env: Env, step: nat, s: State, input: Value, name: string)
    requires Execute(env, step, s, input).Result?
    requires Execute(env, step, s, input).next == Some(name) && name != ""
    ensures Target(s, name)
  {
    var selected := ApplyInputPath(input, s.base.inputPath);
    if selected.Ok? {
      var v := selected.value;
      match s
      case Task(_, _, _, _, _) => TaskFollowsGraph(env, step, s, v, name);
      case Choice(_, _, _) => ChoiceFollowsGraph(env, s, v, name);
      case Message(_, _, _, _, _, _) => MessageFollowsGraph(s, input, v, name);
      case _ =>
    }
  }

  lemma TaskFollowsGraph(env: Env, step: nat, s: State, input: Value, name: string)
    requires s.Task? && ExecuteTask(env, step, s, input).Result?
    requires ExecuteTask(env, step, s, input).next == Some(name) && name != ""
    ensures Target(s, name)
  {
    var targets := CatchTargets(s.catches);
    var taskInput := Expanded(env, s.parameters, input);
    if taskInput.Ok? {
      var outcome := Retried(s.retry, (k: nat) => env.handler(step, k, taskInput.value), (k: nat) => env.cancelled(step, k));
      if outcome.Err? {
        var k := CatchIndex(s.catches, outcome.error);
        if k < |s.catches| { assert targets[k] == s.catches[k].next; }
      }
    }
  }

  lemma ChoiceFollowsGraph(env: Env, s: State, input: Value, name: string)
    requires s.Choice? && ExecuteChoice(env, s, input).Result?
    requires ExecuteChoice(env, s, input).next == Some(name) && name != ""
    ensures Target(s, name)
  {
    var targets := RuleTargets(s.choices);
    var k := FirstMatch(env.compare, s.choices, input);
    if k.Ok? && k.value < |s.choices| { assert targets[k.value] == s.choices[k.value].next; }
  }

  lemma MessageFollowsGraph(s: State, original: Value, input: Value, name: string)
    requires s.Message? && ExecuteMessage(s, original, input).Result?
    requires ExecuteMessage(s, original, input).next == Some(name) && name != ""
    ensures Some(name) == s.base.next || Some(name) == s.timeoutPath
    ensures Target(s, name)
  {
    var k := TimeoutKey(s.base.name);
    if input.Obj? && k in input.fields {
      FinishNext(s.base, input, TimeoutResult(s.base.name), s.timeoutPath);
      assert s.timeoutPath == Some(name);
      assert name in OptionToSeq(s.timeoutPath);
    }
  }
}
