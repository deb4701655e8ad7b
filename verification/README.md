# Workflow engine: a verified model

This project models four connected parts of a workflow engine that follows the Amazon States
Language, and proves what they promise.

1. **Micro-batch protocol** (`MicroBatch`, `DispatchSafety`, `BarrierSafety`, `MicroBatchTheorems`,
   `OutcomeSafety`, `WindowSafety`, `SnapshotSafety`, `Completion`, `Fairness`, `Barrier`, `Metrics`,
   `Dispatch`, `DispatchRefinement`). A dispatcher cuts a stored list into micro-batches with a
   cursor, per-batch markers and a Redis counter used as a fork-join barrier, while workers record
   outcomes and signal. One step is one Redis command or one Lua script; the commands of a pipeline
   are separate steps. The main results hold in every state any interleaving can reach, with the
   bulk dispatcher crashing between any two commands: nothing is enqueued twice, an open barrier is
   size minus signals, one last worker per micro-batch, every outcome recorded before the snapshot,
   exact totals, stored rates that are true fractions of recent outcomes, and completion under
   every fair schedule, up to the micro-batches that a crash cuts off. `Dispatch` is the same
   protocol seen as undisturbed handler calls, and `DispatchRefinement` proves that one call is a
   stretch of uninterrupted steps of the step system.
2. **Definition validator** (`Graph`, `Validator`). Two searches, one over a shared mutable map and
   one that copies its visited set per branch, each proved against plain path existence; the graph
   verdict is proved equivalent to a declarative notion of a sound definition.
3. **JSON path engine** (`PathSyntax`, `Json`, `JsonPath`, `JsonPathLaws`, `LensLaws`,
   `PauseRequests`). The character scanner, and lens laws of get, set, wrap and deep merge with
   the exact conditions under which they hold.
4. **Interpreter and states** (`States`, `StateResults`, `ChoiceRules`, `TaskRetry`,
   `ParallelBranches`, `ParallelRuns`, `Interpreter`, `RunTrace`, `Execution`). One execution of every kind of state, and the
   persistent run loop over it. Task handlers, value comparisons, template expansion, waiting and
   nested branches are arbitrary functions, so the results hold for all of them. The states a run
   visits form a path of the validator's graph, and the history tells the run: every answer, the
   context handed on, and the output.

`Outcomes` and `FiniteSets` hold shared vocabulary. Methods keep the loops and the in-place updates
of the code; each is proved against a function or predicate, and the laws are proved about that.

Where the code differs from what its names or comments suggest, the model follows the code:

- A "$" field shadows its object for reads, so writing a value and reading it back works exactly when
  no path part is "$" and no object on the way carries a "$" entry (`JsonPathLaws.SetReadsExactly`).
- Deep merge drops null entries, so a write removes null neighbours; it leaves a readable neighbour
  alone exactly when its entry is not null or is read through "$" (`JsonPathLaws.SetFrameExactly`).
- A write at an index replaces the whole array, so the other elements are lost
  (`LensLaws.IndexFrameExactly`).
- A Choice rule whose Variable is absent is false at once, also under a Not, so De Morgan and double
  negation hold for a rule with its own Variable exactly when it is not absent
  (`ChoiceRules.DeMorganExactly`, `ChoiceRules.DoubleNegation`).
- A retry limit of zero is passed over, so no limit prevents the first retry
  (`TaskRetry.FirstRetryIsFree`, `TaskRetry.CalculateMaxAttempts`).
- The bulk handler scales a task's index by the size in its input, not by the size it cut with
  (`Dispatch.BulkIndexIsPosition`).
- A Message state that has to wait pauses the run exactly when its OutputPath reads a pause request
  where its ResultPath has put one - both at the root, for one; other pairs of paths bury the request
  (`Interpreter.MessagePausesExactly`, `Interpreter.WaitingPausesExactlyAtTheRoot`).
- A Fail state returns no error and is an end state, so a run that reaches one with a JSON input is
  SUCCEEDED (`Interpreter.FailStateSucceeds`); a run is SUCCEEDED exactly when its last executed
  state is an end state without an error (`Interpreter.RunSucceedsExactly`).
- The validator's "no path to an end state" error can never be returned (`Validator.ValidateGraph`).
- Cleanup deletes the ID list but not the list of bulk inputs, and neither barriers nor markers
  (`DispatchRefinement.CleanFrom`).

## Model

| member | source | states |
|---|---|---|
| PathSyntax.SplitPath | internal/states/jsonpath.go:246-296 | the character scanner with its pending part and in-brackets flag computes the part-by-part splitting of every string |
| PathSyntax.SplitIsCanonical | internal/states/jsonpath.go:246-296 | for every string: no part is empty, every part is a name or a closed group, only the last may be an unclosed group |
| PathSyntax.SplitPrint | internal/states/jsonpath.go:246-296 | splitting undoes printing on every canonical list of parts |
| PathSyntax.SplitImage | internal/states/jsonpath.go:246-296 | a list of parts is the split of some string if and only if it is canonical |
| PathSyntax.SplitConserves | internal/states/jsonpath.go:246-296 | for every string the parts concatenate to the string minus its dots outside brackets |
| PathSyntax.AtoiDecimal | internal/states/jsonpath.go:98-102 | every non-negative 64-bit index reads back from its decimal text |
| PathSyntax.AtoiSigned | internal/states/jsonpath.go:98-102 | a sign in front of a printed number is read as one, and numbers beyond 64 bits are refused |
| PathSyntax.AtoiOnlyDigits | internal/states/jsonpath.go:98-102 | only digits behind an optional sign are a number |
| PathSyntax.PathRoundTrip | internal/states/jsonpath.go:60-106 | writing a path text from field names and indexes behind "$", parsing it as the engine does, and reading each part gives the same steps back |
| Json.MergeMaps | internal/states/jsonpath.go:299-331 | the two passes compute the recursive deep merge, in whatever order keys are iterated |
| Json.MergeKeeps | internal/states/jsonpath.go:299-331 | every non-null key of the first object survives a merge, with its value when the second does not set it |
| Json.MergeTakes | internal/states/jsonpath.go:299-331 | what the second object sets it decides, except that two objects merge in turn |
| JsonPathLaws.MergeReads | internal/states/jsonpath.go:299-331 | at any path of fields a value that is no object comes from the second document, and where that is silent the first one's value is still there |
| JsonPath.ParsePath | internal/states/jsonpath.go:60-64 | the root marker is trimmed, the rest split, and no part is empty, so no part is ever skipped |
| JsonPath.GetValue | internal/states/jsonpath.go:52-148 | the reading loop equals the recursive read, including errors and the panic on a non-object "$" entry |
| JsonPath.WrapLoop | internal/states/jsonpath.go:163-186 | the backwards loop builds the nested containers of the recursive definition, or fails where it fails |
| JsonPath.WrapValue | internal/states/jsonpath.go:204-243 | wrapping a value at a path string, error and panic cases included |
| JsonPath.MergeInto | internal/states/jsonpath.go:188-201 | two objects are merged, anything else is replaced |
| JsonPath.SetValue | internal/states/jsonpath.go:150-201 | writing at a path string: wrap, then overlay on the document |
| JsonPathLaws.ReadsProperPart | internal/states/jsonpath.go:52-90 | a read at a non-empty path yields a proper part of the document |
| JsonPathLaws.ReadsElement | internal/states/jsonpath.go:98-121 | in any document, one index further than a path to an array reads exactly the element of that index, or fails |
| JsonPathLaws.ReadsField | internal/states/jsonpath.go:124-148 | in any document, one field further than a path to an object reads exactly the entry of that name, through "$" when the object has it |
| JsonPathLaws.ReadsNothing | internal/states/jsonpath.go:98-148 | values of any other kind have no parts, and a failure stays one on every longer path |
| JsonPathLaws.WrittenPathReads | internal/states/jsonpath.go:52-148 | the same on path texts: reading one written step further gives the element or the entry it names |
| JsonPathLaws.WrapReads | internal/states/jsonpath.go:204-243 | a wrapped value reads back at its own path if and only if no part is "$" |
| JsonPathLaws.SetSucceeds | internal/states/jsonpath.go:150-201 | a write succeeds if and only if every index on the path parses, is not negative and is below the largest integer |
| JsonPathLaws.SetFails | internal/states/jsonpath.go:163-186 | the last bad index decides how a write fails: an error when it is no number, a panic when it is negative or too large |
| JsonPathLaws.SetReads | internal/states/jsonpath.go:150-201 | get after set: the value comes back, deep-merged into the object already there |
| JsonPathLaws.SetReadsExactly | internal/states/jsonpath.go:124-201 | get after set holds for every non-null value if and only if no part is "$" and no object on the way carries "$" |
| JsonPathLaws.ShadowHides | internal/states/jsonpath.go:124-138 | below a "$" entry the read-back does not depend on what was written |
| JsonPathLaws.DollarHides | internal/states/jsonpath.go:124-138 | with a "$" part on the path, two different written strings never both read back |
| JsonPathLaws.SetFrame | internal/states/jsonpath.go:150-201 | frame law: a write below pre.f leaves every read below pre.g unchanged, null values and failures included, when the entry at pre.g is not null or is read through a "$" entry |
| JsonPathLaws.SetFrameExactly | internal/states/jsonpath.go:150-201 | for a readable neighbour the frame law holds if and only if its entry is not null or is read through a "$" entry |
| JsonPathLaws.NullEntryVanishes | internal/states/jsonpath.go:299-331 | at any depth, a null entry beside a write can be read before and is missing after, unless read through a "$" entry |
| JsonPathLaws.DollarWriteDisturbs | internal/states/jsonpath.go:124-138 | in any object without "$", a write through "$" makes every field it does not continue with unreadable |
| LensLaws.LastWriteWins | internal/states/jsonpath.go:150-201 | set after set: a write that is not an object, or goes through an index, makes an earlier write at the same path invisible |
| LensLaws.LastWriteWinsExactly | internal/states/jsonpath.go:150-201 | it does so for every earlier write if and only if it is not an object or the path has an index; objects accumulate |
| LensLaws.PutBackExactly | internal/states/jsonpath.go:150-201 | setting back what was read at a path of fields gives the same document if and only if no object on the way or inside the value has a null entry |
| LensLaws.IndexWriteReplaces | internal/states/jsonpath.go:171-186 | a write below an index replaces the whole array: earlier elements are null and later ones are gone |
| LensLaws.IndexFrameExactly | internal/states/jsonpath.go:171-186 | another element keeps its value if and only if it comes before the written one and was null |
| JsonPathLaws.ResultPathReadsBack | internal/states/jsonpath.go:20-36 | a result placed by ResultPath is what InputPath selects again at the same path |
| JsonPathLaws.WrittenPathReadsBackExactly | internal/states/jsonpath.go:52-201 | get after set on path texts: holds for every non-null value if and only if no step is named "$" and no object on the way carries "$" |
| JsonPathLaws.OutputPathSelectsOrWraps | internal/states/jsonpath.go:39-49 | OutputPath gives the value at the path, or else a document whose path selects the whole output (exactly when no part is "$") |
| ChoiceRules.EvaluateAnd | internal/states/choice.go:149-161 | the And loop is the left-to-right short-circuit conjunction, errors included |
| ChoiceRules.EvaluateOr | internal/states/choice.go:164-176 | the Or loop is the left-to-right short-circuit disjunction, errors included |
| ChoiceRules.TypeChecksDecide | internal/states/choice.go:180-308 | each type check answers by the kind of the value the variable reads, a variable that cannot be read counting as null |
| ChoiceRules.ComparisonDecides | internal/states/choice.go:110-146 | a comparison sees the value of its variable and is false when there is none |
| ChoiceRules.ContextDecides | internal/states/choice.go:110-146 | a panicking read panics the rule; without a variable the rule looks at the whole input |
| ChoiceRules.CompoundsHavePrecedence | internal/states/choice.go:128-146 | in a rule with several compounds And decides before Or, and Or before Not |
| ChoiceRules.NegateAll | internal/states/choice.go:149-176 | negating a conjunction is the disjunction of the negations and conversely, errors included |
| ChoiceRules.DeMorgan | internal/states/choice.go:110-176 | with the Variable on the outer rule, Not(And rs) and Or(Not each) agree, and dually, for every list of rules and input, errors and panics included |
| ChoiceRules.DeMorganExactly | internal/states/choice.go:110-176 | with a Variable and operator on the negated compound itself, both laws hold if and only if that Variable is not absent |
| ChoiceRules.AbsentVariable | internal/states/choice.go:110-126 | an input where they fail: "$.x" is absent from the empty document |
| ChoiceRules.DoubleNegation | internal/states/choice.go:110-146 | Not(Not r) with a Variable on the inner Not evaluates r in that context, errors and panics included, and agrees with r under that Variable if and only if it is not absent |
| ChoiceRules.PlainDoubleNegation | internal/states/choice.go:110-146 | two Nots without a Variable cancel for every rule and input |
| ChoiceRules.FirstMatchDecides | internal/states/choice.go:57-107 | the least rule that is not false decides: chosen when true, its error reported otherwise |
| ChoiceRules.FirstMatchIsLeast | internal/states/choice.go:57-107 | a chosen rule is true and every earlier one is false and error-free |
| ChoiceRules.SelectRule | internal/states/choice.go:65-107 | the selection loop computes that first match |
| TaskRetry.CalculateMaxAttempts | internal/states/task.go:351-360 | the value of the first positive limit with none before it, or one when no limit is positive |
| TaskRetry.MaxAttemptsIs | internal/states/task.go:351-360 | the same of the specification, for every list of policies |
| TaskRetry.FirstRetryIsFree | internal/states/task.go:351-375 | no limit, zero included, prevents the first retry: it happens if and only if some policy matches the error and the wait is not cancelled |
| TaskRetry.ExecuteWithRetry | internal/states/task.go:319-348 | at most limit + 1 handler calls, the exit after the loop is never taken, no error is reported as handled, and each wait is the backoff of the errors so far |
| TaskRetry.LastAttemptIs | internal/states/task.go:319-375 | the outcome is that of the only attempt that is final with nothing final before it |
| TaskRetry.BackoffIsCappedPower | internal/states/task.go:379-401 | with one policy, rate at least 1 and a non-negative cap, the k-th wait is min(cap, rate^k) seconds |
| TaskRetry.NextBackoffIs | internal/states/task.go:379-401 | the first policy that matches stretches the wait, wherever it stands in the list; without a match the wait stays |
| TaskRetry.StretchIs | internal/states/task.go:379-401 | a rate of at most one changes nothing, a larger one multiplies, and a cap bounds the wait |
| TaskRetry.CalculateBackoff | internal/states/task.go:379-401 | the search loop computes that wait |
| TaskRetry.MatchError | internal/states/task.go:488-496 | an error matches when some pattern is "States.ALL" or the error itself |
| TaskRetry.RetriedAnswers | internal/states/task.go:319-348 | the outcome is the answer of the attempt that is final, or the context's error when the wait after it is cancelled |
| TaskRetry.KeepsFailing | internal/states/task.go:319-375 | a handler that keeps failing with matched errors is called exactly limit + 1 times |
| TaskRetry.CatchIndex | internal/states/task.go:426-437 | the first catch policy that matches the error, with no match before it |
| TaskRetry.FindCatch | internal/states/task.go:426-437 | the search loop finds that policy |
| ParallelBranches.FirstFailure | internal/states/parallel.go:283-288 | the lowest-indexed failing branch |
| ParallelBranches.Join | internal/states/parallel.go:283-291 | results in branch order if and only if none failed, else the error of the lowest-indexed failing branch |
| ParallelBranches.ScheduleCovers | internal/states/parallel.go:265-281 | an order in which every goroutine finishes once covers every branch |
| ParallelBranches.RunBranches | internal/states/parallel.go:259-291 | whatever order the slots are written in, fan-in gives the same joined outcome |
| ParallelRuns.ExecuteBranch | internal/states/parallel.go:319-353 | the branch loop equals iterating one step, with missing states, errors, ends and cancellation |
| ParallelRuns.StandsAt | internal/states/parallel.go:319-353 | along any way through the branch's states, each given the output of the one before, the branch stands at the last of them |
| ParallelRuns.BranchEnds | internal/states/parallel.go:319-353 | an end state or one without a next finishes the branch with its output; an error or a missing state fails it |
| ParallelRuns.BranchReturns | internal/states/parallel.go:319-353 | the branch returns the output of the end state its way leads to |
| ParallelRuns.BranchesDoNotInterfere | internal/states/parallel.go:265-281 | in any interleaving each branch is exactly as far as it would be alone after its own turns |
| ParallelRuns.StopsOneWay | internal/states/parallel.go:319-353 | a branch that stops has one outcome |
| ParallelRuns.SlotsAgree | internal/states/parallel.go:251-291 | two interleavings that let every branch finish leave the same outcomes, those of the branches run alone, and join alike |
| ParallelRuns.ScheduleIndependent | internal/states/parallel.go:251-316 | executing a Parallel state gives the same result for all complete interleavings of its branches, and reports the error of the lowest branch that fails |
| States.FinalErrorIsCaught | internal/states/task.go:414-455 | the error that ends the retries goes to the first matching catch policy, noted at its ResultPath, and to the caller when none matches |
| StateResults.TaskYields | internal/states/task.go:266-309 | a Task yields the answer of the final attempt on the filled-in parameters, through ResultSelector, ResultPath into its own input, and OutputPath, and moves to its Next |
| StateResults.PlainTaskYields | internal/states/task.go:266-309 | without paths and templates the handler is given the input and its answer is the output |
| StateResults.TemplateFails | internal/states/task.go:287-308 | parameters that cannot be filled in fail the Task before any call |
| StateResults.SelectorFails | internal/states/task.go:458-471 | a ResultSelector that cannot be filled in fails the Task |
| StateResults.ChoiceMoves | internal/states/choice.go:57-87 | a Choice moves to the Next of the first true rule, every earlier one being false, with its input through the paths |
| StateResults.ChoiceDefaults | internal/states/choice.go:89-107 | with every rule false it moves to its Default, and fails without one |
| StateResults.ChoiceFails | internal/states/choice.go:66-72 | a rule that fails, every earlier one being false, fails the Choice |
| StateResults.ParallelYields | internal/states/parallel.go:283-316 | a Parallel yields the results in branch order through ResultSelector and the paths |
| StateResults.ParallelFails | internal/states/parallel.go:283-288 | it fails with the error of the lowest failing branch |
| StateResults.PassYields | internal/states/pass.go:58-121 | a Pass yields its fixed result, else its parameters, else its input, through the paths |
| StateResults.WaitYields | internal/states/wait.go:74-95 | a Wait yields its input through the paths |
| StateResults.WaitFails | internal/states/wait.go:74-95 | a Wait that is interrupted fails with that error |
| StateResults.SucceedYields | internal/states/succeed.go:15-31 | a Succeed yields its input through InputPath and OutputPath and has no successor |
| StateResults.FailYields | internal/states/fail.go:19-30 | a Fail hands its input back without an error |
| StateResults.MessageTimesOut | internal/states/message.go:213-249 | a timed-out Message yields the timeout notice through the paths and goes to its TimeoutPath, or fails with that output |
| StateResults.MessageReceives | internal/states/message.go:176-210 | a Message that has its message yields the data in it, or the whole input with a MessagePath, placed into the input before InputPath |
| StateResults.InputPathFails | internal/states/task.go:287-296 | an InputPath that fails ends every state but Fail with that error |
| StateResults.EndsByKind | internal/states/succeed.go:39-41 | Succeed and Fail always end a run, Choice never, the others when marked so |
| StateResults.TargetsByKind | internal/validator/validator.go:260-290 | the successors of each kind of state, exactly |
| States.TaskFollowsGraph | internal/states/task.go:426-485 | a Task moves on only to its Next or to a catch target the graph lists |
| States.ChoiceFollowsGraph | internal/states/choice.go:57-107 | a Choice moves on only to a rule's Next or to the Default the graph lists |
| States.MessageFollowsGraph | internal/states/message.go:92-249 | a Message moves on only to its Next or its TimeoutPath, both names of the graph |
| States.ExecuteFollowsGraph | internal/validator/validator.go:260-290 | for every kind of state, every environment and every input, the next state is a successor in the validator's graph |
| Graph.ReachesStep | internal/validator/validator.go:157-186 | an edge followed by a path is a path |
| Graph.ClosedUnderPath | internal/validator/validator.go:157-186 | a set closed under edges contains everything its members reach |
| Validator.MarkReachable | internal/validator/validator.go:157-186 | the recursion over the shared map only adds, adds only reachable names, and closes what it adds under edges |
| Validator.ExploredFromNothing | internal/validator/validator.go:157-186 | from an empty map exactly the names reachable through non-end states are marked, with cycles and dangling names |
| Validator.CollectTargets | internal/validator/validator.go:228-243 | the collected set is exactly the successors of the state |
| Validator.CanReachAnyEndState | internal/validator/validator.go:209-257 | the copying search terminates and is true if and only if some path avoids the visited names and reaches an end state |
| Validator.EscapeWithoutReturn | internal/validator/validator.go:209-257 | a path to an end implies one from a successor that never comes back |
| Validator.EscapeIsReach | internal/validator/validator.go:209-257 | with the full list of end states, that is reaching an end in the engine's own graph |
| Validator.ValidateCyclesHaveExits | internal/validator/validator.go:190-205 | accepts if and only if every state reaches an end; otherwise names one that does not |
| Validator.CollectEndStates | internal/validator/validator.go:118-126 | the list holds exactly the end states |
| Validator.FindUnreachable | internal/validator/validator.go:111-116 | names a state that is not marked, if and only if there is one |
| Validator.ValidateGraph | internal/validator/validator.go:106-153 | accepts if and only if every state is reachable, some state ends, and every state reaches an end; the reported name is a real culprit; the third check cannot fail |
| Validator.Validate | internal/validator/validator.go:24-80 | accepts if and only if start, per-state checks, Next references, graph and timeout are all in order |
| Interpreter.MergeInputsIsOverlay | pkg/statemachine/persistent/persistent.go:545-560 | merging at "$." never fails and is exactly the deep merge of two objects |
| Interpreter.RunEnds | pkg/statemachine/persistent/persistent.go:160-241 | every return leaves SUCCEEDED, FAILED, CANCELLED or PAUSED, with an error exactly for the middle two; the merge-error exit is unreachable |
| Interpreter.TurnAdds | pkg/statemachine/persistent/persistent.go:160-260 | one iteration appends one record of the current state, or none when it is missing |
| Interpreter.RunNumbers | pkg/statemachine/persistent/persistent.go:251-260 | history only grows and new records are numbered consecutively |
| Interpreter.RunWalks | pkg/statemachine/persistent/persistent.go:160-228 | for any handlers the visited states form a path in the validator's graph |
| Interpreter.AcceptedRunsCanEnd | pkg/statemachine/persistent/persistent.go:160-228 | in every run of an accepted definition each visited state is reachable from the start and still has a path to an end state |
| Interpreter.RunKeepsRecovery | pkg/statemachine/persistent/persistent.go:189-202 | the metadata kept step by step equals what a backwards scan of the history finds |
| Interpreter.RunKeepsContext | pkg/statemachine/persistent/persistent.go:220-226 | while outputs are objects every non-null input key stays present and non-null; a key no output sets keeps its value |
| PauseRequests.FoundExactlyWhereItLands | internal/states/jsonpath.go:52-201 | after writing a pause request into any document at one path, another path finds one if and only if a check on the two paths and the old document says so |
| PauseRequests.LandsOnItself | internal/states/jsonpath.go:52-201 | the path that wrote the request finds it where no object on the way carries "$", and in plain JSON only there |
| Interpreter.MessagePausesExactly | internal/states/message.go:120-173 | for every input and every pair of paths, a Message that must wait pauses the run if and only if its OutputPath reads a request where its ResultPath has put one, or the input is itself a request and a path fails; otherwise the run fails, or succeeds if the state is an end |
| Interpreter.InputsAreDocuments | pkg/statemachine/persistent/persistent.go:160-228 | a run whose input is not a pause request never has one as the input of a state |
| Interpreter.WaitingPausesExactlyAtTheRoot | internal/states/message.go:120-173 | with one of the two paths at the root, whatever the input: the run pauses if and only if both are, and otherwise ends at once |
| Interpreter.RunSucceedsExactly | pkg/statemachine/persistent/persistent.go:160-228 | a run is SUCCEEDED if and only if the last state it executed is an end state that returned no error |
| RunTrace.GuardedAnswers | pkg/statemachine/persistent/persistent.go:263-293 | an error without output hands the input on, and a panic is an error whose output is the input merged with a note |
| RunTrace.RunIsTold | pkg/statemachine/persistent/persistent.go:160-260 | every record holds its state's answer on its input, the next record works on that input with the output laid over it, and status, output and position of the run follow from the records |
| RunTrace.RunReturns | pkg/statemachine/persistent/persistent.go:204-210 | a run that succeeds returns the output of its last state, one that pauses its input, any other leaves the output alone |
| RunTrace.RunBegins | pkg/statemachine/persistent/persistent.go:160-164 | the first state works on the input of the call, or on the stored one when there is none |
| RunTrace.SucceedEndsRun | internal/states/succeed.go:15-41 | a run that reaches a Succeed state ends SUCCEEDED with its input through the paths |
| Interpreter.FailStateSucceeds | internal/states/fail.go:19-30 | reaching a Fail state ends the run as SUCCEEDED, or PAUSED if the input itself is a pause request |
| Execution.Execution.constructor | pkg/execution/execution.go:74-84 | a new execution is RUNNING at the start with an empty history |
| Execution.Execution.MarkFailed | pkg/execution/execution.go:53-56 | sets status and error and nothing else |
| Execution.Execution.UpdateRecoveryMetadata | pkg/execution/execution.go:173-179 | records the last successful state and output and nothing else |
| Execution.Execution.NewStateHistory | pkg/statemachine/persistent/persistent.go:251-260 | takes the next sequence number and opens a record on the current input |
| Execution.Execution.HandleWaitingState | pkg/statemachine/persistent/persistent.go:301-352 | appends the waiting record, pauses where it stands, and keeps the input as output |
| Execution.RunTurn | pkg/statemachine/persistent/persistent.go:167-227 | the in-place loop body has the effect of one step of the specification |
| Execution.RunLoop | pkg/statemachine/persistent/persistent.go:166-228 | the loop computes the whole run |
| Execution.RunExecution | pkg/statemachine/persistent/persistent.go:160-228 | every return leaves a terminal status, consecutive numbering, a path of the graph, recovery metadata a scan would find, and records that tell every answer, the context handed on and the output |
| Execution.FindLastSuccessfulState | pkg/recovery/recovery.go:243-252 | the backwards scan finds the state the metadata names, or the empty name |
| Execution.GetLastSuccessfulStateOutput | pkg/recovery/recovery.go:255-262 | the output of the latest success of a state, and for the state found above the output the metadata holds |
| Barrier.Barrier.Init | pkg/batch/barrier.go:42-53 | creates the counter only when it is missing |
| Barrier.Barrier.Decrement | pkg/batch/barrier.go:32-40 | -1 for a missing counter, deletion at zero, and exactly zero names the last worker |
| Barrier.LedgerFollowsScripts | pkg/batch/barrier.go:32-53 | the per-key account follows the two scripts, and zero is answered exactly once per recorded winner |
| Barrier.OneWinnerPerInit | pkg/batch/barrier.go:32-53 | over any history of calls every created counter has fired exactly once or is still there |
| Barrier.FiresAtTheLast | pkg/batch/barrier.go:32-40 | a counter of n fires exactly at the n-th decrement, whatever follows |
| Barrier.LateCallsDoNothing | pkg/batch/barrier.go:32-40 | signals after the key is gone change nothing |
| Metrics.ComputeFailureRate | pkg/batch/metrics.go:124-134 | the accumulated rate is the fraction of failures, in [0,1], zero exactly without failures and one exactly without successes |
| Metrics.RateBounds | pkg/batch/metrics.go:124-134 | bounds and extremes of the failure fraction for every window |
| Metrics.RateIsFraction | pkg/batch/metrics.go:124-134 | the rate times the length of the window is the number of failures in it |
| Metrics.RollingAverageFailureRate | pkg/batch/metrics.go:78-103 | the mean of the stored snapshots among the last M, in [0,1] when they are |
| Metrics.RollingRateIsMean | pkg/batch/metrics.go:78-103 | the rolling rate times the number of rates stored for exactly the last M micro-batches is their sum |
| Metrics.OnlyTheWindowCounts | pkg/batch/metrics.go:78-103 | rates outside those micro-batches do not matter |
| Metrics.DefaultsAre | pkg/batch/evaluator.go:63-76 | the defaults, and that they replace only what a policy leaves out |
| Metrics.Evaluate | pkg/batch/evaluator.go:32-76 | both verdicts by their thresholds, never both set, never severe without a failure |
| DispatchSafety.SlicesDisjoint | pkg/batch/orchestrator.go:602-632 | different micro-batches share no position |
| DispatchSafety.EnqueueOneKeeps | pkg/batch/orchestrator.go:1005-1018 | enqueueing the next item keeps the invariant: the item is fresh and the rest of the queue untouched |
| DispatchSafety.AdvanceKeeps | pkg/batch/orchestrator.go:653-666 | moving the cursor, or skipping a marked micro-batch, keeps it on a boundary with everything below marked |
| DispatchSafety.CleanKeeps | pkg/batch/orchestrator.go:400-407 | deleting the batch keys one by one keeps the invariant |
| DispatchSafety.DispatchKeeps | pkg/batch/orchestrator.go:708-933 | every dispatcher step keeps: cursor on a boundary, prefix marked, unmarked micro-batches untouched, no repeats |
| DispatchSafety.CrashKeeps | pkg/batch/orchestrator.go:905-922 | losing the bulk dispatcher between any two commands keeps the same invariant |
| BarrierSafety.BarrierInits | pkg/batch/barrier.go:42-53 | setting up a barrier, fresh or left by a crashed call, gives the count of tasks still to signal |
| BarrierSafety.BarrierSignals | pkg/batch/barrier.go:32-40 | a first signal finds the barrier, lowers it by one, and fires it exactly when it completes the set |
| BarrierSafety.DispatchKeepsInv | pkg/batch/orchestrator.go:708-933 | dispatcher steps keep the whole protocol invariant |
| BarrierSafety.CrashKeepsInv | pkg/batch/orchestrator.go:905-922 | crashes keep the whole protocol invariant |
| BarrierSafety.WorkKeepsInv | pkg/batch/orchestrator.go:1053-1084 | worker steps keep the whole protocol invariant |
| MicroBatchTheorems.RunKeepsInv | pkg/batch/orchestrator.go:708-933 | every interleaving keeps the whole protocol invariant |
| MicroBatchTheorems.NothingEnqueuedTwice | pkg/batch/orchestrator.go:832-933 | in every reachable state no position is queued twice and each task names the micro-batch of its position, with crashes and after cleanup |
| MicroBatchTheorems.BarrierIsSizeMinusSignals | pkg/batch/barrier.go:32-53 | an open barrier is size minus signals and at least one; a fired one has them all and answers -1 to any further signal |
| MicroBatchTheorems.LastWorkerIsUnique | pkg/batch/orchestrator.go:1064-1075 | a signal gets zero if and only if it completes its micro-batch, never -1, and nobody was told so before |
| MicroBatchTheorems.NoFiringWhileEnqueuing | pkg/batch/orchestrator.go:776-782 | a barrier has not fired while tasks of its micro-batch are still being enqueued |
| MicroBatchTheorems.WinnerIsForever | pkg/batch/barrier.go:32-53 | the winner of a micro-batch never changes, whatever happens later |
| MicroBatchTheorems.TotalsAreExact | pkg/batch/metrics.go:34-50 | once all barriers have fired and before cleanup, processed equals the batch size and failed the number of failures |
| OutcomeSafety.SnapshotSeesEveryOutcome | pkg/batch/orchestrator.go:1058-1081 | when the winner snapshots, every outcome of its micro-batch has been pushed and counted, and it alone is the winner |
| OutcomeSafety.EachOutcomeOnce | pkg/batch/metrics.go:34-50 | no outcome is pushed twice; once all barriers have fired the pushes are exactly the whole batch |
| OutcomeSafety.RatesAreSnapshots | pkg/batch/metrics.go:55-65 | a rate is stored exactly for the micro-batches whose winner has finished, and is a proportion |
| SnapshotSafety.SeenStays | pkg/batch/metrics.go:55-65 | what a winner has read stays a true picture however many outcomes are pushed later |
| SnapshotSafety.RatesAreTrue | pkg/batch/metrics.go:55-65 | a stored rate is the failure fraction of the latest outcomes (at least the last N before cleanup) at a moment when every outcome of its micro-batch had been pushed |
| Completion.DispatchComesCloser | pkg/batch/orchestrator.go:708-933 | every dispatcher step before the end of the list strictly lowers a distance to it |
| Completion.DispatcherFinishes | pkg/batch/orchestrator.go:708-933 | from any state before cleanup, also after crashes, the dispatcher alone reaches the end of the list |
| Completion.LostExactly | pkg/batch/orchestrator.go:905-922 | a micro-batch is lost if and only if it was before or the bulk dispatcher crashes between its mark and its last enqueue |
| Completion.EveryRunCanSettle | pkg/batch/orchestrator.go:708-1084 | every run before cleanup, also after crashes, can be continued until exactly the barriers of the micro-batches that are not lost have fired |
| Completion.WorkersFinish | pkg/batch/orchestrator.go:1053-1084 | from any state the workers' own steps finish them all |
| Completion.EveryBatchCanComplete | pkg/batch/orchestrator.go:1053-1084 | no deadlock: every crash-free run not yet in cleanup can be continued until all barriers have fired and the totals are exact |
| Fairness.EveryFairScheduleSettles | pkg/batch/orchestrator.go:708-1084 | with finitely many crashes, every schedule that afterwards keeps giving turns to the dispatcher while items are left and to every unfinished worker fires exactly the barriers of the micro-batches that are not lost |
| Fairness.EveryFairScheduleCompletes | pkg/batch/orchestrator.go:708-1084 | without crashes every such schedule fires all barriers, and they stay fired |
| WindowSafety.WindowIsRecentOutcomes | pkg/batch/metrics.go:34-50 | under any interleaving of pushes and trims the window is a suffix of the outcomes pushed, of length between min(n,N) and N plus pending trims |
| WindowSafety.SuccessesAreNotSevere | pkg/batch/evaluator.go:32-60 | with no trim pending, N consecutive successes are exactly the window and force a verdict that is not severe |
| Dispatch.Batch.constructor | pkg/batch/orchestrator.go:128-232 | a batch begins without list, cursor, markers, barriers or tasks |
| Dispatch.Batch.StoreIDs | pkg/batch/orchestrator.go:1216-1238 | pushing in chunks of a thousand stores the list whole and in order |
| Dispatch.Batch.ComputeDispatchSlice | pkg/batch/orchestrator.go:602-632 | None if and only if the list is used up; otherwise the cursor and the one micro-batch whose range holds it, and with the cursor where micro-batch k begins exactly k |
| Dispatch.Batch.MarkDispatched | pkg/batch/orchestrator.go:653-666 | marks the micro-batch and moves the cursor and nothing else |
| Dispatch.Batch.Enqueue | pkg/batch/orchestrator.go:954-1021 | appends one task per item in order with its micro-batch and index |
| Dispatch.Batch.HandleDispatch | pkg/batch/orchestrator.go:708-798 | both handlers' calls, in their different orders of marking and enqueueing, have the effect of one specified call |
| Dispatch.MarkedIsSkipped | pkg/batch/orchestrator.go:757-774 | a marked micro-batch is skipped: nothing queued, no barrier, the cursor moved past what was read |
| Dispatch.UsedUpIsComplete | pkg/batch/orchestrator.go:724-742 | with the list used up a call reports completion and forgets the cursor and the ID list |
| Dispatch.DispatchPartitions | pkg/batch/orchestrator.go:744-787 | n calls report micro-batches 0, 1, 2, ... and enqueue exactly the items before the cursor, once and in order |
| Dispatch.CompletionComesExactlyWhenDone | pkg/batch/orchestrator.go:602-632 | completion is first reported after exactly ceil(total/size) dispatches, with the whole list enqueued in order |
| Dispatch.BulkIndexIsPosition | pkg/batch/orchestrator.go:973-998 | each task's index is its position if and only if the input's size is positive or the list fits one default micro-batch |
| DispatchRefinement.StepsAreARun | pkg/batch/orchestrator.go:708-933 | uninterrupted dispatcher steps are one of the runs of the step system |
| DispatchRefinement.EnqueueLoop | pkg/batch/orchestrator.go:1005-1018 | enqueueing item by item appends exactly the tasks of the micro-batch |
| DispatchRefinement.CleanFrom | pkg/batch/orchestrator.go:390-425 | cleanup runs through to idle; it removes the cursor, the ID list, the window and both totals, and leaves the bulk list, markers, barriers, rates and queue alone |
| DispatchRefinement.CallIsUninterruptedSteps | pkg/batch/orchestrator.go:832-933 | from idle, uninterrupted steps lead back to idle with exactly the keys and queue one call leaves, in every branch |

## Left out

- Postgres and GORM repositories, the asynq client and worker, HTTP, TLS and the examples: plumbing over libraries.
- Redis expiry, Redis and queue errors, clocks, logging, identifiers and JSON marshalling; a group enqueue is a sequence of enqueues.
- Queue redelivery: in the step system each delivered task signals once. What extra signals do is proved about the barrier alone.
- Crashes of the dispatcher in ID mode, which enqueues before it marks and relies on the queue's uniqueness.
- Any promise that the orchestrator wakes up, that one micro-batch waits for the previous one, or that recovery resumes at the right state.
- Worker crashes part way through recording or signalling.
- Runs that never return: a run either returns or is found cancelled at some iteration.
- Text is a sequence of characters, not bytes; all delimiters are ASCII.
- A typed array of objects is treated like any other array.
- JsonPathLaws.SetSucceeds: does not model the memory limits of the platform, because they are not part of the engine; an index below the largest integer but too large to allocate ends the real process instead of succeeding.
- JSON documents are immutable values, so aliasing between a document and its written copy is not captured.
- Numbers, rates and durations are reals: rounding, nanosecond truncation and the fields of a retry policy that the code ignores (interval, jitter) are left out.
- Template expansion, value and timestamp comparisons, waiting, the text of error messages built from wrapped errors, and the value of a panic are parameters.
- The per-state Validate methods are an arbitrary predicate of the state.
- A pause request carries the correlation key and value, not the input copy, creation time or timeout.
- Dispatch.BulkIndexIsPosition: every call of a batch is given the same size in its input; how the orchestrator workflow feeds a call's answer into the next input is not modelled.
- ParallelRuns.ScheduleIndependent: branches do not share state through their handlers and the context is not cancelled during the run; a panic in a branch takes the process down and has no outcome.
- Choice and catch targets that name no state: the validator does not look them up, so a run may stop at a missing state.
