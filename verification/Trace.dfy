/** The decision trace, the task scratchpad, and what running one step does to them. */
module Trace {
  import opened Wrappers
  import opened Json
  import opened Tools

  datatype FinalAnswer =
    | NoStepsRequired
    | NoResults
    | Answer(body: AnswerBody, someFailed: bool)

  datatype AnswerBody = Output(output: Message) | CompletedSilently(stepId: string)

  datatype Source = FromLLM | Fallback

  datatype Event =
    | QueryReceived(query: string, role: string)
    | PlanCreated(source: Source, rationale: Option<string>, steps: seq<ToolCall>)
    | StepSkipped(stepId: string, tool: string)
    | StepStarted(stepId: string, tool: string, args: map<string, Json>)
    | StepRetrying(stepId: string, tool: string, attempt: int, error: Option<Message>)
    | StepFinished(stepId: string, tool: string, status: string, error: Option<Message>)
    | RunFinished(answer: FinalAnswer, stepCount: nat)

  class DecisionTraceLogger {
    var events: seq<Event>

    constructor ()
      ensures events == []
    {
      events := [];
    }

    method Record(event: Event)
      modifies this
      ensures events == old(events) + [event]
    {
      events := events + [event];
    }
  }

  type Entry = (string, ToolResult)

  /** Dictionary assignment on insertion-ordered entries: overwrite in place, or append. */
  function Put(entries: seq<Entry>, key: string, value: ToolResult): seq<Entry> {
    if entries == [] then [(key, value)]
    else if entries[0].0 == key then [(key, value)] + entries[1..]
    else [entries[0]] + Put(entries[1..], key, value)
  }

  lemma {:induction false} PutNewAppends(entries: seq<Entry>, key: string, value: ToolResult)
    requires forall i :: 0 <= i < |entries| ==> entries[i].0 != key
    ensures Put(entries, key, value) == entries + [(key, value)]
  {
    if entries != [] {
      PutNewAppends(entries[1..], key, value);
    }
  }

  /** A known step's entry is overwritten where it stands, and nothing else changes. */
  lemma {:induction false} PutKnownOverwrites(entries: seq<Entry>, key: string, value: ToolResult, p: nat)
    requires p < |entries| && entries[p].0 == key && forall i :: 0 <= i < p ==> entries[i].0 != key
    ensures Put(entries, key, value) == entries[p := (key, value)]
  {
    if p > 0 {
      PutKnownOverwrites(entries[1..], key, value, p - 1);
    }
  }

  class AgentMemory {
    const query: string
    var scratchpad: seq<Entry>

    constructor (query: string)
      ensures this.query == query && scratchpad == []
    {
      this.query := query;
      scratchpad := [];
    }

    method Remember(stepId: string, result: ToolResult)
      modifies this
      ensures scratchpad == Put(old(scratchpad), stepId, result)
    {
      scratchpad := Put(scratchpad, stepId, result);
    }
  }

  // ----- What one step does -----

  /** What a run depends on besides its plan. */
  datatype Env = Env(specs: map<string, ToolSpec>, behaviour: Behaviour, ctx: ToolContext)

  /** Everything a run has written so far. */
  datatype Log = Log(memory: seq<Entry>, events: seq<Event>, calls: seq<Invocation>)

  datatype Progress = Progress(results: map<string, ToolResult>, log: Log)

  function StepInvocation(env: Env, spec: ToolSpec, step: ToolCall): Invocation {
    Invocation(spec.name, step.args, env.ctx.(stepId := step.stepId))
  }

  /** Whatever a tool does becomes one structured result that carries the step's and the tool's name. */
  function Fold(spec: ToolSpec, step: ToolCall, outcome: Outcome): ToolResult {
    match outcome
    case Raised(kind, detail) =>
      ErrorResult(step.stepId, spec.name, ToolRaised(kind, detail), NO_DATA.(code := Some("tool_execution_error")))
    case ReturnedOther => ErrorResult(step.stepId, spec.name, NotAToolResult(spec.name), NO_DATA)
    case Returned(result) => result.(stepId := step.stepId, tool := spec.name)
  }

  /** The remaining attempts of a step, from attempt number `attempt` on. */
  function Attempts(env: Env, spec: ToolSpec, step: ToolCall, attempt: int, log: Log): (ToolResult, Log)
    requires 1 <= attempt <= spec.retries + 1
    decreases spec.retries - attempt + 1
  {
    var calls := log.calls + [StepInvocation(env, spec, step)];
    var result := Fold(spec, step, env.behaviour(calls));
    if result.status == "ok" || attempt > spec.retries then (result, log.(calls := calls))
    else
      var retrying := StepRetrying(step.stepId, step.tool, attempt, result.error);
      Attempts(env, spec, step, attempt + 1, log.(calls := calls, events := log.events + [retrying]))
  }

  function Unavailable(step: ToolCall): ToolResult {
    ErrorResult(step.stepId, step.tool, ToolUnavailable(step.tool), NO_DATA)
  }

  function Finish(step: ToolCall, result: ToolResult, log: Log): (ToolResult, Log) {
    (result, log.(memory := Put(log.memory, step.stepId, result),
                  events := log.events + [StepFinished(step.stepId, step.tool, result.status, result.error)]))
  }

  function RunStep(env: Env, step: ToolCall, spec: Option<ToolSpec>, log: Log): (ToolResult, Log) {
    if spec.None? || !spec.value.VisibleToRole(env.ctx.role) then
      (Unavailable(step), log.(memory := Put(log.memory, step.stepId, Unavailable(step)),
                               events := log.events + [StepSkipped(step.stepId, step.tool)]))
    else
      var started := log.(events := log.events + [StepStarted(step.stepId, step.tool, step.args)]);
      if spec.value.retries < 0 then
        Finish(step, ErrorResult(step.stepId, step.tool, NoResult, NO_DATA), started)
      else
        var (result, tried) := Attempts(env, spec.value, step, 1, started);
        Finish(step, result, tried)
  }

  /** The step found under `id`; ids without a step are never scheduled. */
  function StepAt(index: map<string, ToolCall>, id: string): ToolCall {
    if id in index then index[id] else ToolCall(id, "", map[], [])
  }

  /** Runs the steps named by `ids` one after the other. */
  function RunAll(env: Env, index: map<string, ToolCall>, ids: seq<string>, log: Log): Progress {
    if ids == [] then Progress(map[], log)
    else
      var id := ids[|ids| - 1];
      var before := RunAll(env, index, ids[..|ids| - 1], log);
      var step := StepAt(index, id);
      var (result, after) := RunStep(env, step, Lookup(env.specs, step.tool), before.log);
      Progress(before.results[id := result], after)
  }

  lemma RunAllExtends(env: Env, index: map<string, ToolCall>, ids: seq<string>, id: string, log: Log)
    ensures
      var before := RunAll(env, index, ids, log);
      var (result, after) := RunStep(env, StepAt(index, id), Lookup(env.specs, StepAt(index, id).tool), before.log);
      RunAll(env, index, ids + [id], log) == Progress(before.results[id := result], after)
  {
    assert (ids + [id])[..|ids|] == ids;
  }

  // ----- What a step's run looks like -----

  /** One step's share of the trace, of the tool calls and of the results. */
  datatype StepRun = StepRun(step: ToolCall, events: seq<Event>, calls: seq<Invocation>, result: ToolResult)

  /** The result of the `j`-th call (from 0) among `calls`, which come after `before`. */
  function AnswerTo(
    env: Env, spec: ToolSpec, step: ToolCall, before: seq<Invocation>, calls: seq<Invocation>, j: nat): ToolResult
    requires j < |calls|
  {
    Fold(spec, step, env.behaviour(before + calls[..j + 1]))
  }

  /** What the tool did on the `j`-th call (from 0) among `calls`, which come after `before`. */
  function OutcomeOf(env: Env, before: seq<Invocation>, calls: seq<Invocation>, j: nat): Outcome
    requires j < |calls|
  {
    env.behaviour(before + calls[..j + 1])
  }

  /** The call succeeded: it returned a tool result, and that says so. */
  ghost predicate Succeeds(outcome: Outcome) {
    outcome.Returned? && outcome.result.status == "ok"
  }

  ghost function ErrorOf(spec: ToolSpec, outcome: Outcome): Option<Message> {
    match outcome
    case Returned(result) => result.error
    case Raised(kind, detail) => Some(ToolRaised(kind, detail))
    case ReturnedOther => Some(NotAToolResult(spec.name))
  }

  /**
   * The result says what the tool did: what it returned, under the step's and the tool's names, or an
   * error when it raised or returned anything else.
   */
  ghost predicate Reports(result: ToolResult, spec: ToolSpec, step: ToolCall, outcome: Outcome) {
    && result.stepId == step.stepId && result.tool == spec.name && result.error == ErrorOf(spec, outcome)
    && match outcome
       case Returned(value) => result.status == value.status && result.output == value.output && result.data == value.data
       case Raised(kind, detail) =>
         && result.status == "error" && result.output == ToolRaised(kind, detail)
         && result.data == ToolData(Some("tool_execution_error"), [])
       case ReturnedOther =>
         result.status == "error" && result.output == NotAToolResult(spec.name) && result.data == ToolData(None, [])
  }

  /** Folding reports every outcome, and counts as success what is one. */
  lemma FoldReports(spec: ToolSpec, step: ToolCall, outcome: Outcome)
    ensures Reports(Fold(spec, step, outcome), spec, step, outcome)
    ensures Fold(spec, step, outcome).status == "ok" <==> Succeeds(outcome)
  {
  }

  lemma AnswerReports(env: Env, spec: ToolSpec, step: ToolCall, before: seq<Invocation>, calls: seq<Invocation>, j: nat)
    requires j < |calls|
    ensures Reports(AnswerTo(env, spec, step, before, calls, j), spec, step, OutcomeOf(env, before, calls, j))
    ensures AnswerTo(env, spec, step, before, calls, j).status == "ok" <==> Succeeds(OutcomeOf(env, before, calls, j))
  {
    FoldReports(spec, step, OutcomeOf(env, before, calls, j));
  }

  /** `k` calls that fail, each announced by a numbered retry, then the call whose outcome counts. */
  ghost predicate IsAttemptedRun(env: Env, spec: ToolSpec, before: seq<Invocation>, run: StepRun, k: nat) {
    && k <= spec.retries
    && |run.calls| == k + 1
    && (forall j :: 0 <= j <= k ==>
         && run.calls[j].tool == spec.name && run.calls[j].args == run.step.args
         && run.calls[j].ctx == ToolContext(env.ctx.userId, env.ctx.role, run.step.stepId))
    && (forall j :: 0 <= j < k ==> !Succeeds(OutcomeOf(env, before, run.calls, j)))
    && Reports(run.result, spec, run.step, OutcomeOf(env, before, run.calls, k))
    && (Succeeds(OutcomeOf(env, before, run.calls, k)) || k == spec.retries)
    && |run.events| == k + 2
    && run.events[0] == StepStarted(run.step.stepId, run.step.tool, run.step.args)
    && (forall j :: 0 <= j < k ==>
         run.events[j + 1] == StepRetrying(
           run.step.stepId, run.step.tool, j + 1, ErrorOf(spec, OutcomeOf(env, before, run.calls, j))))
    && run.events[k + 1] == StepFinished(run.step.stepId, run.step.tool, run.result.status, run.result.error)
  }

  function ErrorOnly(step: ToolCall, message: Message): ToolResult {
    ToolResult(step.stepId, step.tool, "error", message, ToolData(None, []), Some(message))
  }

  /** The step cannot be run: its tool is unknown, or restricted to roles without this one. */
  ghost predicate MustSkip(env: Env, step: ToolCall) {
    || step.tool !in env.specs
    || (env.specs[step.tool].visibleTo.Some? && env.ctx.role !in env.specs[step.tool].visibleTo.value)
  }

  /** How a step may show up in the trace, after the calls in `before`. */
  ghost predicate IsStepRun(env: Env, before: seq<Invocation>, run: StepRun) {
    if MustSkip(env, run.step) then
      && run.events == [StepSkipped(run.step.stepId, run.step.tool)]
      && run.calls == []
      && run.result == ErrorOnly(run.step, ToolUnavailable(run.step.tool))
    else if env.specs[run.step.tool].retries < 0 then
      && run.result == ErrorOnly(run.step, NoResult)
      && run.calls == []
      && run.events == [StepStarted(run.step.stepId, run.step.tool, run.step.args),
                        StepFinished(run.step.stepId, run.step.tool, "error", Some(NoResult))]
    else
      exists k: nat :: IsAttemptedRun(env, env.specs[run.step.tool], before, run, k)
  }

  /** The start of a block: every call so far failed and was announced as a numbered retry. */
  ghost predicate AllFailed(env: Env, spec: ToolSpec, step: ToolCall, before: seq<Invocation>,
                            events: seq<Event>, calls: seq<Invocation>) {
    && |events| == |calls| + 1
    && events[0] == StepStarted(step.stepId, step.tool, step.args)
    && forall j :: 0 <= j < |calls| ==>
         && calls[j] == StepInvocation(env, spec, step)
         && AnswerTo(env, spec, step, before, calls, j).status != "ok"
         && events[j + 1] == StepRetrying(step.stepId, step.tool, j + 1, AnswerTo(env, spec, step, before, calls, j).error)
  }

  lemma OneMoreCall(env: Env, spec: ToolSpec, step: ToolCall, before: seq<Invocation>, calls: seq<Invocation>,
                    more: Invocation)
    ensures forall j :: 0 <= j < |calls| ==>
      AnswerTo(env, spec, step, before, calls + [more], j) == AnswerTo(env, spec, step, before, calls, j)
    ensures AnswerTo(env, spec, step, before, calls + [more], |calls|) ==
            Fold(spec, step, env.behaviour(before + calls + [more]))
  {
    forall j | 0 <= j < |calls|
      ensures AnswerTo(env, spec, step, before, calls + [more], j) == AnswerTo(env, spec, step, before, calls, j)
    {
      assert (calls + [more])[..j + 1] == calls[..j + 1];
    }
    assert (calls + [more])[..|calls| + 1] == calls + [more];
    assert before + (calls + [more]) == before + calls + [more];
  }

  /** Another failure before the last attempt keeps the block going. */
  lemma FailureExtends(env: Env, spec: ToolSpec, step: ToolCall, before: seq<Invocation>,
                       events: seq<Event>, calls: seq<Invocation>, result: ToolResult)
    requires AllFailed(env, spec, step, before, events, calls)
    requires result == Fold(spec, step, env.behaviour(before + calls + [StepInvocation(env, spec, step)]))
    requires result.status != "ok"
    ensures AllFailed(env, spec, step, before,
                      events + [StepRetrying(step.stepId, step.tool, |calls| + 1, result.error)],
                      calls + [StepInvocation(env, spec, step)])
  {
    OneMoreCall(env, spec, step, before, calls, StepInvocation(env, spec, step));
  }

  /** A success, or a failure at the last attempt, completes it. */
  lemma LastAttemptCompletes(env: Env, spec: ToolSpec, step: ToolCall, before: seq<Invocation>,
                             events: seq<Event>, calls: seq<Invocation>, result: ToolResult) returns (run: StepRun)
    requires AllFailed(env, spec, step, before, events, calls) && |calls| <= spec.retries
    requires result == Fold(spec, step, env.behaviour(before + calls + [StepInvocation(env, spec, step)]))
    requires result.status == "ok" || |calls| == spec.retries
    ensures run.step == step && run.result == result && IsAttemptedRun(env, spec, before, run, |calls|)
    ensures run.events[..|calls| + 1] == events && run.calls == calls + [StepInvocation(env, spec, step)]
  {
    OneMoreCall(env, spec, step, before, calls, StepInvocation(env, spec, step));
    run := StepRun(step, events + [StepFinished(step.stepId, step.tool, result.status, result.error)],
                   calls + [StepInvocation(env, spec, step)], result);
    forall j | 0 <= j <= |calls|
      ensures Reports(AnswerTo(env, spec, step, before, run.calls, j), spec, step, OutcomeOf(env, before, run.calls, j))
      ensures AnswerTo(env, spec, step, before, run.calls, j).status == "ok" <==>
              Succeeds(OutcomeOf(env, before, run.calls, j))
    {
      AnswerReports(env, spec, step, before, run.calls, j);
    }
  }

  /** Attempt number `attempt` starts after `attempt - 1` failures. */
  lemma {:induction false} AttemptsAreBlock(
      env: Env, spec: ToolSpec, step: ToolCall, attempt: int, log: Log, before: Log,
      events: seq<Event>, calls: seq<Invocation>)
      returns (run: StepRun, k: nat)
    requires 1 <= attempt <= spec.retries + 1 && |calls| == attempt - 1
    requires AllFailed(env, spec, step, before.calls, events, calls)
    requires log == before.(events := before.events + events, calls := before.calls + calls)
    ensures var (result, after) := Attempts(env, spec, step, attempt, log);
      && run.step == step && run.result == result && IsAttemptedRun(env, spec, before.calls, run, k)
      && after == before.(events := before.events + run.events[..k + 1], calls := before.calls + run.calls)
    decreases spec.retries - attempt + 1
  {
    var call := StepInvocation(env, spec, step);
    var result := Fold(spec, step, env.behaviour(before.calls + calls + [call]));
    assert before.calls + calls + [call] == before.calls + (calls + [call]);
    if result.status == "ok" || attempt > spec.retries {
      k := attempt - 1;
      run := LastAttemptCompletes(env, spec, step, before.calls, events, calls, result);
    } else {
      var retrying := StepRetrying(step.stepId, step.tool, attempt, result.error);
      FailureExtends(env, spec, step, before.calls, events, calls, result);
      assert log.events + [retrying] == before.events + (events + [retrying]);
      run, k := AttemptsAreBlock(
        env, spec, step, attempt + 1, log.(calls := log.calls + [call], events := log.events + [retrying]), before,
        events + [retrying], calls + [call]);
    }
  }

  /** Running one step appends one well-formed block to the trace and its calls to the call log. */
  lemma RunStepIsBlock(env: Env, step: ToolCall, log: Log) returns (run: StepRun)
    ensures var (result, after) := RunStep(env, step, Lookup(env.specs, step.tool), log);
      && run.step == step && run.result == result && IsStepRun(env, log.calls, run)
      && after == log.(memory := Put(log.memory, step.stepId, result), events := log.events + run.events,
                       calls := log.calls + run.calls)
  {
    var spec := Lookup(env.specs, step.tool);
    var (result, after) := RunStep(env, step, spec, log);
    var started := StepStarted(step.stepId, step.tool, step.args);
    if !Available(env.specs, step.tool, env.ctx.role) {
      run := StepRun(step, [StepSkipped(step.stepId, step.tool)], [], result);
      assert log.calls + [] == log.calls;
    } else if spec.value.retries < 0 {
      run := StepRun(step, [started, StepFinished(step.stepId, step.tool, "error", Some(NoResult))], [], result);
      assert log.calls + [] == log.calls;
      assert log.events + run.events == log.events + [started] + [run.events[1]];
    } else {
      var k: nat;
      assert log.calls + [] == log.calls;
      run, k := AttemptsAreBlock(env, spec.value, step, 1, log.(events := log.events + [started]), log, [started], []);
      assert run.events == run.events[..k + 1] + [run.events[k + 1]];
      assert log.events + run.events == log.events + run.events[..k + 1] + [run.events[k + 1]];
    }
  }

  /** A step's result carries the step's id, whatever the tool put there. */
  lemma ResultNamesItsStep(env: Env, before: seq<Invocation>, run: StepRun)
    requires IsStepRun(env, before, run)
    ensures run.result.stepId == run.step.stepId
  {
    if !MustSkip(env, run.step) && env.specs[run.step.tool].retries >= 0 {
      var k: nat :| IsAttemptedRun(env, env.specs[run.step.tool], before, run, k);
    }
  }

  /**
   * A step that may run counts as ok exactly when its last call succeeded; otherwise every retry was
   * used, and a tool that raised or returned no result left an error.
   */
  lemma StepSucceedsIff(env: Env, before: seq<Invocation>, run: StepRun)
    requires IsStepRun(env, before, run) && !MustSkip(env, run.step) && env.specs[run.step.tool].retries >= 0
    ensures run.calls != []
    ensures var last := env.behaviour(before + run.calls);
      && (run.result.status == "ok" <==> Succeeds(last))
      && (!Succeeds(last) ==> |run.calls| == env.specs[run.step.tool].retries + 1)
      && (!last.Returned? ==> run.result.status == "error" && run.result.error.Some?)
    ensures forall j :: 0 <= j < |run.calls| - 1 ==> !Succeeds(OutcomeOf(env, before, run.calls, j))
  {
    var k: nat :| IsAttemptedRun(env, env.specs[run.step.tool], before, run, k);
    assert run.calls[..k + 1] == run.calls;
  }

  /** The block is determined: no other block fits the same step at the same point of a run. */
  lemma StepRunIsUnique(env: Env, before: seq<Invocation>, a: StepRun, b: StepRun)
    requires a.step == b.step && IsStepRun(env, before, a) && IsStepRun(env, before, b)
    ensures a == b
  {
    if !MustSkip(env, a.step) && env.specs[a.step.tool].retries >= 0 {
      var spec := env.specs[a.step.tool];
      var k: nat :| IsAttemptedRun(env, spec, before, a, k);
      var m: nat :| IsAttemptedRun(env, spec, before, b, m);
      if k <= m {
        AttemptsAgree(env, spec, before, a, k, b, m);
      } else {
        AttemptsAgree(env, spec, before, b, m, a, k);
      }
    }
  }

  lemma AttemptsAgree(env: Env, spec: ToolSpec, before: seq<Invocation>, a: StepRun, k: nat, b: StepRun, m: nat)
    requires a.step == b.step && k <= m
    requires IsAttemptedRun(env, spec, before, a, k) && IsAttemptedRun(env, spec, before, b, m)
    ensures a == b
  {
    forall j | 0 <= j <= k ensures OutcomeOf(env, before, a.calls, j) == OutcomeOf(env, before, b.calls, j) {
      assert a.calls[..j + 1] == b.calls[..j + 1];
    }
    assert k == m;
    assert a.calls == b.calls;
    forall j | 0 <= j < |a.events| ensures a.events[j] == b.events[j] {
      if 0 < j <= k {
        var i := j - 1;
        assert OutcomeOf(env, before, a.calls, i) == OutcomeOf(env, before, b.calls, i);
        assert a.events[i + 1] == b.events[i + 1];
      }
    }
    assert a.events == b.events;
  }

  // ----- What a whole run looks like -----

  ghost function AllEvents(runs: seq<StepRun>): seq<Event> {
    if runs == [] then [] else AllEvents(runs[..|runs| - 1]) + runs[|runs| - 1].events
  }

  ghost function AllCalls(runs: seq<StepRun>): seq<Invocation> {
    if runs == [] then [] else AllCalls(runs[..|runs| - 1]) + runs[|runs| - 1].calls
  }

  /** `runs` are the well-formed runs of the steps named by `ids`, one each, in that order. */
  ghost predicate AreStepRuns(
    env: Env, index: map<string, ToolCall>, ids: seq<string>, before: seq<Invocation>, runs: seq<StepRun>)
  {
    && |runs| == |ids|
    && forall i :: 0 <= i < |ids| ==>
         && runs[i].step == StepAt(index, ids[i])
         && IsStepRun(env, before + AllCalls(runs[..i]), runs[i])
  }

  ghost function MemoryAfter(memory: seq<Entry>, runs: seq<StepRun>): seq<Entry> {
    if runs == [] then memory
    else Put(MemoryAfter(memory, runs[..|runs| - 1]), runs[|runs| - 1].step.stepId, runs[|runs| - 1].result)
  }

  /** What a log holds after `runs`: their blocks, calls and results appended to `log`. */
  ghost predicate Holds(after: Progress, ids: seq<string>, log: Log, runs: seq<StepRun>)
    requires |runs| == |ids|
  {
    && after.log.events == log.events + AllEvents(runs)
    && after.log.calls == log.calls + AllCalls(runs)
    && after.log.memory == MemoryAfter(log.memory, runs)
    && after.results.Keys == (set id | id in ids)
    && forall i :: 0 <= i < |ids| ==> after.results[ids[i]] == runs[i].result
  }

  lemma RunsExtend(env: Env, index: map<string, ToolCall>, ids: seq<string>, before: seq<Invocation>,
                   front: seq<StepRun>, last: StepRun)
    requires ids != [] && |front| == |ids| - 1
    requires AreStepRuns(env, index, ids[..|ids| - 1], before, front)
    requires last.step == StepAt(index, ids[|ids| - 1])
    requires IsStepRun(env, before + AllCalls(front), last)
    ensures AreStepRuns(env, index, ids, before, front + [last])
  {
    var runs := front + [last];
    forall i | 0 <= i < |ids|
      ensures runs[i].step == StepAt(index, ids[i]) && IsStepRun(env, before + AllCalls(runs[..i]), runs[i])
    {
      if i < |front| {
        assert runs[..i] == front[..i] && ids[..|ids| - 1][i] == ids[i];
      } else {
        assert runs[..i] == front;
      }
    }
  }

  lemma ResultsExtend(
      ids: seq<string>, id: string, results: map<string, ToolResult>, front: seq<StepRun>, last: StepRun)
    requires |front| == |ids| && id !in ids
    requires results.Keys == (set x | x in ids)
    requires forall i :: 0 <= i < |ids| ==> results[ids[i]] == front[i].result
    ensures var after := results[id := last.result];
      && after.Keys == (set x | x in ids + [id])
      && forall i :: 0 <= i <= |ids| ==> after[(ids + [id])[i]] == (front + [last])[i].result
  {
    assert forall i :: 0 <= i < |ids| ==> ids[i] in ids;
  }

  lemma OneMoreRun(front: seq<StepRun>, last: StepRun, memory: seq<Entry>)
    ensures AllEvents(front + [last]) == AllEvents(front) + last.events
    ensures AllCalls(front + [last]) == AllCalls(front) + last.calls
    ensures MemoryAfter(memory, front + [last]) == Put(MemoryAfter(memory, front), last.step.stepId, last.result)
  {
    assert (front + [last])[..|front|] == front;
  }

  lemma HoldsExtends(ids: seq<string>, log: Log, front: seq<StepRun>, last: StepRun,
                     before: Progress, after: Progress)
    requires ids != [] && |front| == |ids| - 1
    requires forall i, j :: 0 <= i < j < |ids| ==> ids[i] != ids[j]
    requires Holds(before, ids[..|ids| - 1], log, front)
    requires after.results == before.results[ids[|ids| - 1] := last.result]
    requires after.log == Log(Put(before.log.memory, last.step.stepId, last.result),
                              before.log.events + last.events, before.log.calls + last.calls)
    ensures Holds(after, ids, log, front + [last])
  {
    OneMoreRun(front, last, log.memory);
    assert log.events + AllEvents(front) + last.events == log.events + (AllEvents(front) + last.events);
    assert log.calls + AllCalls(front) + last.calls == log.calls + (AllCalls(front) + last.calls);
    var n := |ids| - 1;
    assert ids == ids[..n] + [ids[n]];
    ResultsExtend(ids[..n], ids[n], before.results, front, last);
  }

  /** `runs` are the runs of the steps in `ids`, and account for all that running them leaves. */
  ghost predicate Accounts(env: Env, index: map<string, ToolCall>, ids: seq<string>, log: Log, runs: seq<StepRun>) {
    AreStepRuns(env, index, ids, log.calls, runs) && Holds(RunAll(env, index, ids, log), ids, log, runs)
  }

  lemma LastStepAccounts(env: Env, index: map<string, ToolCall>, ids: seq<string>, log: Log, front: seq<StepRun>)
      returns (runs: seq<StepRun>)
    requires ids != [] && forall i, j :: 0 <= i < j < |ids| ==> ids[i] != ids[j]
    requires Accounts(env, index, ids[..|ids| - 1], log, front)
    ensures Accounts(env, index, ids, log, runs)
  {
    var n := |ids| - 1;
    var before, after := RunAll(env, index, ids[..n], log), RunAll(env, index, ids, log);
    var last := RunStepIsBlock(env, StepAt(index, ids[n]), before.log);
    RunsExtend(env, index, ids, log.calls, front, last);
    HoldsExtends(ids, log, front, last, before, after);
    runs := front + [last];
  }

  lemma {:induction false} RunAllAccounts(env: Env, index: map<string, ToolCall>, ids: seq<string>, log: Log)
      returns (runs: seq<StepRun>)
    requires forall i, j :: 0 <= i < j < |ids| ==> ids[i] != ids[j]
    ensures Accounts(env, index, ids, log, runs)
  {
    if ids == [] {
      runs := [];
      assert log.events + [] == log.events && log.calls + [] == log.calls;
    } else {
      var front := RunAllAccounts(env, index, ids[..|ids| - 1], log);
      runs := LastStepAccounts(env, index, ids, log, front);
    }
  }

  /**
   * The trace of a run is one contiguous block per step in run order; results and memory hold
   * each step's result.
   */
  lemma RunAllIsBlocks(env: Env, index: map<string, ToolCall>, ids: seq<string>, log: Log)
      returns (runs: seq<StepRun>)
    requires forall i, j :: 0 <= i < j < |ids| ==> ids[i] != ids[j]
    ensures AreStepRuns(env, index, ids, log.calls, runs)
    ensures Holds(RunAll(env, index, ids, log), ids, log, runs)
  {
    runs := RunAllAccounts(env, index, ids, log);
  }
}
