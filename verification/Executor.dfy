/** The executor: runs the steps of a plan in waves, with retries, and records everything. */
module Executor {
  import opened Wrappers
  import opened Tools
  import opened Graph
  import opened Schedule
  import opened Trace

  datatype Plan = Plan(steps: seq<ToolCall>, rationale: Option<string>, source: Source)

  /** Declaration order within `remaining`. */
  function PlanOrder(plan: Plan, remaining: set<string>): seq<string> {
    Keep(Ids(plan.steps), remaining)
  }

  /** The ids of `order` that wait for nothing in `remaining`. */
  function Ready(order: seq<string>, satisfied: map<string, set<string>>, remaining: set<string>): seq<string> {
    Keep(order, set id | id in satisfied && satisfied[id] * remaining == {})
  }

  lemma UniqueExtend(steps: seq<ToolCall>, i: nat)
    requires i < |steps| && UniqueIds(steps[..i])
    ensures UniqueIds(steps[..i + 1]) <==> steps[i].stepId !in Index(steps[..i])
  {
    var front, last := Ids(steps[..i]), steps[i].stepId;
    IndexKeys(steps[..i]);
    assert Ids(steps[..i + 1]) == front + [last];
    if last in Elements(front) {
      var k :| 0 <= k < i && front[k] == last;
      assert (front + [last])[k] == (front + [last])[i];
    } else {
      assert Elements(front) !! Elements([last]);
      DistinctAppend(front, [last]);
    }
  }

  lemma UniquePrefix(steps: seq<ToolCall>, i: nat)
    requires i <= |steps| && UniqueIds(steps)
    ensures UniqueIds(steps[..i])
  {
    forall p, q | 0 <= p < q < i ensures Ids(steps[..i])[p] != Ids(steps[..i])[q] {
      assert Ids(steps)[p] != Ids(steps)[q];
    }
  }

  /** The first step whose id was seen before. */
  ghost predicate FirstDuplicate(steps: seq<ToolCall>, stepId: string) {
    exists j :: 0 <= j < |steps| && steps[j].stepId == stepId && UniqueIds(steps[..j]) && stepId in Index(steps[..j])
  }

  /** Finds each step by id; a repeated id is an error. */
  method IndexSteps(plan: Plan) returns (r: Result<map<string, ToolCall>, ConfigurationError>)
    ensures r.Ok? <==> UniqueIds(plan.steps)
    ensures r.Ok? ==> r.value == Index(plan.steps)
    ensures r.Err? ==> r.error.DuplicateStep? && FirstDuplicate(plan.steps, r.error.stepId)
  {
    var steps := plan.steps;
    var indexed: map<string, ToolCall> := map[];
    for i := 0 to |steps|
      invariant indexed == Index(steps[..i])
      invariant UniqueIds(steps[..i])
    {
      UniqueExtend(steps, i);
      if steps[i].stepId in indexed {
        if UniqueIds(steps) {
          UniquePrefix(steps, i + 1);
        }
        return Err(DuplicateStep(steps[i].stepId));
      }
      assert steps[..i + 1][..i] == steps[..i];
      indexed := indexed[steps[i].stepId := steps[i]];
    }
    assert steps[..|steps|] == steps;
    r := Ok(indexed);
  }

  lemma DisjointIsSubset(a: set<string>, all: set<string>, done: set<string>)
    ensures a * (all - done) == {} <==> a * all <= done
  {
    if a * (all - done) == {} {
      forall x | x in a * all ensures x in done {
        assert x !in a * (all - done);
      }
    }
  }

  /** With everything but level `k` remaining, the ids that wait for nothing are level `k + 1`. */
  lemma FreeIsNextLevel(g: Graph, k: nat, remaining: set<string>)
    requires remaining == g.Keys - Level(g, k)
    ensures remaining * (set id | id in g && g[id] * remaining == {}) == Level(g, k + 1) - Level(g, k)
  {
    LevelsGrow(g, k);
    forall id | id in g ensures g[id] * remaining == {} <==> id in Level(g, k + 1) {
      DisjointIsSubset(g[id], g.Keys, Level(g, k));
    }
  }

  /** With everything but level `k` remaining, what is ready is wave `k`. */
  lemma ReadyIsWave(ids: seq<string>, g: Graph, k: nat, remaining: set<string>)
    requires remaining == g.Keys - Level(g, k)
    ensures Ready(Keep(ids, remaining), g, remaining) == Wave(ids, g, k)
  {
    KeepComposes(ids, remaining, set id | id in g && g[id] * remaining == {});
    FreeIsNextLevel(g, k, remaining);
  }

  lemma NothingLeft(all: set<string>, done: set<string>)
    requires done <= all && all - done == {}
    ensures all == done
  {
    forall x | x in all ensures x in done {
      assert x !in all - done;
    }
  }

  lemma EmptyWaveIsStuck(ids: seq<string>, g: Graph, k: nat)
    requires g.Keys == Elements(ids) && Wave(ids, g, k) == []
    ensures Level(g, k + 1) == Level(g, k)
  {
    LevelsGrow(g, k);
    var added := Level(g, k + 1) - Level(g, k);
    KeepMembers(ids, added);
    assert Elements(Wave(ids, g, k)) == {};
    assert added == Elements(ids) * added;
    NothingLeft(Level(g, k + 1), Level(g, k));
  }

  /** A plan of `n` steps needs at most `n` waves. */
  lemma StuckLevelIsLast(g: Graph)
    ensures Level(g, |g.Keys| + 1) == Level(g, |g.Keys|)
  {
    var n := |g.Keys|;
    LevelsGrow(g, n);
    forall s | s in Level(g, n + 1) ensures s in Level(g, n) {
      if Blocked(g, s) {
        BlockedNeverReady(g, s, n + 1);
      }
      FinishableIffNotBlocked(g, s);
    }
  }

  lemma StuckIsOver(ids: seq<string>, g: Graph, k: nat)
    requires Level(g, k + 1) == Level(g, k)
    ensures Waves(ids, g, k) == Waves(ids, g, |g.Keys|)
  {
    StuckLevelIsLast(g);
    if k <= |g.Keys| {
      WavesStable(ids, g, k, |g.Keys|);
    } else {
      WavesStable(ids, g, |g.Keys|, k);
    }
  }

  lemma CyclicIffStuckEarly(g: Graph, k: nat)
    requires Level(g, k + 1) == Level(g, k)
    ensures Cyclic(g) <==> Level(g, k) != g.Keys
  {
    StuckMeansUnblocked(g, k);
    CyclicIffSomeBlocked(g);
  }

  /** A wave that runs nothing: all that can run has run, and a cycle blocks whatever remains. */
  lemma EmptyWave(ids: seq<string>, g: Graph, k: nat)
    requires g.Keys == Elements(ids) && Wave(ids, g, k) == []
    ensures Waves(ids, g, k) == Waves(ids, g, |g.Keys|)
    ensures Cyclic(g) <==> Level(g, k) != g.Keys
  {
    EmptyWaveIsStuck(ids, g, k);
    StuckIsOver(ids, g, k);
    CyclicIffStuckEarly(g, k);
  }

  /** Running a wave that is not empty moves the scheduler from level `k` to level `k + 1`. */
  lemma NextWave(ids: seq<string>, g: Graph, k: nat, remaining: set<string>, ready: seq<string>)
    requires g.Keys == Elements(ids) && remaining == g.Keys - Level(g, k)
    requires ready == Ready(Keep(ids, remaining), g, remaining)
    ensures Waves(ids, g, k) + ready == Waves(ids, g, k + 1)
    ensures forall j :: 0 <= j < |ready| ==> ready[j] in g
    ensures remaining - Elements(ready) == g.Keys - Level(g, k + 1)
    ensures ready != [] ==> remaining - Elements(ready) < remaining
  {
    ReadyIsWave(ids, g, k, remaining);
    LevelsGrow(g, k);
    KeepMembers(ids, Level(g, k + 1) - Level(g, k));
    forall j | 0 <= j < |ready| ensures ready[j] in g && ready[j] in remaining {
      assert ready[j] in Elements(ready);
    }
    if ready != [] {
      assert ready[0] in remaining && ready[0] in Elements(ready);
    }
  }

  lemma LastWave(ids: seq<string>, g: Graph, k: nat)
    requires g.Keys == Elements(ids) && g.Keys - Level(g, k) == {}
    ensures Waves(ids, g, k) == Waves(ids, g, |g.Keys|) && !Cyclic(g)
  {
    LevelsGrow(g, k);
    KeepNothing(ids);
    NothingLeft(g.Keys, Level(g, k));
    assert Level(g, k + 1) - Level(g, k) == {};
    EmptyWave(ids, g, k);
  }

  class Executor {
    const registry: ToolRegistry

    constructor (registry: ToolRegistry)
      ensures this.registry == registry
    {
      this.registry := registry;
    }

    ghost function EnvOf(ctx: ToolContext, host: ToolHost): Env
      reads registry
    {
      Env(registry.specs, host.behaviour, ctx)
    }

    ghost function LogOf(memory: AgentMemory, logger: DecisionTraceLogger, host: ToolHost): Log
      reads memory, logger, host
    {
      Log(memory.scratchpad, logger.events, host.calls)
    }

    /** One call of a tool; whatever it does is folded into a result. */
    method Invoke(spec: ToolSpec, ctx: ToolContext, step: ToolCall, host: ToolHost) returns (result: ToolResult)
      modifies host
      ensures host.calls == old(host.calls) + [Invocation(spec.name, step.args, ctx)]
      ensures result == Fold(spec, step, host.behaviour(host.calls))
      ensures Reports(result, spec, step, host.behaviour(host.calls))
    {
      var outcome := host.Call(Invocation(spec.name, step.args, ctx));
      match outcome {
        case Raised(kind, detail) =>
          var data := NO_DATA.(code := Some("tool_execution_error"));
          result := ErrorResult(step.stepId, spec.name, ToolRaised(kind, detail), data);
        case ReturnedOther =>
          result := ErrorResult(step.stepId, spec.name, NotAToolResult(spec.name), NO_DATA);
        case Returned(value) =>
          result := value.(stepId := step.stepId, tool := spec.name);
      }
    }

    method RunStep(step: ToolCall, spec: Option<ToolSpec>, ctx: ToolContext,
                   memory: AgentMemory, logger: DecisionTraceLogger, host: ToolHost)
      returns (result: ToolResult)
      modifies memory, logger, host
      ensures (result, LogOf(memory, logger, host)) ==
              Trace.RunStep(EnvOf(ctx, host), step, spec, old(LogOf(memory, logger, host)))
    {
      ghost var env := EnvOf(ctx, host);
      var stepCtx := ToolContext(ctx.userId, ctx.role, step.stepId);
      if spec.None? || !spec.value.VisibleToRole(ctx.role) {
        logger.Record(StepSkipped(step.stepId, step.tool));
        result := ErrorResult(step.stepId, step.tool, ToolUnavailable(step.tool), NO_DATA);
        memory.Remember(step.stepId, result);
        return;
      }
      logger.Record(StepStarted(step.stepId, step.tool, step.args));
      var last: Option<ToolResult> := None;
      ghost var started := LogOf(memory, logger, host);
      if spec.value.retries >= 0 {
        var attempt := 1;
        ghost var expected := Attempts(env, spec.value, step, 1, started);
        while true
          invariant 1 <= attempt <= spec.value.retries + 1
          invariant expected == Attempts(env, spec.value, step, attempt,
                                         LogOf(memory, logger, host))
          invariant memory.scratchpad == old(memory.scratchpad)
          decreases spec.value.retries - attempt + 1
        {
          var answer := Invoke(spec.value, stepCtx, step, host);
          last := Some(answer);
          if answer.status == "ok" || attempt > spec.value.retries {
            break;
          }
          logger.Record(StepRetrying(step.stepId, step.tool, attempt, answer.error));
          attempt := attempt + 1;
        }
      }
      if last.None? {
        result := ErrorResult(step.stepId, step.tool, NoResult, NO_DATA);
      } else {
        result := last.value;
      }
      memory.Remember(step.stepId, result);
      logger.Record(StepFinished(step.stepId, step.tool, result.status, result.error));
    }

    /** Runs one wave, one step after the other. */
    method RunWave(ready: seq<string>, stepMap: map<string, ToolCall>, results0: map<string, ToolResult>,
                   ctx: ToolContext, memory: AgentMemory, logger: DecisionTraceLogger, host: ToolHost,
                   ghost done: seq<string>, ghost start: Log)
      returns (results: map<string, ToolResult>)
      requires forall j :: 0 <= j < |ready| ==> ready[j] in stepMap
      requires RunAll(EnvOf(ctx, host), stepMap, done, start) == Progress(results0, LogOf(memory, logger, host))
      modifies memory, logger, host
      ensures RunAll(EnvOf(ctx, host), stepMap, done + ready, start) == Progress(results, LogOf(memory, logger, host))
    {
      ghost var env, order := EnvOf(ctx, host), done;
      results := results0;
      for i := 0 to |ready|
        invariant order == done + ready[..i]
        invariant RunAll(env, stepMap, order, start) == Progress(results, LogOf(memory, logger, host))
      {
        var stepId := ready[i];
        RunAllExtends(env, stepMap, order, stepId, start);
        var step := stepMap[stepId];
        var result := RunStep(step, Lookup(registry.specs, step.tool), ctx, memory, logger, host);
        results := results[stepId := result];
        order := order + [stepId];
      }
      assert ready[..|ready|] == ready;
    }

    /**
     * Runs the plan.  It raises exactly when an id repeats, and then does nothing, or when the
     * dependencies have a cycle, and then it has run exactly the steps no cycle blocks.
     */
    method Execute(plan: Plan, ctx: ToolContext,
                   memory: AgentMemory, logger: DecisionTraceLogger, host: ToolHost)
      returns (r: Result<map<string, ToolResult>, ConfigurationError>)
      modifies memory, logger, host
      ensures r.Ok? <==> UniqueIds(plan.steps) && !Cyclic(GraphOf(plan.steps))
      ensures !UniqueIds(plan.steps) ==>
                && r.error.DuplicateStep? && FirstDuplicate(plan.steps, r.error.stepId)
                && LogOf(memory, logger, host) == old(LogOf(memory, logger, host))
      ensures UniqueIds(plan.steps) ==>
        var run := RunAll(EnvOf(ctx, host), Index(plan.steps), RunOrder(plan.steps), old(LogOf(memory, logger, host)));
        && LogOf(memory, logger, host) == run.log
        && r == if Cyclic(GraphOf(plan.steps)) then Err(DependencyCycle) else Ok(run.results)
    {
      var indexed := IndexSteps(plan);
      if indexed.Err? {
        return Err(indexed.error);
      }
      var stepMap := indexed.value;
      var results: map<string, ToolResult> := map[];
      var remaining := stepMap.Keys;
      var satisfied := map id | id in stepMap :: Dependencies(stepMap[id]);
      ghost var ids, g, env := Ids(plan.steps), GraphOf(plan.steps), EnvOf(ctx, host);
      ghost var start := LogOf(memory, logger, host);
      ghost var k, order := 0, [];
      IndexIsExact(plan.steps);
      while remaining != {}
        invariant remaining == g.Keys - Level(g, k)
        invariant order == Waves(ids, g, k)
        invariant RunAll(env, stepMap, order, start) == Progress(results, LogOf(memory, logger, host))
        decreases remaining
      {
        var ready := Ready(PlanOrder(plan, remaining), satisfied, remaining);
        NextWave(ids, g, k, remaining, ready);
        if ready == [] {
          ReadyIsWave(ids, g, k, remaining);
          EmptyWave(ids, g, k);
          assert order == RunOrder(plan.steps);
          return Err(DependencyCycle);
        }
        results := RunWave(ready, stepMap, results, ctx, memory, logger, host, order, start);
        remaining := remaining - Elements(ready);
        k, order := k + 1, order + ready;
      }
      LastWave(ids, g, k);
      assert order == RunOrder(plan.steps);
      r := Ok(results);
    }
  }

  // ----- What a run leaves behind -----

  lemma RunOrderInPlan(steps: seq<ToolCall>)
    requires UniqueIds(steps)
    ensures forall i :: 0 <= i < |RunOrder(steps)| ==> StepAt(Index(steps), RunOrder(steps)[i]).stepId == RunOrder(steps)[i]
  {
    IndexIsExact(steps);
    RunOrderIsDepthSort(steps);
    forall i | 0 <= i < |RunOrder(steps)| ensures RunOrder(steps)[i] in Index(steps) {
      assert RunOrder(steps)[i] in Elements(RunOrder(steps));
    }
  }

  lemma {:induction false} FreshMemory(runs: seq<StepRun>)
    requires forall i, j :: 0 <= i < j < |runs| ==> runs[i].step.stepId != runs[j].step.stepId
    ensures |MemoryAfter([], runs)| == |runs|
    ensures forall i :: 0 <= i < |runs| ==> MemoryAfter([], runs)[i] == (runs[i].step.stepId, runs[i].result)
  {
    if runs != [] {
      var n := |runs| - 1;
      FreshMemory(runs[..n]);
      PutNewAppends(MemoryAfter([], runs[..n]), runs[n].step.stepId, runs[n].result);
    }
  }

  /**
   * A run that starts with an empty scratchpad remembers exactly the steps no cycle blocks, in
   * run order, each with the result its block of the trace ends with.
   */
  lemma ExecutionRecord(env: Env, steps: seq<ToolCall>, log: Log) returns (runs: seq<StepRun>)
    requires UniqueIds(steps) && log.memory == []
    ensures var order := RunOrder(steps);
      && AreStepRuns(env, Index(steps), order, log.calls, runs)
      && Holds(RunAll(env, Index(steps), order, log), order, log, runs)
    ensures var memory := RunAll(env, Index(steps), RunOrder(steps), log).log.memory;
      && |memory| == |RunOrder(steps)| == |runs|
      && forall i :: 0 <= i < |memory| ==> memory[i] == (RunOrder(steps)[i], runs[i].result)
    ensures RunAll(env, Index(steps), RunOrder(steps), log).results.Keys == Unblocked(GraphOf(steps))
    ensures !Cyclic(GraphOf(steps)) ==> Unblocked(GraphOf(steps)) == Elements(Ids(steps))
  {
    var order := RunOrder(steps);
    RunOrderIsDepthSort(steps);
    RunOrderInPlan(steps);
    runs := RunAllIsBlocks(env, Index(steps), order, log);
    FreshMemory(runs);
    IndexIsExact(steps);
    CyclicIffSomeBlocked(GraphOf(steps));
  }
}
