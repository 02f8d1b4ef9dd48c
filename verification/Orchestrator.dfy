/** The agent service: plan, execute, answer, and return the whole decision trace. */
module Orchestrator {
  import opened Wrappers
  import opened Json
  import opened Text
  import opened JsonScan
  import opened Fences
  import opened Tools
  import opened Graph
  import opened Schedule
  import opened Trace
  import E = Executor
  import P = Planner

  datatype RunResult = RunResult(
    query: string, plan: E.Plan, results: map<string, ToolResult>, answer: FinalAnswer,
    citations: seq<Citation>, trace: seq<Event>)

  /** The last declared step's output, with a note when any step failed. */
  function ComposeAnswer(plan: E.Plan, results: map<string, ToolResult>): FinalAnswer {
    if plan.steps == [] then NoStepsRequired
    else
      var lastId := plan.steps[|plan.steps| - 1].stepId;
      if lastId !in results then NoResults
      else
        var last := results[lastId];
        var body := if last.output.IsEmpty() then CompletedSilently(last.stepId) else Output(last.output);
        Answer(body, exists i :: 0 <= i < |plan.steps| && plan.steps[i].stepId in results
                                 && results[plan.steps[i].stepId].status == "error")
  }

  // ----- Citations -----

  /** The citations of one step: only successful retrievals have any. */
  function StepCitations(step: ToolCall, results: map<string, ToolResult>): seq<Citation> {
    if step.stepId in results && results[step.stepId].tool == "rag_tool" && results[step.stepId].status == "ok"
    then results[step.stepId].data.citations
    else []
  }

  function AllCitations(steps: seq<ToolCall>, results: map<string, ToolResult>): seq<Citation> {
    if steps == [] then []
    else AllCitations(steps[..|steps| - 1], results) + StepCitations(steps[|steps| - 1], results)
  }

  function ChunkIds(citations: seq<Citation>): set<Option<string>> {
    set c | c in citations :: c.chunkId
  }

  /** The citations whose chunk was not cited before. */
  function FirstPerChunk(all: seq<Citation>): seq<Citation> {
    if all == [] then []
    else
      var front, last := all[..|all| - 1], all[|all| - 1];
      if last.chunkId in ChunkIds(front) then FirstPerChunk(front) else FirstPerChunk(front) + [last]
  }

  /** The citation at `p` is the first of its chunk. */
  ghost predicate IsFirst(all: seq<Citation>, p: nat) {
    p < |all| && forall q :: 0 <= q < p ==> all[q].chunkId != all[p].chunkId
  }

  lemma ChunkIdsConcat(a: seq<Citation>, b: seq<Citation>)
    ensures ChunkIds(a + b) == ChunkIds(a) + ChunkIds(b)
  {
    forall c ensures c in a + b <==> c in a || c in b {
    }
  }

  lemma FirstStays(all: seq<Citation>, last: Citation, p: nat)
    requires IsFirst(all, p)
    ensures IsFirst(all + [last], p)
  {
  }

  lemma NewChunkIsFirst(all: seq<Citation>, last: Citation)
    requires last.chunkId !in ChunkIds(all)
    ensures IsFirst(all + [last], |all|)
  {
    forall q | 0 <= q < |all| ensures (all + [last])[q].chunkId != last.chunkId {
      assert all[q] in all && all[q].chunkId in ChunkIds(all);
    }
  }

  /** Every cited chunk is kept exactly once, by its first citation, and the order is kept. */
  lemma {:induction false} EveryChunkOnce(all: seq<Citation>) returns (at: seq<nat>)
    ensures |at| == |FirstPerChunk(all)|
    ensures forall i :: 0 <= i < |at| ==> IsFirst(all, at[i]) && FirstPerChunk(all)[i] == all[at[i]]
    ensures forall i, j :: 0 <= i < j < |at| ==> at[i] < at[j]
    ensures ChunkIds(FirstPerChunk(all)) == ChunkIds(all)
  {
    if all == [] {
      at := [];
    } else {
      var n := |all| - 1;
      var front, last := all[..n], all[n];
      var before := EveryChunkOnce(front);
      assert all == front + [last];
      ChunkIdsConcat(front, [last]);
      forall i | 0 <= i < |before| ensures IsFirst(all, before[i]) && all[before[i]] == front[before[i]] {
        FirstStays(front, last, before[i]);
      }
      if last.chunkId in ChunkIds(front) {
        at := before;
      } else {
        ChunkIdsConcat(FirstPerChunk(front), [last]);
        NewChunkIsFirst(front, last);
        at := before + [n];
      }
    }
  }

  // ----- Which citations, in terms of the steps and their results -----

  /** The `position`-th citation of the `step`-th planned step. */
  datatype Place = Place(step: nat, position: nat) {
    predicate Before(other: Place) {
      step < other.step || (step == other.step && position < other.position)
    }
  }

  /** A successful retrieval of a planned step cites something there. */
  ghost predicate Cites(steps: seq<ToolCall>, results: map<string, ToolResult>, at: Place) {
    && at.step < |steps| && steps[at.step].stepId in results
    && var result := results[steps[at.step].stepId];
    && result.tool == "rag_tool" && result.status == "ok" && at.position < |result.data.citations|
  }

  ghost function CitationAt(steps: seq<ToolCall>, results: map<string, ToolResult>, at: Place): Citation
    requires Cites(steps, results, at)
  {
    results[steps[at.step].stepId].data.citations[at.position]
  }

  ghost predicate InOrder(at: seq<Place>) {
    forall i, j :: 0 <= i < j < |at| ==> at[i].Before(at[j])
  }

  ghost predicate CitationsAt(all: seq<Citation>, at: seq<Place>, steps: seq<ToolCall>, results: map<string, ToolResult>) {
    && |at| == |all|
    && forall i :: 0 <= i < |at| ==> Cites(steps, results, at[i]) && all[i] == CitationAt(steps, results, at[i])
  }

  ghost predicate AllPlaces(at: seq<Place>, steps: seq<ToolCall>, results: map<string, ToolResult>) {
    forall place :: Cites(steps, results, place) ==> place in at
  }

  function PlacesOf(step: nat, n: nat): seq<Place> {
    seq(n, i requires 0 <= i < n => Place(step, i))
  }

  lemma NextStepPlaces(
      all: seq<Citation>, at: seq<Place>, steps: seq<ToolCall>, last: ToolCall, results: map<string, ToolResult>)
    requires CitationsAt(all, at, steps, results)
    ensures var more := StepCitations(last, results);
      CitationsAt(all + more, at + PlacesOf(|steps|, |more|), steps + [last], results)
  {
    var longer, more := steps + [last], StepCitations(last, results);
    forall i | 0 <= i < |at| ensures Cites(longer, results, at[i]) && all[i] == CitationAt(longer, results, at[i]) {
      assert Cites(steps, results, at[i]);
    }
    forall i | 0 <= i < |more|
      ensures Cites(longer, results, Place(|steps|, i)) && more[i] == CitationAt(longer, results, Place(|steps|, i))
    {
    }
  }

  lemma NextStepAll(at: seq<Place>, steps: seq<ToolCall>, last: ToolCall, results: map<string, ToolResult>)
    requires AllPlaces(at, steps, results)
    ensures AllPlaces(at + PlacesOf(|steps|, |StepCitations(last, results)|), steps + [last], results)
  {
    var more := PlacesOf(|steps|, |StepCitations(last, results)|);
    forall place | Cites(steps + [last], results, place) ensures place in at + more {
      if place.step < |steps| {
        assert Cites(steps, results, place);
      } else {
        assert more[place.position] == place;
      }
    }
  }

  lemma NextStepInOrder(at: seq<Place>, step: nat, n: nat)
    requires InOrder(at) && forall i :: 0 <= i < |at| ==> at[i].step < step
    ensures InOrder(at + PlacesOf(step, n))
  {
  }

  /** The citations collected are those of all successful retrievals, step by step. */
  lemma {:induction false} AllCitationsAre(steps: seq<ToolCall>, results: map<string, ToolResult>) returns (at: seq<Place>)
    ensures CitationsAt(AllCitations(steps, results), at, steps, results)
    ensures AllPlaces(at, steps, results) && InOrder(at)
  {
    at := [];
    if steps != [] {
      var front, last := steps[..|steps| - 1], steps[|steps| - 1];
      assert steps == front + [last];
      at := AllCitationsAre(front, results);
      NextStepPlaces(AllCitations(front, results), at, front, last, results);
      NextStepAll(at, front, last, results);
      NextStepInOrder(at, |front|, |StepCitations(last, results)|);
      at := at + PlacesOf(|front|, |StepCitations(last, results)|);
    }
  }

  /** No successful retrieval cites the same chunk at an earlier place. */
  ghost predicate CitesFirst(steps: seq<ToolCall>, results: map<string, ToolResult>, at: Place) {
    && Cites(steps, results, at)
    && forall b: Place :: Cites(steps, results, b) && b.Before(at) ==>
         CitationAt(steps, results, b).chunkId != CitationAt(steps, results, at).chunkId
  }

  /** The kept citations stand at the places `at`: exactly those that cite their chunk first, in order. */
  ghost predicate AreFirstCitations(
    citations: seq<Citation>, at: seq<Place>, steps: seq<ToolCall>, results: map<string, ToolResult>)
  {
    && CitationsAt(citations, at, steps, results) && InOrder(at)
    && forall place :: place in at <==> CitesFirst(steps, results, place)
  }

  lemma OrderIsExact(at: seq<Place>)
    requires InOrder(at)
    ensures forall i, j :: 0 <= i < |at| && 0 <= j < |at| ==> (at[i].Before(at[j]) <==> i < j)
  {
    forall i, j | 0 <= i < |at| && 0 <= j < |at| ensures at[i].Before(at[j]) <==> i < j {
      if j < i {
        assert at[j].Before(at[i]);
      }
    }
  }

  lemma FirstIffCitesFirst(
      all: seq<Citation>, at: seq<Place>, steps: seq<ToolCall>, results: map<string, ToolResult>, p: nat)
    requires CitationsAt(all, at, steps, results) && AllPlaces(at, steps, results) && InOrder(at) && p < |at|
    ensures IsFirst(all, p) <==> CitesFirst(steps, results, at[p])
  {
    OrderIsExact(at);
    if IsFirst(all, p) {
      forall b: Place | Cites(steps, results, b) && b.Before(at[p])
        ensures CitationAt(steps, results, b).chunkId != CitationAt(steps, results, at[p]).chunkId
      {
        var q :| 0 <= q < |at| && at[q] == b;
        assert q < p;
      }
    }
    if CitesFirst(steps, results, at[p]) {
      forall q | 0 <= q < p ensures all[q].chunkId != all[p].chunkId {
        assert at[q].Before(at[p]) && Cites(steps, results, at[q]);
      }
    }
  }

  lemma FirstIsKept(all: seq<Citation>, kept: seq<nat>, q: nat)
    requires IsFirst(all, q) && |kept| == |FirstPerChunk(all)|
    requires forall i :: 0 <= i < |kept| ==> IsFirst(all, kept[i]) && FirstPerChunk(all)[i] == all[kept[i]]
    requires ChunkIds(FirstPerChunk(all)) == ChunkIds(all)
    ensures q in kept
  {
    assert all[q] in all && all[q].chunkId in ChunkIds(all);
    var c :| c in FirstPerChunk(all) && c.chunkId == all[q].chunkId;
    var i :| 0 <= i < |kept| && FirstPerChunk(all)[i] == c;
    assert all[kept[i]].chunkId == all[q].chunkId;
  }

  ghost function Picked(at: seq<Place>, kept: seq<nat>): seq<Place>
    requires forall i :: 0 <= i < |kept| ==> kept[i] < |at|
  {
    seq(|kept|, i requires 0 <= i < |kept| => at[kept[i]])
  }

  lemma PickedInOrder(at: seq<Place>, kept: seq<nat>)
    requires InOrder(at) && forall i :: 0 <= i < |kept| ==> kept[i] < |at|
    requires forall i, j :: 0 <= i < j < |kept| ==> kept[i] < kept[j]
    ensures InOrder(Picked(at, kept))
  {
  }

  /** The places of the kept citations, `kept` counting among all `all`. */
  lemma PickedIffFirst(
      all: seq<Citation>, places: seq<Place>, kept: seq<nat>, steps: seq<ToolCall>, results: map<string, ToolResult>,
      place: Place)
    requires CitationsAt(all, places, steps, results) && AllPlaces(places, steps, results) && InOrder(places)
    requires forall q: nat :: q in kept <==> IsFirst(all, q)
    requires forall i :: 0 <= i < |kept| ==> kept[i] < |places|
    ensures place in Picked(places, kept) <==> CitesFirst(steps, results, place)
  {
    if place in Picked(places, kept) {
      var i :| 0 <= i < |kept| && places[kept[i]] == place;
      FirstIffCitesFirst(all, places, steps, results, kept[i]);
    }
    if CitesFirst(steps, results, place) {
      var q :| 0 <= q < |places| && places[q] == place;
      FirstIffCitesFirst(all, places, steps, results, q);
      var i :| 0 <= i < |kept| && kept[i] == q;
      assert Picked(places, kept)[i] == place;
    }
  }

  lemma KeptIffFirst(all: seq<Citation>) returns (kept: seq<nat>)
    ensures |kept| == |FirstPerChunk(all)|
    ensures forall i :: 0 <= i < |kept| ==> kept[i] < |all| && FirstPerChunk(all)[i] == all[kept[i]]
    ensures forall i, j :: 0 <= i < j < |kept| ==> kept[i] < kept[j]
    ensures forall q: nat :: q in kept <==> IsFirst(all, q)
  {
    kept := EveryChunkOnce(all);
    forall q: nat | IsFirst(all, q) ensures q in kept {
      FirstIsKept(all, kept, q);
    }
  }

  /**
   * The citations returned are exactly those of the planned steps' successful retrievals that cite their
   * chunk first, in the order of the steps and of each step's citations.
   */
  lemma CitationsAreFirst(steps: seq<ToolCall>, results: map<string, ToolResult>) returns (at: seq<Place>)
    ensures AreFirstCitations(FirstPerChunk(AllCitations(steps, results)), at, steps, results)
  {
    var all := AllCitations(steps, results);
    var places := AllCitationsAre(steps, results);
    var kept := KeptIffFirst(all);
    at := Picked(places, kept);
    PickedInOrder(places, kept);
    forall place ensures place in at <==> CitesFirst(steps, results, place) {
      PickedIffFirst(all, places, kept, steps, results, place);
    }
  }

  lemma CollectedIff(all: seq<Citation>, places: seq<Place>, steps: seq<ToolCall>, results: map<string, ToolResult>,
                     chunkId: Option<string>)
    requires CitationsAt(all, places, steps, results) && AllPlaces(places, steps, results)
    ensures chunkId in ChunkIds(all) <==>
            exists at :: Cites(steps, results, at) && CitationAt(steps, results, at).chunkId == chunkId
  {
    if at :| Cites(steps, results, at) && CitationAt(steps, results, at).chunkId == chunkId {
      var q :| 0 <= q < |places| && places[q] == at;
      assert all[q] in all;
    }
    if chunkId in ChunkIds(all) {
      var q :| 0 <= q < |all| && all[q].chunkId == chunkId;
      assert Cites(steps, results, places[q]);
    }
  }

  /** So a chunk is cited exactly when a successful retrieval of a planned step cites it. */
  lemma CitedIff(steps: seq<ToolCall>, results: map<string, ToolResult>, chunkId: Option<string>)
    ensures chunkId in ChunkIds(FirstPerChunk(AllCitations(steps, results))) <==>
            exists at :: Cites(steps, results, at) && CitationAt(steps, results, at).chunkId == chunkId
  {
    var all := AllCitations(steps, results);
    var places := AllCitationsAre(steps, results);
    CollectedIff(all, places, steps, results, chunkId);
    var kept := EveryChunkOnce(all);
  }

  // ----- The collecting loop -----

  lemma FirstPerChunkStep(all: seq<Citation>, c: Citation)
    ensures FirstPerChunk(all + [c]) ==
            if c.chunkId in ChunkIds(all) then FirstPerChunk(all) else FirstPerChunk(all) + [c]
    ensures ChunkIds(all + [c]) == ChunkIds(all) + {c.chunkId}
  {
    assert (all + [c])[..|all|] == all;
    ChunkIdsConcat(all, [c]);
  }

  lemma CitedUpTo(all: seq<Citation>, cited: seq<Citation>, j: nat)
    requires j < |cited|
    ensures var before, c := all + cited[..j], cited[j];
      if c.chunkId in ChunkIds(before)
      then FirstPerChunk(all + cited[..j + 1]) == FirstPerChunk(before) && ChunkIds(all + cited[..j + 1]) == ChunkIds(before)
      else FirstPerChunk(all + cited[..j + 1]) == FirstPerChunk(before) + [c]
           && ChunkIds(all + cited[..j + 1]) == ChunkIds(before) + {c.chunkId}
  {
    var before := all + cited[..j];
    assert all + cited[..j + 1] == before + [cited[j]];
    FirstPerChunkStep(before, cited[j]);
    if cited[j].chunkId in ChunkIds(before) {
      assert ChunkIds(before) + {cited[j].chunkId} == ChunkIds(before);
    }
  }

  /** Adds one step's citations whose chunk has not been seen. */
  method AddCitations(cited: seq<Citation>, citations0: seq<Citation>, seen0: set<Option<string>>,
                      ghost all: seq<Citation>)
    returns (citations: seq<Citation>, seen: set<Option<string>>)
    requires citations0 == FirstPerChunk(all) && seen0 == ChunkIds(all)
    ensures citations == FirstPerChunk(all + cited) && seen == ChunkIds(all + cited)
  {
    citations, seen := citations0, seen0;
    assert all + cited[..0] == all;
    for j := 0 to |cited|
      invariant citations == FirstPerChunk(all + cited[..j]) && seen == ChunkIds(all + cited[..j])
    {
      CitedUpTo(all, cited, j);
      if cited[j].chunkId in seen {
        continue;
      }
      seen := seen + {cited[j].chunkId};
      citations := citations + [cited[j]];
    }
    assert cited[..|cited|] == cited;
  }

  method CollectCitations(plan: E.Plan, results: map<string, ToolResult>) returns (citations: seq<Citation>)
    ensures citations == FirstPerChunk(AllCitations(plan.steps, results))
    ensures exists at :: AreFirstCitations(citations, at, plan.steps, results)
  {
    citations := [];
    var seen: set<Option<string>> := {};
    for i := 0 to |plan.steps|
      invariant citations == FirstPerChunk(AllCitations(plan.steps[..i], results))
      invariant seen == ChunkIds(AllCitations(plan.steps[..i], results))
    {
      var step := plan.steps[i];
      ghost var all := AllCitations(plan.steps[..i], results);
      assert plan.steps[..i + 1][..i] == plan.steps[..i];
      assert AllCitations(plan.steps[..i + 1], results) == all + StepCitations(step, results);
      if step.stepId !in results || results[step.stepId].tool != "rag_tool" || results[step.stepId].status != "ok" {
        assert all + [] == all;
        continue;
      }
      citations, seen := AddCitations(results[step.stepId].data.citations, citations, seen, all);
    }
    assert plan.steps[..|plan.steps|] == plan.steps;
    ghost var at := CitationsAreFirst(plan.steps, results);
  }

  // ----- The service -----

  ghost predicate Completes(plan: E.Plan) {
    UniqueIds(plan.steps) && !Cyclic(GraphOf(plan.steps))
  }

  function Opening(query: string, role: string, plan: E.Plan): seq<Event> {
    [QueryReceived(query, role), PlanCreated(plan.source, plan.rationale, plan.steps)]
  }

  /** What running `plan` leaves in a fresh scratchpad, trace and results, after the calls in `calls`. */
  ghost function RunOf(env: Env, query: string, role: string, plan: E.Plan, calls: seq<Invocation>): Progress {
    RunAll(env, Index(plan.steps), RunOrder(plan.steps), Log([], Opening(query, role, plan), calls))
  }

  class AgentService {
    const planner: P.Planner
    const executor: E.Executor

    constructor (planner: P.Planner, executor: E.Executor)
      ensures this.planner == planner && this.executor == executor
    {
      this.planner := planner;
      this.executor := executor;
    }

    ghost function PlanOf(query: string, role: string, reply: P.ProviderReply): E.Plan
      reads planner.registry
    {
      P.PlanFor(query, role, reply, planner.loads, planner.registry.specs, planner.maxSteps)
    }

    /**
     * Answers one query.  It raises for a blank query and for a plan that cannot complete, and
     * otherwise returns every step's result and the complete trace.
     */
    method Run(userId: string, role: string, query: string, reply: P.ProviderReply, host: ToolHost)
      returns (r: Result<RunResult, ConfigurationError>)
      modifies host
      ensures r.Ok? <==> Strip(query) != "" && Completes(PlanOf(query, role, reply))
      ensures Strip(query) == "" ==> r == Err(EmptyQuery) && host.calls == old(host.calls)
      ensures r.Ok? ==>
        var plan := PlanOf(query, role, reply);
        var run := RunOf(executor.EnvOf(ToolContext(userId, role, ""), host), query, role, plan, old(host.calls));
        && r.value.query == query && r.value.plan == plan && r.value.results == run.results
        && host.calls == run.log.calls
        && r.value.answer == ComposeAnswer(plan, run.results)
        && r.value.citations == FirstPerChunk(AllCitations(plan.steps, run.results))
        && r.value.trace == run.log.events + [RunFinished(r.value.answer, |run.results|)]
    {
      var logger := new DecisionTraceLogger();
      var memory := new AgentMemory(query);
      logger.Record(QueryReceived(query, role));
      var planned := planner.Plan(query, role, reply);
      if planned.Err? {
        return Err(planned.error);
      }
      var plan := planned.value;
      logger.Record(PlanCreated(plan.source, plan.rationale, plan.steps));
      assert logger.events == Opening(query, role, plan);
      var ctx := ToolContext(userId, role, "");
      var executed := executor.Execute(plan, ctx, memory, logger, host);
      if executed.Err? {
        return Err(executed.error);
      }
      var results := executed.value;
      var answer := ComposeAnswer(plan, results);
      var citations := CollectCitations(plan, results);
      logger.Record(RunFinished(answer, |results|));
      r := Ok(RunResult(query, plan, results, answer, citations, logger.events));
    }
  }

  lemma RunOrderCoversPlan(steps: seq<ToolCall>)
    requires UniqueIds(steps) && !Cyclic(GraphOf(steps))
    ensures |RunOrder(steps)| == |steps| == |Elements(Ids(steps))|
    ensures Distinct(RunOrder(steps)) && Elements(RunOrder(steps)) == Elements(Ids(steps))
  {
    RunOrderIsDepthSort(steps);
    DistinctSize(RunOrder(steps));
    DistinctSize(Ids(steps));
    IndexIsExact(steps);
    CyclicIffSomeBlocked(GraphOf(steps));
    assert Unblocked(GraphOf(steps)) == Elements(Ids(steps));
  }

  lemma MapSize<X, Y>(m: map<X, Y>)
    ensures |m| == |m.Keys|
  {
  }

  /**
   * The trace of a completed run: query_received, plan_created, one block per step in run order,
   * run_finished with as many steps as were planned; each step's result is the one its block reports.
   */
  lemma RunTraceGrammar(env: Env, query: string, role: string, plan: E.Plan, calls: seq<Invocation>)
      returns (runs: seq<StepRun>)
    requires Completes(plan)
    ensures var run := RunOf(env, query, role, plan, calls);
      && AreStepRuns(env, Index(plan.steps), RunOrder(plan.steps), calls, runs)
      && run.log.events ==
         [QueryReceived(query, role), PlanCreated(plan.source, plan.rationale, plan.steps)] + AllEvents(runs)
      && run.log.calls == calls + AllCalls(runs)
      && |runs| == |plan.steps| == |run.results|
      && run.results.Keys == Elements(Ids(plan.steps))
      && forall i :: 0 <= i < |runs| ==>
           RunOrder(plan.steps)[i] in run.results && run.results[RunOrder(plan.steps)[i]] == runs[i].result
  {
    var order, run := RunOrder(plan.steps), RunOf(env, query, role, plan, calls);
    RunOrderCoversPlan(plan.steps);
    runs := RunAllIsBlocks(env, Index(plan.steps), order, Log([], Opening(query, role, plan), calls));
    assert Holds(run, order, Log([], Opening(query, role, plan), calls), runs);
    MapSize(run.results);
  }

  /** Looking at the planned steps' results finds a failure exactly when there is one among the results. */
  lemma FailuresAreSeen(steps: seq<ToolCall>, results: map<string, ToolResult>)
    requires results.Keys == Elements(Ids(steps))
    ensures forall i :: 0 <= i < |steps| ==> steps[i].stepId in results
    ensures (exists i :: 0 <= i < |steps| && steps[i].stepId in results && results[steps[i].stepId].status == "error")
            <==> exists id :: id in results && results[id].status == "error"
  {
    var ids := Ids(steps);
    assert forall i :: 0 <= i < |steps| ==> ids[i] == steps[i].stepId && ids[i] in Elements(ids);
    if id :| id in results && results[id].status == "error" {
      assert id in Elements(ids);
      var i :| 0 <= i < |ids| && ids[i] == id;
      assert steps[i].stepId in results && results[steps[i].stepId].status == "error";
    }
  }

  /** A plan without steps is answered as such. */
  lemma EmptyPlanAnswer(plan: E.Plan, results: map<string, ToolResult>)
    ensures ComposeAnswer(plan, results) == NoStepsRequired <==> plan.steps == []
  {
  }

  /** A completed run with steps always answers with its last declared step's output. */
  lemma CompletedRunsAnswer(env: Env, query: string, role: string, plan: E.Plan, calls: seq<Invocation>)
    requires Completes(plan) && plan.steps != []
    ensures var results := RunOf(env, query, role, plan, calls).results;
      var lastId := plan.steps[|plan.steps| - 1].stepId;
      && ComposeAnswer(plan, results).Answer? && lastId in results
      && (results[lastId].output != Text("") ==> ComposeAnswer(plan, results).body == Output(results[lastId].output))
      && (ComposeAnswer(plan, results).someFailed <==> exists id :: id in results && results[id].status == "error")
  {
    ResultsCoverPlan(env, query, role, plan, calls);
    FailuresAreSeen(plan.steps, RunOf(env, query, role, plan, calls).results);
  }

  lemma ResultsCoverPlan(env: Env, query: string, role: string, plan: E.Plan, calls: seq<Invocation>)
    requires Completes(plan)
    ensures RunOf(env, query, role, plan, calls).results.Keys == Elements(Ids(plan.steps))
  {
    var runs := RunTraceGrammar(env, query, role, plan, calls);
  }

  /** In a completed run every result carries the id of the step it is filed under. */
  lemma ResultsNameTheirSteps(env: Env, query: string, role: string, plan: E.Plan, calls: seq<Invocation>, id: string)
    requires Completes(plan) && id in RunOf(env, query, role, plan, calls).results
    ensures RunOf(env, query, role, plan, calls).results[id].stepId == id
  {
    var runs := RunTraceGrammar(env, query, role, plan, calls);
    var order := RunOrder(plan.steps);
    RunOrderCoversPlan(plan.steps);
    IndexIsExact(plan.steps);
    assert id in Elements(order);
    var i :| 0 <= i < |order| && order[i] == id;
    ResultNamesItsStep(env, calls + AllCalls(runs[..i]), runs[i]);
  }

  /** So a last step without output is reported under its own id. */
  lemma SilentLastStep(env: Env, query: string, role: string, plan: E.Plan, calls: seq<Invocation>)
    requires Completes(plan) && plan.steps != []
    ensures var results := RunOf(env, query, role, plan, calls).results;
      var lastId := plan.steps[|plan.steps| - 1].stepId;
      lastId in results && (results[lastId].output.IsEmpty() ==>
        ComposeAnswer(plan, results).Answer? && ComposeAnswer(plan, results).body == CompletedSilently(lastId))
  {
    CompletedRunsAnswer(env, query, role, plan, calls);
    ResultsNameTheirSteps(env, query, role, plan, calls, plan.steps[|plan.steps| - 1].stepId);
  }

  lemma KeptStepIsAvailable(steps: seq<ToolCall>, specs: map<string, ToolSpec>, role: string, i: nat)
    requires UniqueIds(steps) && i < |RunOrder(steps)|
    requires forall k :: 0 <= k < |steps| ==> Available(specs, steps[k].tool, role)
    ensures Available(specs, StepAt(Index(steps), RunOrder(steps)[i]).tool, role)
  {
    RunOrderIsDepthSort(steps);
    IndexIsExact(steps);
    assert RunOrder(steps)[i] in Elements(RunOrder(steps));
    var step := Index(steps)[RunOrder(steps)[i]];
    assert step in steps;
  }

  /** Listed steps with unique ids and no cycle complete, and none is skipped. */
  lemma ListedStepsComplete(
      env: Env, data: map<string, Json>, specs: map<string, ToolSpec>, maxSteps: nat, query: string,
      rationale: Option<string>, calls: seq<Invocation>) returns (runs: seq<StepRun>)
    requires P.ParsedSteps(data, specs, env.ctx.role, maxSteps).Some?
    requires Distinct(P.RawIds(Get(data, "steps").items)) && !Cyclic(P.RawGraph(Get(data, "steps").items))
    requires forall name :: name in specs ==> name in env.specs && env.specs[name] == specs[name]
    ensures var plan := E.Plan(P.ParsedSteps(data, specs, env.ctx.role, maxSteps).value, rationale, FromLLM);
      CompletesUnskipped(env, query, plan, calls, runs)
  {
    var plan := E.Plan(P.ParsedSteps(data, specs, env.ctx.role, maxSteps).value, rationale, FromLLM);
    P.FilteringNeverDeadlocks(data, specs, env.ctx.role, maxSteps, env.specs);
    runs := RunTraceGrammar(env, query, env.ctx.role, plan, calls);
    forall i | 0 <= i < |runs| ensures |runs[i].events| >= 2 && runs[i].events[0].StepStarted? {
      KeptStepIsAvailable(plan.steps, env.specs, env.ctx.role, i);
      P.AvailableStepsStart(env, calls + AllCalls(runs[..i]), runs[i]);
    }
  }

  /** The run completes, its trace is one block per planned step, and every block starts its step. */
  ghost predicate CompletesUnskipped(
    env: Env, query: string, plan: E.Plan, calls: seq<Invocation>, runs: seq<StepRun>)
  {
    && Completes(plan)
    && AreStepRuns(env, Index(plan.steps), RunOrder(plan.steps), calls, runs)
    && RunOf(env, query, env.ctx.role, plan, calls).log.events == Opening(query, env.ctx.role, plan) + AllEvents(runs)
    && |runs| == |plan.steps|
    && forall i :: 0 <= i < |runs| ==> |runs[i].events| >= 2 && runs[i].events[0].StepStarted?
  }

  /** The reply's text parses to `data`, or else the object printed in it does and can be found. */
  ghost predicate Prints(prose: string, t: JsonText, suffix: string, loads: Loads, data: map<string, Json>)
    requires t.ObjectText?
  {
    var candidate := Candidate(prose + Render(t) + suffix);
    if loads(candidate).Some? then loads(candidate) == Some(Obj(data))
    else Clear(prose) && Reachable(prose) && Nested(Inner(t)) && loads(AsParsed(prose, t)) == Some(Obj(data))
  }

  /** The plan read from a reply that prints an object amid prose or in a fence. */
  lemma PlanFromObject(
      query: string, role: string, prose: string, t: JsonText, suffix: string, loads: Loads, data: map<string, Json>,
      specs: map<string, ToolSpec>, maxSteps: nat)
    requires t.ObjectText? && Prints(prose, t, suffix, loads, data)
    requires P.ParsedSteps(data, specs, role, maxSteps).Some?
    ensures P.PlanFor(query, role, P.Replied(prose + Render(t) + suffix), loads, specs, maxSteps) ==
            E.Plan(P.ParsedSteps(data, specs, role, maxSteps).value, P.Rationale(data), FromLLM)
  {
    if loads(Candidate(prose + Render(t) + suffix)).None? {
      ExtractsFromProse(prose, t, suffix, loads);
    }
  }

  /**
   * A reply that prints, amid prose or in a fence, an object whose steps have unique ids and no cycle
   * leads to a completed run in which no step is skipped, even if tools were registered after planning.
   */
  lemma WellFormedReplyCompletes(
      env: Env, prose: string, t: JsonText, suffix: string, loads: Loads, data: map<string, Json>,
      specs: map<string, ToolSpec>, maxSteps: nat, query: string, calls: seq<Invocation>) returns (runs: seq<StepRun>)
    requires t.ObjectText? && Prints(prose, t, suffix, loads, data)
    requires P.ParsedSteps(data, specs, env.ctx.role, maxSteps).Some?
    requires Distinct(P.RawIds(Get(data, "steps").items)) && !Cyclic(P.RawGraph(Get(data, "steps").items))
    requires forall name :: name in specs ==> name in env.specs && env.specs[name] == specs[name]
    ensures var plan := P.PlanFor(query, env.ctx.role, P.Replied(prose + Render(t) + suffix), loads, specs, maxSteps);
      plan.source == FromLLM && CompletesUnskipped(env, query, plan, calls, runs)
  {
    PlanFromObject(query, env.ctx.role, prose, t, suffix, loads, data, specs, maxSteps);
    runs := ListedStepsComplete(env, data, specs, maxSteps, query, P.Rationale(data), calls);
  }
}
