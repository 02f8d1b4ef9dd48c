/** The planner: turns whatever a language model replies into a plan of tool calls. */
module Planner {
  import opened Wrappers
  import opened Json
  import opened Text
  import opened JsonScan
  import opened Tools
  import opened Graph
  import opened Schedule
  import opened Trace
  import opened Executor

  // ----- Reading steps -----

  predicate IsId(value: Json) {
    value.Str? && value.s != ""
  }

  function IdOf(item: Json): Option<string> {
    if item.Obj? && IsId(Get(item.fields, "id")) then Some(Get(item.fields, "id").s) else None
  }

  /** The ids of all steps the model listed, kept or not, in order. */
  function RawIds(raw: seq<Json>): seq<string> {
    if raw == [] then []
    else
      var front := RawIds(raw[..|raw| - 1]);
      var id := IdOf(raw[|raw| - 1]);
      if id.Some? then front + [id.value] else front
  }

  function KnownIds(raw: seq<Json>): set<string> {
    set item | item in raw && IdOf(item).Some? :: IdOf(item).value
  }

  /** The dependencies that name another listed step. */
  function ReadDependencies(values: seq<Json>, known: set<string>, stepId: string): seq<string> {
    if values == [] then []
    else
      var front := ReadDependencies(values[..|values| - 1], known, stepId);
      var value := values[|values| - 1];
      if value.Str? && value.s in known && value.s != stepId then front + [value.s] else front
  }

  function DependsOn(item: Json, known: set<string>, stepId: string): seq<string>
    requires item.Obj?
  {
    var raw := Get(item.fields, "depends_on");
    if raw.Arr? then ReadDependencies(raw.items, known, stepId) else []
  }

  /** One listed step as a tool call, unless it is malformed or its tool cannot be used. */
  function ReadStep(item: Json, known: set<string>, specs: map<string, ToolSpec>, role: string): Option<ToolCall> {
    if IdOf(item).None? then None
    else
      var tool, args := Get(item.fields, "tool"), Get(item.fields, "args");
      if !tool.Str? || !Available(specs, tool.s, role) || !args.Obj? then None
      else Some(ToolCall(IdOf(item).value, tool.s, args.fields, DependsOn(item, known, IdOf(item).value)))
  }

  function ReadSteps(raw: seq<Json>, known: set<string>, specs: map<string, ToolSpec>, role: string): seq<ToolCall> {
    if raw == [] then []
    else
      var front := ReadSteps(raw[..|raw| - 1], known, specs, role);
      var step := ReadStep(raw[|raw| - 1], known, specs, role);
      if step.Some? then front + [step.value] else front
  }

  function FirstItems(raw: seq<Json>, n: nat): seq<Json> {
    if n < |raw| then raw[..n] else raw
  }

  /** The usable steps among the first `maxSteps`; `None` when steps were listed but none is usable. */
  function ParsedSteps(data: map<string, Json>, specs: map<string, ToolSpec>, role: string, maxSteps: nat)
    : Option<seq<ToolCall>>
  {
    var rawSteps := Get(data, "steps");
    if !rawSteps.Arr? then None
    else
      var steps := ReadSteps(FirstItems(rawSteps.items, maxSteps), KnownIds(rawSteps.items), specs, role);
      if rawSteps.items != [] && steps == [] then None else Some(steps)
  }

  method ParseSteps(data: map<string, Json>, registry: ToolRegistry, role: string, maxSteps: nat)
    returns (r: Option<seq<ToolCall>>)
    ensures r == ParsedSteps(data, registry.specs, role, maxSteps)
  {
    var rawSteps := Get(data, "steps");
    if !rawSteps.Arr? {
      return None;
    }
    var known := KnownIds(rawSteps.items);
    var first := FirstItems(rawSteps.items, maxSteps);
    var steps := [];
    for i := 0 to |first|
      invariant steps == ReadSteps(first[..i], known, registry.specs, role)
    {
      assert first[..i + 1][..i] == first[..i];
      var item := first[i];
      if IdOf(item).None? {
        continue;
      }
      var stepId := IdOf(item).value;
      var tool := Get(item.fields, "tool");
      if !tool.Str? {
        continue;
      }
      var spec := Lookup(registry.specs, tool.s);
      if spec.None? || !spec.value.VisibleToRole(role) {
        continue;
      }
      var args := Get(item.fields, "args");
      if !args.Obj? {
        continue;
      }
      var depends := [];
      var dependsRaw := Get(item.fields, "depends_on");
      if dependsRaw.Arr? {
        depends := ReadDependencies(dependsRaw.items, known, stepId);
      }
      steps := steps + [ToolCall(stepId, tool.s, args.fields, depends)];
    }
    assert first[..|first|] == first;
    if rawSteps.items != [] && steps == [] {
      return None;
    }
    r := Some(steps);
  }

  // ----- Planning -----

  datatype ProviderReply = NoProvider | Failed(kind: string, detail: string) | Replied(content: string)

  function FallbackPlan(query: string, reason: string): Plan {
    Plan([ToolCall("step-1", "rag_tool", map["query" := Str(query)], [])], Some(reason), Fallback)
  }

  function Rationale(data: map<string, Json>): Option<string> {
    var raw := Get(data, "rationale");
    if raw.Str? && Strip(raw.s) != "" then Some(Strip(raw.s)) else None
  }

  /** The plan made from extracted data, `None` standing for a reply without a JSON object. */
  function PlanFrom(query: string, data: Option<map<string, Json>>, steps: Option<seq<ToolCall>>): Plan {
    if data.None? then FallbackPlan(query, "LLM planner output was not valid JSON")
    else if steps.None? then FallbackPlan(query, "LLM planner produced no valid tool steps")
    else Plan(steps.value, Rationale(data.value), FromLLM)
  }

  ghost function PlanFor(
    query: string, role: string, reply: ProviderReply, loads: Loads, specs: map<string, ToolSpec>, maxSteps: nat): Plan
  {
    match reply
    case NoProvider => FallbackPlan(query, "No LLM provider is configured for planning")
    case Failed(kind, detail) => FallbackPlan(query, "LLM planning failed: " + kind + ": " + detail)
    case Replied(content) =>
      var data := Extracted(content, loads);
      PlanFrom(query, data, if data.None? then None else ParsedSteps(data.value, specs, role, maxSteps))
  }

  class Planner {
    const registry: ToolRegistry
    const maxSteps: nat
    const loads: Loads

    constructor (registry: ToolRegistry, maxSteps: int, loads: Loads)
      ensures this.registry == registry && this.loads == loads
      ensures this.maxSteps == if maxSteps < 1 then 1 else maxSteps
    {
      this.registry := registry;
      this.maxSteps := if maxSteps < 1 then 1 else maxSteps;
      this.loads := loads;
    }

    /** Only a blank query is refused; anything the provider does yields a plan. */
    method Plan(query: string, role: string, reply: ProviderReply) returns (r: Result<Plan, ConfigurationError>)
      ensures Strip(query) == "" ==> r == Err(EmptyQuery)
      ensures Strip(query) != "" ==> r == Ok(PlanFor(query, role, reply, loads, registry.specs, maxSteps))
    {
      if Strip(query) == "" {
        return Err(EmptyQuery);
      }
      match reply {
        case NoProvider =>
          return Ok(FallbackPlan(query, "No LLM provider is configured for planning"));
        case Failed(kind, detail) =>
          return Ok(FallbackPlan(query, "LLM planning failed: " + kind + ": " + detail));
        case Replied(content) =>
          var data := ExtractJson(content, loads);
          if data.None? {
            return Ok(PlanFrom(query, None, None));
          }
          var steps := ParseSteps(data.value, registry, role, maxSteps);
          return Ok(PlanFrom(query, data, steps));
      }
    }
  }

  // ----- Exactly the usable steps are kept -----

  /** A well-formed step whose tool the role can use. */
  ghost predicate Usable(item: Json, specs: map<string, ToolSpec>, role: string) {
    && item.Obj? && "id" in item.fields && "tool" in item.fields && "args" in item.fields
    && item.fields["id"].Str? && item.fields["id"].s != "" && item.fields["args"].Obj?
    && item.fields["tool"].Str? && item.fields["tool"].s in specs
    && var visibleTo := specs[item.fields["tool"].s].visibleTo;
    visibleTo.None? || role in visibleTo.value
  }

  /** Some listed item has this id. */
  ghost predicate IsListedId(raw: seq<Json>, d: string) {
    d != "" && exists i :: 0 <= i < |raw| && raw[i].Obj? && "id" in raw[i].fields && raw[i].fields["id"] == Str(d)
  }

  lemma KnownIdsAreListed(raw: seq<Json>)
    ensures forall d :: d in KnownIds(raw) <==> IsListedId(raw, d)
  {
    forall d ensures d in KnownIds(raw) <==> IsListedId(raw, d) {
      if d in KnownIds(raw) {
        var item :| item in raw && IdOf(item) == Some(d);
        var i :| 0 <= i < |raw| && raw[i] == item;
      }
      if IsListedId(raw, d) {
        var i :| 0 <= i < |raw| && raw[i].Obj? && "id" in raw[i].fields && raw[i].fields["id"] == Str(d);
        assert raw[i] in raw && IdOf(raw[i]) == Some(d);
      }
    }
  }

  /** The item lists `d` among the steps it waits for. */
  ghost predicate Lists(item: Json, d: string) {
    item.Obj? && "depends_on" in item.fields && item.fields["depends_on"].Arr? && Str(d) in item.fields["depends_on"].items
  }

  /** The tool call says what the item says, less the dependencies that name no other listed step. */
  ghost predicate Transcribes(step: ToolCall, item: Json, known: set<string>) {
    && item.Obj? && "id" in item.fields && item.fields["id"] == Str(step.stepId)
    && "tool" in item.fields && item.fields["tool"] == Str(step.tool)
    && "args" in item.fields && item.fields["args"] == Obj(step.args)
    && forall d :: d in step.dependsOn <==> Lists(item, d) && d in known && d != step.stepId
  }

  lemma ReadStepIsExact(item: Json, known: set<string>, specs: map<string, ToolSpec>, role: string)
    ensures ReadStep(item, known, specs, role).Some? <==> Usable(item, specs, role)
    ensures Usable(item, specs, role) ==> Transcribes(ReadStep(item, known, specs, role).value, item, known)
  {
    if Usable(item, specs, role) && Get(item.fields, "depends_on").Arr? {
      ReadDependenciesAreListed(Get(item.fields, "depends_on").items, known, IdOf(item).value);
    }
  }

  /** Step `i` transcribes item `at[i]`, in order. */
  ghost predicate Selects(steps: seq<ToolCall>, at: seq<nat>, part: seq<Json>, known: set<string>) {
    && |at| == |steps|
    && (forall i, j :: 0 <= i < j < |at| ==> at[i] < at[j])
    && forall i :: 0 <= i < |at| ==> at[i] < |part| && Transcribes(steps[i], part[at[i]], known)
  }

  ghost predicate SelectsUsable(at: seq<nat>, part: seq<Json>, specs: map<string, ToolSpec>, role: string) {
    forall p: nat :: p in at <==> p < |part| && Usable(part[p], specs, role)
  }

  lemma SelectsMore(steps: seq<ToolCall>, at: seq<nat>, part: seq<Json>, last: Json, known: set<string>)
    requires Selects(steps, at, part, known)
    ensures Selects(steps, at, part + [last], known)
    ensures forall step :: Transcribes(step, last, known) ==>
      Selects(steps + [step], at + [|part|], part + [last], known)
  {
  }

  lemma SelectsUsableMore(at: seq<nat>, part: seq<Json>, last: Json, specs: map<string, ToolSpec>, role: string)
    requires SelectsUsable(at, part, specs, role)
    ensures SelectsUsable(if Usable(last, specs, role) then at + [|part|] else at, part + [last], specs, role)
  {
    forall p: nat | p < |part| ensures (part + [last])[p] == part[p] {
    }
  }

  /** The kept steps are the usable ones among `part`, in order: step `i` is item `at[i]`. */
  lemma {:induction false} ReadStepsAreExact(part: seq<Json>, known: set<string>, specs: map<string, ToolSpec>, role: string)
      returns (at: seq<nat>)
    ensures Selects(ReadSteps(part, known, specs, role), at, part, known)
    ensures SelectsUsable(at, part, specs, role)
  {
    at := [];
    if part != [] {
      var front, last := part[..|part| - 1], part[|part| - 1];
      assert part == front + [last];
      at := ReadStepsAreExact(front, known, specs, role);
      ReadStepIsExact(last, known, specs, role);
      SelectsMore(ReadSteps(front, known, specs, role), at, front, last, known);
      SelectsUsableMore(at, front, last, specs, role);
      if Usable(last, specs, role) {
        at := at + [|front|];
      }
    }
  }

  /**
   * What the filter keeps of a list of steps: exactly the usable ones among the first `maxSteps`, in
   * order.  The list is unusable exactly when it is not empty and has no usable step there; anything
   * but a list is unusable as well.
   */
  lemma ParsedStepsAreExact(data: map<string, Json>, specs: map<string, ToolSpec>, role: string, maxSteps: nat)
      returns (at: seq<nat>)
    ensures ParsedSteps(data, specs, role, maxSteps).Some? ==> "steps" in data && data["steps"].Arr?
    ensures "steps" in data && data["steps"].Arr? ==>
      var raw, parsed := data["steps"].items, ParsedSteps(data, specs, role, maxSteps);
      && (forall p: nat :: p in at <==> p < maxSteps && p < |raw| && Usable(raw[p], specs, role))
      && (forall d :: d in KnownIds(raw) <==> IsListedId(raw, d))
      && (parsed.None? <==> raw != [] && at == [])
      && (parsed.Some? ==>
            Selects(parsed.value, at, FirstItems(raw, maxSteps), KnownIds(raw)))
  {
    at := [];
    if "steps" in data && data["steps"].Arr? {
      var raw := data["steps"].items;
      at := ReadStepsAreExact(FirstItems(raw, maxSteps), KnownIds(raw), specs, role);
      KnownIdsAreListed(raw);
    }
  }

  /** The fallback: one step that asks the retrieval tool the query. */
  ghost predicate AsksTheQuery(plan: Plan, query: string) {
    && plan.source == Fallback && plan.rationale.Some? && |plan.steps| == 1
    && plan.steps[0].stepId == "step-1" && plan.steps[0].tool == "rag_tool"
    && plan.steps[0].args == map["query" := Str(query)] && plan.steps[0].dependsOn == []
  }

  /** The model's rationale is kept when it is a text with anything in it, without surrounding white space. */
  ghost predicate KeepsRationale(rationale: Option<string>, data: map<string, Json>) {
    match rationale
    case Some(text) =>
      "rationale" in data && data["rationale"].Str? && text == Strip(data["rationale"].s) && text != ""
    case None =>
      "rationale" in data && data["rationale"].Str? ==> Strip(data["rationale"].s) == ""
  }

  /**
   * The plan for a reply: the model's steps and rationale when an object with usable steps can be
   * extracted from it, and in every other case the fallback, which can always be executed.
   */
  lemma PlanIsTheModelsOrAsks(
      query: string, role: string, reply: ProviderReply, loads: Loads, specs: map<string, ToolSpec>, maxSteps: nat)
    ensures var plan := PlanFor(query, role, reply, loads, specs, maxSteps);
      if reply.Replied? && Extracted(reply.content, loads).Some?
         && ParsedSteps(Extracted(reply.content, loads).value, specs, role, maxSteps).Some?
      then
        && plan.source == FromLLM
        && plan.steps == ParsedSteps(Extracted(reply.content, loads).value, specs, role, maxSteps).value
        && KeepsRationale(plan.rationale, Extracted(reply.content, loads).value)
      else
        && AsksTheQuery(plan, query) && UniqueIds(plan.steps) && !Cyclic(GraphOf(plan.steps))
        && (reply.NoProvider? ==> plan.rationale == Some("No LLM provider is configured for planning"))
        && (reply.Failed? ==> plan.rationale == Some("LLM planning failed: " + reply.kind + ": " + reply.detail))
        && (reply.Replied? ==> plan.rationale == Some(
              if Extracted(reply.content, loads).None? then "LLM planner output was not valid JSON"
              else "LLM planner produced no valid tool steps"))
  {
    var plan := PlanFor(query, role, reply, loads, specs, maxSteps);
    if plan.source == Fallback {
      LoneStepNeverWaits(plan.steps[0]);
      assert plan.steps == [plan.steps[0]];
    }
  }

  lemma LoneStepNeverWaits(step: ToolCall)
    requires step.dependsOn == []
    ensures UniqueIds([step]) && !Cyclic(GraphOf([step]))
  {
    CyclicIffCircle([step]);
    assert forall c :: !WaitInACircle([step], c);
  }

  // ----- Filtering never creates a deadlock -----

  function RawDependencies(item: Json): set<string> {
    if item.Obj? && Get(item.fields, "depends_on").Arr? then
      set value | value in Get(item.fields, "depends_on").items && value.Str? :: value.s
    else {}
  }

  /**
   * The dependencies as the model listed them, before any step is dropped.  A step that lists
   * itself does not count: reading a step removes such an entry.
   */
  ghost function RawGraph(raw: seq<Json>): Graph {
    map id | id in KnownIds(raw) :: AllDependencies(raw, id) - {id}
  }

  ghost function AllDependencies(raw: seq<Json>, id: string): set<string> {
    set item, d | item in raw && IdOf(item) == Some(id) && d in RawDependencies(item) :: d
  }

  lemma {:induction false} ReadDependenciesAreListed(values: seq<Json>, known: set<string>, stepId: string)
    ensures forall d :: d in ReadDependencies(values, known, stepId) <==>
      Str(d) in values && d in known && d != stepId
  {
    if values != [] {
      var n := |values| - 1;
      ReadDependenciesAreListed(values[..n], known, stepId);
      assert values == values[..n] + [values[n]];
    }
  }

  /** What a kept step comes from. */
  ghost predicate IsReading(step: ToolCall, item: Json, raw: seq<Json>, specs: map<string, ToolSpec>, role: string) {
    item in raw && ReadStep(item, KnownIds(raw), specs, role) == Some(step)
  }

  lemma ReadingRefines(step: ToolCall, item: Json, raw: seq<Json>, specs: map<string, ToolSpec>, role: string)
    requires IsReading(step, item, raw, specs, role)
    ensures step.stepId in RawGraph(raw) && Dependencies(step) <= RawGraph(raw)[step.stepId]
    ensures Available(specs, step.tool, role)
  {
    var id := step.stepId;
    assert IdOf(item) == Some(id);
    var listed := Get(item.fields, "depends_on");
    if listed.Arr? {
      ReadDependenciesAreListed(listed.items, KnownIds(raw), id);
    }
    forall d | d in Dependencies(step) ensures d in AllDependencies(raw, id) - {id} {
      assert Str(d) in listed.items;
      assert d in RawDependencies(item);
    }
  }

  lemma {:induction false} ReadStepsAreReadings(
      part: seq<Json>, raw: seq<Json>, specs: map<string, ToolSpec>, role: string)
    requires part <= raw
    ensures forall step :: step in ReadSteps(part, KnownIds(raw), specs, role) ==>
      exists item :: IsReading(step, item, raw, specs, role)
    decreases |part|
  {
    if part != [] {
      var n := |part| - 1;
      ReadStepsAreReadings(part[..n], raw, specs, role);
      var last := ReadStep(part[n], KnownIds(raw), specs, role);
      if last.Some? {
        assert part[n] == raw[n];
        assert IsReading(last.value, part[n], raw, specs, role);
      }
    }
  }

  /** The kept steps' graph is part of the listed graph. */
  lemma KeptGraphIsSubgraph(part: seq<Json>, raw: seq<Json>, specs: map<string, ToolSpec>, role: string)
    requires part <= raw
    ensures Subgraph(GraphOf(ReadSteps(part, KnownIds(raw), specs, role)), RawGraph(raw))
  {
    var steps := ReadSteps(part, KnownIds(raw), specs, role);
    var g := GraphOf(steps);
    IndexIsExact(steps);
    ReadStepsAreReadings(part, raw, specs, role);
    forall s | s in g ensures s in RawGraph(raw) && g[s] * g.Keys <= RawGraph(raw)[s] {
      var step := Index(steps)[s];
      var item :| IsReading(step, item, raw, specs, role);
      ReadingRefines(step, item, raw, specs, role);
    }
  }

  lemma {:induction false} RawIdsConcat(a: seq<Json>, b: seq<Json>)
    ensures RawIds(a + b) == RawIds(a) + RawIds(b)
  {
    if b == [] {
      assert a + b == a;
    } else {
      RawIdsConcat(a, b[..|b| - 1]);
      assert (a + b)[..|a + b| - 1] == a + b[..|b| - 1];
    }
  }

  /** The ids of the kept steps are among the listed ids, in the same order. */
  lemma {:induction false} KeptIdsDistinct(part: seq<Json>, known: set<string>, specs: map<string, ToolSpec>, role: string)
    requires Distinct(RawIds(part))
    ensures Distinct(Ids(ReadSteps(part, known, specs, role)))
    ensures Elements(Ids(ReadSteps(part, known, specs, role))) <= Elements(RawIds(part))
  {
    if part != [] {
      var n := |part| - 1;
      var front := RawIds(part[..n]);
      if IdOf(part[n]).Some? {
        assert RawIds(part)[..|front|] == front;
        assert forall i, j :: 0 <= i < j < |front| ==> RawIds(part)[i] != RawIds(part)[j];
      }
      KeptIdsDistinct(part[..n], known, specs, role);
      var steps := ReadSteps(part[..n], known, specs, role);
      var last := ReadStep(part[n], known, specs, role);
      if last.Some? {
        assert Ids(steps + [last.value]) == Ids(steps) + [last.value.stepId];
        assert RawIds(part) == front + [last.value.stepId];
        forall i | 0 <= i < |front| ensures front[i] != last.value.stepId {
          assert RawIds(part)[i] != RawIds(part)[|front|];
        }
        assert Elements(Ids(steps)) !! Elements([last.value.stepId]);
        assert Distinct([last.value.stepId]);
        DistinctAppend(Ids(steps), [last.value.stepId]);
        ElementsConcat(Ids(steps), [last.value.stepId]);
        ElementsConcat(front, [last.value.stepId]);
      } else if IdOf(part[n]).Some? {
        ElementsConcat(front, [IdOf(part[n]).value]);
      }
    }
  }

  /**
   * Filtering never creates a deadlock: whatever is dropped or truncated, steps listed with
   * unique ids and no cycle give a plan the executor completes, all of whose tools are available.
   */
  lemma FilteringNeverDeadlocks(
      data: map<string, Json>, specs: map<string, ToolSpec>, role: string, maxSteps: nat, later: map<string, ToolSpec>)
    requires ParsedSteps(data, specs, role, maxSteps).Some?
    requires Distinct(RawIds(Get(data, "steps").items)) && !Cyclic(RawGraph(Get(data, "steps").items))
    requires forall name :: name in specs ==> name in later && later[name] == specs[name]
    ensures var steps := ParsedSteps(data, specs, role, maxSteps).value;
      && UniqueIds(steps) && !Cyclic(GraphOf(steps)) && |steps| <= maxSteps
      && forall i :: 0 <= i < |steps| ==> Available(later, steps[i].tool, role)
  {
    var raw := Get(data, "steps").items;
    var part := FirstItems(raw, maxSteps);
    var steps := ReadSteps(part, KnownIds(raw), specs, role);
    if maxSteps < |raw| {
      assert raw == part + raw[maxSteps..];
      RawIdsConcat(part, raw[maxSteps..]);
      assert RawIds(part) <= RawIds(raw);
    }
    assert Distinct(RawIds(part));
    KeptIdsDistinct(part, KnownIds(raw), specs, role);
    KeptGraphIsSubgraph(part, raw, specs, role);
    SubgraphAcyclic(GraphOf(steps), RawGraph(raw));
    ReadStepsAreReadings(part, raw, specs, role);
    forall i | 0 <= i < |steps| ensures Available(later, steps[i].tool, role) {
      assert steps[i] in steps;
      var item :| IsReading(steps[i], item, raw, specs, role);
      ReadingRefines(steps[i], item, raw, specs, role);
    }
    ReadStepsShorten(part, KnownIds(raw), specs, role);
  }

  lemma {:induction false} ReadStepsShorten(part: seq<Json>, known: set<string>, specs: map<string, ToolSpec>, role: string)
    ensures |ReadSteps(part, known, specs, role)| <= |part|
  {
    if part != [] {
      ReadStepsShorten(part[..|part| - 1], known, specs, role);
    }
  }

  /** A step whose tool is available is not skipped: its block starts with step_started. */
  lemma AvailableStepsStart(env: Env, before: seq<Invocation>, run: StepRun)
    requires IsStepRun(env, before, run) && Available(env.specs, run.step.tool, env.ctx.role)
    ensures |run.events| >= 2 && run.events[0] == StepStarted(run.step.stepId, run.step.tool, run.step.args)
    ensures env.specs[run.step.tool].retries >= 0 ==> |run.calls| >= 1
  {
  }

  // ----- A plan the planner accepts and the executor refuses -----

  function WaitingStep(id: string, other: string): Json {
    Obj(map["id" := Str(id), "tool" := Str("rag_tool"), "args" := Obj(map[]), "depends_on" := Arr([Str(other)])])
  }

  lemma TwoStepCycle(a: ToolCall, b: ToolCall)
    requires a.stepId == "a" && b.stepId == "b" && a.dependsOn == ["b"] && b.dependsOn == ["a"]
    ensures UniqueIds([a, b]) && Cyclic(GraphOf([a, b]))
  {
    var steps := [a, b];
    assert Ids(steps)[0] == "a" && Ids(steps)[1] == "b";
    IndexIsExact(steps);
    assert Index(steps)["a"] == a && Index(steps)["b"] == b;
    assert "b" in Dependencies(a) && "a" in Dependencies(b);
    assert IsCycle(GraphOf(steps), ["a", "b"]);
  }

  lemma ReadWaitingStep(id: string, other: string, known: set<string>, specs: map<string, ToolSpec>, role: string)
    requires Available(specs, "rag_tool", role) && id != "" && id != other && other in known
    ensures ReadStep(WaitingStep(id, other), known, specs, role) == Some(ToolCall(id, "rag_tool", map[], [other]))
  {
    assert [Str(other)][..0] == [];
    assert ReadDependencies([Str(other)], known, id) == [] + [other];
    var item := WaitingStep(id, other);
    assert IdOf(item) == Some(id) && Get(item.fields, "tool") == Str("rag_tool") && Get(item.fields, "args") == Obj(map[]);
    assert DependsOn(item, known, id) == [other];
  }

  function LoneStep(id: string): Json {
    Obj(map["id" := Str(id), "tool" := Str("rag_tool"), "args" := Obj(map[])])
  }

  lemma ReadLoneStep(id: string, known: set<string>, specs: map<string, ToolSpec>, role: string)
    requires Available(specs, "rag_tool", role) && id != ""
    ensures ReadStep(LoneStep(id), known, specs, role) == Some(ToolCall(id, "rag_tool", map[], []))
  {
    var item := LoneStep(id);
    assert IdOf(item) == Some(id) && Get(item.fields, "tool") == Str("rag_tool") && Get(item.fields, "args") == Obj(map[]);
    assert DependsOn(item, known, id) == [];
  }

  /** Nor does it check ids: two steps with one id become a plan, and that plan cannot be executed. */
  lemma RepeatedIdIsAccepted(specs: map<string, ToolSpec>, role: string, maxSteps: nat)
    requires Available(specs, "rag_tool", role) && maxSteps >= 2
    ensures var data := map["steps" := Arr([LoneStep("a"), LoneStep("a")])];
      && ParsedSteps(data, specs, role, maxSteps).Some?
      && !UniqueIds(ParsedSteps(data, specs, role, maxSteps).value)
  {
    var raw, call := [LoneStep("a"), LoneStep("a")], ToolCall("a", "rag_tool", map[], []);
    ReadLoneStep("a", KnownIds(raw), specs, role);
    ReadTwoSteps(LoneStep("a"), LoneStep("a"), KnownIds(raw), specs, role);
    assert FirstItems(raw, maxSteps) == raw;
    assert Ids([call, call])[0] == Ids([call, call])[1];
  }

  lemma ReadTwoSteps(a: Json, b: Json, known: set<string>, specs: map<string, ToolSpec>, role: string)
    requires ReadStep(a, known, specs, role).Some? && ReadStep(b, known, specs, role).Some?
    ensures ReadSteps([a, b], known, specs, role) ==
            [ReadStep(a, known, specs, role).value, ReadStep(b, known, specs, role).value]
  {
    assert [a, b][..1] == [a] && [a][..0] == [];
    assert ReadSteps([a], known, specs, role) == [] + [ReadStep(a, known, specs, role).value];
    assert ReadSteps([a, b], known, specs, role) == ReadSteps([a], known, specs, role) + [ReadStep(b, known, specs, role).value];
  }

  /**
   * The planner does not check for cycles: two steps that wait for each other become a plan, not
   * a fallback, and that plan cannot be executed.
   */
  lemma CyclicPlanIsAccepted(specs: map<string, ToolSpec>, role: string, maxSteps: nat)
    requires Available(specs, "rag_tool", role) && maxSteps >= 2
    ensures var data := map["steps" := Arr([WaitingStep("a", "b"), WaitingStep("b", "a")])];
      && ParsedSteps(data, specs, role, maxSteps).Some?
      && UniqueIds(ParsedSteps(data, specs, role, maxSteps).value)
      && Cyclic(GraphOf(ParsedSteps(data, specs, role, maxSteps).value))
  {
    var a, b := WaitingStep("a", "b"), WaitingStep("b", "a");
    var raw := [a, b];
    assert raw[0] in raw && raw[1] in raw && IdOf(a) == Some("a") && IdOf(b) == Some("b");
    ReadWaitingStep("a", "b", KnownIds(raw), specs, role);
    ReadWaitingStep("b", "a", KnownIds(raw), specs, role);
    ReadTwoSteps(a, b, KnownIds(raw), specs, role);
    assert FirstItems(raw, maxSteps) == raw;
    TwoStepCycle(ToolCall("a", "rag_tool", map[], ["b"]), ToolCall("b", "rag_tool", map[], ["a"]));
  }
}
