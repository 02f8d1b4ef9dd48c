/**
 * Tool contracts and the tool registry.
 *
 * Tools are code this model cannot see, so `ToolHost` stands for all of them at once: an
 * arbitrary function of every call made so far decides what the next call does.
 */
module Tools {
  import opened Wrappers
  import opened Json

  datatype ConfigurationError =
    | EmptyToolName
    | AlreadyRegistered(name: string)
    | DuplicateStep(stepId: string)
    | DependencyCycle
    | EmptyQuery

  /** Human-readable text; the texts the agent itself composes keep their structure. */
  datatype Message =
    | Text(text: string)
    | ToolUnavailable(tool: string)
    | ToolRaised(kind: string, detail: string)
    | NotAToolResult(tool: string)
    | NoResult
  {
    predicate IsEmpty() { this == Text("") }
  }

  datatype Citation = Citation(chunkId: Option<string>, source: string)

  datatype ToolData = ToolData(code: Option<string>, citations: seq<Citation>)

  const NO_DATA := ToolData(None, [])

  datatype ToolResult = ToolResult(
    stepId: string, tool: string, status: string, output: Message, data: ToolData, error: Option<Message>)

  function ErrorResult(stepId: string, tool: string, message: Message, data: ToolData): ToolResult {
    ToolResult(stepId, tool, "error", message, data, Some(message))
  }

  datatype ToolContext = ToolContext(userId: string, role: string, stepId: string)

  datatype ToolCall = ToolCall(stepId: string, tool: string, args: map<string, Json>, dependsOn: seq<string>)

  datatype ToolSpec = ToolSpec(name: string, visibleTo: Option<set<string>>, retries: int, timeoutSeconds: real) {
    predicate VisibleToRole(role: string) {
      visibleTo.None? || role in visibleTo.value
    }
  }

  /** What one call of a tool's executor does; running out of time is one way to raise. */
  datatype Outcome =
    | Returned(result: ToolResult)
    | ReturnedOther
    | Raised(kind: string, detail: string)

  datatype Invocation = Invocation(tool: string, args: map<string, Json>, ctx: ToolContext)

  type Behaviour = seq<Invocation> -> Outcome

  class ToolHost {
    const behaviour: Behaviour
    var calls: seq<Invocation>

    constructor (behaviour: Behaviour)
      ensures this.behaviour == behaviour && calls == []
    {
      this.behaviour := behaviour;
      calls := [];
    }

    method Call(invocation: Invocation) returns (outcome: Outcome)
      modifies this
      ensures calls == old(calls) + [invocation]
      ensures outcome == behaviour(calls)
    {
      calls := calls + [invocation];
      outcome := behaviour(calls);
    }
  }

  class ToolRegistry {
    var specs: map<string, ToolSpec>

    ghost predicate Valid()
      reads this
    {
      forall name :: name in specs ==> name != "" && specs[name].name == name
    }

    constructor ()
      ensures Valid() && specs == map[]
    {
      specs := map[];
    }

    /** Adds one spec under its own name, or refuses and changes nothing: the registry only grows. */
    method Register(spec: ToolSpec) returns (r: Result<(), ConfigurationError>)
      requires Valid()
      modifies this
      ensures Valid()
      ensures r.Ok? <==> spec.name != "" && spec.name !in old(specs)
      ensures r.Ok? ==> specs == old(specs)[spec.name := spec]
      ensures r.Err? ==> specs == old(specs)
      ensures r.Err? ==> r.error == if spec.name == "" then EmptyToolName else AlreadyRegistered(spec.name)
      ensures forall name :: name in old(specs) ==> name in specs && specs[name] == old(specs)[name]
    {
      if spec.name == "" {
        return Err(EmptyToolName);
      }
      if spec.name in specs {
        return Err(AlreadyRegistered(spec.name));
      }
      specs := specs[spec.name := spec];
      r := Ok(());
    }
  }

  function Lookup(specs: map<string, ToolSpec>, name: string): Option<ToolSpec> {
    if name in specs then Some(specs[name]) else None
  }

  predicate Available(specs: map<string, ToolSpec>, name: string, role: string) {
    name in specs && specs[name].VisibleToRole(role)
  }
}
