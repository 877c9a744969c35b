/**
 * The entity model of lib/types.ts: every interface becomes a datatype, every
 * closed string union an enumeration, every optional field an `Option`.
 * Identifiers, names and free text are strings; `WorkflowStep.order` is a
 * JavaScript number, modelled as an unbounded integer.
 */
module Types {
  import opened Wrappers

  datatype ToolType = Lookup | Action
  datatype ParamType = StringParam | NumberParam | BooleanParam | ArrayParam
  datatype Scope = Always | Conditional
  datatype Enforcement = Strict | Advisory
  datatype ConditionType = Observation | Fact
  datatype Tone = Professional | Friendly | Formal
  datatype Verbosity = Concise | Detailed | Balanced

  datatype ToolParameter = ToolParameter(name: string, paramType: ParamType, description: string, required: bool)

  /** `prerequisites` holds ids of other tools of the same sub-agent. */
  datatype Tool = Tool(
    id: string,
    name: string,
    toolType: ToolType,
    description: string,
    parameters: Option<seq<ToolParameter>>,
    prerequisites: Option<seq<string>>)

  datatype Rule = Rule(id: string, name: string, description: string, scope: Scope, condition: Option<string>)

  datatype Policy = Policy(id: string, name: string, description: string, enforcement: Enforcement)

  datatype Condition = Condition(conditionType: ConditionType, expression: string)

  /** An absent `nextSubAgentId` ends the flow at this outcome. */
  datatype Outcome = Outcome(
    id: string,
    name: string,
    description: string,
    condition: Condition,
    nextSubAgentId: Option<string>)

  datatype WorkflowStep = WorkflowStep(id: string, description: string, order: int)

  /** `parentId` is informational only: the graph is derived from outcomes. */
  datatype SubAgent = SubAgent(
    id: string,
    name: string,
    objective: string,
    workflow: Option<seq<WorkflowStep>>,
    tools: seq<Tool>,
    rules: seq<Rule>,
    policies: seq<Policy>,
    outcomes: seq<Outcome>,
    parentId: Option<string>)

  datatype GlossaryTerm = GlossaryTerm(term: string, definition: string)

  datatype ResponseStyle = ResponseStyle(tone: Tone, verbosity: Verbosity)

  datatype Agent = Agent(
    id: string,
    name: string,
    description: string,
    globalRules: seq<Rule>,
    globalPolicies: seq<Policy>,
    glossary: seq<GlossaryTerm>,
    responseStyle: ResponseStyle,
    subAgents: seq<SubAgent>,
    rootSubAgentId: string)

  /** The tree-navigation helper type. */
  datatype SubAgentTreeNode = SubAgentTreeNode(subAgent: SubAgent, children: seq<SubAgentTreeNode>)

  // The string each enumeration value has in the stored JSON and in the exported document.

  function ToolTypeName(t: ToolType): string {
    match t
    case Lookup => "lookup"
    case Action => "action"
  }

  function ParamTypeName(t: ParamType): string {
    match t
    case StringParam => "string"
    case NumberParam => "number"
    case BooleanParam => "boolean"
    case ArrayParam => "array"
  }

  function ScopeName(s: Scope): string {
    match s
    case Always => "always"
    case Conditional => "conditional"
  }

  function EnforcementName(e: Enforcement): string {
    match e
    case Strict => "strict"
    case Advisory => "advisory"
  }

  function ConditionTypeName(c: ConditionType): string {
    match c
    case Observation => "observation"
    case Fact => "fact"
  }

  function ToneName(t: Tone): string {
    match t
    case Professional => "professional"
    case Friendly => "friendly"
    case Formal => "formal"
  }

  function VerbosityName(v: Verbosity): string {
    match v
    case Concise => "concise"
    case Detailed => "detailed"
    case Balanced => "balanced"
  }

  // Reading a string back into the closed union: each union is exactly its listed strings.

  function ParseToolType(s: string): (r: Option<ToolType>)
    ensures r.Some? <==> s in {"lookup", "action"}
    ensures forall t: ToolType :: r == Some(t) <==> ToolTypeName(t) == s
  {
    if s == "lookup" then Some(Lookup) else if s == "action" then Some(Action) else None
  }

  function ParseParamType(s: string): (r: Option<ParamType>)
    ensures r.Some? <==> s in {"string", "number", "boolean", "array"}
    ensures forall t: ParamType :: r == Some(t) <==> ParamTypeName(t) == s
  {
    if s == "string" then Some(StringParam)
    else if s == "number" then Some(NumberParam)
    else if s == "boolean" then Some(BooleanParam)
    else if s == "array" then Some(ArrayParam)
    else None
  }

  function ParseScope(s: string): (r: Option<Scope>)
    ensures r.Some? <==> s in {"always", "conditional"}
    ensures forall t: Scope :: r == Some(t) <==> ScopeName(t) == s
  {
    if s == "always" then Some(Always) else if s == "conditional" then Some(Conditional) else None
  }

  function ParseEnforcement(s: string): (r: Option<Enforcement>)
    ensures r.Some? <==> s in {"strict", "advisory"}
    ensures forall t: Enforcement :: r == Some(t) <==> EnforcementName(t) == s
  {
    if s == "strict" then Some(Strict) else if s == "advisory" then Some(Advisory) else None
  }

  function ParseConditionType(s: string): (r: Option<ConditionType>)
    ensures r.Some? <==> s in {"observation", "fact"}
    ensures forall t: ConditionType :: r == Some(t) <==> ConditionTypeName(t) == s
  {
    if s == "observation" then Some(Observation) else if s == "fact" then Some(Fact) else None
  }

  function ParseTone(s: string): (r: Option<Tone>)
    ensures r.Some? <==> s in {"professional", "friendly", "formal"}
    ensures forall t: Tone :: r == Some(t) <==> ToneName(t) == s
  {
    if s == "professional" then Some(Professional)
    else if s == "friendly" then Some(Friendly)
    else if s == "formal" then Some(Formal)
    else None
  }

  function ParseVerbosity(s: string): (r: Option<Verbosity>)
    ensures r.Some? <==> s in {"concise", "detailed", "balanced"}
    ensures forall t: Verbosity :: r == Some(t) <==> VerbosityName(t) == s
  {
    if s == "concise" then Some(Concise)
    else if s == "detailed" then Some(Detailed)
    else if s == "balanced" then Some(Balanced)
    else None
  }
}
