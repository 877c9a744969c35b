/**
 * app/api/agent/route.ts: the export of an agent as an ordered key/value
 * document (what is handed to the YAML dumper), and the GET handler's choice
 * between the first stored agent, the "no agents" comment and the error
 * response. Optional keys appear only when their collection is non-empty;
 * outcome targets and the root are emitted by display name; the glossary
 * collapses into a mapping where the last definition of a term wins.
 */
module Serializer {
  import opened Wrappers
  import opened Types
  import opened Seqs
  import opened Graph
  import ToolEditor
  import SubAgentEditor

  /** The document tree: strings, booleans, lists and mappings with insertion-ordered keys. */
  datatype Value =
    | Str(s: string)
    | Bool(b: bool)
    | List(items: seq<Value>)
    | Mapping(entries: seq<(string, Value)>)

  type Entries = seq<(string, Value)>

  function Keys(entries: Entries): (r: seq<string>)
    ensures |r| == |entries| && forall k :: 0 <= k < |r| ==> r[k] == entries[k].0
  {
    seq(|entries|, k requires 0 <= k < |entries| => entries[k].0)
  }

  /** The value stored under `key`, if any. */
  function Lookup(entries: Entries, key: string): Option<Value> {
    if entries == [] then None
    else if entries[0].0 == key then Some(entries[0].1)
    else Lookup(entries[1..], key)
  }

  function Get(v: Value, key: string): Option<Value> {
    if v.Mapping? then Lookup(v.entries, key) else None
  }

  /** One optional entry: present only when `c` holds. */
  function When(c: bool, key: string, v: Value): Entries {
    if c then [(key, v)] else []
  }

  function KeyIf(c: bool, key: string): seq<string> {
    if c then [key] else []
  }

  lemma {:induction false} LookupAppend(a: Entries, b: Entries, key: string)
    ensures Lookup(a + b, key) == if key in Keys(a) then Lookup(a, key) else Lookup(b, key)
  {
    if a == [] {
      assert a + b == b;
    } else {
      LookupAppend(a[1..], b, key);
      assert (a + b)[0] == a[0];
      assert (a + b)[1..] == a[1..] + b;
      assert Keys(a) == [a[0].0] + Keys(a[1..]);
    }
  }

  lemma {:induction false} LookupMembership(a: Entries, key: string)
    ensures Lookup(a, key).Some? <==> key in Keys(a)
  {
    if a != [] {
      LookupMembership(a[1..], key);
      assert Keys(a) == [a[0].0] + Keys(a[1..]);
    }
  }

  /** The value under the first occurrence of a key. */
  lemma {:induction false} LookupAt(entries: Entries, i: nat)
    requires i < |entries|
    requires forall j :: 0 <= j < i ==> entries[j].0 != entries[i].0
    ensures Lookup(entries, entries[i].0) == Some(entries[i].1)
  {
    if i > 0 {
      LookupAt(entries[1..], i - 1);
    }
  }

  lemma KeysAppend(a: Entries, b: Entries)
    ensures Keys(a + b) == Keys(a) + Keys(b)
  {
  }

  /** A key found in neither the entries before a piece nor those after it is looked up in the piece. */
  lemma LookupPiece(pre: Entries, piece: Entries, post: Entries, key: string)
    requires key !in Keys(pre) && key !in Keys(post)
    ensures Lookup(pre + piece + post, key) == Lookup(piece, key)
  {
    LookupAppend(pre + piece, post, key);
    LookupAppend(pre, piece, key);
    KeysAppend(pre, piece);
    LookupMembership(piece, key);
    LookupMembership(post, key);
  }

  lemma KeysWhen(c: bool, key: string, v: Value)
    ensures Keys(When(c, key, v)) == KeyIf(c, key)
  {
  }

  lemma WhenFacts(c: bool, key: string, v: Value)
    ensures Keys(When(c, key, v)) == KeyIf(c, key)
    ensures forall k :: Lookup(When(c, key, v), k) == if c && k == key then Some(v) else None
  {
  }

  function OrElse(a: Option<Value>, b: Option<Value>): Option<Value> {
    if a.Some? then a else b
  }

  /** Looking a key up in two pieces: the first piece wins. */
  lemma LookupConcat(a: Entries, b: Entries, key: string)
    ensures Lookup(a + b, key) == OrElse(Lookup(a, key), Lookup(b, key))
  {
    LookupAppend(a, b, key);
    LookupMembership(a, key);
  }

  lemma LookupWhen(c: bool, key: string, v: Value, k: string)
    ensures Lookup(When(c, key, v), k) == if c && k == key then Some(v) else None
  {
    if c {
      assert When(c, key, v)[1..] == [];
    }
  }

  lemma Lookup2(x: (string, Value), y: (string, Value), key: string)
    ensures Lookup([x, y], key) == if x.0 == key then Some(x.1) else if y.0 == key then Some(y.1) else None
  {
    assert [x, y][1..] == [y];
    assert [y][1..] == [];
    assert Lookup([y], key) == if y.0 == key then Some(y.1) else Lookup([], key);
  }

  lemma Lookup3(x: (string, Value), y: (string, Value), z: (string, Value), key: string)
    ensures Lookup([x, y, z], key) == if x.0 == key then Some(x.1) else if y.0 == key then Some(y.1) else if z.0 == key then Some(z.1) else None
  {
    assert [x, y, z][1..] == [y, z];
    Lookup2(y, z, key);
  }

  /** `xs.map(f)`. */
  function MapDocs<T>(f: T -> Value, xs: seq<T>): (r: seq<Value>)
    ensures |r| == |xs| && forall k :: 0 <= k < |xs| ==> r[k] == f(xs[k])
  {
    seq(|xs|, k requires 0 <= k < |xs| => f(xs[k]))
  }

  function StrDoc(s: string): Value {
    Str(s)
  }

  // ---------------------------------------------------------------------
  // Decoding, the partner of every projection below
  // ---------------------------------------------------------------------

  function GetStr(v: Value, key: string): Option<string> {
    match Get(v, key)
    case Some(Str(s)) => Some(s)
    case _ => None
  }

  function GetBool(v: Value, key: string): Option<bool> {
    match Get(v, key)
    case Some(Bool(b)) => Some(b)
    case _ => None
  }

  function DecodeStr(v: Value): Option<string> {
    if v.Str? then Some(v.s) else None
  }

  /** Decodes every item, failing when one fails. */
  function DecodeAll<T>(dec: Value -> Option<T>, vs: seq<Value>): Option<seq<T>> {
    if vs == [] then Some([])
    else
      match DecodeAll(dec, vs[..|vs| - 1])
      case None => None
      case Some(init) =>
        match dec(vs[|vs| - 1])
        case None => None
        case Some(x) => Some(init + [x])
  }

  lemma {:induction false} DecodeAllMapDocs<T>(enc: T -> Value, dec: Value -> Option<T>, xs: seq<T>)
    requires forall x :: dec(enc(x)) == Some(x)
    ensures DecodeAll(dec, MapDocs(enc, xs)) == Some(xs)
  {
    if xs != [] {
      var init := xs[..|xs| - 1];
      DecodeAllMapDocs(enc, dec, init);
      assert MapDocs(enc, xs)[..|xs| - 1] == MapDocs(enc, init);
      assert xs == init + [xs[|xs| - 1]];
    }
  }

  /** An optional list under `key`: `Some(None)` when absent, `None` when malformed. */
  function DecodeOptionalList<T>(v: Value, key: string, dec: Value -> Option<T>): Option<Option<seq<T>>> {
    match Get(v, key)
    case None => Some(None)
    case Some(List(items)) =>
      (match DecodeAll(dec, items)
       case Some(xs) => Some(Some(xs))
       case None => None)
    case Some(_) => None
  }

  /** An optional list stored exactly when non-empty reads back as the list, or as absent. */
  lemma DecodeListField<T>(v: Value, key: string, enc: T -> Value, dec: Value -> Option<T>, xs: seq<T>)
    requires Get(v, key) == if |xs| > 0 then Some(List(MapDocs(enc, xs))) else None
    requires forall x :: dec(enc(x)) == Some(x)
    ensures DecodeOptionalList(v, key, dec) == if |xs| > 0 then Some(Some(xs)) else Some(None)
  {
    DecodeAllMapDocs(enc, dec, xs);
  }

  // ---------------------------------------------------------------------
  // Parameters, tools, rules, policies, outcomes
  // ---------------------------------------------------------------------

  /** A parameter's projection: name, type, description, required, in that order. */
  function ParamToDoc(p: ToolParameter): (r: Value)
    ensures r.Mapping? && Keys(r.entries) == ["name", "type", "description", "required"]
  {
    Mapping([("name", Str(p.name)), ("type", Str(ParamTypeName(p.paramType))),
             ("description", Str(p.description)), ("required", Bool(p.required))])
  }

  function DecodeParam(v: Value): Option<ToolParameter> {
    match (GetStr(v, "name"), GetStr(v, "type"), GetStr(v, "description"), GetBool(v, "required"))
    case (Some(n), Some(t), Some(d), Some(b)) =>
      (match ParseParamType(t)
       case Some(pt) => Some(ToolParameter(n, pt, d, b))
       case None => None)
    case _ => None
  }

  /** A parameter is recovered exactly from its projection. */
  lemma ParamRoundTrip(p: ToolParameter)
    ensures DecodeParam(ParamToDoc(p)) == Some(p)
  {
    var e := ParamToDoc(p).entries;
    LookupAt(e, 0);
    LookupAt(e, 1);
    LookupAt(e, 2);
    LookupAt(e, 3);
    assert ParseParamType(ParamTypeName(p.paramType)) == Some(p.paramType);
  }

  lemma ParamsRoundTrip()
    ensures forall p :: DecodeParam(ParamToDoc(p)) == Some(p)
  {
    forall p ensures DecodeParam(ParamToDoc(p)) == Some(p) {
      ParamRoundTrip(p);
    }
  }

  /** `toolToYaml`: name, type, description; then `parameters` only when present and non-empty; then
      `prerequisites` only when non-empty. */
  function ToolToDoc(t: Tool): (r: Value)
    ensures r.Mapping?
    ensures Keys(r.entries) == ["name", "type", "description"]
      + KeyIf(|ToolEditor.Params(t)| > 0, "parameters") + KeyIf(|ToolEditor.Prereqs(t)| > 0, "prerequisites")
  {
    var base := [("name", Str(t.name)), ("type", Str(ToolTypeName(t.toolType))), ("description", Str(t.description))];
    var a := ParametersField(t);
    var b := PrerequisitesField(t);
    KeysWhen(|ToolEditor.Params(t)| > 0, "parameters", List(MapDocs(ParamToDoc, ToolEditor.Params(t))));
    KeysWhen(|ToolEditor.Prereqs(t)| > 0, "prerequisites", List(MapDocs(StrDoc, ToolEditor.Prereqs(t))));
    assert Keys(base) == ["name", "type", "description"];
    KeysAppend(base, a);
    KeysAppend(base + a, b);
    Mapping(base + a + b)
  }

  /** Each parameter projected, in order. */
  function ParametersField(t: Tool): Entries {
    var ps := ToolEditor.Params(t);
    When(|ps| > 0, "parameters", List(MapDocs(ParamToDoc, ps)))
  }

  /** The prerequisite ids as they are stored. */
  function PrerequisitesField(t: Tool): Entries {
    var pre := ToolEditor.Prereqs(t);
    When(|pre| > 0, "prerequisites", List(MapDocs(StrDoc, pre)))
  }

  /** The two optional lists of a tool's projection and what they hold. */
  lemma ToolDocLists(t: Tool)
    ensures Get(ToolToDoc(t), "parameters")
      == if |ToolEditor.Params(t)| > 0 then Some(List(MapDocs(ParamToDoc, ToolEditor.Params(t)))) else None
    ensures Get(ToolToDoc(t), "prerequisites")
      == if |ToolEditor.Prereqs(t)| > 0 then Some(List(MapDocs(StrDoc, ToolEditor.Prereqs(t)))) else None
  {
    var ps := ToolEditor.Params(t);
    var pre := ToolEditor.Prereqs(t);
    var n, ty, d := ("name", Str(t.name)), ("type", Str(ToolTypeName(t.toolType))), ("description", Str(t.description));
    var a := ParametersField(t);
    var b := PrerequisitesField(t);
    assert ToolToDoc(t).entries == [n, ty, d] + a + b;
    forall key | key == "parameters" || key == "prerequisites"
      ensures Lookup([n, ty, d] + a + b, key) == OrElse(Lookup(a, key), Lookup(b, key))
    {
      Lookup3(n, ty, d, key);
      LookupConcat([n, ty, d], a, key);
      LookupConcat([n, ty, d] + a, b, key);
    }
    LookupWhen(|ps| > 0, "parameters", List(MapDocs(ParamToDoc, ps)), "parameters");
    LookupWhen(|pre| > 0, "prerequisites", List(MapDocs(StrDoc, pre)), "parameters");
    LookupWhen(|ps| > 0, "parameters", List(MapDocs(ParamToDoc, ps)), "prerequisites");
    LookupWhen(|pre| > 0, "prerequisites", List(MapDocs(StrDoc, pre)), "prerequisites");
  }

  function DecodeTool(v: Value, id: string): Option<Tool> {
    match (GetStr(v, "name"), GetStr(v, "type"), GetStr(v, "description"))
    case (Some(n), Some(ty), Some(d)) =>
      var tt := ParseToolType(ty);
      var ps := DecodeOptionalList(v, "parameters", DecodeParam);
      var pre := DecodeOptionalList(v, "prerequisites", DecodeStr);
      if tt.Some? && ps.Some? && pre.Some? then Some(Tool(id, n, tt.value, d, ps.value, pre.value)) else None
    case _ => None
  }

  /** The tool as the document sees it: an empty parameter or prerequisite list reads as absent. */
  function CanonicalTool(t: Tool): Tool {
    t.(parameters := if |ToolEditor.Params(t)| > 0 then t.parameters else None,
       prerequisites := if |ToolEditor.Prereqs(t)| > 0 then t.prerequisites else None)
  }

  lemma ToolParametersDecode(t: Tool)
    ensures DecodeOptionalList(ToolToDoc(t), "parameters", DecodeParam) == Some(CanonicalTool(t).parameters)
  {
    var ps := ToolEditor.Params(t);
    ToolDocLists(t);
    ParamsRoundTrip();
    DecodeListField(ToolToDoc(t), "parameters", ParamToDoc, DecodeParam, ps);
  }

  lemma ToolPrerequisitesDecode(t: Tool)
    ensures DecodeOptionalList(ToolToDoc(t), "prerequisites", DecodeStr) == Some(CanonicalTool(t).prerequisites)
  {
    var pre := ToolEditor.Prereqs(t);
    ToolDocLists(t);
    DecodeListField(ToolToDoc(t), "prerequisites", StrDoc, DecodeStr, pre);
  }

  /** A tool is recovered from its projection up to its id and the absent/empty distinction. */
  lemma ToolRoundTrip(t: Tool)
    ensures DecodeTool(ToolToDoc(t), t.id) == Some(CanonicalTool(t))
  {
    var n, ty, d := ("name", Str(t.name)), ("type", Str(ToolTypeName(t.toolType))), ("description", Str(t.description));
    var rest := ParametersField(t) + PrerequisitesField(t);
    assert ToolToDoc(t).entries == [n, ty, d] + rest;
    Lookup3(n, ty, d, "name");
    Lookup3(n, ty, d, "type");
    Lookup3(n, ty, d, "description");
    LookupConcat([n, ty, d], rest, "name");
    LookupConcat([n, ty, d], rest, "type");
    LookupConcat([n, ty, d], rest, "description");
    assert ParseToolType(ToolTypeName(t.toolType)) == Some(t.toolType);
    ToolParametersDecode(t);
    ToolPrerequisitesDecode(t);
  }

  /** JavaScript truthiness of `rule.condition`: present and non-empty. */
  predicate HasCondition(rule: Rule) {
    rule.condition.Some? && rule.condition.value != ""
  }

  /** `ruleToYaml`: name, description, scope; `condition` exactly when it is a non-empty string,
      whatever the scope. */
  function RuleToDoc(rule: Rule): (r: Value)
    ensures r.Mapping?
    ensures Keys(r.entries) == ["name", "description", "scope"] + KeyIf(HasCondition(rule), "condition")
    ensures Get(r, "condition").Some? <==> HasCondition(rule)
  {
    var base := [("name", Str(rule.name)), ("description", Str(rule.description)), ("scope", Str(ScopeName(rule.scope)))];
    var c := When(HasCondition(rule), "condition", Str(rule.condition.GetOr("")));
    WhenFacts(HasCondition(rule), "condition", Str(rule.condition.GetOr("")));
    LookupAppend(base, c, "condition");
    Mapping(base + c)
  }

  function DecodeRule(v: Value, id: string): Option<Rule> {
    match (GetStr(v, "name"), GetStr(v, "description"), GetStr(v, "scope"))
    case (Some(n), Some(d), Some(s)) =>
      var sc := ParseScope(s);
      var c := match Get(v, "condition")
        case None => Some(None)
        case Some(Str(c)) => Some(Some(c))
        case Some(_) => None;
      if sc.Some? && c.Some? then Some(Rule(id, n, d, sc.value, c.value)) else None
    case _ => None
  }

  /** A rule is recovered from its projection; an empty condition reads back as none. */
  lemma RuleRoundTrip(rule: Rule)
    ensures DecodeRule(RuleToDoc(rule), rule.id) == Some(rule.(condition := if HasCondition(rule) then rule.condition else None))
  {
    var base := [("name", Str(rule.name)), ("description", Str(rule.description)), ("scope", Str(ScopeName(rule.scope)))];
    var c := When(HasCondition(rule), "condition", Str(rule.condition.GetOr("")));
    var e := RuleToDoc(rule).entries;
    assert e == base + c;
    LookupAt(e, 0);
    LookupAt(e, 1);
    LookupAt(e, 2);
    LookupAppend(base, c, "condition");
    assert ParseScope(ScopeName(rule.scope)) == Some(rule.scope);
  }

  /** `policyToYaml`: name, description, enforcement. */
  function PolicyToDoc(p: Policy): (r: Value)
    ensures r.Mapping? && Keys(r.entries) == ["name", "description", "enforcement"]
  {
    Mapping([("name", Str(p.name)), ("description", Str(p.description)), ("enforcement", Str(EnforcementName(p.enforcement)))])
  }

  function DecodePolicy(v: Value, id: string): Option<Policy> {
    match (GetStr(v, "name"), GetStr(v, "description"), GetStr(v, "enforcement"))
    case (Some(n), Some(d), Some(e)) =>
      (match ParseEnforcement(e)
       case Some(en) => Some(Policy(id, n, d, en))
       case None => None)
    case _ => None
  }

  lemma PolicyRoundTrip(p: Policy)
    ensures DecodePolicy(PolicyToDoc(p), p.id) == Some(p)
  {
    var e := PolicyToDoc(p).entries;
    LookupAt(e, 0);
    LookupAt(e, 1);
    LookupAt(e, 2);
    assert ParseEnforcement(EnforcementName(p.enforcement)) == Some(p.enforcement);
  }

  /** The display name an outcome's target is exported as: the first sub-agent with the (non-empty) target id. */
  function TargetName(o: Outcome, sas: seq<SubAgent>): (r: Option<string>)
    ensures r.Some? <==> exists t :: Links(o, t) && exists k :: 0 <= k < |sas| && sas[k].id == t
    ensures r.Some? ==> exists k :: (0 <= k < |sas| && sas[k].id == o.nextSubAgentId.value && sas[k].name == r.value
      && forall j :: 0 <= j < k ==> sas[j].id != o.nextSubAgentId.value)
  {
    match o.nextSubAgentId
    case None => None
    case Some(t) =>
      if t == "" then None
      else
        assert Links(o, t);
        match FindById(sas, t)
        case Some(s) => Some(s.name)
        case None => None
  }

  function ConditionToDoc(c: Condition): Value {
    Mapping([("type", Str(ConditionTypeName(c.conditionType))), ("expression", Str(c.expression))])
  }

  /** `outcomeToYaml`: name, description, condition {type, expression}; `next_sub_agent` only when the
      target id is non-empty and resolves, holding that sub-agent's name. */
  function OutcomeToDoc(o: Outcome, sas: seq<SubAgent>): (r: Value)
    ensures r.Mapping?
    ensures Keys(r.entries) == ["name", "description", "condition"] + KeyIf(TargetName(o, sas).Some?, "next_sub_agent")
    ensures Get(r, "next_sub_agent") == (match TargetName(o, sas) case Some(n) => Some(Str(n)) case None => None)
  {
    var base := [("name", Str(o.name)), ("description", Str(o.description)), ("condition", ConditionToDoc(o.condition))];
    var tn := TargetName(o, sas);
    var nx := When(tn.Some?, "next_sub_agent", Str(tn.GetOr("")));
    WhenFacts(tn.Some?, "next_sub_agent", Str(tn.GetOr("")));
    LookupAppend(base, nx, "next_sub_agent");
    Mapping(base + nx)
  }

  /** Decodes an outcome without its target, and the target's exported name. */
  function DecodeOutcome(v: Value, id: string): Option<(Outcome, Option<string>)> {
    match (GetStr(v, "name"), GetStr(v, "description"), Get(v, "condition"))
    case (Some(n), Some(d), Some(c)) =>
      var ct := GetStr(c, "type");
      var ex := GetStr(c, "expression");
      var ty := if ct.Some? then ParseConditionType(ct.value) else None;
      var nx := match Get(v, "next_sub_agent")
        case None => Some(None)
        case Some(Str(s)) => Some(Some(s))
        case Some(_) => None;
      if ty.Some? && ex.Some? && nx.Some? then Some((Outcome(id, n, d, Condition(ty.value, ex.value), None), nx.value))
      else None
    case _ => None
  }

  /** An outcome is recovered from its projection except that its target id is replaced by the target's name. */
  lemma OutcomeRoundTrip(o: Outcome, sas: seq<SubAgent>)
    ensures DecodeOutcome(OutcomeToDoc(o, sas), o.id) == Some((o.(nextSubAgentId := None), TargetName(o, sas)))
  {
    var base := [("name", Str(o.name)), ("description", Str(o.description)), ("condition", ConditionToDoc(o.condition))];
    var tn := TargetName(o, sas);
    var nx := When(tn.Some?, "next_sub_agent", Str(tn.GetOr("")));
    var e := OutcomeToDoc(o, sas).entries;
    assert e == base + nx;
    LookupAt(e, 0);
    LookupAt(e, 1);
    LookupAt(e, 2);
    var c := ConditionToDoc(o.condition).entries;
    LookupAt(c, 0);
    LookupAt(c, 1);
    assert ParseConditionType(ConditionTypeName(o.condition.conditionType)) == Some(o.condition.conditionType);
  }

  // ---------------------------------------------------------------------
  // Sub-agents
  // ---------------------------------------------------------------------

  function Descriptions(steps: seq<WorkflowStep>): (r: seq<string>)
    ensures |r| == |steps| && forall k :: 0 <= k < |steps| ==> r[k] == steps[k].description
  {
    seq(|steps|, k requires 0 <= k < |steps| => steps[k].description)
  }

  /** The exported workflow: the step descriptions in ascending `order`, ties in stored order. */
  function WorkflowLines(steps: seq<WorkflowStep>): seq<string> {
    Descriptions(SubAgentEditor.SortByOrder(steps))
  }

  /** `workflow.sort(...).map(step => step.description)`: the steps are sorted in place, then projected. */
  method SortedDescriptions(steps: seq<WorkflowStep>) returns (r: seq<string>)
    ensures r == WorkflowLines(steps)
  {
    var a := new WorkflowStep[|steps|](k requires 0 <= k < |steps| => steps[k]);
    assert a[..] == steps;
    SubAgentEditor.SortInPlace(a);
    r := [];
    for k := 0 to a.Length
      invariant r == Descriptions(a[..k])
    {
      assert a[..k + 1] == a[..k] + [a[k]];
      r := r + [a[k].description];
    }
    assert a[..a.Length] == a[..];
  }

  /** The workflow lines are the descriptions of a reordering of the steps that ascends by order and
      keeps tied steps in their stored order; a renumbered workflow is exported as stored. */
  lemma WorkflowLinesOrder(steps: seq<WorkflowStep>)
    ensures var s := SubAgentEditor.SortByOrder(steps);
      WorkflowLines(steps) == Descriptions(s) && SubAgentEditor.SortedByOrder(s) && multiset(s) == multiset(steps)
      && forall v :: SubAgentEditor.WithOrder(s, v) == SubAgentEditor.WithOrder(steps, v)
    ensures SubAgentEditor.Dense(steps) ==> WorkflowLines(steps) == Descriptions(steps)
  {
    SubAgentEditor.SortSorted(steps);
    forall v ensures SubAgentEditor.WithOrder(SubAgentEditor.SortByOrder(steps), v) == SubAgentEditor.WithOrder(steps, v) {
      SubAgentEditor.SortIsStable(steps, v);
    }
    if SubAgentEditor.Dense(steps) {
      SubAgentEditor.DenseShowsAsStored(steps);
    }
  }

  function WorkflowField(sa: SubAgent): Entries {
    var steps := SubAgentEditor.Steps(sa.workflow);
    When(|steps| > 0, "workflow", List(MapDocs(StrDoc, WorkflowLines(steps))))
  }

  function ToolsField(sa: SubAgent): Entries {
    When(|sa.tools| > 0, "tools", List(MapDocs(ToolToDoc, sa.tools)))
  }

  function RulesField(sa: SubAgent): Entries {
    When(|sa.rules| > 0, "rules", List(MapDocs(RuleToDoc, sa.rules)))
  }

  function PoliciesField(sa: SubAgent): Entries {
    When(|sa.policies| > 0, "policies", List(MapDocs(PolicyToDoc, sa.policies)))
  }

  function OutcomesField(sa: SubAgent, all: seq<SubAgent>): Entries {
    When(|sa.outcomes| > 0, "outcomes", List(MapDocs((o: Outcome) => OutcomeToDoc(o, all), sa.outcomes)))
  }

  /** `subAgentToYaml`: name and objective, then each of workflow, tools, rules, policies and outcomes
      exactly when non-empty (a missing workflow counts as empty), in that order. */
  function SubAgentToDoc(sa: SubAgent, all: seq<SubAgent>): (r: Value)
    ensures r.Mapping?
    ensures Keys(r.entries) == ["name", "objective"]
      + KeyIf(|SubAgentEditor.Steps(sa.workflow)| > 0, "workflow") + KeyIf(|sa.tools| > 0, "tools")
      + KeyIf(|sa.rules| > 0, "rules") + KeyIf(|sa.policies| > 0, "policies") + KeyIf(|sa.outcomes| > 0, "outcomes")
  {
    var e0 := [("name", Str(sa.name)), ("objective", Str(sa.objective))];
    var w := WorkflowField(sa);
    var t := ToolsField(sa);
    var ru := RulesField(sa);
    var po := PoliciesField(sa);
    var ou := OutcomesField(sa, all);
    SubAgentKeys(sa, all);
    Mapping(e0 + w + t + ru + po + ou)
  }

  lemma SubAgentKeys(sa: SubAgent, all: seq<SubAgent>)
    ensures Keys([("name", Str(sa.name)), ("objective", Str(sa.objective))] + WorkflowField(sa) + ToolsField(sa)
        + RulesField(sa) + PoliciesField(sa) + OutcomesField(sa, all))
      == ["name", "objective"]
        + KeyIf(|SubAgentEditor.Steps(sa.workflow)| > 0, "workflow") + KeyIf(|sa.tools| > 0, "tools")
        + KeyIf(|sa.rules| > 0, "rules") + KeyIf(|sa.policies| > 0, "policies") + KeyIf(|sa.outcomes| > 0, "outcomes")
  {
    var e0 := [("name", Str(sa.name)), ("objective", Str(sa.objective))];
    var w := WorkflowField(sa);
    var t := ToolsField(sa);
    var ru := RulesField(sa);
    var po := PoliciesField(sa);
    var ou := OutcomesField(sa, all);
    assert Keys(e0) == ["name", "objective"];
    var steps := SubAgentEditor.Steps(sa.workflow);
    KeysWhen(|steps| > 0, "workflow", List(MapDocs(StrDoc, WorkflowLines(steps))));
    KeysWhen(|sa.tools| > 0, "tools", List(MapDocs(ToolToDoc, sa.tools)));
    KeysWhen(|sa.rules| > 0, "rules", List(MapDocs(RuleToDoc, sa.rules)));
    KeysWhen(|sa.policies| > 0, "policies", List(MapDocs(PolicyToDoc, sa.policies)));
    KeysWhen(|sa.outcomes| > 0, "outcomes", List(MapDocs((o: Outcome) => OutcomeToDoc(o, all), sa.outcomes)));
    KeysAppend(e0, w);
    KeysAppend(e0 + w, t);
    KeysAppend(e0 + w + t, ru);
    KeysAppend(e0 + w + t + ru, po);
    KeysAppend(e0 + w + t + ru + po, ou);
  }

  /** A key other than name and objective is looked up field by field, in document order. */
  lemma SubAgentLookup(sa: SubAgent, all: seq<SubAgent>, key: string)
    requires key != "name" && key != "objective"
    ensures Lookup(SubAgentToDoc(sa, all).entries, key)
      == OrElse(OrElse(OrElse(OrElse(Lookup(WorkflowField(sa), key), Lookup(ToolsField(sa), key)),
           Lookup(RulesField(sa), key)), Lookup(PoliciesField(sa), key)), Lookup(OutcomesField(sa, all), key))
  {
    var n, o := ("name", Str(sa.name)), ("objective", Str(sa.objective));
    var w, t, ru, po, ou := WorkflowField(sa), ToolsField(sa), RulesField(sa), PoliciesField(sa), OutcomesField(sa, all);
    assert SubAgentToDoc(sa, all).entries == [n, o] + w + t + ru + po + ou;
    Lookup2(n, o, key);
    LookupConcat([n, o], w, key);
    LookupConcat([n, o] + w, t, key);
    LookupConcat([n, o] + w + t, ru, key);
    LookupConcat([n, o] + w + t + ru, po, key);
    LookupConcat([n, o] + w + t + ru + po, ou, key);
  }

  /** What each optional field of a sub-agent holds under a key. */
  lemma SubAgentFields(sa: SubAgent, all: seq<SubAgent>, key: string)
    ensures var steps := SubAgentEditor.Steps(sa.workflow);
      Lookup(WorkflowField(sa), key)
        == if |steps| > 0 && key == "workflow" then Some(List(MapDocs(StrDoc, WorkflowLines(steps)))) else None
    ensures Lookup(ToolsField(sa), key)
      == if |sa.tools| > 0 && key == "tools" then Some(List(MapDocs(ToolToDoc, sa.tools))) else None
    ensures Lookup(RulesField(sa), key)
      == if |sa.rules| > 0 && key == "rules" then Some(List(MapDocs(RuleToDoc, sa.rules))) else None
    ensures Lookup(PoliciesField(sa), key)
      == if |sa.policies| > 0 && key == "policies" then Some(List(MapDocs(PolicyToDoc, sa.policies))) else None
    ensures Lookup(OutcomesField(sa, all), key)
      == if |sa.outcomes| > 0 && key == "outcomes" then Some(List(MapDocs((o: Outcome) => OutcomeToDoc(o, all), sa.outcomes))) else None
  {
    var steps := SubAgentEditor.Steps(sa.workflow);
    LookupWhen(|steps| > 0, "workflow", List(MapDocs(StrDoc, WorkflowLines(steps))), key);
    LookupWhen(|sa.tools| > 0, "tools", List(MapDocs(ToolToDoc, sa.tools)), key);
    LookupWhen(|sa.rules| > 0, "rules", List(MapDocs(RuleToDoc, sa.rules)), key);
    LookupWhen(|sa.policies| > 0, "policies", List(MapDocs(PolicyToDoc, sa.policies)), key);
    LookupWhen(|sa.outcomes| > 0, "outcomes", List(MapDocs((o: Outcome) => OutcomeToDoc(o, all), sa.outcomes)), key);
  }

  /** The exported workflow, present exactly when there are steps, lists their descriptions by order. */
  lemma SubAgentWorkflowExport(sa: SubAgent, all: seq<SubAgent>)
    ensures var steps := SubAgentEditor.Steps(sa.workflow);
      Get(SubAgentToDoc(sa, all), "workflow")
        == if |steps| > 0 then Some(List(MapDocs(StrDoc, WorkflowLines(steps)))) else None
  {
    SubAgentLookup(sa, all, "workflow");
    SubAgentFields(sa, all, "workflow");
  }

  /** The exported tools, present exactly when there are tools, decode back to the tools in order. */
  lemma SubAgentToolsExport(sa: SubAgent, all: seq<SubAgent>)
    ensures var d := Get(SubAgentToDoc(sa, all), "tools");
      (d.Some? <==> |sa.tools| > 0)
      && (d.Some? ==> (d.value.List? && |d.value.items| == |sa.tools|
          && forall k :: 0 <= k < |sa.tools| ==> DecodeTool(d.value.items[k], sa.tools[k].id) == Some(CanonicalTool(sa.tools[k]))))
  {
    SubAgentLookup(sa, all, "tools");
    SubAgentFields(sa, all, "tools");
    forall k | 0 <= k < |sa.tools| ensures DecodeTool(ToolToDoc(sa.tools[k]), sa.tools[k].id) == Some(CanonicalTool(sa.tools[k])) {
      ToolRoundTrip(sa.tools[k]);
    }
  }

  /** The exported rules, present exactly when there are rules, decode back to the rules in order. */
  lemma SubAgentRulesExport(sa: SubAgent, all: seq<SubAgent>)
    ensures var d := Get(SubAgentToDoc(sa, all), "rules");
      (d.Some? <==> |sa.rules| > 0)
      && (d.Some? ==> (d.value.List? && |d.value.items| == |sa.rules|
          && forall k :: 0 <= k < |sa.rules| ==>
               DecodeRule(d.value.items[k], sa.rules[k].id) == Some(sa.rules[k].(condition := if HasCondition(sa.rules[k]) then sa.rules[k].condition else None))))
  {
    SubAgentLookup(sa, all, "rules");
    SubAgentFields(sa, all, "rules");
    forall k | 0 <= k < |sa.rules|
      ensures DecodeRule(RuleToDoc(sa.rules[k]), sa.rules[k].id)
        == Some(sa.rules[k].(condition := if HasCondition(sa.rules[k]) then sa.rules[k].condition else None))
    {
      RuleRoundTrip(sa.rules[k]);
    }
  }

  /** The exported policies, present exactly when there are policies, decode back to the policies in order. */
  lemma SubAgentPoliciesExport(sa: SubAgent, all: seq<SubAgent>)
    ensures var d := Get(SubAgentToDoc(sa, all), "policies");
      (d.Some? <==> |sa.policies| > 0)
      && (d.Some? ==> (d.value.List? && |d.value.items| == |sa.policies|
          && forall k :: 0 <= k < |sa.policies| ==> DecodePolicy(d.value.items[k], sa.policies[k].id) == Some(sa.policies[k])))
  {
    SubAgentLookup(sa, all, "policies");
    SubAgentFields(sa, all, "policies");
    forall k | 0 <= k < |sa.policies| ensures DecodePolicy(PolicyToDoc(sa.policies[k]), sa.policies[k].id) == Some(sa.policies[k]) {
      PolicyRoundTrip(sa.policies[k]);
    }
  }

  /** The exported outcomes, present exactly when there are outcomes, are the outcomes' projections in order. */
  lemma SubAgentOutcomesExport(sa: SubAgent, all: seq<SubAgent>)
    ensures var d := Get(SubAgentToDoc(sa, all), "outcomes");
      (d.Some? <==> |sa.outcomes| > 0)
      && (d.Some? ==> d.value == List(MapDocs((o: Outcome) => OutcomeToDoc(o, all), sa.outcomes)))
  {
    SubAgentLookup(sa, all, "outcomes");
    SubAgentFields(sa, all, "outcomes");
  }

  /** Sorting the workflow first (as the editor's view does in place) does not change the export. */
  lemma ExportIgnoresDisplaySort(sa: SubAgent, all: seq<SubAgent>)
    ensures SubAgentToDoc(sa.(workflow := Some(SubAgentEditor.SortByOrder(SubAgentEditor.Steps(sa.workflow)))), all)
      == SubAgentToDoc(sa, all)
  {
    var steps := SubAgentEditor.Steps(sa.workflow);
    SubAgentEditor.SortSorted(steps);
    SubAgentEditor.SortIdempotent(steps);
  }

  // ---------------------------------------------------------------------
  // The glossary
  // ---------------------------------------------------------------------

  /** `acc[term] = definition`: overwrite in place when the term is a key, else append a key. */
  function Assign(m: seq<(string, string)>, term: string, definition: string): seq<(string, string)> {
    if m == [] then [(term, definition)]
    else if m[0].0 == term then [(term, definition)] + m[1..]
    else [m[0]] + Assign(m[1..], term, definition)
  }

  /** The glossary `reduce` as a fold over the list. */
  function Collapse(g: seq<GlossaryTerm>): seq<(string, string)> {
    if g == [] then []
    else Assign(Collapse(g[..|g| - 1]), g[|g| - 1].term, g[|g| - 1].definition)
  }

  function TermKeys(m: seq<(string, string)>): (r: seq<string>)
    ensures |r| == |m| && forall k :: 0 <= k < |m| ==> r[k] == m[k].0
  {
    seq(|m|, k requires 0 <= k < |m| => m[k].0)
  }

  function Terms(g: seq<GlossaryTerm>): (r: seq<string>)
    ensures |r| == |g| && forall k :: 0 <= k < |g| ==> r[k] == g[k].term
  {
    seq(|g|, k requires 0 <= k < |g| => g[k].term)
  }

  function Definition(m: seq<(string, string)>, term: string): Option<string> {
    if m == [] then None
    else if m[0].0 == term then Some(m[0].1)
    else Definition(m[1..], term)
  }

  /** The definition of the last entry for `term` in the list, if any. */
  function LastDefinition(g: seq<GlossaryTerm>, term: string): Option<string> {
    if g == [] then None
    else if g[|g| - 1].term == term then Some(g[|g| - 1].definition)
    else LastDefinition(g[..|g| - 1], term)
  }

  lemma {:induction false} AssignDefinition(m: seq<(string, string)>, term: string, definition: string, t: string)
    ensures Definition(Assign(m, term, definition), t) == if t == term then Some(definition) else Definition(m, t)
  {
    if m != [] && m[0].0 != term {
      AssignDefinition(m[1..], term, definition, t);
    }
  }

  lemma TermKeysCons(x: (string, string), rest: seq<(string, string)>)
    ensures TermKeys([x] + rest) == [x.0] + TermKeys(rest)
  {
  }

  lemma {:induction false} AssignKeys(m: seq<(string, string)>, term: string, definition: string)
    ensures TermKeys(Assign(m, term, definition)) == if term in TermKeys(m) then TermKeys(m) else TermKeys(m) + [term]
  {
    if m == [] {
      assert TermKeys(Assign(m, term, definition)) == [term];
    } else {
      var rest := m[1..];
      assert m == [m[0]] + rest;
      TermKeysCons(m[0], rest);
      if m[0].0 == term {
        assert Assign(m, term, definition) == [(term, definition)] + rest;
        TermKeysCons((term, definition), rest);
        assert TermKeys(m)[0] == term;
      } else {
        var a := Assign(rest, term, definition);
        assert Assign(m, term, definition) == [m[0]] + a;
        TermKeysCons(m[0], a);
        AssignKeys(rest, term, definition);
        assert term in TermKeys(m) <==> term in TermKeys(rest);
        if term !in TermKeys(rest) {
          assert [m[0].0] + (TermKeys(rest) + [term]) == ([m[0].0] + TermKeys(rest)) + [term];
        }
      }
    }
  }

  /** Last write wins: each term maps to the definition of its last occurrence, and the keys are the
      terms in first-occurrence order, each once. */
  lemma {:induction false} CollapseSemantics(g: seq<GlossaryTerm>)
    ensures forall t :: Definition(Collapse(g), t) == LastDefinition(g, t)
    ensures TermKeys(Collapse(g)) == Dedup(Terms(g))
    ensures NoDuplicates(TermKeys(Collapse(g)))
  {
    if g != [] {
      var init := g[..|g| - 1];
      var x := g[|g| - 1];
      CollapseSemantics(init);
      forall t ensures Definition(Collapse(g), t) == LastDefinition(g, t) {
        AssignDefinition(Collapse(init), x.term, x.definition, t);
      }
      AssignKeys(Collapse(init), x.term, x.definition);
      assert Terms(g)[..|g| - 1] == Terms(init);
    }
    DedupProperties(Terms(g));
  }

  /** The `reduce` with its mutated accumulator, as a loop. */
  method CollapseGlossary(g: seq<GlossaryTerm>) returns (m: seq<(string, string)>)
    ensures m == Collapse(g)
  {
    m := [];
    for k := 0 to |g|
      invariant m == Collapse(g[..k])
    {
      assert g[..k + 1][..k] == g[..k];
      m := Assign(m, g[k].term, g[k].definition);
    }
    assert g[..|g|] == g;
  }

  function GlossaryDoc(m: seq<(string, string)>): (r: Value)
    ensures r.Mapping? && Keys(r.entries) == TermKeys(m)
  {
    Mapping(seq(|m|, k requires 0 <= k < |m| => (m[k].0, Str(m[k].1))))
  }

  // ---------------------------------------------------------------------
  // The agent and the GET handler
  // ---------------------------------------------------------------------

  /** The name `entry_point` is exported with: the root's, when the root id resolves. */
  function EntryPointName(agent: Agent): (r: Option<string>)
    ensures r.Some? <==> exists k :: 0 <= k < |agent.subAgents| && agent.subAgents[k].id == agent.rootSubAgentId
  {
    match FindById(agent.subAgents, agent.rootSubAgentId)
    case Some(s) => Some(s.name)
    case None => None
  }

  function AgentHead(agent: Agent): Entries {
    [("name", Str(agent.name)), ("description", Str(agent.description)),
     ("response_style", Mapping([("tone", Str(ToneName(agent.responseStyle.tone))),
                                 ("verbosity", Str(VerbosityName(agent.responseStyle.verbosity)))]))]
  }

  function GlobalRulesField(agent: Agent): Entries {
    When(|agent.globalRules| > 0, "global_rules", List(MapDocs(RuleToDoc, agent.globalRules)))
  }

  function GlobalPoliciesField(agent: Agent): Entries {
    When(|agent.globalPolicies| > 0, "global_policies", List(MapDocs(PolicyToDoc, agent.globalPolicies)))
  }

  function GlossaryField(agent: Agent): Entries {
    When(|agent.glossary| > 0, "glossary", GlossaryDoc(Collapse(agent.glossary)))
  }

  function SubAgentsField(agent: Agent): Entries {
    When(|agent.subAgents| > 0, "sub_agents", List(MapDocs((s: SubAgent) => SubAgentToDoc(s, agent.subAgents), agent.subAgents)))
  }

  function EntryPointField(agent: Agent): Entries {
    When(EntryPointName(agent).Some?, "entry_point", Str(EntryPointName(agent).GetOr("")))
  }

  /** The mapping under the top-level `agent` key: name, description and response style, then global
      rules, global policies, glossary, sub-agents and entry point, each only when there is something to show. */
  function AgentBody(agent: Agent): (r: Value)
    ensures r.Mapping?
    ensures Keys(r.entries) == ["name", "description", "response_style"]
      + KeyIf(|agent.globalRules| > 0, "global_rules") + KeyIf(|agent.globalPolicies| > 0, "global_policies")
      + KeyIf(|agent.glossary| > 0, "glossary") + KeyIf(|agent.subAgents| > 0, "sub_agents")
      + KeyIf(EntryPointName(agent).Some?, "entry_point")
  {
    var e0 := AgentHead(agent);
    var gr := GlobalRulesField(agent);
    var gp := GlobalPoliciesField(agent);
    var gl := GlossaryField(agent);
    var su := SubAgentsField(agent);
    var ep := EntryPointField(agent);
    assert Keys(e0) == ["name", "description", "response_style"];
    KeysWhen(|agent.globalRules| > 0, "global_rules", List(MapDocs(RuleToDoc, agent.globalRules)));
    KeysWhen(|agent.globalPolicies| > 0, "global_policies", List(MapDocs(PolicyToDoc, agent.globalPolicies)));
    KeysWhen(|agent.glossary| > 0, "glossary", GlossaryDoc(Collapse(agent.glossary)));
    KeysWhen(|agent.subAgents| > 0, "sub_agents", List(MapDocs((s: SubAgent) => SubAgentToDoc(s, agent.subAgents), agent.subAgents)));
    KeysWhen(EntryPointName(agent).Some?, "entry_point", Str(EntryPointName(agent).GetOr("")));
    KeysAppend(e0, gr);
    KeysAppend(e0 + gr, gp);
    KeysAppend(e0 + gr + gp, gl);
    KeysAppend(e0 + gr + gp + gl, su);
    KeysAppend(e0 + gr + gp + gl + su, ep);
    Mapping(e0 + gr + gp + gl + su + ep)
  }

  /** `agentToYaml` up to the dump: a document with the single key `agent`. */
  function AgentToDoc(agent: Agent): (r: Value)
    ensures r.Mapping? && Keys(r.entries) == ["agent"] && Get(r, "agent") == Some(AgentBody(agent))
  {
    Mapping([("agent", AgentBody(agent))])
  }

  /** A key other than those of the head is looked up field by field, in document order. */
  lemma AgentLookup(agent: Agent, key: string)
    requires key != "name" && key != "description" && key != "response_style"
    ensures Lookup(AgentBody(agent).entries, key)
      == OrElse(OrElse(OrElse(OrElse(Lookup(GlobalRulesField(agent), key), Lookup(GlobalPoliciesField(agent), key)),
           Lookup(GlossaryField(agent), key)), Lookup(SubAgentsField(agent), key)), Lookup(EntryPointField(agent), key))
  {
    var h := AgentHead(agent);
    var gr, gp, gl, su, ep := GlobalRulesField(agent), GlobalPoliciesField(agent), GlossaryField(agent), SubAgentsField(agent), EntryPointField(agent);
    assert AgentBody(agent).entries == h + gr + gp + gl + su + ep;
    Lookup3(h[0], h[1], h[2], key);
    assert h == [h[0], h[1], h[2]];
    LookupConcat(h, gr, key);
    LookupConcat(h + gr, gp, key);
    LookupConcat(h + gr + gp, gl, key);
    LookupConcat(h + gr + gp + gl, su, key);
    LookupConcat(h + gr + gp + gl + su, ep, key);
  }

  /** What each optional field of the agent holds under a key. */
  lemma AgentFields(agent: Agent, key: string)
    ensures Lookup(GlobalRulesField(agent), key)
      == if |agent.globalRules| > 0 && key == "global_rules" then Some(List(MapDocs(RuleToDoc, agent.globalRules))) else None
    ensures Lookup(GlobalPoliciesField(agent), key)
      == if |agent.globalPolicies| > 0 && key == "global_policies" then Some(List(MapDocs(PolicyToDoc, agent.globalPolicies))) else None
    ensures Lookup(GlossaryField(agent), key)
      == if |agent.glossary| > 0 && key == "glossary" then Some(GlossaryDoc(Collapse(agent.glossary))) else None
    ensures Lookup(SubAgentsField(agent), key)
      == if |agent.subAgents| > 0 && key == "sub_agents"
         then Some(List(MapDocs((s: SubAgent) => SubAgentToDoc(s, agent.subAgents), agent.subAgents))) else None
    ensures Lookup(EntryPointField(agent), key)
      == if EntryPointName(agent).Some? && key == "entry_point" then Some(Str(EntryPointName(agent).value)) else None
  {
    LookupWhen(|agent.globalRules| > 0, "global_rules", List(MapDocs(RuleToDoc, agent.globalRules)), key);
    LookupWhen(|agent.globalPolicies| > 0, "global_policies", List(MapDocs(PolicyToDoc, agent.globalPolicies)), key);
    LookupWhen(|agent.glossary| > 0, "glossary", GlossaryDoc(Collapse(agent.glossary)), key);
    LookupWhen(|agent.subAgents| > 0, "sub_agents", List(MapDocs((s: SubAgent) => SubAgentToDoc(s, agent.subAgents), agent.subAgents)), key);
    LookupWhen(EntryPointName(agent).Some?, "entry_point", Str(EntryPointName(agent).GetOr("")), key);
  }

  /** `entry_point` is present exactly when there are sub-agents and the root id resolves, and holds the
      name of the first sub-agent with that id. */
  lemma EntryPointExport(agent: Agent)
    ensures var d := Get(AgentBody(agent), "entry_point");
      (d.Some? <==> |agent.subAgents| > 0 && exists k :: 0 <= k < |agent.subAgents| && agent.subAgents[k].id == agent.rootSubAgentId)
      && (d.Some? ==> d.value == Str(FindById(agent.subAgents, agent.rootSubAgentId).value.name))
  {
    AgentLookup(agent, "entry_point");
    AgentFields(agent, "entry_point");
  }

  /** The exported global rules, present exactly when there are any, decode back to the rules in order. */
  lemma GlobalRulesExport(agent: Agent)
    ensures var d := Get(AgentBody(agent), "global_rules");
      (d.Some? <==> |agent.globalRules| > 0)
      && (d.Some? ==> (d.value.List? && |d.value.items| == |agent.globalRules|
          && forall k :: 0 <= k < |agent.globalRules| ==>
               DecodeRule(d.value.items[k], agent.globalRules[k].id)
                 == Some(agent.globalRules[k].(condition := if HasCondition(agent.globalRules[k]) then agent.globalRules[k].condition else None))))
  {
    AgentLookup(agent, "global_rules");
    AgentFields(agent, "global_rules");
    forall k | 0 <= k < |agent.globalRules|
      ensures DecodeRule(RuleToDoc(agent.globalRules[k]), agent.globalRules[k].id)
        == Some(agent.globalRules[k].(condition := if HasCondition(agent.globalRules[k]) then agent.globalRules[k].condition else None))
    {
      RuleRoundTrip(agent.globalRules[k]);
    }
  }

  /** The exported global policies, present exactly when there are any, decode back to the policies in order. */
  lemma GlobalPoliciesExport(agent: Agent)
    ensures var d := Get(AgentBody(agent), "global_policies");
      (d.Some? <==> |agent.globalPolicies| > 0)
      && (d.Some? ==> (d.value.List? && |d.value.items| == |agent.globalPolicies|
          && forall k :: 0 <= k < |agent.globalPolicies| ==>
               DecodePolicy(d.value.items[k], agent.globalPolicies[k].id) == Some(agent.globalPolicies[k])))
  {
    AgentLookup(agent, "global_policies");
    AgentFields(agent, "global_policies");
    forall k | 0 <= k < |agent.globalPolicies|
      ensures DecodePolicy(PolicyToDoc(agent.globalPolicies[k]), agent.globalPolicies[k].id) == Some(agent.globalPolicies[k])
    {
      PolicyRoundTrip(agent.globalPolicies[k]);
    }
  }

  /** `sub_agents` is present exactly when there are sub-agents, and lists every sub-agent's projection in order. */
  lemma SubAgentsExport(agent: Agent)
    ensures var d := Get(AgentBody(agent), "sub_agents");
      (d.Some? <==> |agent.subAgents| > 0)
      && (d.Some? ==> (d.value.List? && |d.value.items| == |agent.subAgents|
          && forall k :: 0 <= k < |agent.subAgents| ==> d.value.items[k] == SubAgentToDoc(agent.subAgents[k], agent.subAgents)))
  {
    AgentLookup(agent, "sub_agents");
    AgentFields(agent, "sub_agents");
  }

  lemma {:induction false} GlossaryDocLookup(m: seq<(string, string)>, term: string)
    ensures Lookup(GlossaryDoc(m).entries, term) == match Definition(m, term) case Some(d) => Some(Str(d)) case None => None
  {
    if m != [] {
      GlossaryDocLookup(m[1..], term);
      assert GlossaryDoc(m).entries[1..] == GlossaryDoc(m[1..]).entries;
    }
  }

  /** `glossary` is present exactly when the list is non-empty; its keys are the distinct terms in
      first-occurrence order, and each term holds the definition of its last occurrence. */
  lemma GlossaryExport(agent: Agent, term: string)
    ensures var d := Get(AgentBody(agent), "glossary");
      (d.Some? <==> |agent.glossary| > 0)
      && (d.Some? ==> (d.value.Mapping? && Keys(d.value.entries) == Dedup(Terms(agent.glossary))
          && Get(d.value, term) == match LastDefinition(agent.glossary, term) case Some(x) => Some(Str(x)) case None => None))
  {
    AgentLookup(agent, "glossary");
    AgentFields(agent, "glossary");
    CollapseSemantics(agent.glossary);
    GlossaryDocLookup(Collapse(agent.glossary), term);
  }

  /** The GET handler's response. */
  datatype Response =
    | YamlDocument(doc: Value)     // status 200, the dumped document
    | YamlText(text: string)       // status 200, a fixed text
    | ServerError(status: nat, message: string)

  /** GET: a failing store gives a 500; an empty store the fixed comment; otherwise the first agent only. */
  function Export(loaded: Result<seq<Agent>, string>): (r: Response)
    ensures loaded.Failure? <==> r.ServerError?
    ensures r.ServerError? ==> r.status == 500 && r.message == "Failed to generate YAML"
    ensures r.YamlText? <==> loaded.Success? && |loaded.value| == 0
    ensures r.YamlText? ==> r.text == "# No agents configured\n"
    ensures r.YamlDocument? ==> (loaded.Success? && |loaded.value| > 0 && r.doc == AgentToDoc(loaded.value[0]))
  {
    match loaded
    case Failure(_) => ServerError(500, "Failed to generate YAML")
    case Success(agents) =>
      if |agents| == 0 then YamlText("# No agents configured\n") else YamlDocument(AgentToDoc(agents[0]))
  }

  /** Only the first stored agent is exported: the rest of the store makes no difference. */
  lemma ExportUsesFirstAgentOnly(a: Agent, rest1: seq<Agent>, rest2: seq<Agent>)
    ensures Export(Success([a] + rest1)) == Export(Success([a] + rest2))
  {
  }
}
