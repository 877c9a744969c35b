/**
 * components/ToolEditor.tsx: parameter add/update/delete inside one tool,
 * prerequisite candidates and toggling, and tool add/update/delete in the
 * sub-agent's list. Fresh ids (`tool-${Date.now()}`) are parameters.
 */
module ToolEditor {
  import opened Wrappers
  import opened Types
  import opened Seqs

  /** `tool.parameters || []`. */
  function Params(t: Tool): seq<ToolParameter> {
    t.parameters.GetOr([])
  }

  /** `tool.prerequisites || []`. */
  function Prereqs(t: Tool): seq<string> {
    t.prerequisites.GetOr([])
  }

  /** `addParameter`: one blank, optional string parameter at the end; a missing list counts as empty. */
  function AddParameter(t: Tool): (r: Tool)
    ensures r.parameters.Some? && r.(parameters := t.parameters) == t
    ensures |Params(r)| == |Params(t)| + 1 && Params(r)[..|Params(t)|] == Params(t)
    ensures Params(r)[|Params(t)|] == ToolParameter("", StringParam, "", false)
  {
    t.(parameters := Some(Params(t) + [ToolParameter("", StringParam, "", false)]))
  }

  /** `updateParameter`: only parameter `i` changes. */
  method UpdateParameter(t: Tool, i: nat, p: ToolParameter) returns (r: Tool)
    requires i < |Params(t)|
    ensures r.parameters.Some? && r.(parameters := t.parameters) == t
    ensures |Params(r)| == |Params(t)| && Params(r)[i] == p
    ensures forall k :: 0 <= k < |Params(t)| && k != i ==> Params(r)[k] == Params(t)[k]
  {
    var ps := ReplaceAt(Params(t), i, p);
    r := t.(parameters := Some(ps));
  }

  /** `deleteParameter`: removes parameter `i`, the others keep their order. */
  method DeleteParameter(t: Tool, i: nat) returns (r: Tool)
    ensures r.parameters.Some? && r.(parameters := t.parameters) == t
    ensures i < |Params(t)| ==> Params(r) == Params(t)[..i] + Params(t)[i + 1..]
    ensures i >= |Params(t)| ==> Params(r) == Params(t)
  {
    var ps := RemoveAt(Params(t), i);
    assert i < |Params(t)| ==> ps == ps[..i] + ps[i..];
    r := t.(parameters := Some(ps));
  }

  /** `otherTools`: the prerequisite candidates, every tool but the one being edited. */
  function OtherTools(all: seq<Tool>, t: Tool): (r: seq<Tool>)
    ensures forall x :: x in r <==> x in all && x.id != t.id
    ensures t !in r
    ensures IsSubsequence(r, all)
    ensures forall x :: multiset(r)[x] == if x.id != t.id then multiset(all)[x] else 0
  {
    var p := (x: Tool) => x.id != t.id;
    forall x ensures x in Filter(p, all) <==> x in all && p(x) {
      FilterMembership(p, all, x);
    }
    forall x ensures multiset(Filter(p, all))[x] == if p(x) then multiset(all)[x] else 0 {
      FilterMultiset(p, all, x);
    }
    FilterIsSubsequence(p, all);
    Filter(p, all)
  }

  /** Whether the checkbox for `id` is shown checked. */
  predicate PrerequisiteChecked(t: Tool, id: string) {
    id in Prereqs(t)
  }

  /** The prerequisite checkbox: checking appends `id`; unchecking removes every occurrence of it. */
  function TogglePrerequisite(t: Tool, id: string, checked: bool): (r: Tool)
    ensures r.prerequisites.Some? && r.(prerequisites := t.prerequisites) == t
    ensures checked ==> Prereqs(r) == Prereqs(t) + [id]
    ensures !checked ==> IsSubsequence(Prereqs(r), Prereqs(t))
    ensures !checked ==> forall p :: p in Prereqs(r) <==> p in Prereqs(t) && p != id
    ensures !checked ==> forall p :: multiset(Prereqs(r))[p] == if p != id then multiset(Prereqs(t))[p] else 0
    ensures PrerequisiteChecked(r, id) == checked
  {
    if checked then t.(prerequisites := Some(Prereqs(t) + [id]))
    else
      var p := (x: string) => x != id;
      forall x ensures x in Filter(p, Prereqs(t)) <==> x in Prereqs(t) && p(x) {
        FilterMembership(p, Prereqs(t), x);
      }
      forall x ensures multiset(Filter(p, Prereqs(t)))[x] == if p(x) then multiset(Prereqs(t))[x] else 0 {
        FilterMultiset(p, Prereqs(t), x);
      }
      FilterIsSubsequence(p, Prereqs(t));
      t.(prerequisites := Some(Filter(p, Prereqs(t))))
  }

  /** Checking an unchecked prerequisite and unchecking it again restores the list. */
  lemma CheckThenUncheck(t: Tool, id: string)
    requires !PrerequisiteChecked(t, id)
    ensures Prereqs(TogglePrerequisite(TogglePrerequisite(t, id, true), id, false)) == Prereqs(t)
  {
    var p := (x: string) => x != id;
    FilterAppend(p, Prereqs(t), [id]);
    FilterAll(p, Prereqs(t));
    assert Filter(p, [id]) == Filter(p, []) + [];
  }

  /** The tool `addTool` appends: a lookup with no name, no description and an empty parameter list. */
  function NewTool(id: string): Tool {
    Tool(id, "", Lookup, "", Some([]), None)
  }

  /** `addTool`: exactly one new lookup tool at the end, with no prerequisites field. */
  function AddTool(tools: seq<Tool>, freshId: string): (r: seq<Tool>)
    ensures |r| == |tools| + 1 && r[..|tools|] == tools
    ensures r[|tools|].id == freshId && r[|tools|].toolType == Lookup
    ensures r[|tools|].name == "" && r[|tools|].description == ""
    ensures r[|tools|].parameters == Some([]) && r[|tools|].prerequisites.None?
  {
    tools + [NewTool(freshId)]
  }

  /** `updateTool`: only tool `i` changes. */
  method UpdateTool(tools: seq<Tool>, i: nat, t: Tool) returns (r: seq<Tool>)
    requires i < |tools|
    ensures |r| == |tools| && r[i] == t
    ensures forall k :: 0 <= k < |tools| && k != i ==> r[k] == tools[k]
  {
    r := ReplaceAt(tools, i, t);
  }

  /** `deleteTool`: removes tool `i`, the others keep their order. */
  method DeleteTool(tools: seq<Tool>, i: nat) returns (r: seq<Tool>)
    ensures i < |tools| ==> r == tools[..i] + tools[i + 1..]
    ensures i >= |tools| ==> r == tools
  {
    r := RemoveAt(tools, i);
    assert i < |tools| ==> r == r[..i] + r[i..];
  }
}
