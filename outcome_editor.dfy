/**
 * components/OutcomeEditor.tsx: the outcome list (add, update, delete), the
 * next-sub-agent selector, which never offers the sub-agent being edited, and
 * the arrow label of an outcome's header.
 */
module OutcomeEditor {
  import opened Wrappers
  import opened Types
  import opened Seqs
  import opened Graph

  /** `availableTargets`: every sub-agent except the one being edited, in list order. */
  function AvailableTargets(all: seq<SubAgent>, currentId: string): (r: seq<SubAgent>)
    ensures forall s :: s in r <==> s in all && s.id != currentId
    ensures IsSubsequence(r, all)
    ensures forall s :: multiset(r)[s] == if s.id != currentId then multiset(all)[s] else 0
  {
    var p := (s: SubAgent) => s.id != currentId;
    forall s ensures s in Filter(p, all) <==> s in all && p(s) {
      FilterMembership(p, all, s);
    }
    forall s ensures multiset(Filter(p, all))[s] == if p(s) then multiset(all)[s] else 0 {
      FilterMultiset(p, all, s);
    }
    FilterIsSubsequence(p, all);
    Filter(p, all)
  }

  /** The option values of the next-sub-agent selector: "" ("None (end flow)") then each target's id. */
  function NextTargetOptions(all: seq<SubAgent>, currentId: string): (r: seq<string>)
    ensures |r| >= 1 && r[0] == ""
    ensures forall v :: v in r[1..] <==> exists s :: s in all && s.id == v && v != currentId
    ensures |r| == |AvailableTargets(all, currentId)| + 1
    ensures forall k :: 0 <= k < |AvailableTargets(all, currentId)| ==> r[k + 1] == AvailableTargets(all, currentId)[k].id
  {
    var ids := IdsOf(AvailableTargets(all, currentId));
    forall v ensures v in ids <==> exists s :: s in all && s.id == v && v != currentId {
      IdsOfMembership(AvailableTargets(all, currentId), v);
    }
    assert ([""] + ids)[1..] == ids;
    [""] + ids
  }

  lemma IdsOfMembership(ts: seq<SubAgent>, v: string)
    ensures v in IdsOf(ts) <==> exists s :: s in ts && s.id == v
  {
    var ids := IdsOf(ts);
    if v in ids {
      var k :| 0 <= k < |ids| && ids[k] == v;
      assert ts[k] in ts;
    }
    if exists s :: s in ts && s.id == v {
      var s :| s in ts && s.id == v;
      var k :| 0 <= k < |ts| && ts[k] == s;
      assert ids[k] == v;
    }
  }

  /** Choosing an option: the empty value clears the target (`e.target.value || undefined`). */
  function SelectNextTarget(o: Outcome, value: string): (r: Outcome)
    ensures value == "" ==> r.nextSubAgentId.None?
    ensures value != "" ==> r.nextSubAgentId == Some(value)
    ensures r.(nextSubAgentId := o.nextSubAgentId) == o
  {
    o.(nextSubAgentId := if value == "" then None else Some(value))
  }

  /** Whatever option is chosen, the outcome never routes back to the sub-agent being edited. */
  lemma NoSelfTarget(all: seq<SubAgent>, currentId: string, o: Outcome, k: nat)
    requires k < |NextTargetOptions(all, currentId)|
    ensures SelectNextTarget(o, NextTargetOptions(all, currentId)[k]).nextSubAgentId != Some(currentId)
  {
    var opts := NextTargetOptions(all, currentId);
    if k > 0 {
      assert opts[k] == opts[1..][k - 1];
      assert opts[k] in opts[1..];
    }
  }

  /** The selector's shown value (`outcome.nextSubAgentId || ''`) selects the outcome's own target back. */
  lemma SelectorRoundTrip(o: Outcome)
    requires o.nextSubAgentId != Some("")
    ensures SelectNextTarget(o, o.nextSubAgentId.GetOr("")) == o
  {
  }

  /** The header arrow: absent without a (non-empty) target; the target's name, or "Unknown" when
      no sub-agent has that id or its name is empty. */
  function TargetLabel(all: seq<SubAgent>, o: Outcome): (r: Option<string>)
    ensures r.Some? <==> o.nextSubAgentId.Some? && o.nextSubAgentId.value != ""
    ensures r.Some? ==> r.value != ""
    ensures r.Some? && r.value != "Unknown" ==>
      exists s :: s in all && s.id == o.nextSubAgentId.value && s.name == r.value
    ensures r.Some? ==> forall k ::
      (0 <= k < |all| && all[k].id == o.nextSubAgentId.value && forall j :: 0 <= j < k ==> all[j].id != o.nextSubAgentId.value) ==>
      r.value == (if all[k].name == "" then "Unknown" else all[k].name)
    ensures r.Some? && (forall k :: 0 <= k < |all| ==> all[k].id != o.nextSubAgentId.value) ==> r.value == "Unknown"
  {
    match o.nextSubAgentId
    case None => None
    case Some(t) =>
      if t == "" then None
      else
        match FindById(all, t)
        case Some(s) => if s.name == "" then Some("Unknown") else Some(s.name)
        case None => Some("Unknown")
  }

  /** The condition-type selector keeps the expression. */
  function SetConditionType(o: Outcome, t: ConditionType): (r: Outcome)
    ensures r.condition.conditionType == t && r.condition.expression == o.condition.expression
    ensures r.(condition := o.condition) == o
  {
    o.(condition := o.condition.(conditionType := t))
  }

  /** The expression input keeps the condition type. */
  function SetExpression(o: Outcome, e: string): (r: Outcome)
    ensures r.condition.expression == e && r.condition.conditionType == o.condition.conditionType
    ensures r.(condition := o.condition) == o
  {
    o.(condition := o.condition.(expression := e))
  }

  /** The two condition fields are independent: editing them in either order gives the same outcome. */
  lemma ConditionEditsCommute(o: Outcome, t: ConditionType, e: string)
    ensures SetConditionType(SetExpression(o, e), t) == SetExpression(SetConditionType(o, t), e)
    ensures SetConditionType(SetExpression(o, e), t).condition == Condition(t, e)
  {
  }

  /** `addOutcome`: one unnamed observation outcome with an empty expression and no target, at the end. */
  function AddOutcome(outcomes: seq<Outcome>, freshId: string): (r: seq<Outcome>)
    ensures |r| == |outcomes| + 1 && r[..|outcomes|] == outcomes
    ensures r[|outcomes|] == Outcome(freshId, "", "", Condition(Observation, ""), None)
  {
    outcomes + [Outcome(freshId, "", "", Condition(Observation, ""), None)]
  }

  /** `updateOutcome`: only outcome `i` changes. */
  method UpdateOutcome(outcomes: seq<Outcome>, i: nat, o: Outcome) returns (r: seq<Outcome>)
    requires i < |outcomes|
    ensures |r| == |outcomes| && r[i] == o
    ensures forall k :: 0 <= k < |outcomes| && k != i ==> r[k] == outcomes[k]
  {
    r := ReplaceAt(outcomes, i, o);
  }

  /** `deleteOutcome`: removes outcome `i`, the others keep their order. */
  method DeleteOutcome(outcomes: seq<Outcome>, i: nat) returns (r: seq<Outcome>)
    ensures i < |outcomes| ==> r == outcomes[..i] + outcomes[i + 1..]
    ensures i >= |outcomes| ==> r == outcomes
  {
    r := RemoveAt(outcomes, i);
    assert i < |outcomes| ==> r == r[..i] + r[i..];
  }
}
