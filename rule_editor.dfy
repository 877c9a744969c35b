/**
 * components/RuleEditor.tsx: rule and policy lists (add, update, delete),
 * the scope selector and the condition field that is shown only for
 * conditional rules.
 */
module RuleEditor {
  import opened Wrappers
  import opened Types
  import opened Seqs

  /** `addRule`: one unnamed rule with scope 'always' and no condition at the end. */
  function AddRule(rules: seq<Rule>, freshId: string): (r: seq<Rule>)
    ensures |r| == |rules| + 1 && r[..|rules|] == rules
    ensures r[|rules|] == Rule(freshId, "", "", Always, None)
  {
    rules + [Rule(freshId, "", "", Always, None)]
  }

  /** `updateRule`: only rule `i` changes. */
  method UpdateRule(rules: seq<Rule>, i: nat, rule: Rule) returns (r: seq<Rule>)
    requires i < |rules|
    ensures |r| == |rules| && r[i] == rule
    ensures forall k :: 0 <= k < |rules| && k != i ==> r[k] == rules[k]
  {
    r := ReplaceAt(rules, i, rule);
  }

  /** `deleteRule`: removes rule `i`, the others keep their order. */
  method DeleteRule(rules: seq<Rule>, i: nat) returns (r: seq<Rule>)
    ensures i < |rules| ==> r == rules[..i] + rules[i + 1..]
    ensures i >= |rules| ==> r == rules
  {
    r := RemoveAt(rules, i);
    assert i < |rules| ==> r == r[..i] + r[i..];
  }

  /** The scope selector: every other field, a condition typed earlier included, is kept. */
  function SetScope(rule: Rule, scope: Scope): (r: Rule)
    ensures r.scope == scope
    ensures r.id == rule.id && r.name == rule.name && r.description == rule.description && r.condition == rule.condition
  {
    rule.(scope := scope)
  }

  /** Switching the scope away and back restores the rule, condition and all. */
  lemma ScopeRoundTrip(rule: Rule, scope: Scope)
    ensures SetScope(SetScope(rule, scope), rule.scope) == rule
  {
  }

  /** The condition input exists only for conditional rules. */
  predicate ConditionEditable(rule: Rule) {
    rule.scope == Conditional
  }

  /** The text the condition input shows (`rule.condition || ''`). */
  function ConditionText(rule: Rule): string {
    rule.condition.GetOr("")
  }

  /** Typing into the condition input; `None` when the input is not rendered. */
  function EditCondition(rule: Rule, text: string): (r: Option<Rule>)
    ensures r.Some? <==> ConditionEditable(rule)
    ensures r.Some? ==> ConditionText(r.value) == text && r.value.condition.Some?
    ensures r.Some? ==> r.value.(condition := rule.condition) == rule
  {
    if rule.scope == Conditional then Some(rule.(condition := Some(text))) else None
  }

  /** `addPolicy`: one unnamed advisory policy at the end. */
  function AddPolicy(policies: seq<Policy>, freshId: string): (r: seq<Policy>)
    ensures |r| == |policies| + 1 && r[..|policies|] == policies
    ensures r[|policies|] == Policy(freshId, "", "", Advisory)
  {
    policies + [Policy(freshId, "", "", Advisory)]
  }

  /** `updatePolicy`: only policy `i` changes. */
  method UpdatePolicy(policies: seq<Policy>, i: nat, policy: Policy) returns (r: seq<Policy>)
    requires i < |policies|
    ensures |r| == |policies| && r[i] == policy
    ensures forall k :: 0 <= k < |policies| && k != i ==> r[k] == policies[k]
  {
    r := ReplaceAt(policies, i, policy);
  }

  /** `deletePolicy`: removes policy `i`, the others keep their order. */
  method DeletePolicy(policies: seq<Policy>, i: nat) returns (r: seq<Policy>)
    ensures i < |policies| ==> r == policies[..i] + policies[i + 1..]
    ensures i >= |policies| ==> r == policies
  {
    r := RemoveAt(policies, i);
    assert i < |policies| ==> r == r[..i] + r[i..];
  }
}
