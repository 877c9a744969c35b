/**
 * components/GlobalSettings.tsx: agent-wide settings — the glossary list,
 * the response style selectors, the root sub-agent selector and the tab
 * label that counts glossary terms. Global rules and policies are edited
 * with the RuleEditor module.
 */
module GlobalSettings {
  import opened Wrappers
  import opened Types
  import opened Seqs
  import opened Graph

  /** `addGlossaryTerm`: one blank term at the end; nothing else in the agent changes. */
  function AddGlossaryTerm(agent: Agent): (r: Agent)
    ensures r.(glossary := agent.glossary) == agent
    ensures |r.glossary| == |agent.glossary| + 1 && r.glossary[..|agent.glossary|] == agent.glossary
    ensures r.glossary[|agent.glossary|] == GlossaryTerm("", "")
  {
    agent.(glossary := agent.glossary + [GlossaryTerm("", "")])
  }

  /** `updateGlossaryTerm`: only term `i` changes. */
  method UpdateGlossaryTerm(agent: Agent, i: nat, term: GlossaryTerm) returns (r: Agent)
    requires i < |agent.glossary|
    ensures r.(glossary := agent.glossary) == agent
    ensures |r.glossary| == |agent.glossary| && r.glossary[i] == term
    ensures forall k :: 0 <= k < |agent.glossary| && k != i ==> r.glossary[k] == agent.glossary[k]
  {
    var g := ReplaceAt(agent.glossary, i, term);
    r := agent.(glossary := g);
  }

  /** `deleteGlossaryTerm`: removes term `i`; an index past the end changes nothing. */
  method DeleteGlossaryTerm(agent: Agent, i: nat) returns (r: Agent)
    ensures r.(glossary := agent.glossary) == agent
    ensures i < |agent.glossary| ==> r.glossary == agent.glossary[..i] + agent.glossary[i + 1..]
    ensures i >= |agent.glossary| ==> r == agent
  {
    var g := RemoveAt(agent.glossary, i);
    assert i < |agent.glossary| ==> g == g[..i] + g[i..];
    r := agent.(glossary := g);
  }

  /** The tone selector; verbosity and the rest of the agent are kept. */
  function SetTone(agent: Agent, t: Tone): (r: Agent)
    ensures r.responseStyle == ResponseStyle(t, agent.responseStyle.verbosity)
    ensures r.(responseStyle := agent.responseStyle) == agent
  {
    agent.(responseStyle := agent.responseStyle.(tone := t))
  }

  /** The verbosity selector; tone and the rest of the agent are kept. */
  function SetVerbosity(agent: Agent, v: Verbosity): (r: Agent)
    ensures r.responseStyle == ResponseStyle(agent.responseStyle.tone, v)
    ensures r.(responseStyle := agent.responseStyle) == agent
  {
    agent.(responseStyle := agent.responseStyle.(verbosity := v))
  }

  /** Tone and verbosity are independent selectors. */
  lemma StyleEditsCommute(agent: Agent, t: Tone, v: Verbosity)
    ensures SetTone(SetVerbosity(agent, v), t) == SetVerbosity(SetTone(agent, t), v)
    ensures SetTone(SetVerbosity(agent, v), t).responseStyle == ResponseStyle(t, v)
  {
  }

  /** The root selector's options are the sub-agent ids, in list order. */
  function RootOptions(agent: Agent): (r: seq<string>)
    ensures |r| == |agent.subAgents|
    ensures forall k :: 0 <= k < |r| ==> r[k] == agent.subAgents[k].id
  {
    IdsOf(agent.subAgents)
  }

  /** Choosing option `k` of the root selector: the new root id resolves to a sub-agent with that id. */
  function ChooseRoot(agent: Agent, k: nat): (r: Agent)
    requires k < |RootOptions(agent)|
    ensures r.(rootSubAgentId := agent.rootSubAgentId) == agent
    ensures FindById(r.subAgents, r.rootSubAgentId).Some?
    ensures FindById(r.subAgents, r.rootSubAgentId).value.id == agent.subAgents[k].id
  {
    var r := agent.(rootSubAgentId := RootOptions(agent)[k]);
    assert r.subAgents[k].id == r.rootSubAgentId;
    r
  }

  /** After choosing a root, the tree views show it as an entry point. */
  lemma ChosenRootIsEntryPoint(agent: Agent, k: nat)
    requires k < |RootOptions(agent)|
    ensures var r := ChooseRoot(agent, k);
      FindById(r.subAgents, r.rootSubAgentId).value in EntryPoints(r)
  {
    RootIsEntryPoint(ChooseRoot(agent, k));
  }
}
