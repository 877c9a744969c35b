/**
 * app/page.tsx: the editor page's state — the loaded agent, the selected
 * sub-agent id, the global-settings flag and the loading/saving flags — and
 * the handlers that change it. The fetch calls become parameters (the load
 * response) and a log of the agents posted for saving; the seed agent is a
 * constructor parameter.
 */
module Page {
  import opened Wrappers
  import opened Types
  import opened Graph

  /** How the initial `fetch('/api/agents')` ended. */
  datatype LoadResponse =
    | LoadOk(agents: seq<Agent>)   // `res.ok`, with the parsed list
    | LoadNotOk                    // a response that is not ok
    | LoadThrew                    // the fetch or the JSON parsing threw

  /** What the main area shows. */
  datatype View =
    | Loading
    | NotFound
    | GlobalView(agent: Agent)
    | EditorView(subAgent: SubAgent)
    | Placeholder

  /** `subAgents.map(s => s.id === updated.id ? updated : s)`. */
  function ReplaceById(sas: seq<SubAgent>, updated: SubAgent): (r: seq<SubAgent>)
    ensures |r| == |sas|
    ensures forall k :: 0 <= k < |sas| && sas[k].id != updated.id ==> r[k] == sas[k]
    ensures forall k :: 0 <= k < |sas| && sas[k].id == updated.id ==> r[k] == updated
  {
    seq(|sas|, k requires 0 <= k < |sas| => if sas[k].id == updated.id then updated else sas[k])
  }

  /** Two lists that agree on where `id` occurs, and on the entries there, find the same sub-agent. */
  lemma FindSameIds(a: seq<SubAgent>, b: seq<SubAgent>, id: string)
    requires |a| == |b|
    requires forall k :: 0 <= k < |a| ==> (a[k].id == id <==> b[k].id == id)
    requires forall k :: 0 <= k < |a| && a[k].id == id ==> a[k] == b[k]
    ensures FindById(a, id) == FindById(b, id)
  {
    var f := FindById(a, id);
    var g := FindById(b, id);
    if f.Some? {
      var m :| 0 <= m < |a| && a[m] == f.value && forall j :: 0 <= j < m ==> a[j].id != id;
      var n :| 0 <= n < |b| && b[n] == g.value && forall j :: 0 <= j < n ==> b[j].id != id;
      assert m == n;
    }
  }

  /** After the replacement, looking up the updated id finds the update; other ids find what they found before. */
  lemma ReplaceByIdLookup(sas: seq<SubAgent>, updated: SubAgent, id: string)
    ensures (exists k :: 0 <= k < |sas| && sas[k].id == updated.id) ==> FindById(ReplaceById(sas, updated), updated.id) == Some(updated)
    ensures id != updated.id ==> FindById(ReplaceById(sas, updated), id) == FindById(sas, id)
  {
    var r := ReplaceById(sas, updated);
    if exists k :: 0 <= k < |sas| && sas[k].id == updated.id {
      var f := FindById(r, updated.id);
      var m :| 0 <= m < |r| && r[m] == f.value && forall j :: 0 <= j < m ==> r[j].id != updated.id;
      assert r[m] == updated;
    }
    if id != updated.id {
      FindSameIds(r, sas, id);
    }
  }

  /** Handing back an unchanged sub-agent changes nothing when ids are unique. */
  lemma ReplaceWithItself(sas: seq<SubAgent>, i: nat)
    requires i < |sas|
    requires forall j, k :: 0 <= j < k < |sas| ==> sas[j].id != sas[k].id
    ensures ReplaceById(sas, sas[i]) == sas
  {
  }

  class EditorPage {
    var agent: Option<Agent>
    var selectedId: Option<string>
    var showGlobal: bool
    var isLoading: bool
    var isSaving: bool
    /** The agents sent to `POST /api/agents`, oldest first. */
    var posted: seq<Agent>
    const seed: Agent

    constructor(seed: Agent)
      ensures agent.None? && selectedId.None? && !showGlobal && isLoading && !isSaving
      ensures posted == [] && this.seed == seed
    {
      agent := None;
      selectedId := None;
      showGlobal := false;
      isLoading := true;
      isSaving := false;
      posted := [];
      this.seed := seed;
    }

    /** `loadAgent`: the first stored agent and its root; otherwise the seed and its root, which is
        also posted when the store answered with an empty list. */
    method LoadAgent(res: LoadResponse)
      modifies this
      ensures !isLoading && showGlobal == old(showGlobal) && isSaving == old(isSaving)
      ensures res.LoadOk? && |res.agents| > 0 ==>
        agent == Some(res.agents[0]) && selectedId == Some(res.agents[0].rootSubAgentId) && posted == old(posted)
      ensures res.LoadOk? && |res.agents| == 0 ==>
        agent == Some(seed) && selectedId == Some(seed.rootSubAgentId) && posted == old(posted) + [seed]
      ensures !res.LoadOk? ==> agent == Some(seed) && selectedId == Some(seed.rootSubAgentId) && posted == old(posted)
    {
      match res {
      case LoadOk(agents) =>
        if |agents| > 0 {
          agent := Some(agents[0]);
          selectedId := Some(agents[0].rootSubAgentId);
        } else {
          agent := Some(seed);
          selectedId := Some(seed.rootSubAgentId);
          posted := posted + [seed];
        }
      case LoadNotOk =>
        agent := Some(seed);
        selectedId := Some(seed.rootSubAgentId);
      case LoadThrew =>
        agent := Some(seed);
        selectedId := Some(seed.rootSubAgentId);
      }
      isLoading := false;
    }

    /** `saveAgent`: the indicator is on while the post is in flight and off afterwards. */
    method SaveAgent(a: Agent)
      modifies this
      ensures posted == old(posted) + [a] && !isSaving
      ensures agent == old(agent) && selectedId == old(selectedId) && showGlobal == old(showGlobal) && isLoading == old(isLoading)
    {
      isSaving := true;
      posted := posted + [a];
      isSaving := false;
    }

    /** `handleAgentChange`: show the new agent and post it. */
    method HandleAgentChange(a: Agent)
      modifies this
      ensures agent == Some(a) && posted == old(posted) + [a] && !isSaving
      ensures selectedId == old(selectedId) && showGlobal == old(showGlobal) && isLoading == old(isLoading)
    {
      agent := Some(a);
      SaveAgent(a);
    }

    /** `handleSubAgentChange`: nothing without an agent; otherwise every sub-agent with the updated id is
        replaced and the new agent is shown and posted. */
    method HandleSubAgentChange(s: SubAgent)
      modifies this
      ensures old(agent).None? ==> agent == old(agent) && posted == old(posted) && isSaving == old(isSaving)
      ensures old(agent).Some? ==>
        agent == Some(old(agent).value.(subAgents := ReplaceById(old(agent).value.subAgents, s)))
        && posted == old(posted) + [agent.value] && !isSaving
      ensures selectedId == old(selectedId) && showGlobal == old(showGlobal) && isLoading == old(isLoading)
      ensures old(SelectedSubAgent()).Some? && selectedId == Some(s.id) ==> SelectedSubAgent() == Some(s)
    {
      if agent.None? {
        return;
      }
      var updated := agent.value.(subAgents := ReplaceById(agent.value.subAgents, s));
      ReplaceByIdLookup(agent.value.subAgents, s, s.id);
      HandleAgentChange(updated);
    }

    /** `selectedSubAgent`: the first sub-agent whose id is the selected id. */
    function SelectedSubAgent(): (r: Option<SubAgent>)
      reads this
      ensures r.Some? <==> (agent.Some? && selectedId.Some?
        && exists k :: 0 <= k < |agent.value.subAgents| && agent.value.subAgents[k].id == selectedId.value)
      ensures r.Some? ==> r.value in agent.value.subAgents && r.value.id == selectedId.value
      ensures r.Some? ==> exists k :: (0 <= k < |agent.value.subAgents| && agent.value.subAgents[k] == r.value
        && forall j :: 0 <= j < k ==> agent.value.subAgents[j].id != selectedId.value)
    {
      if agent.None? || selectedId.None? then None else FindById(agent.value.subAgents, selectedId.value)
    }

    /** Choosing a sidebar row selects it and leaves global settings. */
    method SelectSubAgent(id: string)
      modifies this
      ensures selectedId == Some(id) && !showGlobal
      ensures agent == old(agent) && isLoading == old(isLoading) && isSaving == old(isSaving) && posted == old(posted)
      ensures !isLoading && SelectedSubAgent().Some? ==> CurrentView() == EditorView(SelectedSubAgent().value)
    {
      selectedId := Some(id);
      showGlobal := false;
    }

    /** Choosing global settings clears the selection. */
    method SelectGlobal()
      modifies this
      ensures selectedId.None? && showGlobal
      ensures agent == old(agent) && isLoading == old(isLoading) && isSaving == old(isSaving) && posted == old(posted)
      ensures !isLoading && agent.Some? ==> CurrentView() == GlobalView(agent.value)
    {
      selectedId := None;
      showGlobal := true;
    }

    /** What the page renders: loading, not found, global settings (which take precedence over a
        selection), the selected sub-agent's editor, or the placeholder. */
    function CurrentView(): (v: View)
      reads this
      ensures v.Loading? <==> isLoading
      ensures v.NotFound? <==> !isLoading && agent.None?
      ensures v.GlobalView? <==> !isLoading && agent.Some? && showGlobal
      ensures v.EditorView? <==> !isLoading && !showGlobal && SelectedSubAgent().Some?
      ensures v.EditorView? ==> v.subAgent == SelectedSubAgent().value
    {
      if isLoading then Loading
      else if agent.None? then NotFound
      else if showGlobal then GlobalView(agent.value)
      else match SelectedSubAgent()
        case Some(s) => EditorView(s)
        case None => Placeholder
    }
  }
}
