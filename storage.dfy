/**
 * lib/storage.ts: the agents file and the four store operations. The file
 * is a field of the store; each operation first applies the seeding rule of
 * `ensureAgentsFile`, then reads the file, and the writers replace it whole.
 * The seed agent is a constructor parameter.
 */
module Storage {
  import opened Wrappers
  import opened Types
  import opened Seqs
  import Serializer

  /** What the agents file holds, as far as the store can tell. */
  datatype FileState =
    | Missing                    // the file cannot be accessed
    | Unparseable                // reading or JSON parsing fails
    | NonArray                   // valid JSON that is not an array
    | Stored(agents: seq<Agent>)

  /** The seeding rule: a missing or unparseable file, or an empty array, becomes the seed alone. */
  function Ensured(f: FileState, seed: Agent): (r: FileState)
    ensures (f.Missing? || f.Unparseable? || f == Stored([])) ==> r == Stored([seed])
    ensures (f.NonArray? || (f.Stored? && |f.agents| > 0)) ==> r == f
  {
    match f
    case Missing => Stored([seed])
    case Unparseable => Stored([seed])
    case NonArray => f
    case Stored(agents) => if |agents| == 0 then Stored([seed]) else f
  }

  /** After seeding the file holds a non-empty array, or a value that is not an array at all. */
  lemma EnsuredShape(f: FileState, seed: Agent)
    ensures Ensured(f, seed).NonArray? || (Ensured(f, seed).Stored? && |Ensured(f, seed).agents| > 0)
    ensures Ensured(Ensured(f, seed), seed) == Ensured(f, seed)
  {
  }

  /** What `getAgents` hands back for a seeded file: its array, or a failure for a non-array (every
      caller then throws on `.find`, `.findIndex`, `.filter` or the first element). */
  function Loaded(f: FileState): (r: Result<seq<Agent>, string>)
    ensures r.Success? <==> f.Stored?
    ensures r.Success? ==> r.value == f.agents
  {
    match f
    case Stored(agents) => Success(agents)
    case _ => Failure("agents file does not hold an array")
  }

  function HasId(id: string): Agent -> bool {
    (a: Agent) => a.id == id
  }

  /** `agents.find(a => a.id === id) || null`. */
  function FindAgent(agents: seq<Agent>, id: string): (r: Option<Agent>)
    ensures r.Some? <==> exists k :: 0 <= k < |agents| && agents[k].id == id
    ensures r.Some? ==> exists k :: (0 <= k < |agents| && agents[k] == r.value && r.value.id == id
      && forall j :: 0 <= j < k ==> agents[j].id != id)
  {
    match FindIndex(HasId(id), agents)
    case Some(k) => Some(agents[k])
    case None => None
  }

  /** The upsert of `saveAgent`: replace the first agent with the same id, or append. */
  function Upsert(agents: seq<Agent>, agent: Agent): (r: seq<Agent>)
    ensures (exists k :: 0 <= k < |agents| && agents[k].id == agent.id) ==> (|r| == |agents|
      && exists k :: (0 <= k < |agents| && agents[k].id == agent.id && r == agents[k := agent]
        && forall j :: 0 <= j < k ==> agents[j].id != agent.id))
    ensures (forall k :: 0 <= k < |agents| ==> agents[k].id != agent.id) ==> r == agents + [agent]
  {
    match FindIndex(HasId(agent.id), agents)
    case Some(k) => agents[k := agent]
    case None => agents + [agent]
  }

  /** Where the saved agent ends up: the first position holding its id. */
  lemma UpsertPosition(agents: seq<Agent>, agent: Agent) returns (k: nat)
    ensures k < |Upsert(agents, agent)| && Upsert(agents, agent)[k] == agent
    ensures forall j :: 0 <= j < k ==> Upsert(agents, agent)[j].id != agent.id
  {
    var r := Upsert(agents, agent);
    if exists i :: 0 <= i < |agents| && agents[i].id == agent.id {
      k :| 0 <= k < |agents| && agents[k].id == agent.id && r == agents[k := agent]
        && forall j :: 0 <= j < k ==> agents[j].id != agent.id;
    } else {
      k := |agents|;
    }
  }

  /** After saving, looking the id up gives the saved agent. */
  lemma SaveThenFind(agents: seq<Agent>, agent: Agent)
    ensures FindAgent(Upsert(agents, agent), agent.id) == Some(agent)
  {
    var r := Upsert(agents, agent);
    var k := UpsertPosition(agents, agent);
    var f := FindAgent(r, agent.id);
    assert f.Some?;
    var m :| 0 <= m < |r| && r[m] == f.value && f.value.id == agent.id && forall j :: 0 <= j < m ==> r[j].id != agent.id;
    assert m == k;
  }

  /** Saving the same agent twice leaves the store as saving it once. */
  lemma SaveIdempotent(agents: seq<Agent>, agent: Agent)
    ensures Upsert(Upsert(agents, agent), agent) == Upsert(agents, agent)
  {
    var r := Upsert(agents, agent);
    var k := UpsertPosition(agents, agent);
    var rr := Upsert(r, agent);
    var m :| 0 <= m < |r| && r[m].id == agent.id && rr == r[m := agent] && forall j :: 0 <= j < m ==> r[j].id != agent.id;
    assert m == k;
  }

  /** The filter of `deleteAgent`: every agent with another id, in order. */
  function RemoveById(agents: seq<Agent>, id: string): (r: seq<Agent>)
    ensures forall a :: a in r <==> a in agents && a.id != id
    ensures IsSubsequence(r, agents)
    ensures FindAgent(r, id).None?
    ensures forall a :: multiset(r)[a] == if a.id != id then multiset(agents)[a] else 0
  {
    var p := (a: Agent) => a.id != id;
    forall a ensures a in Filter(p, agents) <==> a in agents && p(a) {
      FilterMembership(p, agents, a);
    }
    forall a ensures multiset(Filter(p, agents))[a] == if p(a) then multiset(agents)[a] else 0 {
      FilterMultiset(p, agents, a);
    }
    FilterIsSubsequence(p, agents);
    Filter(p, agents)
  }

  /** Deleting an id no agent has rewrites the file unchanged. */
  lemma RemoveAbsent(agents: seq<Agent>, id: string)
    requires forall k :: 0 <= k < |agents| ==> agents[k].id != id
    ensures RemoveById(agents, id) == agents
  {
    FilterAll((a: Agent) => a.id != id, agents);
  }

  /** GET /api/agent over a store that can be read never answers "# No agents configured": reading the
      store seeds it first. */
  lemma ExportNeverEmpty(f: FileState, seed: Agent)
    ensures !Serializer.Export(Loaded(Ensured(f, seed))).YamlText?
  {
    EnsuredShape(f, seed);
  }

  class AgentStore {
    var file: FileState
    const seed: Agent

    constructor(initial: FileState, seed: Agent)
      ensures file == initial && this.seed == seed
    {
      file := initial;
      this.seed := seed;
    }

    /** `ensureAgentsFile`. */
    method EnsureAgentsFile()
      modifies this
      ensures file == Ensured(old(file), seed)
    {
      match file
      case Missing =>
        file := Stored([seed]);
      case Unparseable =>
        file := Stored([seed]);
      case NonArray =>
      case Stored(agents) =>
        if |agents| == 0 {
          file := Stored([seed]);
        }
    }

    /** `getAgents`: seed if needed, then read. */
    method GetAgents() returns (r: Result<seq<Agent>, string>)
      modifies this
      ensures file == Ensured(old(file), seed)
      ensures r == Loaded(file)
      ensures r.Success? ==> |r.value| > 0
    {
      EnsureAgentsFile();
      EnsuredShape(old(file), seed);
      r := Loaded(file);
    }

    /** `getAgent`: the first agent with the id, `None` for null. */
    method GetAgent(id: string) returns (r: Result<Option<Agent>, string>)
      modifies this
      ensures file == Ensured(old(file), seed)
      ensures r.Success? <==> file.Stored?
      ensures r.Success? ==> r.value == FindAgent(file.agents, id)
    {
      var loaded := GetAgents();
      match loaded
      case Failure(e) =>
        r := Failure(e);
      case Success(agents) =>
        r := Success(FindAgent(agents, id));
    }

    /** `saveAgent`: assign over the first agent with the same id, or push; then write the file. */
    method SaveAgent(agent: Agent) returns (ok: bool)
      modifies this
      ensures ok <==> Ensured(old(file), seed).Stored?
      ensures ok ==> file == Stored(Upsert(Ensured(old(file), seed).agents, agent))
      ensures !ok ==> file == Ensured(old(file), seed)
    {
      var loaded := GetAgents();
      if loaded.Failure? {
        return false;
      }
      var agents := loaded.value;
      var index := FindIndex(HasId(agent.id), agents);
      if index.Some? {
        agents := ReplaceAt(agents, index.value, agent);
        assert agents == loaded.value[index.value := agent];
      } else {
        agents := agents + [agent];
      }
      file := Stored(agents);
      ok := true;
    }

    /** `deleteAgent`: write back every agent with another id. */
    method DeleteAgent(id: string) returns (ok: bool)
      modifies this
      ensures ok <==> Ensured(old(file), seed).Stored?
      ensures ok ==> file == Stored(RemoveById(Ensured(old(file), seed).agents, id))
      ensures !ok ==> file == Ensured(old(file), seed)
    {
      var loaded := GetAgents();
      if loaded.Failure? {
        return false;
      }
      file := Stored(RemoveById(loaded.value, id));
      ok := true;
    }
  }
}
