/**
 * The sub-agent graph as both tree views derive it: an edge runs from a
 * sub-agent to every non-empty `nextSubAgentId` of its outcomes; a sub-agent
 * is referenced when some edge points at it; entry points are the root and
 * every unreferenced sub-agent; child ids resolve to the first sub-agent with
 * that id, and ids that resolve to nothing are dropped.
 */
module Graph {
  import opened Wrappers
  import opened Types
  import opened Seqs

  /** Outcome `o` leads to sub-agent id `t` (the `if (o.nextSubAgentId)` truthiness test). */
  predicate Links(o: Outcome, t: string) {
    o.nextSubAgentId == Some(t) && t != ""
  }

  function TargetOf(o: Outcome): seq<string> {
    if o.nextSubAgentId.Some? && o.nextSubAgentId.value != "" then [o.nextSubAgentId.value] else []
  }

  /** The non-empty targets of `outs`, in outcome order, repeats kept. */
  function OutTargets(outs: seq<Outcome>): seq<string> {
    if outs == [] then [] else OutTargets(outs[..|outs| - 1]) + TargetOf(outs[|outs| - 1])
  }

  lemma {:induction false} OutTargetsMembership(outs: seq<Outcome>, t: string)
    ensures t in OutTargets(outs) <==> exists k :: 0 <= k < |outs| && Links(outs[k], t)
  {
    if outs != [] {
      var init := outs[..|outs| - 1];
      var last := outs[|outs| - 1];
      OutTargetsMembership(init, t);
      assert OutTargets(outs) == OutTargets(init) + TargetOf(last);
      assert t in TargetOf(last) <==> Links(last, t);
      if t in OutTargets(init) {
        var k :| 0 <= k < |init| && Links(init[k], t);
        assert outs[k] == init[k];
      }
      if exists k :: 0 <= k < |outs| && Links(outs[k], t) {
        var k :| 0 <= k < |outs| && Links(outs[k], t);
        if k < |init| {
          assert init[k] == outs[k];
        }
      }
    }
  }

  /** The outcome names a target at all: `o.nextSubAgentId` is truthy. */
  predicate HasTarget(o: Outcome) {
    o.nextSubAgentId.Some? && o.nextSubAgentId.value != ""
  }

  /** The targets are, position by position, those of the outcomes that name one. */
  lemma {:induction false} OutTargetsIsFilterMap(outs: seq<Outcome>)
    ensures |OutTargets(outs)| == |Filter(HasTarget, outs)|
    ensures forall k :: 0 <= k < |OutTargets(outs)| ==>
      HasTarget(Filter(HasTarget, outs)[k]) && OutTargets(outs)[k] == Filter(HasTarget, outs)[k].nextSubAgentId.value
  {
    if outs != [] {
      var init := outs[..|outs| - 1];
      OutTargetsIsFilterMap(init);
      assert OutTargets(outs) == OutTargets(init) + TargetOf(outs[|outs| - 1]);
      assert Filter(HasTarget, outs) == Filter(HasTarget, init) + (if HasTarget(outs[|outs| - 1]) then [outs[|outs| - 1]] else []);
    }
  }

  /** Every edge `(source id, target id)`, sub-agent by sub-agent, outcome by outcome. */
  function Edges(sas: seq<SubAgent>): seq<(string, string)> {
    if sas == [] then [] else Edges(sas[..|sas| - 1]) + EdgesFrom(sas[|sas| - 1], sas[|sas| - 1].outcomes)
  }

  function EdgesFrom(s: SubAgent, outs: seq<Outcome>): seq<(string, string)> {
    var ts := OutTargets(outs);
    seq(|ts|, k requires 0 <= k < |ts| => (s.id, ts[k]))
  }

  function Elems(ts: seq<string>): set<string> {
    set t | t in ts
  }

  /** One more outcome adds its target, if it has one, to the targets seen so far. */
  lemma TargetsStep(outs: seq<Outcome>, j: nat)
    requires j < |outs|
    ensures var o := outs[j];
      Elems(OutTargets(outs[..j + 1])) == Elems(OutTargets(outs[..j]))
        + (if o.nextSubAgentId.Some? && o.nextSubAgentId.value != "" then {o.nextSubAgentId.value} else {})
  {
    assert outs[..j + 1][..j] == outs[..j];
    assert OutTargets(outs[..j + 1]) == OutTargets(outs[..j]) + TargetOf(outs[j]);
    ElemsAppend(OutTargets(outs[..j]), TargetOf(outs[j]));
  }

  lemma ElemsAppend(a: seq<string>, b: seq<string>)
    ensures Elems(a + b) == Elems(a) + Elems(b)
  {
  }

  /** The referenced-id set: every non-empty target of every outcome of every sub-agent. */
  function ReferencedIds(sas: seq<SubAgent>): set<string> {
    if sas == [] then {}
    else
      var ts := OutTargets(sas[|sas| - 1].outcomes);
      ReferencedIds(sas[..|sas| - 1]) + Elems(ts)
  }

  lemma {:induction false} ReferencedMembership(sas: seq<SubAgent>, t: string)
    ensures t in ReferencedIds(sas) <==> exists i, k :: 0 <= i < |sas| && 0 <= k < |sas[i].outcomes| && Links(sas[i].outcomes[k], t)
  {
    if sas != [] {
      var init := sas[..|sas| - 1];
      var last := sas[|sas| - 1];
      ReferencedMembership(init, t);
      OutTargetsMembership(last.outcomes, t);
      if exists i, k :: 0 <= i < |sas| && 0 <= k < |sas[i].outcomes| && Links(sas[i].outcomes[k], t) {
        var i, k :| 0 <= i < |sas| && 0 <= k < |sas[i].outcomes| && Links(sas[i].outcomes[k], t);
        if i < |init| {
          assert Links(init[i].outcomes[k], t);
        }
      }
      if t in ReferencedIds(init) {
        var i, k :| 0 <= i < |init| && 0 <= k < |init[i].outcomes| && Links(init[i].outcomes[k], t);
        assert Links(sas[i].outcomes[k], t);
      }
    }
  }

  /** `subAgents.find(s => s.id === id)`. */
  function FindById(sas: seq<SubAgent>, id: string): (r: Option<SubAgent>)
    ensures r.Some? <==> exists k :: 0 <= k < |sas| && sas[k].id == id
    ensures r.Some? ==> r.value.id == id && r.value in sas
    ensures r.Some? ==> exists k :: 0 <= k < |sas| && sas[k] == r.value && forall j :: 0 <= j < k ==> sas[j].id != id
  {
    match FindIndex((s: SubAgent) => s.id == id, sas)
    case None => None
    case Some(k) => Some(sas[k])
  }

  /** `ids.map(id => find(id)).filter(defined)`: the children that resolve. */
  function ResolveChildren(ids: seq<string>, sas: seq<SubAgent>): (r: seq<SubAgent>)
    ensures |r| <= |ids|
    ensures forall k :: 0 <= k < |r| ==> r[k] in sas && FindById(sas, r[k].id) == Some(r[k])
  {
    if ids == [] then []
    else
      var init := ResolveChildren(ids[..|ids| - 1], sas);
      match FindById(sas, ids[|ids| - 1])
      case None => init
      case Some(c) => init + [c]
  }

  function IdsOf(subs: seq<SubAgent>): (r: seq<string>)
    ensures |r| == |subs| && forall k :: 0 <= k < |subs| ==> r[k] == subs[k].id
  {
    seq(|subs|, k requires 0 <= k < |subs| => subs[k].id)
  }

  predicate Resolves(sas: seq<SubAgent>, id: string) {
    FindById(sas, id).Some?
  }

  /** The filter `Boolean` after the lookup: the ids that resolve. */
  function ResolvesIn(sas: seq<SubAgent>): string -> bool {
    id => Resolves(sas, id)
  }

  /** The resolved children are exactly the ids that match some sub-agent, in the same order. */
  lemma {:induction false} ResolvedIds(ids: seq<string>, sas: seq<SubAgent>)
    ensures IdsOf(ResolveChildren(ids, sas)) == Filter(ResolvesIn(sas), ids)
  {
    if ids != [] {
      var init := ids[..|ids| - 1];
      var last := ids[|ids| - 1];
      ResolvedIds(init, sas);
      var r0 := ResolveChildren(init, sas);
      assert Filter(ResolvesIn(sas), ids) == Filter(ResolvesIn(sas), init) + (if Resolves(sas, last) then [last] else []);
      match FindById(sas, last) {
        case None =>
          assert ResolveChildren(ids, sas) == r0;
        case Some(c) =>
          assert ResolveChildren(ids, sas) == r0 + [c];
          assert IdsOf(r0 + [c]) == IdsOf(r0) + [c.id];
      }
    }
  }

  /** At least one child resolves exactly when some child id matches a sub-agent. */
  lemma ResolvesSome(ids: seq<string>, sas: seq<SubAgent>)
    ensures |ResolveChildren(ids, sas)| > 0 <==> exists k :: 0 <= k < |ids| && Resolves(sas, ids[k])
  {
    var f := Filter(ResolvesIn(sas), ids);
    ResolvedIds(ids, sas);
    assert |ResolveChildren(ids, sas)| == |f|;
    if |f| > 0 {
      FilterMembership(ResolvesIn(sas), ids, f[0]);
      var k :| 0 <= k < |ids| && ids[k] == f[0];
      assert Resolves(sas, ids[k]);
    }
    if exists k :: 0 <= k < |ids| && Resolves(sas, ids[k]) {
      var k :| 0 <= k < |ids| && Resolves(sas, ids[k]);
      FilterMembership(ResolvesIn(sas), ids, ids[k]);
    }
  }

  /** The filter condition both views use for their top-level nodes. */
  predicate IsEntryPoint(agent: Agent, s: SubAgent) {
    s.id == agent.rootSubAgentId || s.id !in ReferencedIds(agent.subAgents)
  }

  /** `subAgents.filter(s => s.id === rootSubAgentId || !referencedIds.has(s.id))`. */
  function EntryPoints(agent: Agent): (r: seq<SubAgent>)
    ensures IsSubsequence(r, agent.subAgents)
    ensures forall s :: s in r <==> s in agent.subAgents && IsEntryPoint(agent, s)
    ensures forall s :: multiset(r)[s] == if IsEntryPoint(agent, s) then multiset(agent.subAgents)[s] else 0
  {
    var p := (s: SubAgent) => IsEntryPoint(agent, s);
    FilterIsSubsequence(p, agent.subAgents);
    forall s ensures s in Filter(p, agent.subAgents) <==> s in agent.subAgents && p(s) {
      FilterMembership(p, agent.subAgents, s);
    }
    forall s ensures multiset(Filter(p, agent.subAgents))[s] == if p(s) then multiset(agent.subAgents)[s] else 0 {
      FilterMultiset(p, agent.subAgents, s);
    }
    Filter(p, agent.subAgents)
  }

  /** The root sub-agent is an entry point even when some outcome leads to it. */
  lemma RootIsEntryPoint(agent: Agent)
    requires FindById(agent.subAgents, agent.rootSubAgentId).Some?
    ensures FindById(agent.subAgents, agent.rootSubAgentId).value in EntryPoints(agent)
  {
  }

  /** With no sub-agent carrying the root id, the entry points are exactly the unreferenced sub-agents. */
  lemma EntryPointsWithoutRoot(agent: Agent)
    requires FindById(agent.subAgents, agent.rootSubAgentId).None?
    ensures EntryPoints(agent) == Filter((s: SubAgent) => s.id !in ReferencedIds(agent.subAgents), agent.subAgents)
  {
    var p := (s: SubAgent) => IsEntryPoint(agent, s);
    var q := (s: SubAgent) => s.id !in ReferencedIds(agent.subAgents);
    FilterSame(p, q, agent.subAgents);
  }

  lemma {:induction false} FilterSame<T>(p: T -> bool, q: T -> bool, s: seq<T>)
    requires forall k :: 0 <= k < |s| ==> p(s[k]) == q(s[k])
    ensures Filter(p, s) == Filter(q, s)
  {
    if s != [] {
      FilterSame(p, q, s[..|s| - 1]);
    }
  }

  // Rendering a tree of sub-agents from a start node.

  /** One rendered row and the rows nested under it; `level` is the indentation depth. */
  datatype Rendered = Rendered(subAgent: SubAgent, level: nat, children: seq<Rendered>)

  function Height(n: Rendered): nat
    decreases n
  {
    1 + MaxHeight(n.children)
  }

  function MaxHeight(ns: seq<Rendered>): nat
    decreases ns
  {
    if ns == [] then 0
    else
      var h := Height(ns[|ns| - 1]);
      var m := MaxHeight(ns[..|ns| - 1]);
      if h < m then m else h
  }

  function AllIds(sas: seq<SubAgent>): set<string> {
    set s | s in sas :: s.id
  }

  /**
   * Rendering with a path guard: a child already on the path from the start
   * node is shown as a leaf instead of being expanded again.
   */
  function RenderGuarded(sas: seq<SubAgent>, childIds: SubAgent -> seq<string>, s: SubAgent, level: nat, onPath: set<string>): (r: Rendered)
    requires s in sas && s.id !in onPath
    ensures r.subAgent == s && r.level == level
    ensures var kids := ResolveChildren(childIds(s), sas);
      |r.children| == |kids| && forall k :: 0 <= k < |kids| ==> r.children[k].subAgent == kids[k] && r.children[k].level == level + 1
    decreases AllIds(sas) - onPath, 0, 0
  {
    assert s.id in AllIds(sas);
    Rendered(s, level, RenderChildren(sas, childIds, ResolveChildren(childIds(s), sas), level + 1, onPath + {s.id}))
  }

  function RenderChildren(sas: seq<SubAgent>, childIds: SubAgent -> seq<string>, kids: seq<SubAgent>, level: nat, onPath: set<string>): (r: seq<Rendered>)
    requires forall k :: 0 <= k < |kids| ==> kids[k] in sas
    ensures |r| == |kids| && forall k :: 0 <= k < |kids| ==> r[k].subAgent == kids[k] && r[k].level == level
    decreases AllIds(sas) - onPath, 1, |kids|
  {
    if kids == [] then []
    else
      var c := kids[|kids| - 1];
      var node := if c.id in onPath then Rendered(c, level, []) else RenderGuarded(sas, childIds, c, level, onPath);
      RenderChildren(sas, childIds, kids[..|kids| - 1], level, onPath) + [node]
  }

  /**
   * The guard's split: the `k`th child of `s` is a bare leaf when its id is
   * already on the path (or is `s` itself), and is expanded in full otherwise.
   */
  lemma GuardedSplit(sas: seq<SubAgent>, childIds: SubAgent -> seq<string>, s: SubAgent, level: nat, onPath: set<string>, k: nat)
    requires s in sas && s.id !in onPath && k < |ResolveChildren(childIds(s), sas)|
    ensures var c := ResolveChildren(childIds(s), sas)[k];
      c.id in onPath + {s.id} ==> RenderGuarded(sas, childIds, s, level, onPath).children[k] == Rendered(c, level + 1, [])
    ensures var c := ResolveChildren(childIds(s), sas)[k];
      c.id !in onPath + {s.id} ==>
        RenderGuarded(sas, childIds, s, level, onPath).children[k] == RenderGuarded(sas, childIds, c, level + 1, onPath + {s.id})
  {
    RenderedChildAt(sas, childIds, ResolveChildren(childIds(s), sas), level + 1, onPath + {s.id}, k);
  }

  lemma {:induction false} RenderedChildAt(sas: seq<SubAgent>, childIds: SubAgent -> seq<string>, kids: seq<SubAgent>, level: nat, onPath: set<string>, k: nat)
    requires forall j :: 0 <= j < |kids| ==> kids[j] in sas
    requires k < |kids|
    ensures RenderChildren(sas, childIds, kids, level, onPath)[k]
      == if kids[k].id in onPath then Rendered(kids[k], level, []) else RenderGuarded(sas, childIds, kids[k], level, onPath)
    decreases |kids|
  {
    if k < |kids| - 1 {
      RenderedChildAt(sas, childIds, kids[..|kids| - 1], level, onPath, k);
    }
  }

  /** The guarded rendering is never taller than the number of sub-agent ids not yet on the path, plus one. */
  lemma {:induction false} GuardedHeight(sas: seq<SubAgent>, childIds: SubAgent -> seq<string>, s: SubAgent, level: nat, onPath: set<string>)
    requires s in sas && s.id !in onPath
    ensures Height(RenderGuarded(sas, childIds, s, level, onPath)) <= |AllIds(sas) - onPath| + 1
    decreases AllIds(sas) - onPath, 0, 0
  {
    assert s.id in AllIds(sas);
    var onPath' := onPath + {s.id};
    assert AllIds(sas) - onPath' == (AllIds(sas) - onPath) - {s.id};
    var kids := ResolveChildren(childIds(s), sas);
    ChildrenHeight(sas, childIds, kids, level + 1, onPath');
  }

  lemma {:induction false} ChildrenHeight(sas: seq<SubAgent>, childIds: SubAgent -> seq<string>, kids: seq<SubAgent>, level: nat, onPath: set<string>)
    requires forall k :: 0 <= k < |kids| ==> kids[k] in sas
    ensures MaxHeight(RenderChildren(sas, childIds, kids, level, onPath)) <= |AllIds(sas) - onPath| + 1
    decreases AllIds(sas) - onPath, 1, |kids|
  {
    if kids != [] {
      var c := kids[|kids| - 1];
      var init := kids[..|kids| - 1];
      ChildrenHeight(sas, childIds, init, level, onPath);
      var r := RenderChildren(sas, childIds, kids, level, onPath);
      assert r[..|r| - 1] == RenderChildren(sas, childIds, init, level, onPath);
      if c.id !in onPath {
        GuardedHeight(sas, childIds, c, level, onPath);
        assert r[|r| - 1] == RenderGuarded(sas, childIds, c, level, onPath);
      } else {
        assert r[|r| - 1] == Rendered(c, level, []);
        assert MaxHeight([]) == 0;
      }
    }
  }

  /**
   * Rendering as both components do it: every resolved child is expanded,
   * with no guard. `kidsOf` gives a node's resolved children
   * (`ResolveChildren` of its child ids); `fuel` only bounds the model, the
   * components have none.
   */
  function RenderUnguarded(kidsOf: SubAgent -> seq<SubAgent>, s: SubAgent, level: nat, fuel: nat): (r: Rendered)
    ensures r.subAgent == s && r.level == level
    decreases fuel, 0
  {
    if fuel == 0 then Rendered(s, level, [])
    else Rendered(s, level, RenderAllUnguarded(kidsOf, kidsOf(s), level + 1, fuel - 1))
  }

  function RenderAllUnguarded(kidsOf: SubAgent -> seq<SubAgent>, kids: seq<SubAgent>, level: nat, fuel: nat): (r: seq<Rendered>)
    ensures |r| == |kids| && forall k :: 0 <= k < |kids| ==> r[k].subAgent == kids[k] && r[k].level == level
    decreases fuel, 1, |kids|
  {
    if kids == [] then []
    else RenderAllUnguarded(kidsOf, kids[..|kids| - 1], level, fuel) + [RenderUnguarded(kidsOf, kids[|kids| - 1], level, fuel)]
  }

  /**
   * `rank` strictly decreases from every sub-agent to each of its resolved
   * children, so following children never comes back to an id already passed:
   * the child graph has no cycle.
   */
  ghost predicate Ranked(sas: seq<SubAgent>, childIds: SubAgent -> seq<string>, rank: string -> nat) {
    forall x, k {:trigger ResolveChildren(childIds(x), sas)[k]} :: x in sas && 0 <= k < |ResolveChildren(childIds(x), sas)| ==>
      rank(ResolveChildren(childIds(x), sas)[k].id) < rank(x.id)
  }

  /** The resolved children of each node, as both components look them up. */
  function Resolver(sas: seq<SubAgent>, childIds: SubAgent -> seq<string>): SubAgent -> seq<SubAgent> {
    x => ResolveChildren(childIds(x), sas)
  }

  /**
   * Where the components' recursion ends, the guard changes nothing: on a
   * ranked (acyclic) child graph the guarded rendering equals the unguarded
   * one given fuel for every id not yet on the path.
   */
  lemma {:induction false} GuardedAgreesUnguarded(sas: seq<SubAgent>, childIds: SubAgent -> seq<string>, rank: string -> nat,
                                                  s: SubAgent, level: nat, onPath: set<string>, fuel: nat)
    requires Ranked(sas, childIds, rank)
    requires s in sas && s.id !in onPath
    requires forall p :: p in onPath ==> rank(s.id) < rank(p)
    requires fuel >= |AllIds(sas) - onPath|
    ensures RenderGuarded(sas, childIds, s, level, onPath) == RenderUnguarded(Resolver(sas, childIds), s, level, fuel)
    decreases AllIds(sas) - onPath, 1
  {
    assert s.id in AllIds(sas) - onPath;
    var childLevel: nat, childFuel: nat := level + 1, fuel - 1;
    ChildrenAgree(sas, childIds, rank, s, level, onPath, fuel, childLevel, childFuel);
    UnguardedUnfold(Resolver(sas, childIds), s, level, fuel, childLevel, childFuel);
  }

  /** One step of the unguarded rendering, with the next level and fuel named. */
  lemma UnguardedUnfold(kidsOf: SubAgent -> seq<SubAgent>, s: SubAgent, level: nat, fuel: nat, childLevel: nat, childFuel: nat)
    requires fuel > 0 && childLevel == level + 1 && childFuel == fuel - 1
    ensures RenderUnguarded(kidsOf, s, level, fuel) == Rendered(s, level, RenderAllUnguarded(kidsOf, kidsOf(s), childLevel, childFuel))
  {
  }

  /** The children of `s` agree; `childLevel` and `childFuel` are the level and fuel one step down. */
  lemma ChildrenAgree(sas: seq<SubAgent>, childIds: SubAgent -> seq<string>, rank: string -> nat,
                      s: SubAgent, level: nat, onPath: set<string>, fuel: nat, childLevel: nat, childFuel: nat)
    requires Ranked(sas, childIds, rank)
    requires s in sas && s.id !in onPath
    requires forall p :: p in onPath ==> rank(s.id) < rank(p)
    requires fuel > 0 && fuel >= |AllIds(sas) - onPath|
    requires childLevel == level + 1 && childFuel == fuel - 1
    ensures RenderGuarded(sas, childIds, s, level, onPath).children
      == RenderAllUnguarded(Resolver(sas, childIds), ResolveChildren(childIds(s), sas), childLevel, childFuel)
    decreases AllIds(sas) - onPath, 0
  {
    var kids := ResolveChildren(childIds(s), sas);
    var path := onPath + {s.id};
    PathGrows(sas, s, onPath);
    forall j | 0 <= j < |kids|
      ensures kids[j] in sas && kids[j].id !in path
      ensures RenderGuarded(sas, childIds, kids[j], childLevel, path) == RenderUnguarded(Resolver(sas, childIds), kids[j], childLevel, childFuel)
    {
      assert rank(kids[j].id) < rank(s.id);
      GuardedAgreesUnguarded(sas, childIds, rank, kids[j], childLevel, path, childFuel);
    }
    ChildrenFromParts(sas, childIds, s, level, onPath, childFuel, kids, path);
  }

  /** Adding a node to the path leaves one id fewer to visit. */
  lemma PathGrows(sas: seq<SubAgent>, s: SubAgent, onPath: set<string>)
    requires s in sas && s.id !in onPath
    ensures AllIds(sas) - (onPath + {s.id}) < AllIds(sas) - onPath
    ensures |AllIds(sas) - (onPath + {s.id})| == |AllIds(sas) - onPath| - 1
  {
    assert s.id in AllIds(sas);
    assert AllIds(sas) - (onPath + {s.id}) == (AllIds(sas) - onPath) - {s.id};
  }

  lemma ChildrenFromParts(sas: seq<SubAgent>, childIds: SubAgent -> seq<string>,
                          s: SubAgent, level: nat, onPath: set<string>, fuel: nat, kids: seq<SubAgent>, path: set<string>)
    requires s in sas && s.id !in onPath
    requires kids == ResolveChildren(childIds(s), sas) && path == onPath + {s.id}
    requires forall j :: 0 <= j < |kids| ==> kids[j] in sas && kids[j].id !in path
    requires forall j :: 0 <= j < |kids| ==>
      RenderGuarded(sas, childIds, kids[j], level + 1, path) == RenderUnguarded(Resolver(sas, childIds), kids[j], level + 1, fuel)
    ensures RenderGuarded(sas, childIds, s, level, onPath).children == RenderAllUnguarded(Resolver(sas, childIds), kids, level + 1, fuel)
  {
    ListAgrees(sas, childIds, Resolver(sas, childIds), kids, level + 1, path, fuel);
  }

  /** Children that agree one by one render to the same list. */
  lemma {:induction false} ListAgrees(sas: seq<SubAgent>, childIds: SubAgent -> seq<string>, kidsOf: SubAgent -> seq<SubAgent>,
                                      kids: seq<SubAgent>, level: nat, onPath: set<string>, fuel: nat)
    requires forall j :: 0 <= j < |kids| ==> kids[j] in sas && kids[j].id !in onPath
    requires forall j :: 0 <= j < |kids| ==>
      RenderGuarded(sas, childIds, kids[j], level, onPath) == RenderUnguarded(kidsOf, kids[j], level, fuel)
    ensures RenderChildren(sas, childIds, kids, level, onPath) == RenderAllUnguarded(kidsOf, kids, level, fuel)
    decreases |kids|
  {
    if kids != [] {
      ListAgrees(sas, childIds, kidsOf, kids[..|kids| - 1], level, onPath, fuel);
    }
  }

}
