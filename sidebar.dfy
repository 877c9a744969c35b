/**
 * components/Sidebar.tsx: each tree item's child ids (outcome targets in
 * order, repeats kept), their resolution, the root-or-entry-points choice of
 * top-level items, nesting levels, and the total-tools count.
 */
module Sidebar {
  import opened Wrappers
  import opened Types
  import opened Seqs
  import opened Graph

  /** `outcomes.filter(o => o.nextSubAgentId).map(o => o.nextSubAgentId!)`. */
  function ChildIds(s: SubAgent): (r: seq<string>)
    ensures |r| <= |s.outcomes|
    ensures forall t :: t in r <==> exists k :: 0 <= k < |s.outcomes| && Links(s.outcomes[k], t)
    ensures |r| == |Filter(HasTarget, s.outcomes)|
    ensures forall k :: 0 <= k < |r| ==>
      HasTarget(Filter(HasTarget, s.outcomes)[k]) && r[k] == Filter(HasTarget, s.outcomes)[k].nextSubAgentId.value
  {
    OutTargetsIsFilterMap(s.outcomes);
    forall t ensures t in OutTargets(s.outcomes) <==> exists k :: 0 <= k < |s.outcomes| && Links(s.outcomes[k], t) {
      OutTargetsMembership(s.outcomes, t);
    }
    OutTargetsLength(s.outcomes);
    OutTargets(s.outcomes)
  }

  lemma {:induction false} OutTargetsLength(outs: seq<Outcome>)
    ensures |OutTargets(outs)| <= |outs|
  {
    if outs != [] {
      OutTargetsLength(outs[..|outs| - 1]);
    }
  }

  /** The resolved children of a tree item; ids that match no sub-agent are dropped. */
  function ChildSubAgents(all: seq<SubAgent>, s: SubAgent): seq<SubAgent> {
    ResolveChildren(ChildIds(s), all)
  }

  /** `hasChildren`: at least one child id resolves. */
  function HasChildren(all: seq<SubAgent>, s: SubAgent): (b: bool)
    ensures b <==> exists k :: 0 <= k < |ChildIds(s)| && Resolves(all, ChildIds(s)[k])
  {
    ResolvesSome(ChildIds(s), all);
    |ChildSubAgents(all, s)| > 0
  }

  /** The top-level items: the root sub-agent alone when it resolves, the entry points otherwise. */
  function TopLevel(agent: Agent): (r: seq<SubAgent>)
    ensures var root := FindById(agent.subAgents, agent.rootSubAgentId);
      root.Some? ==> r == [root.value]
    ensures FindById(agent.subAgents, agent.rootSubAgentId).None? ==>
      r == Filter((s: SubAgent) => s.id !in ReferencedIds(agent.subAgents), agent.subAgents)
    ensures forall s :: s in r ==> s in agent.subAgents
  {
    match FindById(agent.subAgents, agent.rootSubAgentId)
    case Some(root) => [root]
    case None =>
      EntryPointsWithoutRoot(agent);
      EntryPoints(agent)
  }

  /** The rendered sidebar: each top-level item at level 0, children one level deeper. */
  function SidebarTree(agent: Agent): (r: seq<Rendered>)
    ensures var top := TopLevel(agent);
      |r| == |top| && forall k :: 0 <= k < |top| ==> r[k].subAgent == top[k] && r[k].level == 0
  {
    var top := TopLevel(agent);
    seq(|top|, k requires 0 <= k < |top| => RenderGuarded(agent.subAgents, ChildIds, top[k], 0, {}))
  }

  /** On an agent whose outcomes form no cycle, the sidebar is exactly what `TreeItem` renders. */
  lemma SidebarAsWritten(agent: Agent, rank: string -> nat, fuel: nat)
    requires Ranked(agent.subAgents, ChildIds, rank)
    requires fuel >= |AllIds(agent.subAgents)|
    ensures var top := TopLevel(agent);
      forall k :: 0 <= k < |top| ==>
        SidebarTree(agent)[k] == RenderUnguarded(Resolver(agent.subAgents, ChildIds), top[k], 0, fuel)
  {
    var top := TopLevel(agent);
    forall k | 0 <= k < |top|
      ensures SidebarTree(agent)[k] == RenderUnguarded(Resolver(agent.subAgents, ChildIds), top[k], 0, fuel)
    {
      assert top[k] in top;
      assert AllIds(agent.subAgents) - {} == AllIds(agent.subAgents);
      GuardedAgreesUnguarded(agent.subAgents, ChildIds, rank, top[k], 0, {}, fuel);
    }
  }

  /** `subAgents.reduce((acc, s) => acc + s.tools.length, 0)`. */
  function TotalTools(sas: seq<SubAgent>): nat {
    if sas == [] then 0 else TotalTools(sas[..|sas| - 1]) + |sas[|sas| - 1].tools|
  }

  /** The count is additive over concatenation, so it sums `tools.length` over every sub-agent. */
  lemma {:induction false} TotalToolsAppend(a: seq<SubAgent>, b: seq<SubAgent>)
    ensures TotalTools(a + b) == TotalTools(a) + TotalTools(b)
    decreases |b|
  {
    if b == [] {
      assert a + b == a;
    } else {
      assert (a + b)[..|a + b| - 1] == a + b[..|b| - 1];
      TotalToolsAppend(a, b[..|b| - 1]);
    }
  }

  /** Replacing one sub-agent changes the count by the difference in its tools. */
  lemma TotalToolsReplace(sas: seq<SubAgent>, i: nat, s: SubAgent)
    requires i < |sas|
    ensures TotalTools(sas[i := s]) + |sas[i].tools| == TotalTools(sas) + |s.tools|
  {
    assert sas == sas[..i] + [sas[i]] + sas[i + 1..];
    assert sas[i := s] == sas[..i] + [s] + sas[i + 1..];
    TotalToolsAppend(sas[..i] + [sas[i]], sas[i + 1..]);
    TotalToolsAppend(sas[..i], [sas[i]]);
    TotalToolsAppend(sas[..i] + [s], sas[i + 1..]);
    TotalToolsAppend(sas[..i], [s]);
  }

  // Two sub-agents whose outcomes lead to each other.

  const ToB := Outcome("o-ab", "escalate", "", Condition(Observation, ""), Some("b"))
  const ToA := Outcome("o-ba", "return", "", Condition(Fact, ""), Some("a"))
  const NodeA := SubAgent("a", "A", "", None, [], [], [], [ToB], None)
  const NodeB := SubAgent("b", "B", "", None, [], [], [], [ToA], None)
  const Cycle := [NodeA, NodeB]

  lemma CycleChildren()
    ensures ResolveChildren(ChildIds(NodeA), Cycle) == [NodeB]
    ensures ResolveChildren(ChildIds(NodeB), Cycle) == [NodeA]
  {
    assert OutTargets([ToB]) == OutTargets([]) + ["b"];
    assert OutTargets([ToA]) == OutTargets([]) + ["a"];
    assert Cycle[1].id == "b" && Cycle[0].id == "a";
    var rb := FindById(Cycle, "b");
    assert rb.Some? && rb.value in Cycle && rb.value.id == "b";
    assert rb.value == NodeB;
    var ra := FindById(Cycle, "a");
    assert ra.Some? && ra.value in Cycle && ra.value.id == "a";
    assert ra.value == NodeA;
    assert ResolveChildren(["b"], Cycle) == ResolveChildren([], Cycle) + [NodeB];
    assert ResolveChildren(["a"], Cycle) == ResolveChildren([], Cycle) + [NodeA];
  }

  lemma LeafHeight(kidsOf: SubAgent -> seq<SubAgent>, s: SubAgent, level: nat)
    ensures Height(RenderUnguarded(kidsOf, s, level, 0)) == 1
  {
    assert RenderUnguarded(kidsOf, s, level, 0).children == [];
    assert MaxHeight([]) == 0;
  }

  lemma UnguardedStep(kidsOf: SubAgent -> seq<SubAgent>, s: SubAgent, next: SubAgent, level: nat, fuel: nat)
    requires fuel > 0 && kidsOf(s) == [next]
    ensures Height(RenderUnguarded(kidsOf, s, level, fuel)) == 1 + Height(RenderUnguarded(kidsOf, next, level + 1, fuel - 1))
  {
    var child := RenderUnguarded(kidsOf, next, level + 1, fuel - 1);
    assert RenderAllUnguarded(kidsOf, [next], level + 1, fuel - 1)
      == RenderAllUnguarded(kidsOf, [], level + 1, fuel - 1) + [child];
    OneChildHeight(RenderUnguarded(kidsOf, s, level, fuel), child);
  }

  /** Two nodes that are each other's only child render one level deeper per unit of fuel. */
  lemma {:induction false} UnguardedTwoCycle(kidsOf: SubAgent -> seq<SubAgent>, a: SubAgent, b: SubAgent, level: nat, fuel: nat)
    requires kidsOf(a) == [b] && kidsOf(b) == [a]
    ensures Height(RenderUnguarded(kidsOf, a, level, fuel)) == fuel + 1
    ensures Height(RenderUnguarded(kidsOf, b, level, fuel)) == fuel + 1
    decreases fuel
  {
    if fuel > 0 {
      UnguardedTwoCycle(kidsOf, a, b, level + 1, fuel - 1);
      UnguardedStep(kidsOf, a, b, level, fuel);
      UnguardedStep(kidsOf, b, a, level, fuel);
    } else {
      LeafHeight(kidsOf, a, level);
      LeafHeight(kidsOf, b, level);
    }
  }

  /** The sidebar's resolved children on the two-node cycle. */
  function CycleKids(s: SubAgent): seq<SubAgent> {
    ResolveChildren(ChildIds(s), Cycle)
  }

  /**
   * As written (no guard): on the two-node cycle the rendering only stops
   * where the model's fuel runs out, one level per unit of fuel. The
   * component has no fuel, so it recurses without end.
   */
  lemma UnguardedCycleNeverBottomsOut(level: nat, fuel: nat)
    ensures Height(RenderUnguarded(CycleKids, NodeA, level, fuel)) == fuel + 1
    ensures Height(RenderUnguarded(CycleKids, NodeB, level, fuel)) == fuel + 1
  {
    CycleChildren();
    UnguardedTwoCycle(CycleKids, NodeA, NodeB, level, fuel);
  }

  lemma OneChildHeight(n: Rendered, c: Rendered)
    requires n.children == [c]
    ensures Height(n) == Height(c) + 1
  {
    assert [c][..0] == [];
    assert MaxHeight([]) == 0;
    assert MaxHeight([c]) == Height(c);
  }

  /** A node whose one child is already on the path renders two rows deep. */
  lemma GuardedLeafChild(sas: seq<SubAgent>, childIds: SubAgent -> seq<string>, s: SubAgent, level: nat, onPath: set<string>, c: SubAgent)
    requires s in sas && s.id !in onPath && c in sas
    requires ResolveChildren(childIds(s), sas) == [c] && c.id in onPath + {s.id}
    ensures Height(RenderGuarded(sas, childIds, s, level, onPath)) == 2
  {
    var leaf := Rendered(c, level + 1, []);
    assert RenderChildren(sas, childIds, [c], level + 1, onPath + {s.id})
      == RenderChildren(sas, childIds, [], level + 1, onPath + {s.id}) + [leaf];
    OneChildHeight(RenderGuarded(sas, childIds, s, level, onPath), leaf);
    OneChildHeight(Rendered(c, level + 1, [leaf]), leaf);
  }

  /** A node whose one child is not yet on the path is one row taller than that child's rendering. */
  lemma GuardedOneChild(sas: seq<SubAgent>, childIds: SubAgent -> seq<string>, s: SubAgent, level: nat, onPath: set<string>, c: SubAgent)
    requires s in sas && s.id !in onPath && c in sas
    requires ResolveChildren(childIds(s), sas) == [c] && c.id !in onPath + {s.id}
    ensures Height(RenderGuarded(sas, childIds, s, level, onPath))
      == 1 + Height(RenderGuarded(sas, childIds, c, level + 1, onPath + {s.id}))
  {
    var child := RenderGuarded(sas, childIds, c, level + 1, onPath + {s.id});
    assert RenderChildren(sas, childIds, [c], level + 1, onPath + {s.id})
      == RenderChildren(sas, childIds, [], level + 1, onPath + {s.id}) + [child];
    OneChildHeight(RenderGuarded(sas, childIds, s, level, onPath), child);
  }

  /** With the path guard the same cycle renders as A, B under it, and A again as a leaf. */
  lemma GuardedCycleIsFinite()
    ensures Height(RenderGuarded(Cycle, ChildIds, NodeA, 0, {})) == 3
  {
    CycleChildren();
    assert NodeA in Cycle && NodeB in Cycle;
    GuardedOneChild(Cycle, ChildIds, NodeA, 0, {}, NodeB);
    GuardedLeafChild(Cycle, ChildIds, NodeB, 1, {} + {NodeA.id}, NodeA);
  }

  /** A sub-agent with two outcomes to the same target lists it twice here (no deduplication). */
  lemma RepeatedTargetKept()
    ensures var s := SubAgent("a", "A", "", None, [], [], [], [ToB, ToB], None);
      ChildIds(s) == ["b", "b"]
  {
    assert OutTargets([ToB, ToB]) == OutTargets([ToB]) + ["b"];
    assert OutTargets([ToB]) == OutTargets([]) + ["b"];
  }
}
