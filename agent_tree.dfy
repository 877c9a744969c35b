/**
 * components/AgentTree.tsx: the child map built by nested loops over the
 * outcomes (parallel edges removed, first occurrence kept), the referenced-id
 * set filled by a loop, the root nodes, child resolution and the
 * entry-badge-or-delete-button choice of each row.
 */
module AgentTree {
  import opened Wrappers
  import opened Types
  import opened Seqs
  import opened Graph

  type ChildMap = map<string, seq<string>>

  /** The children recorded for `id` so far (`childMap.get(id) || []`). */
  function ChildList(m: ChildMap, id: string): seq<string> {
    if id in m then m[id] else []
  }

  /** One step of the inner loop: push the target unless the parent's list already includes it. */
  function AddEdge(m: ChildMap, e: (string, string)): ChildMap {
    var children := ChildList(m, e.0);
    if e.1 in children then m else m[e.0 := children + [e.1]]
  }

  function ChildMapOf(edges: seq<(string, string)>): ChildMap {
    if edges == [] then map[] else AddEdge(ChildMapOf(edges[..|edges| - 1]), edges[|edges| - 1])
  }

  /** Reference definition: the targets of the edges leaving `id`, in edge order. */
  function TargetsOf(edges: seq<(string, string)>, id: string): seq<string> {
    if edges == [] then []
    else TargetsOf(edges[..|edges| - 1], id) + (if edges[|edges| - 1].0 == id then [edges[|edges| - 1].1] else [])
  }

  /** The fold of the loop computes, for every parent, the deduplicated targets of its edges. */
  lemma {:induction false} ChildMapIsDedupedTargets(edges: seq<(string, string)>)
    ensures forall id :: id in ChildMapOf(edges) <==> |TargetsOf(edges, id)| > 0
    ensures forall id :: ChildList(ChildMapOf(edges), id) == Dedup(TargetsOf(edges, id))
  {
    if edges != [] {
      var init := edges[..|edges| - 1];
      var e := edges[|edges| - 1];
      ChildMapIsDedupedTargets(init);
      forall id ensures ChildList(ChildMapOf(edges), id) == Dedup(TargetsOf(edges, id)) {
        var t := TargetsOf(edges, id);
        if id == e.0 {
          assert t == TargetsOf(init, id) + [e.1];
          assert t[..|t| - 1] == TargetsOf(init, id);
        } else {
          assert t == TargetsOf(init, id);
        }
      }
      forall id ensures id in ChildMapOf(edges) <==> |TargetsOf(edges, id)| > 0 {
        if id == e.0 {
          DedupProperties(TargetsOf(init, id));
        }
      }
    }
  }

  lemma {:induction false} TargetsOfMembership(edges: seq<(string, string)>, id: string, t: string)
    ensures t in TargetsOf(edges, id) <==> (id, t) in edges
  {
    if edges != [] {
      TargetsOfMembership(edges[..|edges| - 1], id, t);
      assert edges == edges[..|edges| - 1] + [edges[|edges| - 1]];
    }
  }

  lemma {:induction false} EdgesFromMembership(s: SubAgent, outs: seq<Outcome>, e: (string, string))
    ensures e in EdgesFrom(s, outs) <==> e.0 == s.id && e.1 in OutTargets(outs)
  {
    var ts := OutTargets(outs);
    if e.0 == s.id && e.1 in ts {
      var k :| 0 <= k < |ts| && ts[k] == e.1;
      assert EdgesFrom(s, outs)[k] == e;
    }
  }

  /** An edge `(id, t)` exists exactly when some sub-agent with that id has `t` among its targets. */
  lemma {:induction false} EdgesSources(sas: seq<SubAgent>, id: string, t: string)
    ensures (id, t) in Edges(sas) <==> exists i :: 0 <= i < |sas| && sas[i].id == id && t in OutTargets(sas[i].outcomes)
  {
    if sas != [] {
      var init := sas[..|sas| - 1];
      var last := sas[|sas| - 1];
      EdgesSources(init, id, t);
      EdgesFromMembership(last, last.outcomes, (id, t));
      assert Edges(sas) == Edges(init) + EdgesFrom(last, last.outcomes);
      if (id, t) in Edges(init) {
        var i :| 0 <= i < |init| && init[i].id == id && t in OutTargets(init[i].outcomes);
        assert sas[i] == init[i];
      }
      if exists i :: 0 <= i < |sas| && sas[i].id == id && t in OutTargets(sas[i].outcomes) {
        var i :| 0 <= i < |sas| && sas[i].id == id && t in OutTargets(sas[i].outcomes);
        if i < |init| {
          assert init[i] == sas[i];
        }
      }
    }
  }

  lemma EdgesMembership(sas: seq<SubAgent>, id: string, t: string)
    ensures (id, t) in Edges(sas) <==> HasLink(sas, id, t)
  {
    EdgesSources(sas, id, t);
    if (id, t) in Edges(sas) {
      var i :| 0 <= i < |sas| && sas[i].id == id && t in OutTargets(sas[i].outcomes);
      OutTargetsMembership(sas[i].outcomes, t);
      var k :| 0 <= k < |sas[i].outcomes| && Links(sas[i].outcomes[k], t);
      assert HasLink(sas, id, t);
    }
    if HasLink(sas, id, t) {
      var i, k :| 0 <= i < |sas| && 0 <= k < |sas[i].outcomes| && sas[i].id == id && Links(sas[i].outcomes[k], t);
      OutTargetsMembership(sas[i].outcomes, t);
    }
  }

  lemma EdgesFromSnoc(s: SubAgent, outs: seq<Outcome>, o: Outcome)
    ensures EdgesFrom(s, outs + [o]) == EdgesFrom(s, outs) + (if Links(o, o.nextSubAgentId.GetOr("")) then [(s.id, o.nextSubAgentId.value)] else [])
  {
    assert (outs + [o])[..|outs + [o]| - 1] == outs;
  }

  /** Some sub-agent with id `id` has an outcome leading to `t`. */
  predicate HasLink(sas: seq<SubAgent>, id: string, t: string) {
    exists i, k :: 0 <= i < |sas| && 0 <= k < |sas[i].outcomes| && sas[i].id == id && Links(sas[i].outcomes[k], t)
  }

  /** Every child list of the map is non-empty and free of repeats. */
  lemma {:induction false} ChildListsDistinct(sas: seq<SubAgent>)
    ensures var m := ChildMapOf(Edges(sas));
      forall id :: id in m ==> NoDuplicates(m[id]) && |m[id]| > 0
  {
    var m := ChildMapOf(Edges(sas));
    ChildMapIsDedupedTargets(Edges(sas));
    forall id | id in m ensures NoDuplicates(m[id]) && |m[id]| > 0 {
      DedupProperties(TargetsOf(Edges(sas), id));
      assert ChildList(m, id) == m[id];
    }
  }

  /** `t` is listed under `id` exactly when some outcome of a sub-agent with that id leads to `t`. */
  lemma {:induction false} ChildMapMembership(sas: seq<SubAgent>, id: string, t: string)
    ensures var m := ChildMapOf(Edges(sas));
      (id in m && t in m[id]) <==> HasLink(sas, id, t)
  {
    var m := ChildMapOf(Edges(sas));
    ChildMapIsDedupedTargets(Edges(sas));
    DedupProperties(TargetsOf(Edges(sas), id));
    TargetsOfMembership(Edges(sas), id, t);
    EdgesMembership(sas, id, t);
    assert id in m ==> ChildList(m, id) == m[id];
  }

  /** The effect of one iteration of the inner loop on the fold. */
  lemma InnerStep(m: ChildMap, prefix: seq<(string, string)>, s: SubAgent, j: nat)
    requires j < |s.outcomes| && m == ChildMapOf(prefix + EdgesFrom(s, s.outcomes[..j]))
    ensures var o := s.outcomes[j];
      ChildMapOf(prefix + EdgesFrom(s, s.outcomes[..j + 1])) ==
        if Links(o, o.nextSubAgentId.GetOr("")) then AddEdge(m, (s.id, o.nextSubAgentId.value)) else m
  {
    var o := s.outcomes[j];
    var outs := s.outcomes[..j];
    assert s.outcomes[..j + 1] == outs + [o];
    EdgesFromSnoc(s, outs, o);
    var before := prefix + EdgesFrom(s, outs);
    if Links(o, o.nextSubAgentId.GetOr("")) {
      var e := (s.id, o.nextSubAgentId.value);
      assert prefix + EdgesFrom(s, outs + [o]) == before + [e];
      ChildMapSnoc(before, e);
    } else {
      assert prefix + EdgesFrom(s, outs + [o]) == before;
    }
  }

  lemma ChildMapSnoc(edges: seq<(string, string)>, e: (string, string))
    ensures ChildMapOf(edges + [e]) == AddEdge(ChildMapOf(edges), e)
  {
    var a := edges + [e];
    assert a[..|a| - 1] == edges;
  }

  /**
   * `buildTree`: for every sub-agent and every outcome with a non-empty
   * target, push the target onto the sub-agent's list unless it is there.
   */
  method BuildChildMap(sas: seq<SubAgent>) returns (m: ChildMap)
    ensures forall id :: id in m ==> NoDuplicates(m[id]) && |m[id]| > 0
    ensures forall id, t :: (id in m && t in m[id]) <==> HasLink(sas, id, t)
    ensures forall id :: ChildList(m, id) == Dedup(TargetsOf(Edges(sas), id))
  {
    m := map[];
    var i := 0;
    while i < |sas|
      invariant 0 <= i <= |sas|
      invariant m == ChildMapOf(Edges(sas[..i]))
    {
      var s := sas[i];
      var j := 0;
      assert EdgesFrom(s, s.outcomes[..0]) == [];
      assert Edges(sas[..i]) + EdgesFrom(s, s.outcomes[..0]) == Edges(sas[..i]);
      while j < |s.outcomes|
        invariant 0 <= j <= |s.outcomes|
        invariant m == ChildMapOf(Edges(sas[..i]) + EdgesFrom(s, s.outcomes[..j]))
      {
        var o := s.outcomes[j];
        InnerStep(m, Edges(sas[..i]), s, j);
        if o.nextSubAgentId.Some? && o.nextSubAgentId.value != "" {
          var t := o.nextSubAgentId.value;
          var children := ChildList(m, s.id);
          if t !in children {
            m := m[s.id := children + [t]];
          }
        }
        j := j + 1;
      }
      assert s.outcomes[..|s.outcomes|] == s.outcomes;
      assert sas[..i + 1][..i] == sas[..i];
      i := i + 1;
    }
    assert sas[..|sas|] == sas;
    ChildListsDistinct(sas);
    ChildMapIsDedupedTargets(Edges(sas));
    forall id, t ensures (id in m && t in m[id]) <==> HasLink(sas, id, t) {
      ChildMapMembership(sas, id, t);
    }
  }

  /** The loop filling `referencedIds`. */
  method CollectReferencedIds(sas: seq<SubAgent>) returns (r: set<string>)
    ensures r == ReferencedIds(sas)
    ensures forall t :: t in r <==> exists i, k :: 0 <= i < |sas| && 0 <= k < |sas[i].outcomes| && Links(sas[i].outcomes[k], t)
  {
    r := {};
    var i := 0;
    while i < |sas|
      invariant 0 <= i <= |sas|
      invariant r == ReferencedIds(sas[..i])
    {
      var s := sas[i];
      var j := 0;
      ghost var done := r;
      while j < |s.outcomes|
        invariant 0 <= j <= |s.outcomes|
        invariant r == done + Elems(OutTargets(s.outcomes[..j]))
      {
        var o := s.outcomes[j];
        TargetsStep(s.outcomes, j);
        if o.nextSubAgentId.Some? && o.nextSubAgentId.value != "" {
          r := r + {o.nextSubAgentId.value};
        }
        j := j + 1;
      }
      assert s.outcomes[..|s.outcomes|] == s.outcomes;
      assert sas[..i + 1][..i] == sas[..i];
      i := i + 1;
    }
    assert sas[..|sas|] == sas;
    forall t ensures t in r <==> exists i, k :: 0 <= i < |sas| && 0 <= k < |sas[i].outcomes| && Links(sas[i].outcomes[k], t) {
      ReferencedMembership(sas, t);
    }
  }

  datatype Badge = EntryBadge | DeleteButton

  /** Each row shows the entry badge when it is the root, and a delete button otherwise. */
  function BadgeOf(agent: Agent, s: SubAgent): (b: Badge)
    ensures b == DeleteButton <==> s.id != agent.rootSubAgentId
    ensures b == EntryBadge <==> s.id == agent.rootSubAgentId
  {
    if s.id == agent.rootSubAgentId then EntryBadge else DeleteButton
  }

  /** The whole tree: every root node rendered at depth 0, descendants one deeper per level. */
  function TreeView(agent: Agent): (r: seq<Rendered>)
    ensures var roots := EntryPoints(agent);
      |r| == |roots| && forall k :: 0 <= k < |roots| ==> r[k].subAgent == roots[k] && r[k].level == 0
  {
    var roots := EntryPoints(agent);
    seq(|roots|, k requires 0 <= k < |roots| => RenderGuarded(agent.subAgents, TreeChildIds(agent), roots[k], 0, {}))
  }

  /** The child ids `renderSubAgent` looks up for each node: its entry in the child map. */
  function TreeChildIds(agent: Agent): SubAgent -> seq<string> {
    var m := ChildMapOf(Edges(agent.subAgents));
    (s: SubAgent) => ChildList(m, s.id)
  }

  /** On an agent whose outcomes form no cycle, the tree is exactly what `renderSubAgent` renders. */
  lemma TreeViewAsWritten(agent: Agent, rank: string -> nat, fuel: nat)
    requires Ranked(agent.subAgents, TreeChildIds(agent), rank)
    requires fuel >= |AllIds(agent.subAgents)|
    ensures var roots := EntryPoints(agent);
      forall k :: 0 <= k < |roots| ==>
        TreeView(agent)[k] == RenderUnguarded(Resolver(agent.subAgents, TreeChildIds(agent)), roots[k], 0, fuel)
  {
    var roots := EntryPoints(agent);
    forall k | 0 <= k < |roots|
      ensures TreeView(agent)[k] == RenderUnguarded(Resolver(agent.subAgents, TreeChildIds(agent)), roots[k], 0, fuel)
    {
      assert roots[k] in roots;
      assert AllIds(agent.subAgents) - {} == AllIds(agent.subAgents);
      GuardedAgreesUnguarded(agent.subAgents, TreeChildIds(agent), rank, roots[k], 0, {}, fuel);
    }
  }

  predicate UniqueIds(sas: seq<SubAgent>) {
    forall i, j :: 0 <= i < |sas| && 0 <= j < |sas| && sas[i].id == sas[j].id ==> i == j
  }

  lemma {:induction false} TargetsOfAppend(e1: seq<(string, string)>, e2: seq<(string, string)>, id: string)
    ensures TargetsOf(e1 + e2, id) == TargetsOf(e1, id) + TargetsOf(e2, id)
    decreases |e2|
  {
    if e2 == [] {
      assert e1 + e2 == e1;
    } else {
      assert (e1 + e2)[..|e1 + e2| - 1] == e1 + e2[..|e2| - 1];
      TargetsOfAppend(e1, e2[..|e2| - 1], id);
    }
  }

  lemma {:induction false} TargetsOfEdgesFrom(s: SubAgent, outs: seq<Outcome>, id: string)
    ensures TargetsOf(EdgesFrom(s, outs), id) == if s.id == id then OutTargets(outs) else []
  {
    if outs != [] {
      var init := outs[..|outs| - 1];
      var o := outs[|outs| - 1];
      assert init + [o] == outs;
      EdgesFromSnoc(s, init, o);
      TargetsOfEdgesFrom(s, init, id);
      TargetsOfAppend(EdgesFrom(s, init), if Links(o, o.nextSubAgentId.GetOr("")) then [(s.id, o.nextSubAgentId.value)] else [], id);
    }
  }

  lemma {:induction false} TargetsOfOtherIds(sas: seq<SubAgent>, id: string)
    requires forall k :: 0 <= k < |sas| ==> sas[k].id != id
    ensures TargetsOf(Edges(sas), id) == []
  {
    if sas != [] {
      var init := sas[..|sas| - 1];
      TargetsOfOtherIds(init, id);
      TargetsOfAppend(Edges(init), EdgesFrom(sas[|sas| - 1], sas[|sas| - 1].outcomes), id);
      TargetsOfEdgesFrom(sas[|sas| - 1], sas[|sas| - 1].outcomes, id);
    }
  }

  /**
   * With unique sub-agent ids, a row's children here are the sidebar's child
   * ids (the outcome targets in order) with repeats removed.
   */
  lemma {:induction false} ChildListIsDedupedOutTargets(sas: seq<SubAgent>, i: nat)
    requires i < |sas| && UniqueIds(sas)
    ensures ChildList(ChildMapOf(Edges(sas)), sas[i].id) == Dedup(OutTargets(sas[i].outcomes))
  {
    ChildMapIsDedupedTargets(Edges(sas));
    TargetsOfUnique(sas, i);
  }

  lemma {:induction false} TargetsOfUnique(sas: seq<SubAgent>, i: nat)
    requires i < |sas| && UniqueIds(sas)
    ensures TargetsOf(Edges(sas), sas[i].id) == OutTargets(sas[i].outcomes)
  {
    var init := sas[..|sas| - 1];
    var last := sas[|sas| - 1];
    var id := sas[i].id;
    TargetsOfAppend(Edges(init), EdgesFrom(last, last.outcomes), id);
    TargetsOfEdgesFrom(last, last.outcomes, id);
    if i == |sas| - 1 {
      TargetsOfOtherIds(init, id);
    } else {
      assert UniqueIds(init);
      TargetsOfUnique(init, i);
    }
  }
}
