/**
 * components/SubAgentEditor.tsx: the workflow-step list of one sub-agent.
 * The view sorts the step list in place by `order` (a stable sort) before
 * showing it; adding appends a step numbered one past the count; deleting and
 * moving renumber every step to its position (1, 2, 3, …).
 */
module SubAgentEditor {
  import opened Wrappers
  import opened Types
  import opened Seqs
  import RuleEditor

  /** `subAgent.workflow || []`. */
  function Steps(w: Option<seq<WorkflowStep>>): seq<WorkflowStep> {
    w.GetOr([])
  }

  predicate SortedByOrder(s: seq<WorkflowStep>) {
    forall i, j :: 0 <= i < j < |s| ==> s[i].order <= s[j].order
  }

  /** Every step's order is its 1-based position: what delete and move leave behind. */
  predicate Dense(s: seq<WorkflowStep>) {
    forall k :: 0 <= k < |s| ==> s[k].order == k + 1
  }

  // ---------------------------------------------------------------------
  // The stable sort by `order` (comparator `a.order - b.order`)
  // ---------------------------------------------------------------------

  /** Places `x` before the first step whose order is not smaller than its own. */
  function Insert(x: WorkflowStep, s: seq<WorkflowStep>): seq<WorkflowStep> {
    if s == [] then [x]
    else if x.order <= s[0].order then [x] + s
    else [s[0]] + Insert(x, s[1..])
  }

  /** The stable sort: each step is inserted ahead of the later steps it ties with. */
  function SortByOrder(s: seq<WorkflowStep>): seq<WorkflowStep> {
    if s == [] then [] else Insert(s[0], SortByOrder(s[1..]))
  }

  lemma {:induction false} InsertPermutes(x: WorkflowStep, s: seq<WorkflowStep>)
    ensures multiset(Insert(x, s)) == multiset(s) + multiset{x}
    ensures |Insert(x, s)| == |s| + 1
  {
    if s != [] && x.order > s[0].order {
      InsertPermutes(x, s[1..]);
      assert s == [s[0]] + s[1..];
    }
  }

  lemma {:induction false} InsertSorted(x: WorkflowStep, s: seq<WorkflowStep>)
    requires SortedByOrder(s)
    ensures SortedByOrder(Insert(x, s))
    ensures Insert(x, s)[0] == x || (s != [] && Insert(x, s)[0] == s[0])
  {
    if s == [] {
    } else if x.order <= s[0].order {
      var r := [x] + s;
      assert Insert(x, s) == r;
      assert forall j :: 1 <= j < |r| ==> r[j] == s[j - 1];
    } else {
      var t := Insert(x, s[1..]);
      assert SortedByOrder(s[1..]);
      InsertSorted(x, s[1..]);
      var r := [s[0]] + t;
      assert Insert(x, s) == r;
      assert s[0].order <= t[0].order;
      assert forall j :: 1 <= j < |r| ==> r[j] == t[j - 1];
    }
  }

  lemma {:induction false} SortPermutes(s: seq<WorkflowStep>)
    ensures multiset(SortByOrder(s)) == multiset(s)
    ensures |SortByOrder(s)| == |s|
  {
    if s != [] {
      SortPermutes(s[1..]);
      InsertPermutes(s[0], SortByOrder(s[1..]));
      assert SortByOrder(s) == Insert(s[0], SortByOrder(s[1..]));
      assert s == [s[0]] + s[1..];
      assert multiset(s) == multiset(s[1..]) + multiset{s[0]};
    }
  }

  lemma {:induction false} SortOrdered(s: seq<WorkflowStep>)
    ensures SortedByOrder(SortByOrder(s))
  {
    if s != [] {
      SortOrdered(s[1..]);
      InsertSorted(s[0], SortByOrder(s[1..]));
    }
  }

  /** The sort's result is ordered and holds exactly the original steps. */
  lemma SortSorted(s: seq<WorkflowStep>)
    ensures SortedByOrder(SortByOrder(s))
    ensures multiset(SortByOrder(s)) == multiset(s)
    ensures |SortByOrder(s)| == |s|
  {
    SortOrdered(s);
    SortPermutes(s);
  }

  /** The steps with one given order, in list order. */
  function WithOrder(s: seq<WorkflowStep>, v: int): seq<WorkflowStep> {
    if s == [] then [] else (if s[0].order == v then [s[0]] else []) + WithOrder(s[1..], v)
  }

  lemma {:induction false} WithOrderInsert(x: WorkflowStep, s: seq<WorkflowStep>, v: int)
    requires SortedByOrder(s)
    ensures WithOrder(Insert(x, s), v) == (if x.order == v then [x] else []) + WithOrder(s, v)
  {
    if s == [] {
    } else if x.order <= s[0].order {
      var r := [x] + s;
      assert Insert(x, s) == r;
      assert r[0] == x && r[1..] == s;
    } else {
      var tail := Insert(x, s[1..]);
      var r := [s[0]] + tail;
      assert Insert(x, s) == r;
      assert r[0] == s[0] && r[1..] == tail;
      assert SortedByOrder(s[1..]);
      WithOrderInsert(x, s[1..], v);
      assert WithOrder(r, v) == (if s[0].order == v then [s[0]] else []) + WithOrder(tail, v);
      assert WithOrder(s, v) == (if s[0].order == v then [s[0]] else []) + WithOrder(s[1..], v);
    }
  }

  /** Stability: steps that tie on `order` keep their relative order. */
  lemma {:induction false} SortIsStable(s: seq<WorkflowStep>, v: int)
    ensures WithOrder(SortByOrder(s), v) == WithOrder(s, v)
  {
    if s != [] {
      SortIsStable(s[1..], v);
      SortSorted(s[1..]);
      WithOrderInsert(s[0], SortByOrder(s[1..]), v);
    }
  }

  /** Sorting a list already in order changes nothing; in particular sorting twice is sorting once. */
  lemma {:induction false} SortedUnchanged(s: seq<WorkflowStep>)
    requires SortedByOrder(s)
    ensures SortByOrder(s) == s
  {
    if s != [] {
      SortedUnchanged(s[1..]);
      assert s == [s[0]] + s[1..];
    }
  }

  lemma SortIdempotent(s: seq<WorkflowStep>)
    ensures SortByOrder(SortByOrder(s)) == SortByOrder(s)
  {
    SortSorted(s);
    SortedUnchanged(SortByOrder(s));
  }

  /** A renumbered list shows in the order it is stored. */
  lemma DenseShowsAsStored(s: seq<WorkflowStep>)
    requires Dense(s)
    ensures SortByOrder(s) == s
  {
    SortedUnchanged(s);
  }

  /** Inserting past a run of steps with smaller orders leaves that run in front. */
  lemma {:induction false} InsertSkips(A: seq<WorkflowStep>, lo: nat, j: nat, x: WorkflowStep)
    requires lo <= j <= |A|
    requires forall m :: lo <= m < j ==> A[m].order < x.order
    ensures Insert(x, A[lo..]) == A[lo..j] + Insert(x, A[j..])
    decreases j - lo
  {
    if lo < j {
      InsertSkips(A, lo + 1, j, x);
      assert A[lo..][1..] == A[lo + 1..];
      assert A[lo..j] == [A[lo]] + A[lo + 1..j];
    }
  }

  /** Stopping at the end or before a step whose order is not smaller: the step goes there. */
  lemma InsertStop(A: seq<WorkflowStep>, lo: nat, j: nat, x: WorkflowStep)
    requires lo <= j <= |A| && (j == |A| || x.order <= A[j].order)
    requires Insert(x, A[lo..]) == A[lo..j] + Insert(x, A[j..])
    ensures Insert(x, A[lo..]) == A[lo..j] + [x] + A[j..]
  {
  }

  /**
   * The array part-way through one insertion step: `A[i + 1..j]` moved one
   * place left, every other position as in `A`.
   */
  ghost predicate ShiftedAt(A: seq<WorkflowStep>, i: nat, j: nat, r: seq<WorkflowStep>)
    requires j <= |A|
  {
    |r| == |A| && forall k {:trigger r[k]} :: 0 <= k < |r| ==> r[k] == (if i <= k < j - 1 then A[k + 1] else A[k])
  }

  /** Once the scan stops, writing the moved step into the gap completes the insertion. */
  lemma Finish(A: seq<WorkflowStep>, i: nat, j: nat, r: seq<WorkflowStep>)
    requires i < j <= |A|
    requires j == |A| || A[i].order <= A[j].order
    requires Insert(A[i], A[i + 1..]) == A[i + 1..j] + Insert(A[i], A[j..])
    requires ShiftedAt(A, i, j, r)
    ensures r[j - 1 := A[i]][..i] == A[..i]
    ensures r[j - 1 := A[i]][i..] == Insert(A[i], A[i + 1..])
  {
    var x := A[i];
    InsertStop(A, i + 1, j, x);
    var w := A[..i] + (A[i + 1..j] + [x] + A[j..]);
    var r' := r[j - 1 := x];
    assert |w| == |A|;
    forall k | 0 <= k < |A|
      ensures r'[k] == w[k]
    {
      if k < i {
      } else if k < j - 1 {
        assert w[k] == A[k + 1];
      } else if k == j - 1 {
        assert w[k] == x;
      } else {
        assert r'[k] == r[k] == A[k];
        assert w[k] == A[k];
      }
    }
    assert r' == w;
    assert w[i..] == A[i + 1..j] + [x] + A[j..];
  }

  /**
   * The scan of one insertion step: shifts the steps after `a[i]` whose order is smaller
   * one place left and returns the index just past the last one shifted.
   */
  method ShiftSmaller(a: array<WorkflowStep>, i: nat, ghost A: seq<WorkflowStep>) returns (j: nat)
    requires i < a.Length && a[..] == A
    modifies a
    ensures i < j <= a.Length
    ensures ShiftedAt(A, i, j, a[..])
    ensures j == a.Length || A[i].order <= A[j].order
    ensures Insert(A[i], A[i + 1..]) == A[i + 1..j] + Insert(A[i], A[j..])
  {
    var x := a[i];
    assert x == A[i];
    j := i + 1;
    assert A[i + 1..j] == [];
    while j < a.Length && a[j].order < x.order
      invariant i + 1 <= j <= a.Length
      invariant forall k {:trigger a[k]} :: 0 <= k < a.Length ==> a[k] == (if i <= k < j - 1 then A[k + 1] else A[k])
      invariant forall m :: i < m < j ==> A[m].order < x.order
    {
      assert a[j] == A[j];
      a[j - 1] := a[j];
      j := j + 1;
    }
    assert j < a.Length ==> a[j] == A[j];
    assert forall k :: 0 <= k < a.Length ==> a[..][k] == a[k];
    InsertSkips(A, i + 1, j, x);
  }

  /** One step of the insertion sort: moves `a[i]` right past the smaller orders after it. */
  method InsertFrom(a: array<WorkflowStep>, i: nat)
    requires i < a.Length
    modifies a
    ensures a[..i] == old(a[..i])
    ensures a[i..] == Insert(old(a[i]), old(a[i + 1..]))
  {
    ghost var A := a[..];
    var x := a[i];
    var j := ShiftSmaller(a, i, A);
    ghost var r := a[..];
    a[j - 1] := x;
    assert a[..] == r[j - 1 := x];
    Finish(A, i, j, r);
    assert a[..i] == a[..][..i];
    assert a[i..] == a[..][i..];
  }

  /** The render's `workflow.sort(...)`: an insertion sort on the stored array, in place. */
  method SortInPlace(a: array<WorkflowStep>)
    modifies a
    ensures a[..] == SortByOrder(old(a[..]))
  {
    ghost var A := a[..];
    var i := a.Length;
    while i > 0
      invariant 0 <= i <= a.Length
      invariant a[..i] == A[..i]
      invariant a[i..] == SortByOrder(A[i..])
    {
      i := i - 1;
      assert a[i] == A[i] && a[i + 1..] == SortByOrder(A[i + 1..]) by {
        assert A[i + 1..] == A[i..][1..];
      }
      InsertFrom(a, i);
      assert A[i..] == [A[i]] + A[i + 1..];
    }
  }

  // ---------------------------------------------------------------------
  // Renumbering
  // ---------------------------------------------------------------------

  /** Each step's order set to its 1-based position. */
  function Renumbered(s: seq<WorkflowStep>): (r: seq<WorkflowStep>)
    ensures |r| == |s| && Dense(r)
    ensures forall k :: 0 <= k < |s| ==> r[k].id == s[k].id && r[k].description == s[k].description
  {
    seq(|s|, k requires 0 <= k < |s| => s[k].(order := k + 1))
  }

  /** The `forEach((step, idx) => step.order = idx + 1)` loop. */
  method Renumber(a: array<WorkflowStep>)
    modifies a
    ensures a[..] == Renumbered(old(a[..]))
  {
    for k := 0 to a.Length
      invariant forall m :: 0 <= m < k ==> a[m] == old(a[m]).(order := m + 1)
      invariant forall m :: k <= m < a.Length ==> a[m] == old(a[m])
    {
      a[k] := a[k].(order := k + 1);
    }
  }

  /** Renumbering then showing the list keeps the stored order. */
  lemma RenumberedShowsAsStored(s: seq<WorkflowStep>)
    ensures SortByOrder(Renumbered(s)) == Renumbered(s)
  {
    DenseShowsAsStored(Renumbered(s));
  }

  // ---------------------------------------------------------------------
  // The handlers
  // ---------------------------------------------------------------------

  /** `addWorkflowStep`: a blank step numbered one past the current count, at the end. */
  function AddWorkflowStep(sa: SubAgent, freshId: string): (r: SubAgent)
    ensures r.(workflow := sa.workflow) == sa && r.workflow.Some?
    ensures var n := |Steps(sa.workflow)|;
      |Steps(r.workflow)| == n + 1 && Steps(r.workflow)[..n] == Steps(sa.workflow)
      && Steps(r.workflow)[n] == WorkflowStep(freshId, "", n + 1)
  {
    var steps := Steps(sa.workflow);
    sa.(workflow := Some(steps + [WorkflowStep(freshId, "", |steps| + 1)]))
  }

  /** Adding a step to a renumbered list keeps it renumbered. */
  lemma AddKeepsDense(sa: SubAgent, freshId: string)
    requires Dense(Steps(sa.workflow))
    ensures Dense(Steps(AddWorkflowStep(sa, freshId).workflow))
  {
  }

  /** `updateWorkflowStep`: only step `i` changes. */
  method UpdateWorkflowStep(sa: SubAgent, i: nat, step: WorkflowStep) returns (r: SubAgent)
    requires i < |Steps(sa.workflow)|
    ensures r.(workflow := sa.workflow) == sa && r.workflow.Some?
    ensures |Steps(r.workflow)| == |Steps(sa.workflow)| && Steps(r.workflow)[i] == step
    ensures forall k :: 0 <= k < |Steps(sa.workflow)| && k != i ==> Steps(r.workflow)[k] == Steps(sa.workflow)[k]
  {
    var steps := ReplaceAt(Steps(sa.workflow), i, step);
    r := sa.(workflow := Some(steps));
  }

  /** `deleteWorkflowStep`: drops step `i` (nothing when past the end), then renumbers 1..n. */
  method DeleteWorkflowStep(sa: SubAgent, i: nat) returns (r: SubAgent)
    ensures r.(workflow := sa.workflow) == sa && r.workflow.Some?
    ensures var s := Steps(sa.workflow);
      Steps(r.workflow) == Renumbered(if i < |s| then s[..i] + s[i + 1..] else s)
  {
    var s := Steps(sa.workflow);
    var kept := RemoveAt(s, i);
    assert i < |s| ==> kept == kept[..i] + kept[i..];
    var a := new WorkflowStep[|kept|](k requires 0 <= k < |kept| => kept[k]);
    assert a[..] == kept;
    Renumber(a);
    r := sa.(workflow := Some(a[..]));
  }

  /** Whether the up (or down) arrow of row `i` is enabled: not the first (last) row. */
  predicate MoveEnabled(n: nat, i: nat, up: bool) {
    if up then i != 0 else i != n - 1
  }

  /** `moveWorkflowStep`: swaps step `i` with its neighbour and renumbers; `None` when there is
      no neighbour in that direction (the handler returns without calling `onChange`). */
  method MoveWorkflowStep(sa: SubAgent, i: nat, up: bool) returns (r: Option<SubAgent>)
    requires i < |Steps(sa.workflow)|
    ensures r.Some? <==> MoveEnabled(|Steps(sa.workflow)|, i, up)
    ensures r.Some? ==> r.value.(workflow := sa.workflow) == sa && r.value.workflow.Some?
    ensures r.Some? ==> var s := Steps(sa.workflow); var j := if up then i - 1 else i + 1;
      0 <= j < |s| && Steps(r.value.workflow) == Renumbered(s[i := s[j]][j := s[i]])
  {
    var s := Steps(sa.workflow);
    var j: int := if up then i - 1 else i + 1;
    if j < 0 || j >= |s| {
      return None;
    }
    var removed := s[i];
    var rest := RemoveAt(s, i);
    var moved := InsertAt(rest, j, removed);
    assert moved == s[i := s[j]][j := s[i]] by {
      assert |moved| == |s|;
      forall k | 0 <= k < |s|
        ensures moved[k] == s[i := s[j]][j := s[i]][k]
      {
        if k < j {
          assert moved[k] == rest[k];
        } else if k > j {
          assert moved[k] == rest[k - 1];
        }
      }
    }
    var a := new WorkflowStep[|moved|](k requires 0 <= k < |moved| => moved[k]);
    assert a[..] == moved;
    Renumber(a);
    r := Some(sa.(workflow := Some(a[..])));
  }

  /** Moving a step up and then back down restores the ids and descriptions of a renumbered list. */
  lemma MoveUpThenDown(s: seq<WorkflowStep>, i: nat)
    requires Dense(s) && 0 < i < |s|
    ensures var up := Renumbered(s[i := s[i - 1]][i - 1 := s[i]]);
      Renumbered(up[i - 1 := up[i]][i := up[i - 1]]) == s
  {
    var up := Renumbered(s[i := s[i - 1]][i - 1 := s[i]]);
    var back := Renumbered(up[i - 1 := up[i]][i := up[i - 1]]);
    forall k | 0 <= k < |s| ensures back[k] == s[k] {
    }
  }
}
