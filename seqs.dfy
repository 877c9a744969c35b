/**
 * Sequence operations the editors and the resolver share: the `filter`,
 * `find`/`findIndex` and `includes` of JavaScript arrays, and the
 * copy-then-edit handlers (`const c = [...xs]; c[i] = x` and
 * `c.splice(i, 1)`) that work on a fresh array.
 */
module Seqs {
  import opened Wrappers

  /** `xs.filter(p)`. */
  function Filter<T>(p: T -> bool, s: seq<T>): (r: seq<T>)
    ensures |r| <= |s|
  {
    if s == [] then [] else Filter(p, s[..|s| - 1]) + (if p(s[|s| - 1]) then [s[|s| - 1]] else [])
  }

  /** `r` can be obtained from `s` by deleting elements: it keeps their order. */
  predicate IsSubsequence<T(==)>(r: seq<T>, s: seq<T>) {
    if r == [] then true
    else if s == [] then false
    else if r[|r| - 1] == s[|s| - 1] then IsSubsequence(r[..|r| - 1], s[..|s| - 1])
    else IsSubsequence(r, s[..|s| - 1])
  }

  lemma {:induction false} FilterMembership<T>(p: T -> bool, s: seq<T>, x: T)
    ensures x in Filter(p, s) <==> x in s && p(x)
  {
    if s != [] {
      FilterMembership(p, s[..|s| - 1], x);
      assert s == s[..|s| - 1] + [s[|s| - 1]];
    }
  }

  lemma {:induction false} FilterIsSubsequence<T>(p: T -> bool, s: seq<T>)
    ensures IsSubsequence(Filter(p, s), s)
  {
    if s != [] {
      var init := s[..|s| - 1];
      FilterIsSubsequence(p, init);
      if p(s[|s| - 1]) {
        var r := Filter(p, s);
        assert r[..|r| - 1] == Filter(p, init);
      } else {
        assert Filter(p, s) == Filter(p, init);
        SubsequenceOfPrefix(Filter(p, s), s);
      }
    }
  }

  /** A subsequence of the prefix is a subsequence of the whole. */
  lemma {:induction false} SubsequenceOfPrefix<T>(r: seq<T>, s: seq<T>)
    requires s != [] && IsSubsequence(r, s[..|s| - 1])
    ensures IsSubsequence(r, s)
  {
    if r != [] && r[|r| - 1] == s[|s| - 1] {
      var init := s[..|s| - 1];
      SubsequenceDropLast(r, init);
    }
  }

  lemma {:induction false} SubsequenceDropLast<T>(r: seq<T>, s: seq<T>)
    requires r != [] && IsSubsequence(r, s)
    ensures IsSubsequence(r[..|r| - 1], s)
  {
    if s != [] {
      var init := s[..|s| - 1];
      if r[|r| - 1] == s[|s| - 1] {
        if r[..|r| - 1] != [] {
          SubsequenceOfPrefix(r[..|r| - 1], s);
        }
      } else {
        SubsequenceDropLast(r, init);
        SubsequenceOfPrefix(r[..|r| - 1], s);
      }
    }
  }

  /** A filter keeps every copy of an element that passes and no copy of one that fails. */
  lemma {:induction false} FilterMultiset<T>(p: T -> bool, s: seq<T>, x: T)
    ensures multiset(Filter(p, s))[x] == if p(x) then multiset(s)[x] else 0
  {
    if s != [] {
      var init := s[..|s| - 1];
      FilterMultiset(p, init, x);
      assert s == init + [s[|s| - 1]];
    }
  }

  /** Filtering with a predicate that holds everywhere changes nothing. */
  lemma {:induction false} FilterAll<T>(p: T -> bool, s: seq<T>)
    requires forall k :: 0 <= k < |s| ==> p(s[k])
    ensures Filter(p, s) == s
  {
    if s != [] {
      FilterAll(p, s[..|s| - 1]);
    }
  }

  lemma {:induction false} FilterAppend<T>(p: T -> bool, s: seq<T>, t: seq<T>)
    ensures Filter(p, s + t) == Filter(p, s) + Filter(p, t)
    decreases |t|
  {
    if t != [] {
      assert (s + t)[..|s + t| - 1] == s + t[..|t| - 1];
      FilterAppend(p, s, t[..|t| - 1]);
    } else {
      assert s + t == s;
    }
  }

  /** `xs.findIndex(p)`, with -1 written as `None`: the index of the first match. */
  function FindIndex<T>(p: T -> bool, s: seq<T>): (r: Option<nat>)
    ensures r.Some? ==> r.value < |s| && p(s[r.value]) && forall j :: 0 <= j < r.value ==> !p(s[j])
    ensures r.None? ==> forall j :: 0 <= j < |s| ==> !p(s[j])
  {
    if s == [] then None
    else if p(s[0]) then Some(0)
    else match FindIndex(p, s[1..])
      case None => None
      case Some(k) => Some(k + 1)
  }

  /** `[...xs]; copy[i] = x`: the copy differs from `s` at index `i` only. */
  method ReplaceAt<T>(s: seq<T>, i: nat, x: T) returns (r: seq<T>)
    requires i < |s|
    ensures |r| == |s| && r[i] == x
    ensures forall k :: 0 <= k < |s| && k != i ==> r[k] == s[k]
  {
    var a := new T[|s|](k requires 0 <= k < |s| => s[k]);
    a[i] := x;
    r := a[..];
  }

  /** `[...xs]; copy.splice(i, 1)`: removes the element at `i` (nothing when `i` is past the end). */
  method RemoveAt<T>(s: seq<T>, i: nat) returns (r: seq<T>)
    ensures i < |s| ==> |r| == |s| - 1 && r[..i] == s[..i] && r[i..] == s[i + 1..]
    ensures i >= |s| ==> r == s
  {
    if i >= |s| {
      return s;
    }
    var a := new T[|s|](k requires 0 <= k < |s| => s[k]);
    var j := i;
    while j + 1 < a.Length
      invariant i <= j < a.Length
      invariant a[..i] == s[..i]
      invariant forall k :: i <= k < j ==> a[k] == s[k + 1]
      invariant a[j..] == s[j..]
    {
      a[j] := a[j + 1];
      j := j + 1;
    }
    r := a[..a.Length - 1];
  }

  /** `copy.splice(i, 0, x)`: inserts `x` before index `i`. */
  method InsertAt<T>(s: seq<T>, i: nat, x: T) returns (r: seq<T>)
    requires i <= |s|
    ensures |r| == |s| + 1 && r[..i] == s[..i] && r[i] == x && r[i + 1..] == s[i..]
  {
    var a := new T[|s| + 1](k requires 0 <= k < |s| + 1 => if k < |s| then s[k] else x);
    var j := |s|;
    while j > i
      invariant i <= j <= |s|
      invariant a[..j] == s[..j]
      invariant forall k :: j < k <= |s| ==> a[k] == s[k - 1]
    {
      a[j] := a[j - 1];
      j := j - 1;
    }
    a[i] := x;
    r := a[..];
  }

  /** Deleting what was just appended restores the sequence. */
  lemma AppendThenRemove<T>(s: seq<T>, x: T)
    ensures var t := s + [x]; t[..|s|] + t[|s| + 1..] == s
  {
  }

  /** Putting the old element back undoes a replacement. */
  lemma {:induction false} ReplaceThenRestore<T>(s: seq<T>, r: seq<T>, i: nat, x: T)
    requires i < |s| && |r| == |s| && r[i] == x
    requires forall k :: 0 <= k < |s| && k != i ==> r[k] == s[k]
    ensures r[i := s[i]] == s
  {
  }

  /** Removing index `i` takes exactly one copy of `s[i]` out of the multiset of elements. */
  lemma {:induction false} RemoveMultiset<T>(s: seq<T>, i: nat)
    requires i < |s|
    ensures multiset(s[..i] + s[i + 1..]) == multiset(s) - multiset{s[i]}
  {
    assert s == s[..i] + [s[i]] + s[i + 1..];
  }

  /** The elements of `s` in first-occurrence order, each once. */
  function Dedup<T(==)>(s: seq<T>): seq<T> {
    if s == [] then []
    else
      var d := Dedup(s[..|s| - 1]);
      if s[|s| - 1] in d then d else d + [s[|s| - 1]]
  }

  predicate NoDuplicates<T(==)>(s: seq<T>) {
    forall i, j :: 0 <= i < j < |s| ==> s[i] != s[j]
  }

  lemma {:induction false} DedupProperties<T>(s: seq<T>)
    ensures NoDuplicates(Dedup(s))
    ensures forall x :: x in Dedup(s) <==> x in s
  {
    if s != [] {
      DedupProperties(s[..|s| - 1]);
      assert s == s[..|s| - 1] + [s[|s| - 1]];
    }
  }
}
