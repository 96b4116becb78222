/**
 * The greedy trace minimizer: it drops one request at a time for as long as
 * the shorter trace still succeeds.
 */
module Minimizer {
  import opened Wrappers

  function RemoveAt<T>(s: seq<T>, i: nat): seq<T>
    requires i < |s|
  {
    s[..i] + s[i+1..]
  }

  /** `a` is what is left of `b` after dropping some of its elements, in order. */
  predicate Subsequence<T(==)>(a: seq<T>, b: seq<T>)
    decreases |b|
  {
    if a == [] then true
    else if b == [] then false
    else (a[0] == b[0] && Subsequence(a[1..], b[1..])) || Subsequence(a, b[1..])
  }

  /** The first position at or after `from` whose removal keeps the trace successful. */
  function FirstRemovable<T>(succeeds: seq<T> -> bool, s: seq<T>, from: nat): Option<nat>
    requires from <= |s|
    decreases |s| - from
  {
    if from == |s| then None
    else if succeeds(RemoveAt(s, from)) then Some(from)
    else FirstRemovable(succeeds, s, from + 1)
  }

  lemma {:induction false} FirstRemovableMeaning<T>(succeeds: seq<T> -> bool, s: seq<T>, from: nat)
    requires from <= |s|
    ensures
      match FirstRemovable(succeeds, s, from)
      case Some(i) =>
        && from <= i < |s| && succeeds(RemoveAt(s, i))
        && forall j | from <= j < i :: !succeeds(RemoveAt(s, j))
      case None => forall j | from <= j < |s| :: !succeeds(RemoveAt(s, j))
    decreases |s| - from
  {
    if from < |s| && !succeeds(RemoveAt(s, from)) {
      FirstRemovableMeaning(succeeds, s, from + 1);
    }
  }

  /** What greedy minimization yields. */
  function Greedy<T>(succeeds: seq<T> -> bool, s: seq<T>): (r: seq<T>)
    decreases |s|
  {
    if |s| <= 1 then s
    else
      FirstRemovableMeaning(succeeds, s, 0);
      match FirstRemovable(succeeds, s, 0)
      case None => s
      case Some(i) => Greedy(succeeds, RemoveAt(s, i))
  }

  /** No single removal that leaves a request still succeeds. */
  ghost predicate OneMinimal<T>(succeeds: seq<T> -> bool, s: seq<T>)
  {
    |s| >= 2 ==> forall i | 0 <= i < |s| :: !succeeds(RemoveAt(s, i))
  }

  /** The most oracle calls a trace of length `n` can cost: one for each request, at each length down to two. */
  function CallBudget(n: nat): nat
  {
    if n <= 1 then 0 else n + CallBudget(n - 1)
  }

  lemma {:induction false} CallBudgetClosed(n: nat)
    requires n >= 1
    ensures CallBudget(n) == n * (n + 1) / 2 - 1
  {
    if n > 1 { CallBudgetClosed(n - 1); }
  }

  /** The minimizer's loops; `calls` counts how often the oracle ran. */
  method Minimize<T>(succeeds: seq<T> -> bool, requests: seq<T>) returns (current: seq<T>, calls: nat)
    ensures current == Greedy(succeeds, requests)
    ensures |requests| >= 1 ==> calls <= |requests| * (|requests| + 1) / 2 - 1
    ensures |requests| == 0 ==> calls == 0
  {
    current, calls := requests, 0;
    var changed := true;
    while changed && |current| > 1
      invariant |current| <= |requests|
      invariant changed ==> calls + CallBudget(|current|) <= CallBudget(|requests|)
      invariant calls <= CallBudget(|requests|)
      invariant Greedy(succeeds, requests) == if changed then Greedy(succeeds, current) else current
      decreases changed, |current|
    {
      changed := false;
      FirstRemovableMeaning(succeeds, current, 0);
      for index := 0 to |current|
        invariant FirstRemovable(succeeds, current, 0) == FirstRemovable(succeeds, current, index)
        invariant calls + |current| - index + CallBudget(|current| - 1) <= CallBudget(|requests|)
      {
        var candidate := current[..index] + current[index+1..];
        if candidate == [] {
          continue;
        }
        calls := calls + 1;
        if succeeds(candidate) {
          current := candidate;
          changed := true;
          break;
        }
      }
    }
    if |requests| >= 1 { CallBudgetClosed(|requests|); }
  }

  /** The result is part of the original trace, in order. */
  lemma {:induction false} GreedyIsSubsequence<T>(succeeds: seq<T> -> bool, s: seq<T>)
    ensures Subsequence(Greedy(succeeds, s), s)
    decreases |s|
  {
    SubsequenceReflexive(s);
    if |s| > 1 {
      FirstRemovableMeaning(succeeds, s, 0);
      match FirstRemovable(succeeds, s, 0)
      case None =>
      case Some(i) =>
        GreedyIsSubsequence(succeeds, RemoveAt(s, i));
        RemovalIsSubsequence(s, i);
        SubsequenceTransitive(Greedy(succeeds, s), RemoveAt(s, i), s);
    }
  }

  /** A successful trace stays successful, and the result cannot be shortened by one more request. */
  lemma {:induction false} GreedyIsMinimal<T>(succeeds: seq<T> -> bool, s: seq<T>)
    ensures succeeds(s) ==> succeeds(Greedy(succeeds, s))
    ensures Greedy(succeeds, s) == s || succeeds(Greedy(succeeds, s))
    ensures OneMinimal(succeeds, Greedy(succeeds, s))
    ensures s != [] ==> Greedy(succeeds, s) != []
    decreases |s|
  {
    if |s| > 1 {
      FirstRemovableMeaning(succeeds, s, 0);
      match FirstRemovable(succeeds, s, 0)
      case None =>
      case Some(i) => GreedyIsMinimal(succeeds, RemoveAt(s, i));
    }
  }

  lemma {:induction false} SubsequenceReflexive<T>(s: seq<T>)
    ensures Subsequence(s, s)
  {
    if s != [] { SubsequenceReflexive(s[1..]); }
  }

  lemma {:induction false} RemovalIsSubsequence<T>(s: seq<T>, i: nat)
    requires i < |s|
    ensures Subsequence(RemoveAt(s, i), s)
    decreases i
  {
    var r := RemoveAt(s, i);
    if i == 0 {
      assert r == s[1..];
      SubsequenceReflexive(r);
      if r != [] { assert Subsequence(r, s[1..]); }
    } else {
      RemovalIsSubsequence(s[1..], i - 1);
      assert r[1..] == RemoveAt(s[1..], i - 1);
    }
  }

  lemma {:induction false} SubsequenceTransitive<T>(a: seq<T>, b: seq<T>, c: seq<T>)
    requires Subsequence(a, b) && Subsequence(b, c)
    ensures Subsequence(a, c)
    decreases |c|
  {
    if a != [] {
      if b[0] == c[0] && Subsequence(b[1..], c[1..]) {
        if a[0] == b[0] && Subsequence(a[1..], b[1..]) {
          SubsequenceTransitive(a[1..], b[1..], c[1..]);
        } else {
          SubsequenceTransitive(a, b[1..], c[1..]);
        }
      } else {
        SubsequenceTransitive(a, b, c[1..]);
      }
    }
  }
}
