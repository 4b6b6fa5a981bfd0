/** Sequences without repetitions, and two steps with multisets. */
module Sequences {

  ghost predicate Distinct(xs: seq<int>) {
    forall i, j :: 0 <= i < j < |xs| ==> xs[i] != xs[j]
  }

  ghost function Numbers(xs: seq<nat>): set<nat> { set x | x in xs }

  lemma DistinctAppend(xs: seq<nat>, b: nat)
    requires Distinct(xs) && b !in Numbers(xs)
    ensures Distinct(xs + [b]) && Numbers(xs + [b]) == Numbers(xs) + {b}
  {
    assert forall i :: 0 <= i < |xs| ==> xs[i] in Numbers(xs);
  }

  lemma SplitFirst<T>(xs: seq<T>)
    requires xs != []
    ensures multiset(xs) == multiset{xs[0]} + multiset(xs[1..])
  {
    assert xs == [xs[0]] + xs[1..];
  }

  lemma SplitLast<T>(xs: seq<T>)
    requires xs != []
    ensures multiset(xs) == multiset(xs[..|xs| - 1]) + multiset{xs[|xs| - 1]}
  {
    assert xs == xs[..|xs| - 1] + [xs[|xs| - 1]];
  }

  lemma Replace<T>(a: multiset<T>, b: multiset<T>, c: multiset<T>)
    ensures a + b - b + c == a + c
  {
  }

  lemma Regroup<T>(a: multiset<T>, b: multiset<T>, c: multiset<T>, d: multiset<T>)
    requires b <= a
    ensures a - b + c + d == a + d - b + c
  {
  }
}
