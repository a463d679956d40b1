/** Array operations of Ember's MutableArray that the components use. */
module Seqs {

  /** `removeObject(x)`: Ember walks the array from the end and removes every
      element identical to `x`. */
  function RemoveAll<T(==)>(s: seq<T>, x: T): (r: seq<T>)
    ensures x !in r
    ensures |r| <= |s|
    ensures forall i :: 0 <= i < |r| ==> r[i] in s
    ensures forall i :: 0 <= i < |s| && s[i] != x ==> s[i] in r
  {
    if s == [] then []
    else if s[0] == x then RemoveAll(s[1..], x)
    else [s[0]] + RemoveAll(s[1..], x)
  }

  /** `r` is `s` with some elements dropped and the others kept in order. */
  predicate IsSubsequence<T(==)>(r: seq<T>, s: seq<T>)
    decreases |s|
  {
    if r == [] then true
    else if s == [] then false
    else (r[0] == s[0] && IsSubsequence(r[1..], s[1..])) || IsSubsequence(r, s[1..])
  }

  /** Removal keeps the relative order of what is left. */
  lemma {:induction false} RemoveAllKeepsOrder<T>(s: seq<T>, x: T)
    ensures IsSubsequence(RemoveAll(s, x), s)
  {
    if s != [] {
      RemoveAllKeepsOrder(s[1..], x);
      if s[0] != x {
        assert ([s[0]] + RemoveAll(s[1..], x))[1..] == RemoveAll(s[1..], x);
      }
    }
  }

  /** Removal drops every copy of `x` and keeps every other element as often
      as it occurred. */
  lemma {:induction false} RemoveAllCounts<T>(s: seq<T>, x: T)
    ensures forall y :: multiset(RemoveAll(s, x))[y] == if y == x then 0 else multiset(s)[y]
  {
    if s != [] {
      RemoveAllCounts(s[1..], x);
      assert s == [s[0]] + s[1..];
      assert multiset(s) == multiset{s[0]} + multiset(s[1..]);
    }
  }

  /** Removing an element that is not there changes nothing. */
  lemma {:induction false} RemoveAbsent<T>(s: seq<T>, x: T)
    requires x !in s
    ensures RemoveAll(s, x) == s
  {
    if s != [] {
      RemoveAbsent(s[1..], x);
      assert s == [s[0]] + s[1..];
    }
  }

  /** `[].concat(g1).concat(g2)...`: the groups one after the other. */
  function Concat<T>(groups: seq<seq<T>>): seq<T>
  {
    if groups == [] then [] else Concat(groups[..|groups| - 1]) + groups[|groups| - 1]
  }

  function SumLengths<T>(groups: seq<seq<T>>): nat
  {
    if groups == [] then 0 else SumLengths(groups[..|groups| - 1]) + |groups[|groups| - 1]|
  }

  lemma {:induction false} ConcatLength<T>(groups: seq<seq<T>>)
    ensures |Concat(groups)| == SumLengths(groups)
  {
    if groups != [] {
      ConcatLength(groups[..|groups| - 1]);
    }
  }

  lemma {:induction false} ConcatMembership<T>(groups: seq<seq<T>>, x: T)
    ensures x in Concat(groups) <==> exists i :: 0 <= i < |groups| && x in groups[i]
  {
    if groups != [] {
      var init := groups[..|groups| - 1];
      ConcatMembership(init, x);
      assert forall i :: 0 <= i < |init| ==> init[i] == groups[i];
    }
  }

  /** The list that a chain of `if (present(j)) list.push(item(j))` builds,
      for j = 0 .. k-1. */
  function Pushed<T>(item: nat -> T, present: nat -> bool, k: nat): seq<T>
  {
    if k == 0 then [] else Pushed(item, present, k - 1) + (if present(k - 1) then [item(k - 1)] else [])
  }

  /** Positions, among the first `k`, whose item is pushed. */
  function PushedPositions(present: nat -> bool, k: nat): seq<nat>
  {
    if k == 0 then [] else PushedPositions(present, k - 1) + (if present(k - 1) then [k - 1] else [])
  }

  /** The pushed list holds the items of exactly the present positions,
      each once, in increasing position order. */
  lemma {:induction false} PushedInOrder<T>(item: nat -> T, present: nat -> bool, k: nat)
    ensures var idx := PushedPositions(present, k);
      && |Pushed(item, present, k)| == |idx|
      && (forall i :: 0 <= i < |idx| ==> idx[i] < k && Pushed(item, present, k)[i] == item(idx[i]))
      && (forall i, i' :: 0 <= i < i' < |idx| ==> idx[i] < idx[i'])
      && (forall j :: 0 <= j < k ==> (j in idx <==> present(j)))
  {
    if k > 0 {
      PushedInOrder(item, present, k - 1);
    }
  }
}
