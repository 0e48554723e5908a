/** Sequences without repetition and the sets they list. */
module Sequences {

  function Members<T(==, !new)>(s: seq<T>): (members: set<T>)
    ensures forall x :: x in members <==> x in s
  {
    set x | x in s
  }

  ghost predicate Distinct<T>(s: seq<T>) {
    forall i, j | 0 <= i < j < |s| :: s[i] != s[j]
  }

  lemma DistinctSnoc<T>(s: seq<T>, x: T)
    requires Distinct(s) && x !in s
    ensures Distinct(s + [x])
  {
  }

  function AddOnce<T(==, !new)>(s: seq<T>, x: T): (r: seq<T>)
    ensures forall y :: y in r <==> y in s || y == x
    ensures Distinct(s) ==> Distinct(r)
  {
    if x in s then s else s + [x]
  }

  /** The elements that stay when one is taken out. */
  function Without<T(==)>(s: seq<T>, x: T): seq<T> {
    if s == [] then [] else (if s[0] == x then [] else [s[0]]) + Without(s[1..], x)
  }

  lemma {:induction false} WithoutKeepsOthers<T(!new)>(s: seq<T>, x: T)
    ensures forall y :: y in Without(s, x) <==> y in s && y != x
    ensures Distinct(s) ==> Distinct(Without(s, x))
  {
    if s != [] {
      WithoutKeepsOthers(s[1..], x);
      assert forall y :: y in s <==> y == s[0] || y in s[1..];
      if Distinct(s) { assert s[0] !in s[1..]; }
    }
  }

  method Retain<T(==)>(s: seq<T>, x: T) returns (kept: seq<T>)
    ensures kept == Without(s, x)
  {
    kept := [];
    var i := 0;
    while i < |s|
      invariant i <= |s|
      invariant kept + Without(s[i..], x) == Without(s, x)
    {
      if s[i] != x { kept := kept + [s[i]]; }
      i := i + 1;
    }
  }

  // ---- sequences in dictionary order ----

  predicate SequenceLess(a: seq<nat>, b: seq<nat>) {
    b != [] && (a == [] || a[0] < b[0] || (a[0] == b[0] && SequenceLess(a[1..], b[1..])))
  }

  lemma {:induction false} SequenceLessTotal(a: seq<nat>, b: seq<nat>)
    ensures SequenceLess(a, b) || SequenceLess(b, a) || a == b
    ensures !(SequenceLess(a, b) && SequenceLess(b, a)) && (a == b ==> !SequenceLess(a, b))
  {
    if a != [] && b != [] {
      SequenceLessTotal(a[1..], b[1..]);
      if a[0] == b[0] && a[1..] == b[1..] { assert a == [a[0]] + a[1..] && b == [b[0]] + b[1..]; }
    }
  }

  lemma {:induction false} SequenceLessTransitive(a: seq<nat>, b: seq<nat>, c: seq<nat>)
    requires SequenceLess(a, b) && SequenceLess(b, c)
    ensures SequenceLess(a, c)
  {
    if a != [] && a[0] == b[0] && b[0] == c[0] { SequenceLessTransitive(a[1..], b[1..], c[1..]); }
  }
}
