/** `Array.prototype.filter` and the subsequence relation it establishes. */
module Seqs {

  /** `r` is `s` with some elements left out, the rest in their original order. */
  predicate IsSubsequence<T(==)>(r: seq<T>, s: seq<T>)
    decreases |s|
  {
    r == [] || (s != [] && ((r[0] == s[0] && IsSubsequence(r[1..], s[1..])) || IsSubsequence(r, s[1..])))
  }

  /** `s.filter(p)`: keeps exactly the elements satisfying `p`, every copy of
      each, in their original order. */
  function Filter<T(==,!new)>(s: seq<T>, p: T -> bool): (r: seq<T>)
    ensures |r| <= |s|
    ensures forall i :: 0 <= i < |r| ==> p(r[i])
    ensures forall x :: x in r <==> x in s && p(x)
    ensures IsSubsequence(r, s)
    ensures forall x :: multiset(r)[x] == if p(x) then multiset(s)[x] else 0
  {
    if s == [] then []
    else
      var rest := Filter(s[1..], p);
      assert s == [s[0]] + s[1..];
      assert multiset(s) == multiset{s[0]} + multiset(s[1..]);
      if p(s[0]) then
        var r := [s[0]] + rest;
        assert r[1..] == rest;
        assert multiset(r) == multiset{s[0]} + multiset(rest);
        r
      else
        rest
  }

  /** One step of `Filter`: the first element is kept exactly when it passes. */
  lemma FilterCons<T(!new)>(s: seq<T>, p: T -> bool)
    requires s != []
    ensures Filter(s, p) == if p(s[0]) then [s[0]] + Filter(s[1..], p) else Filter(s[1..], p)
  {
  }

  /** A non-empty sequence is its head followed by its tail. */
  lemma HeadTail<T>(s: seq<T>)
    requires s != []
    ensures [s[0]] + s[1..] == s
  {
  }

  /** The head and tail of a concatenation whose left part is non-empty. */
  lemma AppendHeadTail<T>(a: seq<T>, b: seq<T>)
    requires a != []
    ensures (a + b)[0] == a[0] && (a + b)[1..] == a[1..] + b
  {
  }

  /** Prepending an element before or after a concatenation is the same. */
  lemma ConsAppend<T>(x: T, u: seq<T>, v: seq<T>)
    ensures [x] + (u + v) == ([x] + u) + v
  {
  }

  /** When every element passes, filtering changes nothing. */
  lemma {:induction false} FilterKeepsAll<T(!new)>(s: seq<T>, p: T -> bool)
    requires forall x :: x in s ==> p(x)
    ensures Filter(s, p) == s
  {
    if s != [] {
      assert s[0] in s;
      assert forall x :: x in s[1..] ==> x in s;
      FilterKeepsAll(s[1..], p);
      FilterCons(s, p);
      HeadTail(s);
    }
  }

  /** Two tests that agree on every element select the same subsequence. */
  lemma {:induction false} FilterCongruent<T(!new)>(s: seq<T>, p: T -> bool, q: T -> bool)
    requires forall x :: x in s ==> p(x) == q(x)
    ensures Filter(s, p) == Filter(s, q)
  {
    if s != [] {
      assert s[0] in s;
      assert forall x :: x in s[1..] ==> x in s;
      FilterCongruent(s[1..], p, q);
    }
  }

  /** Filtering a concatenation filters each part. */
  lemma {:induction false} FilterAppend<T(!new)>(a: seq<T>, b: seq<T>, p: T -> bool)
    ensures Filter(a + b, p) == Filter(a, p) + Filter(b, p)
  {
    if a == [] {
      assert a + b == b;
    } else {
      AppendHeadTail(a, b);
      FilterAppend(a[1..], b, p);
      FilterCons(a + b, p);
      FilterCons(a, p);
      if p(a[0]) {
        ConsAppend(a[0], Filter(a[1..], p), Filter(b, p));
      }
    }
  }
}
