/** Filtering, newest-n suffixes and reversal of sequences. */
module Sequences {

  function Filter<T>(s: seq<T>, p: T -> bool): seq<T> {
    if s == [] then []
    else Filter(s[..|s| - 1], p) + if p(s[|s| - 1]) then [s[|s| - 1]] else []
  }

  lemma {:induction false} FilterMembers<T>(s: seq<T>, p: T -> bool)
    ensures |Filter(s, p)| <= |s|
    ensures forall x :: x in Filter(s, p) <==> x in s && p(x)
  {
    if s != [] {
      FilterMembers(s[..|s| - 1], p);
      assert s == s[..|s| - 1] + [s[|s| - 1]];
    }
  }

  /** The last n elements, or all of them. */
  function Newest<T>(s: seq<T>, n: nat): seq<T> {
    if |s| <= n then s else s[|s| - n..]
  }

  function Reverse<T>(s: seq<T>): (r: seq<T>)
    ensures |r| == |s|
    ensures forall i :: 0 <= i < |s| ==> r[i] == s[|s| - 1 - i]
  {
    if s == [] then [] else [s[|s| - 1]] + Reverse(s[..|s| - 1])
  }

  ghost predicate IsSuffix<T>(s: seq<T>, t: seq<T>) {
    |s| <= |t| && s == t[|t| - |s|..]
  }

  lemma {:induction false} FilterConcat<T>(a: seq<T>, b: seq<T>, p: T -> bool)
    ensures Filter(a + b, p) == Filter(a, p) + Filter(b, p)
  {
    if b == [] {
      assert a + b == a;
    } else {
      assert (a + b)[..|a + b| - 1] == a + b[..|b| - 1];
      FilterConcat(a, b[..|b| - 1], p);
    }
  }

  /** What a filter keeps of a suffix is a suffix of what it keeps. */
  lemma FilterSuffix<T>(s: seq<T>, t: seq<T>, p: T -> bool)
    requires IsSuffix(s, t)
    ensures IsSuffix(Filter(s, p), Filter(t, p))
  {
    var cut := |t| - |s|;
    assert t == t[..cut] + s;
    FilterConcat(t[..cut], s, p);
  }

  lemma {:induction false} FilterTwice<T>(s: seq<T>, q: T -> bool, p: T -> bool)
    requires forall i :: 0 <= i < |s| && p(s[i]) ==> q(s[i])
    ensures Filter(Filter(s, q), p) == Filter(s, p)
  {
    if s != [] {
      var last := [s[|s| - 1]];
      FilterTwice(s[..|s| - 1], q, p);
      FilterConcat(Filter(s[..|s| - 1], q), if q(last[0]) then last else [], p);
    }
  }

  lemma {:induction false} FilterAll<T>(s: seq<T>, p: T -> bool)
    requires forall i :: 0 <= i < |s| ==> p(s[i])
    ensures Filter(s, p) == s
  {
    if s != [] {
      FilterAll(s[..|s| - 1], p);
      assert s == s[..|s| - 1] + [s[|s| - 1]];
    }
  }

  lemma {:induction false} FilterNone<T>(s: seq<T>, p: T -> bool)
    requires forall i :: 0 <= i < |s| ==> !p(s[i])
    ensures Filter(s, p) == []
  {
    if s != [] { FilterNone(s[..|s| - 1], p); }
  }

  /** Filters commute. */
  lemma {:induction false} FilterSwap<T>(s: seq<T>, q: T -> bool, p: T -> bool)
    ensures Filter(Filter(s, q), p) == Filter(Filter(s, p), q)
  {
    if s != [] {
      var rest, last := s[..|s| - 1], s[|s| - 1];
      FilterSwap(rest, q, p);
      FilterConcat(Filter(rest, q), if q(last) then [last] else [], p);
      FilterConcat(Filter(rest, p), if p(last) then [last] else [], q);
    }
  }

  /** Two predicates that agree on the elements keep the same. */
  lemma {:induction false} FilterAgree<T>(s: seq<T>, p: T -> bool, q: T -> bool)
    requires forall i :: 0 <= i < |s| ==> p(s[i]) == q(s[i])
    ensures Filter(s, p) == Filter(s, q)
  {
    if s != [] { FilterAgree(s[..|s| - 1], p, q); }
  }

  lemma SuffixTransitive<T>(a: seq<T>, b: seq<T>, c: seq<T>)
    requires IsSuffix(a, b) && IsSuffix(b, c)
    ensures IsSuffix(a, c)
  {
  }

  lemma SuffixAppend<T>(s: seq<T>, t: seq<T>, x: T)
    requires IsSuffix(s, t)
    ensures IsSuffix(s + [x], t + [x])
  {
  }

  lemma NewestIsSuffix<T>(s: seq<T>, n: nat)
    ensures IsSuffix(Newest(s, n), s) && |Newest(s, n)| == if |s| <= n then |s| else n
  {
  }

  lemma ReverseTwice<T>(s: seq<T>)
    ensures Reverse(Reverse(s)) == s
  {
  }

  lemma ReverseConcat<T>(a: seq<T>, b: seq<T>)
    ensures Reverse(a + b) == Reverse(b) + Reverse(a)
  {
  }

  lemma {:induction false} FilterReverse<T>(s: seq<T>, p: T -> bool)
    ensures Filter(Reverse(s), p) == Reverse(Filter(s, p))
  {
    if s != [] {
      var rest, last := s[..|s| - 1], s[|s| - 1];
      FilterReverse(rest, p);
      FilterConcat([last], Reverse(rest), p);
      ReverseConcat(Filter(rest, p), if p(last) then [last] else []);
      assert Filter([last], p) == if p(last) then [last] else [];
    }
  }
}
