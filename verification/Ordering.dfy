/** Sorting by a strict order, and what a sorted listing is determined by. */
module Ordering {

  /** Never both ways, and transitive. */
  ghost predicate IsStrict<T(!new)>(less: (T, T) -> bool) {
    && (forall a, b :: less(a, b) ==> !less(b, a))
    && (forall a, b, c :: less(a, b) && less(b, c) ==> less(a, c))
  }

  /** The order decides between any two of these. */
  ghost predicate Decides<T>(all: set<T>, less: (T, T) -> bool) {
    forall a, b :: a in all && b in all && a != b ==> less(a, b) || less(b, a)
  }

  ghost predicate Ascending<T>(s: seq<T>, less: (T, T) -> bool) {
    forall i, j :: 0 <= i < j < |s| ==> less(s[i], s[j])
  }

  /** These elements, in order. */
  ghost predicate IsSorted<T(!new)>(all: set<T>, less: (T, T) -> bool, s: seq<T>) {
    Ascending(s, less) && forall x :: x in s <==> x in all
  }

  lemma SomethingListed<T(!new)>(all: set<T>, less: (T, T) -> bool, s: seq<T>)
    requires IsSorted(all, less, s)
    ensures s != [] <==> all != {}
  {
    if s != [] { assert s[0] in s; }
    if all != {} { var x :| x in all; assert x in s; }
  }

  /** A set has one sorted listing. */
  lemma {:induction false} SortedIsUnique<T(!new)>(all: set<T>, less: (T, T) -> bool, s: seq<T>, t: seq<T>)
    requires IsStrict(less) && IsSorted(all, less, s) && IsSorted(all, less, t)
    ensures s == t
    decreases |s|
  {
    SomethingListed(all, less, s);
    SomethingListed(all, less, t);
    if s != [] {
      var m, n := |s| - 1, |t| - 1;
      assert s[m] in t && t != [];
      assert t[n] in t && t[n] in s;
      var i :| 0 <= i <= n && t[i] == s[m];
      var j :| 0 <= j <= m && s[j] == t[n];
      assert s[m] == t[n];
      ButLast(all, less, s);
      ButLast(all, less, t);
      SortedIsUnique(all - {s[m]}, less, s[..m], t[..n]);
      assert s == s[..m] + [s[m]] && t == t[..n] + [t[n]];
    }
  }

  lemma ButLast<T(!new)>(all: set<T>, less: (T, T) -> bool, s: seq<T>)
    requires IsStrict(less) && IsSorted(all, less, s) && s != []
    ensures IsSorted(all - {s[|s| - 1]}, less, s[..|s| - 1])
  {
    var m := |s| - 1;
    forall x ensures x in s[..m] <==> x in all && x != s[m] {
      if x in s && x != s[m] {
        var i :| 0 <= i < |s| && s[i] == x;
        assert s[..m][i] == x;
      }
      if x in s[..m] {
        var i :| 0 <= i < m && s[i] == x;
        assert s[i] in s;
      }
    }
  }

  /** Puts one more element in its place. */
  method Insert<T(!new, ==)>(s: seq<T>, x: T, less: (T, T) -> bool) returns (r: seq<T>)
    requires IsStrict(less) && Ascending(s, less)
    requires forall i :: 0 <= i < |s| ==> less(s[i], x) || less(x, s[i])
    ensures Ascending(r, less)
    ensures forall y :: y in r <==> y in s || y == x
  {
    var i := 0;
    while i < |s| && less(s[i], x)
      invariant 0 <= i <= |s| && forall k :: 0 <= k < i ==> less(s[k], x)
    {
      i := i + 1;
    }
    r := s[..i] + [x] + s[i..];
    assert forall k :: i <= k < |s| ==> less(x, s[k]);
    assert forall k :: 0 <= k < i ==> r[k] == s[k];
    assert r[i] == x;
    assert forall k :: i < k < |r| ==> r[k] == s[k - 1];
    forall y | y in s ensures y in r {
      var k :| 0 <= k < |s| && s[k] == y;
      assert r[if k < i then k else k + 1] == y;
    }
  }

  /** The members of a set in order. */
  method SortSet<T(!new, ==)>(all: set<T>, less: (T, T) -> bool) returns (r: seq<T>)
    requires IsStrict(less) && Decides(all, less)
    ensures IsSorted(all, less, r)
  {
    r := [];
    var left := all;
    while left != {}
      invariant left <= all && IsSorted(all - left, less, r)
      decreases left
    {
      var x :| x in left;
      assert forall i :: 0 <= i < |r| ==> r[i] in r && r[i] in all - left;
      r := Insert(r, x, less);
      left := left - {x};
    }
  }
}
