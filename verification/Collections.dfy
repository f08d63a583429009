/** Small facts about finite sets and sequences that several components need. */
module Collections {

  datatype Option<+T> = None | Some(value: T)

  function Slot<K, V>(m: map<K, V>, k: K): Option<V> {
    if k in m then Some(m[k]) else None
  }

  ghost predicate Distinct<T>(s: seq<T>) {
    forall i, j :: 0 <= i < j < |s| ==> s[i] != s[j]
  }

  ghost function Elements<T>(s: seq<T>): set<T> {
    set i | 0 <= i < |s| :: s[i]
  }

  lemma SubsetSize<T>(a: set<T>, b: set<T>)
    requires a <= b
    ensures |a| <= |b|
    ensures a != b ==> |a| < |b|
  {
    assert b == a + (b - a);
  }

  lemma {:induction false} DistinctSize<T>(s: seq<T>)
    requires Distinct(s)
    ensures |Elements(s)| == |s|
  {
    if s != [] {
      DistinctSize(s[1..]);
      assert s[0] !in Elements(s[1..]);
      assert Elements(s) == Elements(s[1..]) + {s[0]} by {
        forall x | x in Elements(s) ensures x in Elements(s[1..]) + {s[0]} {
          var i :| 0 <= i < |s| && s[i] == x;
          if i > 0 { assert s[1..][i - 1] == x; }
        }
      }
    }
  }

  /** Elements are at most as many as positions, and as many only when distinct. */
  lemma {:induction false} ElementsSize<T>(s: seq<T>)
    ensures |Elements(s)| <= |s| && (|Elements(s)| == |s| ==> Distinct(s))
  {
    if s != [] {
      ElementsSize(s[1..]);
      assert Elements(s) == Elements(s[1..]) + {s[0]} by {
        forall x | x in Elements(s) ensures x in Elements(s[1..]) + {s[0]} {
          var i :| 0 <= i < |s| && s[i] == x;
          if i > 0 { assert s[1..][i - 1] == x; }
        }
      }
      assert s[0] in Elements(s[1..]) ==> Elements(s) == Elements(s[1..]);
      if |Elements(s)| == |s| {
        forall i, j | 0 <= i < j < |s| ensures s[i] != s[j] {
          assert s[1..][j - 1] == s[j];
          if i > 0 { assert s[1..][i - 1] == s[i]; }
        }
      }
    }
  }

  function Below(n: nat): (all: set<nat>)
    ensures |all| == n && forall i: nat :: i in all <==> i < n
  {
    if n == 0 then {} else Below(n - 1) + {n - 1}
  }

  /** Distinct positions below n that miss one leave room for it. */
  lemma Room(s: seq<nat>, n: nat, missing: nat)
    requires Distinct(s) && (forall i :: 0 <= i < |s| ==> s[i] < n) && missing < n && missing !in s
    ensures |s| < n
  {
    DistinctSize(s);
    SubsetSize(Elements(s), Below(n) - {missing});
  }
}
