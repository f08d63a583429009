/** The contract of the read-model engine's cap enforcement and bounded scans,
    for keyed collections whose rows carry an integer stamp.

    Ties on the stamp may fall either way: the predicates leave the choice open.
    The methods show that the contract can be met; the stores rely on nothing
    but their contracts. */
module MetaEngine {
  import opened Collections

  ghost predicate SubMap<K, V>(m': map<K, V>, m: map<K, V>) {
    m'.Keys <= m.Keys && forall k :: k in m' ==> m'[k] == m[k]
  }

  function Members<K, V>(m: map<K, V>, group: K -> string, g: string): set<K> {
    set k | k in m && group(k) == g
  }

  /** m' keeps the newest n rows of every group of m. A collection-wide cap is
      the case of a single group. */
  ghost predicate KeepsNewest<K(!new), V>(m: map<K, V>, m': map<K, V>, group: K -> string, stamp: V -> int, n: nat) {
    && SubMap(m', m)
    && (forall g :: |Members(m', group, g)| == (if |Members(m, group, g)| <= n then |Members(m, group, g)| else n))
    && (forall k, gone :: k in m' && gone in m && gone !in m' && group(k) == group(gone) ==> stamp(m[k]) >= stamp(m[gone]))
  }

  /** A newest-first scan of one group, cut off at `limit` rows. */
  ghost predicate IsScan<K(!new), V>(m: map<K, V>, group: K -> string, g: string, stamp: V -> int, limit: nat, out: seq<K>) {
    && Distinct(out)
    && |out| <= limit
    && (forall i :: 0 <= i < |out| ==> out[i] in m && group(out[i]) == g)
    && (forall i, j :: 0 <= i < j < |out| ==> stamp(m[out[i]]) >= stamp(m[out[j]]))
    && (forall k :: k in m && group(k) == g && k !in out ==>
          |out| == limit && forall i :: 0 <= i < |out| ==> stamp(m[out[i]]) >= stamp(m[k]))
  }

  /** The other rows of a key's group that are no older than it. */
  function NoOlder<K, V>(m: map<K, V>, group: K -> string, stamp: V -> int, key: K): set<K>
    requires key in m
  {
    set k | k in m && group(k) == group(key) && k != key && stamp(m[k]) >= stamp(m[key])
  }

  /** Whatever a trim removed was crowded out by n rows of its group. */
  lemma CrowdedOut<K(!new), V>(m: map<K, V>, m': map<K, V>, group: K -> string, stamp: V -> int, n: nat, gone: K)
    requires KeepsNewest(m, m', group, stamp, n) && gone in m && gone !in m'
    ensures |NoOlder(m, group, stamp, gone)| >= n
  {
    var before, after := Members(m, group, group(gone)), Members(m', group, group(gone));
    assert gone in before && gone !in after && after <= before;
    SubsetSize(after, before);
    SubsetSize(after, NoOlder(m, group, stamp, gone));
  }

  /** A row with fewer than `limit` others no older than it is in every scan. */
  lemma ScanFinds<K(!new), V>(m: map<K, V>, group: K -> string, stamp: V -> int, limit: nat, out: seq<K>, key: K)
    requires key in m && IsScan(m, group, group(key), stamp, limit, out)
    requires |NoOlder(m, group, stamp, key)| < limit
    ensures key in out
  {
    if key !in out {
      DistinctSize(out);
      SubsetSize(Elements(out), NoOlder(m, group, stamp, key));
    }
  }

  method Oldest<K, V>(m: map<K, V>, among: set<K>, stamp: V -> int) returns (key: K)
    requires among != {} && among <= m.Keys
    ensures key in among && forall k :: k in among ==> stamp(m[key]) <= stamp(m[k])
  {
    key :| key in among;
    var rest := among - {key};
    while rest != {}
      invariant rest <= among && key in among
      invariant forall k :: k in among && k !in rest ==> stamp(m[key]) <= stamp(m[k])
      decreases rest
    {
      var k :| k in rest;
      rest := rest - {k};
      if stamp(m[k]) < stamp(m[key]) { key := k; }
    }
  }

  /** Trims one group to its newest n rows. */
  method TrimGroup<K(!new), V>(m: map<K, V>, group: K -> string, g: string, stamp: V -> int, n: nat) returns (m': map<K, V>)
    ensures SubMap(m', m) && forall k :: k in m && group(k) != g ==> k in m'
    ensures |Members(m', group, g)| == (if |Members(m, group, g)| <= n then |Members(m, group, g)| else n)
    ensures forall k, gone :: k in m' && group(k) == g && gone in m && gone !in m' ==> stamp(m[k]) >= stamp(m[gone])
  {
    m' := m;
    var left := Members(m, group, g);
    while |left| > n
      invariant SubMap(m', m) && left == Members(m', group, g)
      invariant forall k :: k in m && group(k) != g ==> k in m'
      invariant |left| >= n || m' == m
      invariant forall k, gone :: k in m' && group(k) == g && gone in m && gone !in m' ==> stamp(m[k]) >= stamp(m[gone])
      decreases |left|
    {
      var key := Oldest(m', left, stamp);
      ghost var was := left;
      m', left := m' - {key}, left - {key};
      assert |left| == |was| - 1;
      assert left == Members(m', group, g);
    }
  }

  /** Enforces the cap on every group. */
  method Trim<K(!new), V>(m: map<K, V>, group: K -> string, stamp: V -> int, n: nat) returns (m': map<K, V>)
    ensures KeepsNewest(m, m', group, stamp, n)
  {
    m' := m;
    var todo := set k | k in m :: group(k);
    ghost var groups := todo;
    while todo != {}
      invariant SubMap(m', m) && todo <= groups
      invariant forall k :: k in m && group(k) in todo ==> k in m'
      invariant forall g :: g in groups - todo ==>
        |Members(m', group, g)| == (if |Members(m, group, g)| <= n then |Members(m, group, g)| else n)
      invariant forall k, gone :: k in m' && gone in m && gone !in m' && group(k) == group(gone) ==> stamp(m[k]) >= stamp(m[gone])
      decreases todo
    {
      var g :| g in todo;
      ghost var was := m';
      m' := TrimGroup(m', group, g, stamp, n);
      assert Members(was, group, g) == Members(m, group, g);
      forall h | h in groups - todo ensures Members(m', group, h) == Members(was, group, h) {}
      todo := todo - {g};
    }
    forall g | g !in groups ensures Members(m', group, g) == Members(m, group, g) == {} {}
  }

  /** Reads the newest rows of one group, at most `limit` of them. */
  method Scan<K(!new), V>(m: map<K, V>, group: K -> string, g: string, stamp: V -> int, limit: nat) returns (out: seq<K>)
    ensures IsScan(m, group, g, stamp, limit, out)
  {
    out := [];
    var left := Members(m, group, g);
    var flipped := (v: V) => -stamp(v);
    while left != {} && |out| < limit
      invariant Distinct(out) && |out| <= limit
      invariant forall k :: k in left <==> k in m && group(k) == g && k !in out
      invariant forall i :: 0 <= i < |out| ==> out[i] in m && group(out[i]) == g
      invariant forall i, j :: 0 <= i < j < |out| ==> stamp(m[out[i]]) >= stamp(m[out[j]])
      invariant forall i, k :: 0 <= i < |out| && k in left ==> stamp(m[out[i]]) >= stamp(m[k])
      decreases left
    {
      var key := Oldest(m, left, flipped);
      assert forall k :: k in left ==> flipped(m[key]) <= flipped(m[k]);
      left, out := left - {key}, out + [key];
    }
  }
}
