/** Replaying a list of upserts into keyed slots. A lane is an upsert rule with
    the part of a slot that a later upsert keeps; when the rule converges, any
    number of partial passes before a full one leave no trace. */
module Upserts {
  import opened Collections

  /** One pass over the rows, skipping those that did not parse. */
  function Pass<K, R, V>(m: map<K, V>, key: R -> K, merge: (Option<V>, R) -> V, rows: seq<Option<R>>): map<K, V> {
    if rows == [] then m
    else
      var before := Pass(m, key, merge, rows[..|rows| - 1]);
      match rows[|rows| - 1]
      case None => before
      case Some(r) => before[key(r) := merge(Slot(before, key(r)), r)]
  }

  /** The same pass seen from one key. */
  function PassAt<K(==), R, V>(slot: Option<V>, key: R -> K, merge: (Option<V>, R) -> V, rows: seq<Option<R>>, k: K): Option<V> {
    if rows == [] then slot
    else
      var before, last := PassAt(slot, key, merge, rows[..|rows| - 1], k), rows[|rows| - 1];
      if last.Some? && key(last.value) == k then Some(merge(before, last.value)) else before
  }

  /** A taken slot's kept part survives, it is all a later upsert sees of the
      slot, and upserting the row that made a slot again changes nothing. */
  ghost predicate Converges<R(!new), V(!new), I>(merge: (Option<V>, R) -> V, kept: V -> I) {
    && (forall v, r :: kept(merge(Some(v), r)) == kept(v))
    && (forall v, w, r :: kept(v) == kept(w) ==> merge(Some(v), r) == merge(Some(w), r))
    && (forall r :: merge(Some(merge(None, r)), r) == merge(None, r))
  }

  lemma {:induction false} PassSlots<K, R, V>(m: map<K, V>, key: R -> K, merge: (Option<V>, R) -> V, rows: seq<Option<R>>, k: K)
    ensures Slot(Pass(m, key, merge, rows), k) == PassAt(Slot(m, k), key, merge, rows, k)
  {
    if rows != [] {
      PassSlots(m, key, merge, rows[..|rows| - 1], k);
    }
  }

  predicate Touches<K(==), R>(key: R -> K, row: Option<R>, k: K) { row.Some? && key(row.value) == k }

  predicate Untouched<K(==), R>(key: R -> K, rows: seq<Option<R>>, k: K) {
    forall i :: 0 <= i < |rows| ==> !Touches(key, rows[i], k)
  }

  lemma {:induction false} UntouchedKeeps<K, R, V>(slot: Option<V>, key: R -> K, merge: (Option<V>, R) -> V, rows: seq<Option<R>>, k: K)
    requires Untouched(key, rows, k)
    ensures PassAt(slot, key, merge, rows, k) == slot
  {
    if rows != [] {
      assert !Touches(key, rows[|rows| - 1], k);
      UntouchedKeeps(slot, key, merge, rows[..|rows| - 1], k);
    }
  }

  lemma UntouchedLast<K, R>(key: R -> K, rows: seq<Option<R>>, k: K, n: nat)
    requires 0 < n <= |rows|
    ensures Untouched(key, rows[..n - 1], k) && !Touches(key, rows[n - 1], k) ==> Untouched(key, rows[..n], k)
  {
    assert forall i :: 0 <= i < n - 1 ==> rows[..n][i] == rows[..n - 1][i];
  }

  /** Whatever passes over a taken slot keeps its kept part. */
  lemma {:induction false} KeptStays<K, R(!new), V(!new), I>(
      v: V, key: R -> K, merge: (Option<V>, R) -> V, kept: V -> I, rows: seq<Option<R>>, k: K)
    requires Converges(merge, kept)
    ensures var u := PassAt(Some(v), key, merge, rows, k); u.Some? && kept(u.value) == kept(v)
  {
    if rows != [] {
      KeptStays(v, key, merge, kept, rows[..|rows| - 1], k);
    }
  }

  lemma {:induction false} PassAtConcat<K, R, V>(
      slot: Option<V>, key: R -> K, merge: (Option<V>, R) -> V, a: seq<Option<R>>, b: seq<Option<R>>, k: K)
    ensures PassAt(slot, key, merge, a + b, k) == PassAt(PassAt(slot, key, merge, a, k), key, merge, b, k)
  {
    if b == [] {
      assert a + b == a;
    } else {
      PassAtConcat(slot, key, merge, a, b[..|b| - 1], k);
      assert (a + b)[..|a + b| - 1] == a + b[..|b| - 1];
    }
  }

  /** The first row that touches the key brings both passes together. */
  lemma FirstTouch<K, R(!new), V(!new), I>(
      slot: Option<V>, key: R -> K, merge: (Option<V>, R) -> V, kept: V -> I,
      head: seq<Option<R>>, first: Option<R>, pre: seq<Option<R>>, k: K)
    requires Converges(merge, kept) && Untouched(key, head, k) && Touches(key, first, k)
    requires pre <= head || head + [first] <= pre
    ensures merge(PassAt(slot, key, merge, pre, k), first.value) == merge(slot, first.value)
  {
    if slot.Some? {
      KeptStays(slot.value, key, merge, kept, pre, k);
    } else if pre <= head {
      UntouchedKeeps(slot, key, merge, pre, k);
    } else {
      var tail := pre[|head| + 1..];
      assert pre == head + [first] + tail;
      PassAtConcat(slot, key, merge, head + [first], tail, k);
      PassAtConcat(slot, key, merge, head, [first], k);
      UntouchedKeeps(slot, key, merge, head, k);
      assert PassAt(slot, key, merge, [first], k) == Some(merge(slot, first.value)) by { assert [first][..0] == []; }
      KeptStays(merge(slot, first.value), key, merge, kept, tail, k);
    }
  }

  lemma {:induction false} PrefixForgottenAt<K, R(!new), V(!new), I>(
      slot: Option<V>, key: R -> K, merge: (Option<V>, R) -> V, kept: V -> I, rows: seq<Option<R>>, pre: seq<Option<R>>, k: K, n: nat)
    requires Converges(merge, kept) && pre <= rows && n <= |rows|
    ensures var u := PassAt(slot, key, merge, pre, k);
      if Untouched(key, rows[..n], k) then PassAt(u, key, merge, rows[..n], k) == u && PassAt(slot, key, merge, rows[..n], k) == slot
      else PassAt(u, key, merge, rows[..n], k) == PassAt(slot, key, merge, rows[..n], k)
  {
    var u := PassAt(slot, key, merge, pre, k);
    if Untouched(key, rows[..n], k) {
      UntouchedKeeps(u, key, merge, rows[..n], k);
      UntouchedKeeps(slot, key, merge, rows[..n], k);
    } else {
      PrefixForgottenAt(slot, key, merge, kept, rows, pre, k, n - 1);
      assert rows[..n][..n - 1] == rows[..n - 1];
      if Untouched(key, rows[..n - 1], k) {
        UntouchedLast(key, rows, k, n);
        assert rows[..n - 1] + [rows[n - 1]] == rows[..n];
        FirstTouch(slot, key, merge, kept, rows[..n - 1], rows[n - 1], pre, k);
      }
    }
  }

  /** A partial pass before a full one leaves no trace. */
  lemma PrefixForgotten<K(!new), R(!new), V(!new), I>(
      m: map<K, V>, key: R -> K, merge: (Option<V>, R) -> V, kept: V -> I, rows: seq<Option<R>>, pre: seq<Option<R>>)
    requires Converges(merge, kept) && pre <= rows
    ensures Pass(Pass(m, key, merge, pre), key, merge, rows) == Pass(m, key, merge, rows)
  {
    var once, twice := Pass(m, key, merge, rows), Pass(Pass(m, key, merge, pre), key, merge, rows);
    forall k ensures Slot(twice, k) == Slot(once, k) {
      PassSlots(m, key, merge, pre, k);
      PassSlots(Pass(m, key, merge, pre), key, merge, rows, k);
      PassSlots(m, key, merge, rows, k);
      PrefixForgottenAt(Slot(m, k), key, merge, kept, rows, pre, k, |rows|);
      assert rows[..|rows|] == rows;
      if Untouched(key, rows, k) {
        forall i | 0 <= i < |pre| ensures !Touches(key, pre[i], k) { assert pre[i] == rows[i]; }
        UntouchedKeeps(Slot(m, k), key, merge, pre, k);
      }
    }
    SlotsDecide(twice, once);
  }

  lemma SlotsDecide<K(!new), V>(a: map<K, V>, b: map<K, V>)
    requires forall k :: Slot(a, k) == Slot(b, k)
    ensures a == b
  {
    assert forall k :: k in a ==> Slot(a, k) == Some(a[k]);
    assert forall k :: k in b ==> Slot(b, k) == Some(b[k]);
    assert forall k :: k in a <==> k in b by {
      forall k ensures k in a <==> k in b { assert Slot(a, k) == Slot(b, k); }
    }
    forall k | k in a ensures a[k] == b[k] { assert Slot(a, k) == Slot(b, k); }
  }

  // ---- Boots ----

  /** What an import leaves behind: the slots and whether the flag is set. */
  datatype Imported<K, V> = Imported(slots: map<K, V>, flag: bool)

  /** One boot: nothing once the flag is set, else some rows from the front, and
      the flag only after all of them. */
  ghost predicate Boot<K, R, V>(key: R -> K, merge: (Option<V>, R) -> V, rows: seq<Option<R>>, s: Imported<K, V>, s': Imported<K, V>) {
    if s.flag then s' == s
    else exists n :: 0 <= n <= |rows| && s'.slots == Pass(s.slots, key, merge, rows[..n]) && (s'.flag ==> n == |rows|)
  }

  ghost predicate IsBoots<K, R, V>(key: R -> K, merge: (Option<V>, R) -> V, rows: seq<Option<R>>, states: seq<Imported<K, V>>) {
    |states| > 0 && !states[0].flag && forall i :: 0 <= i < |states| - 1 ==> Boot(key, merge, rows, states[i], states[i + 1])
  }

  /** Over any number of boots, each cut short anywhere: a full pass now would
      leave what one full pass at the start would have left, and once the flag is
      set that is what is there. */
  lemma {:induction false} BootsConverge<K(!new), R(!new), V(!new), I>(
      key: R -> K, merge: (Option<V>, R) -> V, kept: V -> I, rows: seq<Option<R>>, states: seq<Imported<K, V>>)
    requires Converges(merge, kept) && IsBoots(key, merge, rows, states)
    ensures var s := states[|states| - 1];
      && Pass(s.slots, key, merge, rows) == Pass(states[0].slots, key, merge, rows)
      && (s.flag ==> s.slots == Pass(states[0].slots, key, merge, rows))
  {
    var last := |states| - 1;
    if last > 0 {
      BootsConverge(key, merge, kept, rows, states[..last]);
      var s, s' := states[last - 1], states[last];
      assert Boot(key, merge, rows, s, s');
      if !s.flag {
        var n :| 0 <= n <= |rows| && s'.slots == Pass(s.slots, key, merge, rows[..n]) && (s'.flag ==> n == |rows|);
        PrefixForgotten(s.slots, key, merge, kept, rows, rows[..n]);
        assert n == |rows| ==> rows[..n] == rows;
      }
    }
  }
}
