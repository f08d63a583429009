/** The one lane of the legacy import that does not converge: every append mints
    a fresh key, so rows of an interrupted pass stay beside those of the next. */
module TranscriptImport {
  import opened Sequences
  import Ordering
  import opened Reassembly
  import opened Transcripts
  import opened Collections

  predicate Older(a: View, b: View) { a.seqNo < b.seqNo }

  lemma SameRows(a: seq<View>, b: seq<View>)
    requires Ordered(a) && Ordered(b) && forall v :: v in a <==> v in b
    ensures a == b
  {
    Ordering.SortedIsUnique(Elements(a), Older, a, b);
  }

  // ---- Room below the caps ----

  function OwnerIs(o: string): Segment -> bool { (s: Segment) => s.owner == o }

  function CallIs(o: string, c: string): Segment -> bool { (s: Segment) => s.owner == o && s.callId == c }

  /** No cap is exceeded: per call, per owner, overall. */
  ghost predicate Fits(segs: seq<Segment>) {
    && |segs| <= 1_000_000
    && (forall o :: |Filter(segs, OwnerIs(o))| <= 5000)
    && (forall o, c :: |Filter(segs, CallIs(o, c))| <= 1500)
  }

  lemma FitsPrefix(a: seq<Segment>, b: seq<Segment>)
    requires Fits(a + b)
    ensures Fits(a)
  {
    forall o ensures |Filter(a, OwnerIs(o))| <= MAX_PER_EXTENSION { FilterConcat(a, b, OwnerIs(o)); }
    forall o, c ensures |Filter(a, CallIs(o, c))| <= MAX_PER_CALL { FilterConcat(a, b, CallIs(o, c)); }
  }

  lemma {:induction false} SegCounts(rows: seq<View>, o: string, c: string)
    ensures |OwnerRows(rows, o)| == |Filter(Segs(rows), OwnerIs(o))|
    ensures |CallRows(rows, o, c)| == |Filter(Segs(rows), CallIs(o, c))|
  {
    if rows != [] {
      var rest, last := rows[..|rows| - 1], rows[|rows| - 1];
      SegCounts(rest, o, c);
      assert Segs(rows)[..|rows| - 1] == Segs(rest);
    }
  }

  lemma RoomyCaps(rows: seq<View>, rows': seq<View>)
    requires Ordered(rows) && Fits(Segs(rows)) && CapsPartly(rows, rows')
    ensures rows' == rows
  {
    assert Newest(rows, GLOBAL_CEILING) == rows;
    if OwnersCapped(rows, rows') {
      RoomyOwners(rows, rows');
    } else if CapsEnforced(rows, rows') {
      var kept :| OwnersCapped(rows, kept) && rows' == Newest(kept, GLOBAL_CEILING);
      RoomyOwners(rows, kept);
    }
  }

  lemma RoomyOwners(rows: seq<View>, rows': seq<View>)
    requires Ordered(rows) && Fits(Segs(rows)) && OwnersCapped(rows, rows')
    ensures rows' == rows
  {
    forall v | v in rows ensures v in rows' {
      var o := v.seg.owner;
      FilterMembers(rows, InOwner(o));
      FilterMembers(rows', InOwner(o));
      SegCounts(rows, o, "");
      assert OwnerRows(rows', o) == Newest(OwnerRows(rows, o), MAX_PER_EXTENSION) == OwnerRows(rows, o);
      assert v in OwnerRows(rows, o);
    }
    SameRows(rows, rows');
  }

  lemma RoomyTrim(rows: seq<View>, owner: string, callId: string, passes: Option<nat>, rows': seq<View>, err: bool)
    requires Ordered(rows) && Fits(Segs(rows)) && TrimStep(rows, owner, callId, passes, rows', err)
    ensures rows' == rows
  {
    SegCounts(rows, owner, callId);
    FilterMembers(rows, InCall(owner, callId));
    FilterMembers(rows, NotInCall(owner, callId));
    FilterMembers(rows', InCall(owner, callId));
    FilterMembers(rows', NotInCall(owner, callId));
    assert CallRows(rows', owner, callId) == CallRows(rows, owner, callId);
    forall v ensures v in rows <==> v in rows' {
      assert v in rows <==> v in CallRows(rows, owner, callId) || v in OtherRows(rows, owner, callId);
      assert v in rows' <==> v in CallRows(rows', owner, callId) || v in OtherRows(rows', owner, callId);
    }
    SameRows(rows, rows');
  }

  /** With room for its row in its call, its owner and overall, an append adds the
      row and drops none, even when it fails after storing it. */
  lemma AppendKeepsAll(rows: seq<View>, v: View, fault: AppendFault, rows': seq<View>, err: bool)
    requires Ordered(rows + [v]) && Fits(Segs(rows) + [v.seg])
    requires AppendStep(rows, v, fault, rows', err) && !fault.ApplyFails?
    ensures rows' == rows + [v]
  {
    SegsStep(rows, v);
    var capped :| AppendVia(rows, v, fault, capped, rows', err);
    RoomyCaps(rows + [v], capped);
    if !fault.CapsFail? {
      RoomyTrim(capped, v.seg.owner, v.seg.callId, if fault.TrimFails? then Some(fault.passes) else None, rows', err);
    }
  }

  // ---- Interrupted passes ----

  /** One segment stored under a fresh key, whether or not the append reported
      success. */
  ghost predicate IsAppend(rows: seq<View>, seg: Segment, rows': seq<View>) {
    exists v: View, fault: AppendFault, err: bool ::
      v.seg == seg && Ordered(rows + [v]) && !fault.ApplyFails? && AppendStep(rows, v, fault, rows', err)
  }

  lemma AppendAddsSegment(rows: seq<View>, seg: Segment, rows': seq<View>)
    requires IsAppend(rows, seg, rows') && Fits(Segs(rows) + [seg])
    ensures Segs(rows') == Segs(rows) + [seg]
  {
    var v: View, fault: AppendFault, err: bool :|
      v.seg == seg && Ordered(rows + [v]) && !fault.ApplyFails? && AppendStep(rows, v, fault, rows', err);
    AppendKeepsAll(rows, v, fault, rows', err);
    SegsStep(rows, v);
  }

  /** Segments stored one after the other, from any store on. */
  ghost predicate IsAppends(states: seq<seq<View>>, segs: seq<Segment>) {
    && |states| == |segs| + 1
    && forall i :: 0 <= i < |segs| ==> IsAppend(states[i], segs[i], states[i + 1])
  }

  lemma RoomOnTheWay(base: seq<Segment>, segs: seq<Segment>, n: nat)
    requires Fits(base + segs) && 0 < n <= |segs|
    ensures base + segs[..n] == base + segs[..n - 1] + [segs[n - 1]] && Fits(base + segs[..n])
  {
    assert segs == segs[..n] + segs[n..] && segs[..n] == segs[..n - 1] + [segs[n - 1]];
    assert base + segs == base + segs[..n] + segs[n..];
    FitsPrefix(base + segs[..n], segs[n..]);
  }

  lemma {:induction false} AppendsAccumulate(states: seq<seq<View>>, segs: seq<Segment>, n: nat)
    requires IsAppends(states, segs) && n <= |segs| && Fits(Segs(states[0]) + segs)
    ensures Segs(states[n]) == Segs(states[0]) + segs[..n]
  {
    if n > 0 {
      AppendsAccumulate(states, segs, n - 1);
      RoomOnTheWay(Segs(states[0]), segs, n);
      assert IsAppend(states[n - 1], segs[n - 1], states[n - 1 + 1]);
      AppendAddsSegment(states[n - 1], segs[n - 1], states[n]);
    }
  }

  /** What boots store that get `stored` rows in each, and a full pass after
      them. */
  function Replays(legacy: seq<Segment>, stored: seq<nat>): seq<Segment>
    requires forall i :: 0 <= i < |stored| ==> stored[i] <= |legacy|
  {
    if stored == [] then legacy else legacy[..stored[0]] + Replays(legacy, stored[1..])
  }

  lemma {:induction false} ReplaysLength(legacy: seq<Segment>, stored: seq<nat>)
    requires forall i :: 0 <= i < |stored| ==> stored[i] <= |legacy|
    ensures |Replays(legacy, stored)| >= |legacy|
    ensures |Replays(legacy, stored)| == |legacy| <==> forall i :: 0 <= i < |stored| ==> stored[i] == 0
    ensures (forall i :: 0 <= i < |stored| ==> stored[i] == 0) ==> Replays(legacy, stored) == legacy
  {
    if stored != [] {
      ReplaysLength(legacy, stored[1..]);
      assert forall i :: 1 <= i < |stored| ==> stored[i] == stored[1..][i - 1];
    }
  }

  /** However many boots were interrupted, with room below the caps every row they
      stored is there beside those of the full pass; the result is that of one
      pass exactly when none of them stored anything. */
  lemma RetryDuplicates(states: seq<seq<View>>, legacy: seq<Segment>, stored: seq<nat>)
    requires forall i :: 0 <= i < |stored| ==> stored[i] <= |legacy|
    requires IsAppends(states, Replays(legacy, stored)) && Fits(Segs(states[0]) + Replays(legacy, stored))
    ensures var last := states[|states| - 1];
      && Segs(last) == Segs(states[0]) + Replays(legacy, stored)
      && (Segs(last) == Segs(states[0]) + legacy <==> forall i :: 0 <= i < |stored| ==> stored[i] == 0)
  {
    var segs := Replays(legacy, stored);
    AppendsAccumulate(states, segs, |segs|);
    assert segs[..|segs|] == segs;
    ReplaysLength(legacy, stored);
  }

  /** One uninterrupted pass, from any store with room. */
  lemma OnePass(states: seq<seq<View>>, legacy: seq<Segment>)
    requires IsAppends(states, legacy) && Fits(Segs(states[0]) + legacy)
    ensures Segs(states[|states| - 1]) == Segs(states[0]) + legacy
  {
    RetryDuplicates(states, legacy, []);
  }

  // ---- The loop ----

  /** The rows that parsed. */
  function Readable(legacy: seq<Option<Segment>>): seq<Segment> {
    if legacy == [] then []
    else Readable(legacy[..|legacy| - 1]) + if legacy[|legacy| - 1].Some? then [legacy[|legacy| - 1].value] else []
  }

  lemma ReadableSnoc(legacy: seq<Option<Segment>>, i: nat)
    requires i < |legacy|
    ensures Readable(legacy[..i + 1]) == Readable(legacy[..i]) + if legacy[i].Some? then [legacy[i].value] else []
  {
    assert legacy[..i + 1][..i] == legacy[..i];
  }

  lemma {:induction false} ReadablePrefix(legacy: seq<Option<Segment>>, i: nat)
    requires i <= |legacy|
    ensures Readable(legacy[..i]) <= Readable(legacy)
    decreases |legacy| - i
  {
    if i == |legacy| {
      assert legacy[..i] == legacy;
    } else {
      ReadablePrefix(legacy, i + 1);
      ReadableSnoc(legacy, i);
    }
  }

  /** The key and stamp each append will draw. */
  datatype Draw = Draw(id: string, now: int)

  /** The draws from the i-th on are later than everything stored. */
  ghost predicate AllLater(rows: seq<View>, draws: seq<Draw>, i: nat) {
    forall r, j :: r in rows && i <= j < |draws| ==> r.seqNo < draws[j].now && r.id != draws[j].id
  }

  ghost predicate Increasing(draws: seq<Draw>) {
    forall i, j :: 0 <= i < j < |draws| ==> draws[i].now < draws[j].now && draws[i].id != draws[j].id
  }

  /** What the loop has stored so far. */
  ghost predicate Importing(before: seq<View>, states: seq<seq<View>>, stored: seq<Segment>, rows: seq<View>) {
    IsAppends(states, stored) && states[0] == before && states[|stored|] == rows
  }

  lemma ImportOne(before: seq<View>, states: seq<seq<View>>, stored: seq<Segment>, rows: seq<View>,
                  d: Draw, seg: Segment, fault: AppendFault, rows': seq<View>, err: bool)
    requires Importing(before, states, stored, rows) && Ordered(rows) && AllLater(rows, [d], 0)
    requires AppendStep(rows, View(d.id, d.now, seg), fault, rows', err)
    ensures if fault.ApplyFails? then Importing(before, states, stored, rows')
      else Importing(before, states + [rows'], stored + [seg], rows')
  {
    OneIsLater(rows, d);
    OrderedAppend(rows, View(d.id, d.now, seg));
    if !fault.ApplyFails? { assert IsAppend(rows, seg, rows'); }
  }

  lemma OneIsLater(rows: seq<View>, d: Draw)
    requires AllLater(rows, [d], 0)
    ensures forall r :: r in rows ==> r.seqNo < d.now && r.id != d.id
  {
    assert [d][0] == d;
  }

  lemma StillLater(rows: seq<View>, draws: seq<Draw>, i: nat, seg: Segment, fault: AppendFault, rows': seq<View>, err: bool)
    requires i < |draws| && AllLater(rows, draws, i) && Increasing(draws)
    requires AppendStep(rows, View(draws[i].id, draws[i].now, seg), fault, rows', err)
    ensures AllLater(rows', draws, i + 1)
  {
    forall r, j | r in rows' && i + 1 <= j < |draws| ensures r.seqNo < draws[j].now && r.id != draws[j].id {
      AppendOnlyAdds(rows, View(draws[i].id, draws[i].now, seg), fault, rows', err, r);
    }
  }

  lemma AppendOnlyAdds(rows: seq<View>, v: View, fault: AppendFault, rows': seq<View>, err: bool, r: View)
    requires AppendStep(rows, v, fault, rows', err) && r in rows'
    ensures r in rows || r == v
  {
    var capped :| AppendVia(rows, v, fault, capped, rows', err);
    if !fault.ApplyFails? {
      if !fault.CapsFail? {
        TrimOnlyDrops(capped, v.seg.owner, v.seg.callId, if fault.TrimFails? then Some(fault.passes) else None, rows', err, r);
      }
      CapsOnlyDrop(rows + [v], capped, r);
    }
  }

  lemma CapsOnlyDrop(rows: seq<View>, rows': seq<View>, r: View)
    requires CapsPartly(rows, rows') && r in rows'
    ensures r in rows
  {
  }

  lemma TrimOnlyDrops(rows: seq<View>, owner: string, callId: string, passes: Option<nat>, rows': seq<View>, err: bool, r: View)
    requires TrimStep(rows, owner, callId, passes, rows', err) && r in rows'
    ensures r in rows
  {
    FilterMembers(rows, InCall(owner, callId));
    FilterMembers(rows, NotInCall(owner, callId));
    FilterMembers(rows', InCall(owner, callId));
    FilterMembers(rows', NotInCall(owner, callId));
    assert r in CallRows(rows', owner, callId) || r in OtherRows(rows', owner, callId);
  }

  /** One boot of the transcript import: rows that do not parse are skipped, and
      the first append that reports a failure ends it, whether or not its row was
      stored. */
  method ImportTranscripts(store: Transcripts, flag: bool, flagRead: bool, legacy: Option<seq<Option<Segment>>>,
      draws: seq<Draw>, faults: seq<AppendFault>, flagWritten: bool)
    returns (flag': bool, ghost states: seq<seq<View>>, ghost stored: seq<Segment>)
    requires store.Valid() && |draws| == |faults| && (legacy.Some? ==> |legacy.value| <= |draws|)
    requires AllLater(store.rows, draws, 0) && Increasing(draws)
    modifies store
    ensures store.Valid() && Importing(old(store.rows), states, stored, store.rows)
    ensures flag || !flagRead || legacy.None? ==> stored == [] && flag' == flag
    ensures !flag && flagRead && legacy.Some? ==> stored <= Readable(legacy.value)
    ensures !flag && flagRead && legacy.Some? && flag' ==> flagWritten && stored == Readable(legacy.value)
    ensures !flag && flagRead && legacy.Some? && flagWritten && (forall i :: 0 <= i < |faults| ==> faults[i].NoFault?) ==> flag'
  {
    flag', states, stored := flag, [store.rows], [];
    if !flagRead || flag || legacy.None? {
      return;
    }
    var rows := legacy.value;
    var i := 0;
    while i < |rows|
      invariant 0 <= i <= |rows| && store.Valid() && !flag'
      invariant Importing(old(store.rows), states, stored, store.rows)
      invariant stored == Readable(rows[..i])
      invariant AllLater(store.rows, draws, i)
    {
      ReadableSnoc(rows, i);
      ReadablePrefix(rows, i + 1);
      ReadablePrefix(rows, i);
      if rows[i].Some? {
        ghost var was := store.rows;
        var err := store.Append(draws[i].id, draws[i].now, rows[i].value, faults[i]);
        ImportOne(old(store.rows), states, stored, was, draws[i], rows[i].value, faults[i], store.rows, err);
        StillLater(was, draws, i, rows[i].value, faults[i], store.rows, err);
        if !faults[i].ApplyFails? {
          states, stored := states + [store.rows], stored + [rows[i].value];
        }
        if err {
          return;
        }
      }
      i := i + 1;
    }
    assert rows[..i] == rows;
    flag' := flagWritten;
  }
}
