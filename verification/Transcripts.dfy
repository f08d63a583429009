/** The transcript store: append with nested caps, per-call trim, delete,
    retention sweep, and the bounded reads that reassemble whole calls.

    The collection is the sequence of its rows in append order. Append stamps
    come from a strictly increasing clock and row keys are fresh, so this order,
    the sort on `seqNo` and the order of insertion are one. */
module Transcripts {
  import opened Collections
  import opened Sequences
  import opened Reassembly

  const MAX_PER_EXTENSION: nat := 5000
  const MAX_PER_CALL: nat := 1500
  const GLOBAL_CEILING: nat := 1_000_000
  const SWEEP_PAGE: nat := 1000

  datatype View = View(id: string, seqNo: int, seg: Segment)

  ghost predicate Ordered(rows: seq<View>) {
    && (forall i, j :: 0 <= i < j < |rows| ==> rows[i].seqNo < rows[j].seqNo)
    && (forall i, j :: 0 <= i < j < |rows| ==> rows[i].id != rows[j].id)
  }

  function InOwner(owner: string): View -> bool {
    (v: View) => v.seg.owner == owner
  }

  function InCall(owner: string, callId: string): View -> bool {
    (v: View) => v.seg.owner == owner && v.seg.callId == callId
  }

  function NotInCall(owner: string, callId: string): View -> bool {
    (v: View) => !(v.seg.owner == owner && v.seg.callId == callId)
  }

  function NotId(id: string): View -> bool {
    (v: View) => v.id != id
  }

  function OfCall(callId: string): View -> bool {
    (v: View) => v.seg.callId == callId
  }

  function Before(cutoff: int): View -> bool {
    (v: View) => v.seqNo < cutoff
  }

  function NotBefore(cutoff: int): View -> bool {
    (v: View) => v.seqNo >= cutoff
  }

  function OwnerRows(rows: seq<View>, owner: string): seq<View> {
    Filter(rows, InOwner(owner))
  }

  function CallRows(rows: seq<View>, owner: string, callId: string): seq<View> {
    Filter(rows, InCall(owner, callId))
  }

  function OtherRows(rows: seq<View>, owner: string, callId: string): seq<View> {
    Filter(rows, NotInCall(owner, callId))
  }

  // ---- Filters of ordered rows ----

  lemma OrderedAppend(rows: seq<View>, v: View)
    requires Ordered(rows) && forall r :: r in rows ==> r.seqNo < v.seqNo && r.id != v.id
    ensures Ordered(rows + [v])
  {
    forall i | 0 <= i < |rows| ensures rows[i].seqNo < v.seqNo && rows[i].id != v.id { assert rows[i] in rows; }
  }

  lemma {:induction false} OrderedFilter(rows: seq<View>, p: View -> bool)
    requires Ordered(rows)
    ensures Ordered(Filter(rows, p))
  {
    if rows != [] {
      var rest := rows[..|rows| - 1];
      OrderedFilter(rest, p);
      FilterMembers(rest, p);
      var f, last := Filter(rest, p), rows[|rows| - 1];
      forall v | v in f ensures v.seqNo < last.seqNo && v.id != last.id {
        var k :| 0 <= k < |rest| && rest[k] == v;
        assert rows[k] == v;
      }
      OrderedAppend(f, last);
    }
  }

  lemma {:induction false} RemoveAt(f: seq<View>, j: nat, id: string)
    requires Ordered(f) && j < |f| && id == f[j].id
    ensures Filter(f, NotId(id)) == f[..j] + f[j + 1..]
  {
    var rest := f[..|f| - 1];
    if j == |rest| {
      FilterAll(rest, NotId(id));
      assert f[..j] == rest && f[j + 1..] == [];
    } else {
      RemoveAt(rest, j, id);
      assert f[|f| - 1].id != id;
      assert f[..j] == rest[..j] && f[j + 1..] == rest[j + 1..] + [f[|f| - 1]];
    }
  }

  /** Expunging the j-th kept row drops exactly it. */
  lemma ExpungeOne(rows: seq<View>, p: View -> bool, f: seq<View>, j: nat)
    requires Ordered(rows) && f == Filter(rows, p) && j < |f|
    ensures Filter(Filter(rows, NotId(f[j].id)), p) == f[..j] + f[j + 1..]
  {
    FilterSwap(rows, NotId(f[j].id), p);
    OrderedFilter(rows, p);
    RemoveAt(f, j, f[j].id);
  }

  /** Expunging a row leaves the rows a filter drops anyway. */
  lemma ExpungeOther(rows: seq<View>, v: View, q: View -> bool)
    requires Ordered(rows) && v in rows && !q(v)
    ensures Filter(Filter(rows, NotId(v.id)), q) == Filter(rows, q)
  {
    var k :| 0 <= k < |rows| && rows[k] == v;
    forall i | 0 <= i < |rows| && q(rows[i]) ensures NotId(v.id)(rows[i]) {
      if i < k { assert rows[i].id != rows[k].id; } else if i > k { assert rows[k].id != rows[i].id; }
    }
    FilterTwice(rows, NotId(v.id), q);
  }

  // ---- The caps ----

  /** Every owner keeps its newest rows up to the cap, nothing else changes. */
  ghost predicate OwnersCapped(rows: seq<View>, rows': seq<View>) {
    && Ordered(rows')
    && (forall v :: v in rows' ==> v in rows)
    && KeptOf(rows', rows)
  }

  /** The engine's cap enforcement: per owner and collection-wide, in either order. */
  ghost predicate CapsEnforced(rows: seq<View>, rows': seq<View>) {
    || (exists mid :: OwnersCapped(rows, mid) && rows' == Newest(mid, GLOBAL_CEILING))
    || OwnersCapped(Newest(rows, GLOBAL_CEILING), rows')
  }

  /** Enforcement cut short: neither cap, either one, or both were applied. */
  ghost predicate CapsPartly(rows: seq<View>, rows': seq<View>) {
    || rows' == rows || rows' == Newest(rows, GLOBAL_CEILING)
    || OwnersCapped(rows, rows') || CapsEnforced(rows, rows')
  }

  /** A call's rows after k passes of the trim loop: each pass drops the row just
      past the newest n. */
  function TrimmedBy(f: seq<View>, n: nat, k: nat): seq<View>
    requires k == 0 || n + k <= |f|
  {
    if k == 0 then f else f[..|f| - n - k] + f[|f| - n..]
  }

  function Excess(f: seq<View>, n: nat): nat {
    if |f| <= n then 0 else |f| - n
  }

  /** The call is trimmed to its newest rows, or, when the engine fails, by as
      many passes as succeeded; nothing outside the call changes. It may fail on
      an expunge or on the scan that would have found nothing more to trim. */
  ghost predicate TrimStep(rows: seq<View>, owner: string, callId: string, passes: Option<nat>, rows': seq<View>, err: bool) {
    var f := CallRows(rows, owner, callId);
    var e := Excess(f, MAX_PER_CALL);
    var k := if passes.Some? && passes.value < e then passes.value else e;
    && Ordered(rows')
    && CallRows(rows', owner, callId) == TrimmedBy(f, MAX_PER_CALL, k)
    && OtherRows(rows', owner, callId) == OtherRows(rows, owner, callId)
    && err == (passes.Some? && passes.value <= e)
  }

  /** The row a scan of n + 1 shows past the newest n. */
  lemma WindowPast(f: seq<View>, n: nat)
    ensures |f| <= n ==> |Reverse(Newest(f, n + 1))| <= n
    ensures |f| > n ==> |Reverse(Newest(f, n + 1))| == n + 1 && Reverse(Newest(f, n + 1))[n] == f[|f| - 1 - n]
  {
  }

  /** The store after `done` passes of the trim loop. */
  ghost predicate Trimming(before: seq<View>, rows: seq<View>, owner: string, callId: string, done: nat) {
    var f := CallRows(before, owner, callId);
    && Ordered(rows)
    && done <= Excess(f, MAX_PER_CALL)
    && CallRows(rows, owner, callId) == TrimmedBy(f, MAX_PER_CALL, done)
    && OtherRows(rows, owner, callId) == OtherRows(before, owner, callId)
  }

  lemma TrimmedByOneMore(f: seq<View>, n: nat, k: nat)
    requires n + k < |f|
    ensures var now := TrimmedBy(f, n, k);
      |now| == |f| - k && now[..|now| - 1 - n] + now[|now| - n..] == TrimmedBy(f, n, k + 1)
  {
    var now := TrimmedBy(f, n, k);
    assert now[..|now| - 1 - n] == f[..|f| - n - (k + 1)] && now[|now| - n..] == f[|f| - n..];
  }

  /** Expunging one row of a call changes nothing outside it. */
  lemma OneGone(rows: seq<View>, owner: string, callId: string, j: nat)
    requires Ordered(rows) && j < |CallRows(rows, owner, callId)|
    ensures var f, gone := CallRows(rows, owner, callId), Filter(rows, NotId(CallRows(rows, owner, callId)[j].id));
      && Ordered(gone) && CallRows(gone, owner, callId) == f[..j] + f[j + 1..]
      && OtherRows(gone, owner, callId) == OtherRows(rows, owner, callId)
  {
    var f := CallRows(rows, owner, callId);
    FilterMembers(rows, InCall(owner, callId));
    assert f[j] in f;
    ExpungeOne(rows, InCall(owner, callId), f, j);
    ExpungeOther(rows, f[j], NotInCall(owner, callId));
    OrderedFilter(rows, NotId(f[j].id));
  }

  /** What the trim loop's scan shows. */
  function TrimWindow(rows: seq<View>, owner: string, callId: string): seq<View> {
    Reverse(Newest(CallRows(rows, owner, callId), MAX_PER_CALL + 1))
  }

  /** One pass of the trim loop. */
  lemma TrimPass(before: seq<View>, rows: seq<View>, owner: string, callId: string, done: nat)
    requires Trimming(before, rows, owner, callId, done) && |TrimWindow(rows, owner, callId)| > MAX_PER_CALL
    ensures Trimming(before, Filter(rows, NotId(TrimWindow(rows, owner, callId)[MAX_PER_CALL].id)), owner, callId, done + 1)
  {
    var f := CallRows(before, owner, callId);
    WindowPast(CallRows(rows, owner, callId), MAX_PER_CALL);
    TrimmedByOneMore(f, MAX_PER_CALL, done);
    OneGone(rows, owner, callId, |f| - done - 1 - MAX_PER_CALL);
  }

  /** The trim loop ends, by a failure or when the window shows no surplus. */
  lemma TrimEnds(before: seq<View>, rows: seq<View>, owner: string, callId: string, done: nat, passes: Option<nat>, err: bool)
    requires Trimming(before, rows, owner, callId, done)
    requires if err then passes == Some(done)
      else |TrimWindow(rows, owner, callId)| <= MAX_PER_CALL && (passes.Some? ==> done < passes.value)
    ensures TrimStep(before, owner, callId, passes, rows, err)
  {
    WindowPast(CallRows(rows, owner, callId), MAX_PER_CALL);
  }

  /** A finished trim leaves exactly the newest rows of the call. */
  lemma TrimLeavesNewest(rows: seq<View>, owner: string, callId: string, rows': seq<View>)
    requires TrimStep(rows, owner, callId, None, rows', false)
    ensures CallRows(rows', owner, callId) == Newest(CallRows(rows, owner, callId), 1500)
    ensures OtherRows(rows', owner, callId) == OtherRows(rows, owner, callId)
  {
  }

  /** An interrupted trim leaves no hole exactly when it removed nothing or all
      of the surplus: the rows past the cap go newest first, so the oldest outlive
      younger ones. */
  lemma InterruptedTrimHoles(rows: seq<View>, owner: string, callId: string, passes: nat, rows': seq<View>)
    requires Ordered(rows) && TrimStep(rows, owner, callId, Some(passes), rows', true)
    ensures IsSuffix(CallRows(rows', owner, callId), CallRows(rows, owner, callId))
       <==> passes == 0 || passes == Excess(CallRows(rows, owner, callId), MAX_PER_CALL)
  {
    var f := CallRows(rows, owner, callId);
    OrderedFilter(rows, InCall(owner, callId));
    if 0 < passes < Excess(f, MAX_PER_CALL) {
      var t := TrimmedBy(f, MAX_PER_CALL, passes);
      assert t[0] == f[0] && |t| == |f| - passes;
      assert f[passes].seqNo > f[0].seqNo;
    }
  }

  datatype AppendFault = NoFault | ApplyFails | CapsFail(owners: bool, ceiling: bool) | TrimFails(passes: nat)

  /** One append that left `capped` after the caps and rows' at its end. */
  ghost predicate AppendVia(rows: seq<View>, v: View, fault: AppendFault, capped: seq<View>, rows': seq<View>, err: bool) {
    match fault
    case ApplyFails => capped == rows' == rows && err
    case CapsFail(_, _) => capped == rows' && Ordered(rows') && CapsPartly(rows + [v], rows') && err
    case NoFault =>
      && Ordered(capped) && CapsEnforced(rows + [v], capped)
      && TrimStep(capped, v.seg.owner, v.seg.callId, None, rows', err)
    case TrimFails(k) =>
      && Ordered(capped) && CapsEnforced(rows + [v], capped)
      && TrimStep(capped, v.seg.owner, v.seg.callId, Some(k), rows', err)
  }

  ghost predicate AppendStep(rows: seq<View>, v: View, fault: AppendFault, rows': seq<View>, err: bool) {
    exists capped :: AppendVia(rows, v, fault, capped, rows', err)
  }

  lemma FilterHead(x: View, s: seq<View>, p: View -> bool)
    ensures Filter([x] + s, p) == (if p(x) then [x] else []) + Filter(s, p)
  {
    FilterConcat([x], s, p);
    assert Filter([x], p) == if p(x) then [x] else [];
  }

  /** What a reader of stored rows hands to the reassembly. */
  function Segs(views: seq<View>): (segs: seq<Segment>)
    ensures |segs| == |views|
  {
    if views == [] then [] else Segs(views[..|views| - 1]) + [views[|views| - 1].seg]
  }

  lemma {:induction false} SegsAt(views: seq<View>)
    ensures forall i :: 0 <= i < |views| ==> Segs(views)[i] == views[i].seg
  {
    if views != [] { SegsAt(views[..|views| - 1]); }
  }

  lemma SegsReverse(views: seq<View>)
    ensures Segs(Reverse(views)) == Reverse(Segs(views))
  {
    SegsAt(views);
    SegsAt(Reverse(views));
  }

  lemma SegsStep(views: seq<View>, v: View)
    ensures Segs(views + [v]) == Segs(views) + [v.seg]
  {
    assert (views + [v])[..|views|] == views;
  }

  lemma {:induction false} SegsOfCall(views: seq<View>, c: string)
    ensures RowsOf(Segs(views), c) == Segs(Filter(views, OfCall(c)))
  {
    if views != [] {
      var rest, last := views[..|views| - 1], views[|views| - 1];
      SegsOfCall(rest, c);
      RowsOfStep(Segs(rest), last.seg, c);
      var f := Filter(rest, OfCall(c));
      SegsStep(f, last);
      assert Filter(views, OfCall(c)) == if last.seg.callId == c then f + [last] else f;
    }
  }

  lemma {:induction false} SingleCall(segs: seq<Segment>, c: string)
    requires segs != [] && forall i :: 0 <= i < |segs| ==> segs[i].callId == c
    ensures Calls(segs) == [c] && RowsOf(segs, c) == segs
  {
    FilterAll(segs, HasCall(c));
    if |segs| > 1 { SingleCall(segs[..|segs| - 1], c); }
  }

  lemma LatestReverse(segs: seq<Segment>)
    requires segs != []
    ensures LatestStart(Reverse(segs)) == LatestStart(segs)
  {
    LatestStartIsMaximum(segs);
    LatestStartIsMaximum(Reverse(segs));
    var i :| 0 <= i < |segs| && segs[i].startedAt == LatestStart(segs);
    assert Reverse(segs)[|segs| - 1 - i].startedAt == LatestStart(segs);
  }

  /** One call's rows, in append order, as the transcript a reader sees. */
  function WholeCall(owner: string, callId: string, segs: seq<Segment>): CallTranscript
    requires segs != []
  {
    CallTranscript(owner, callId, segs[|segs| - 1].direction, segs[|segs| - 1].remote, LatestStart(segs), Texts(segs))
  }

  /** What a reader of a call sees: who and where from its latest segment, the
      latest start, and every text in append order. */
  lemma WholeCallTells(owner: string, callId: string, segs: seq<Segment>)
    requires segs != []
    ensures var call, last := WholeCall(owner, callId, segs), segs[|segs| - 1];
      && (call.owner, call.callId, call.direction, call.remote) == (owner, callId, last.direction, last.remote)
      && (forall i :: 0 <= i < |segs| ==> segs[i].startedAt <= call.startedAt)
      && (exists i :: 0 <= i < |segs| && segs[i].startedAt == call.startedAt)
      && |call.lines| == |segs| && forall i :: 0 <= i < |segs| ==> call.lines[i] == segs[i].text
  {
    LatestStartIsMaximum(segs);
    TextsAt(segs);
  }

  /** The rows of a call, and of an owner, are those that name it. */
  lemma RowsNamed(rows: seq<View>, owner: string, callId: string)
    ensures forall v :: v in CallRows(rows, owner, callId) <==> v in rows && v.seg.owner == owner && v.seg.callId == callId
    ensures forall v :: v in OtherRows(rows, owner, callId) <==> v in rows && !(v.seg.owner == owner && v.seg.callId == callId)
    ensures forall v :: v in OwnerRows(rows, owner) <==> v in rows && v.seg.owner == owner
  {
    FilterMembers(rows, InCall(owner, callId));
    FilterMembers(rows, NotInCall(owner, callId));
    FilterMembers(rows, InOwner(owner));
  }

  /** Reassembling one call's rows gives one group with its lines in append order. */
  lemma CallGroups(segs: seq<Segment>, owner: string, callId: string, groups: seq<CallTranscript>)
    requires forall i :: 0 <= i < |segs| ==> segs[i].owner == owner && segs[i].callId == callId
    requires IsReassembled(Reverse(segs), 1, groups)
    ensures groups == if segs == [] then [] else [WholeCall(owner, callId, segs)]
  {
    if segs != [] {
      SingleCall(Reverse(segs), callId);
      SingleCall(segs, callId);
      SpokenOrder(segs, callId);
      LatestReverse(segs);
    }
  }

  lemma CallSegsMatch(rows: seq<View>, owner: string, callId: string, n: nat)
    ensures var segs := Segs(Newest(CallRows(rows, owner, callId), n));
      forall i :: 0 <= i < |segs| ==> segs[i].owner == owner && segs[i].callId == callId
  {
    var f := CallRows(rows, owner, callId);
    FilterMembers(rows, InCall(owner, callId));
    SegsAt(Newest(f, n));
    forall i | 0 <= i < |f| ensures InCall(owner, callId)(f[i]) { assert f[i] in f; }
  }

  /** Each owner's newest rows up to the cap, and no others. */
  ghost predicate KeptOf(kept: seq<View>, rows: seq<View>) {
    forall o :: OwnerRows(kept, o) == Newest(OwnerRows(rows, o), MAX_PER_EXTENSION)
  }

  ghost predicate CountsOf(counts: map<string, nat>, kept: seq<View>) {
    forall o :: |OwnerRows(kept, o)| == if o in counts then counts[o] else 0
  }

  /** One more row, seen from the front: an owner with room keeps it, a full one
      does not. */
  lemma CapOneOwner(v: View, rest: seq<View>, kept: seq<View>, o: string)
    requires OwnerRows(kept, o) == Newest(OwnerRows(rest, o), MAX_PER_EXTENSION)
    ensures OwnerRows([v] + kept, o) == (if v.seg.owner == o then [v] else []) + OwnerRows(kept, o)
    ensures v.seg.owner != o || |OwnerRows(kept, o)| < MAX_PER_EXTENSION ==>
      OwnerRows([v] + kept, o) == Newest(OwnerRows([v] + rest, o), MAX_PER_EXTENSION)
    ensures v.seg.owner != o || |OwnerRows(kept, o)| >= MAX_PER_EXTENSION ==>
      OwnerRows(kept, o) == Newest(OwnerRows([v] + rest, o), MAX_PER_EXTENSION)
  {
    FilterHead(v, kept, InOwner(o));
    FilterHead(v, rest, InOwner(o));
  }

  lemma CapWithRoom(v: View, rest: seq<View>, kept: seq<View>, counts: map<string, nat>, n: nat)
    requires KeptOf(kept, rest) && CountsOf(counts, kept)
    requires n == (if v.seg.owner in counts then counts[v.seg.owner] else 0) && n < MAX_PER_EXTENSION
    ensures KeptOf([v] + kept, [v] + rest) && CountsOf(counts[v.seg.owner := n + 1], [v] + kept)
  {
    forall o ensures OwnerRows([v] + kept, o) == Newest(OwnerRows([v] + rest, o), MAX_PER_EXTENSION) {
      CapOneOwner(v, rest, kept, o);
    }
    forall o ensures |OwnerRows([v] + kept, o)| == if o == v.seg.owner then n + 1 else if o in counts then counts[o] else 0 {
      CapOneOwner(v, rest, kept, o);
    }
  }

  lemma CapWhenFull(v: View, rest: seq<View>, kept: seq<View>, counts: map<string, nat>, n: nat)
    requires KeptOf(kept, rest) && CountsOf(counts, kept)
    requires n == (if v.seg.owner in counts then counts[v.seg.owner] else 0) && n >= MAX_PER_EXTENSION
    ensures KeptOf(kept, [v] + rest)
  {
    forall o ensures OwnerRows(kept, o) == Newest(OwnerRows([v] + rest, o), MAX_PER_EXTENSION) {
      CapOneOwner(v, rest, kept, o);
    }
  }

  lemma OrderedFront(rows: seq<View>, i: nat, kept: seq<View>)
    requires Ordered(rows) && i < |rows| && Ordered(kept) && forall v :: v in kept ==> v in rows[i + 1..]
    ensures Ordered([rows[i]] + kept) && forall v :: v in [rows[i]] + kept ==> v in rows[i..]
  {
    forall k | 0 <= k < |kept| ensures rows[i].seqNo < kept[k].seqNo && rows[i].id != kept[k].id {
      assert kept[k] in kept;
      var m :| 0 <= m < |rows[i + 1..]| && rows[i + 1..][m] == kept[k];
      assert rows[i + 1 + m] == kept[k];
    }
    assert rows[i..] == [rows[i]] + rows[i + 1..];
  }

  /** The store after `done` expunges of one call's rows. */
  ghost predicate Deleting(before: seq<View>, rows: seq<View>, owner: string, callId: string, done: nat) {
    && Ordered(rows) && (forall v :: v in rows ==> v in before) && (done == 0 ==> rows == before)
    && |CallRows(rows, owner, callId)| + done == |CallRows(before, owner, callId)|
    && OtherRows(rows, owner, callId) == OtherRows(before, owner, callId)
  }

  lemma DeletePass(before: seq<View>, rows: seq<View>, owner: string, callId: string, done: nat, v: View)
    requires Deleting(before, rows, owner, callId, done) && v in rows && InCall(owner, callId)(v)
    ensures Deleting(before, Filter(rows, NotId(v.id)), owner, callId, done + 1)
  {
    FilterMembers(rows, InCall(owner, callId));
    var j :| 0 <= j < |CallRows(rows, owner, callId)| && CallRows(rows, owner, callId)[j] == v;
    OneGone(rows, owner, callId, j);
    FilterMembers(rows, NotId(v.id));
  }

  ghost predicate AllStored(views: seq<View>, i: int, rows: seq<View>) {
    forall k :: 0 <= i <= k < |views| ==> views[k] in rows
  }

  lemma RestStored(rows: seq<View>, views: seq<View>, i: nat)
    requires AllStored(views, i, rows) && i < |views|
    requires forall h, k :: 0 <= h < k < |views| ==> views[h].id != views[k].id
    ensures AllStored(views, i + 1, Filter(rows, NotId(views[i].id)))
  {
    FilterMembers(rows, NotId(views[i].id));
  }

  function Least(a: nat, b: nat): nat { if a <= b then a else b }

  /** At most one read window of the call's rows went, or as many as the engine
      let go before it failed; nothing else did. */
  ghost predicate DeleteStep(rows: seq<View>, owner: string, callId: string, fails: Option<nat>,
                             rows': seq<View>, removed: nat, err: bool)
  {
    var f := CallRows(rows, owner, callId);
    var window := Least(|f|, MAX_PER_CALL);
    var gone := if fails.Some? then Least(fails.value, window) else window;
    && Ordered(rows') && (forall v :: v in rows' ==> v in rows) && (gone == 0 ==> rows' == rows)
    && |CallRows(rows', owner, callId)| == |f| - gone
    && OtherRows(rows', owner, callId) == OtherRows(rows, owner, callId)
    && err == (fails.Some? && (fails.value < window || fails.value == 0))
    && removed == if err then 0 else gone
  }

  /** A delete that reports success erases the whole call exactly when it fits
      the read window. */
  lemma DeleteIsCompleteIffCapped(rows: seq<View>, owner: string, callId: string, fails: Option<nat>, rows': seq<View>, removed: nat)
    requires DeleteStep(rows, owner, callId, fails, rows', removed, false)
    ensures CallRows(rows', owner, callId) == [] <==> |CallRows(rows, owner, callId)| <= 1500
    ensures removed == |CallRows(rows, owner, callId)| - |CallRows(rows', owner, callId)|
  {
  }

  /** The rows before the cutoff are gone, oldest first, or as many of them as the
      engine let go before it failed; the count counts what went. */
  ghost predicate SweepStep(rows: seq<View>, cutoff: int, fails: Option<nat>, rows': seq<View>, removed: nat, err: bool) {
    var due := DueCount(rows, cutoff);
    && removed == (if fails.Some? then Least(fails.value, due) else due)
    && removed <= |rows| && rows' == rows[removed..]
    && err == (fails.Some? && fails.value <= due)
  }

  /** A sweep that is not cut short leaves exactly the rows not due. */
  lemma SweepRemovesTheDue(rows: seq<View>, cutoff: int, fails: Option<nat>, rows': seq<View>, removed: nat)
    requires Ordered(rows) && SweepStep(rows, cutoff, fails, rows', removed, false)
    ensures rows' == Filter(rows, NotBefore(cutoff)) && removed + |rows'| == |rows|
    ensures forall v :: v in rows' <==> v in rows && v.seqNo >= cutoff
  {
    FilterMembers(rows, NotBefore(cutoff));
    var p := SplitPoint(rows, cutoff);
    SplitFilters(rows, cutoff, p);
  }

  /** The first p rows are the ones before the cutoff. */
  ghost predicate SplitsAt(rows: seq<View>, cutoff: int, p: nat) {
    p <= |rows| && forall i :: 0 <= i < |rows| ==> (rows[i].seqNo < cutoff <==> i < p)
  }

  lemma {:induction false} SplitPoint(rows: seq<View>, cutoff: int) returns (p: nat)
    requires Ordered(rows)
    ensures SplitsAt(rows, cutoff, p)
  {
    p := 0;
    while p < |rows| && rows[p].seqNo < cutoff
      invariant 0 <= p <= |rows| && forall i :: 0 <= i < p ==> rows[i].seqNo < cutoff
    {
      p := p + 1;
    }
  }

  lemma SplitFilters(rows: seq<View>, cutoff: int, p: nat)
    requires SplitsAt(rows, cutoff, p)
    ensures Filter(rows, Before(cutoff)) == rows[..p]
    ensures Filter(rows, NotBefore(cutoff)) == rows[p..]
  {
    assert rows == rows[..p] + rows[p..];
    FilterConcat(rows[..p], rows[p..], Before(cutoff));
    FilterConcat(rows[..p], rows[p..], NotBefore(cutoff));
    FilterAll(rows[..p], Before(cutoff));
    FilterNone(rows[p..], Before(cutoff));
    FilterNone(rows[..p], NotBefore(cutoff));
    FilterAll(rows[p..], NotBefore(cutoff));
  }

  function DueCount(rows: seq<View>, cutoff: int): nat { |Filter(rows, Before(cutoff))| }

  /** The sweep so far: the oldest `removed` of the due rows are gone. */
  ghost predicate Sweeping(before: seq<View>, rows: seq<View>, cutoff: int, removed: nat) {
    && Ordered(before) && Ordered(rows)
    && removed <= DueCount(before, cutoff) && removed <= |before| && rows == before[removed..]
  }

  /** The due rows come first, so those left are the rest of them. */
  lemma DueLeft(rows: seq<View>, cutoff: int, removed: nat)
    requires Ordered(rows) && removed <= DueCount(rows, cutoff)
    ensures DueCount(rows, cutoff) <= |rows|
    ensures Filter(rows[removed..], Before(cutoff)) == rows[removed..][..DueCount(rows, cutoff) - removed]
  {
    var p := SplitPoint(rows, cutoff);
    SplitFilters(rows, cutoff, p);
    assert SplitsAt(rows[removed..], cutoff, p - removed);
    SplitFilters(rows[removed..], cutoff, p - removed);
  }

  /** One page of the rows before the cutoff, oldest first. */
  function DuePage(rows: seq<View>, cutoff: int): seq<View> {
    var due := Filter(rows, Before(cutoff));
    if |due| <= SWEEP_PAGE then due else due[..SWEEP_PAGE]
  }

  lemma DueRows(before: seq<View>, rows: seq<View>, cutoff: int, removed: nat)
    requires Sweeping(before, rows, cutoff, removed)
    ensures DuePage(rows, cutoff) <= rows
    ensures removed + |DuePage(rows, cutoff)| <= DueCount(before, cutoff)
    ensures DuePage(rows, cutoff) == [] ==> removed == DueCount(before, cutoff)
  {
    DueLeft(before, cutoff, removed);
  }

  ghost predicate Dropped(rows: seq<View>, k: nat, rows': seq<View>) {
    k <= |rows| && rows' == rows[k..] && Ordered(rows')
  }

  /** A page went whole, or as far as the engine let it. */
  predicate PageDone(page: nat, fails: Option<nat>, went: nat, err: bool) {
    && went <= page
    && if err then fails == Some(went) else went == page && (fails.Some? ==> page <= fails.value)
  }

  function Left(fails: Option<nat>, removed: nat): Option<nat>
    requires fails.Some? ==> removed <= fails.value
  {
    if fails.Some? then Some(fails.value - removed) else None
  }

  /** One turn of the sweep's loop. */
  lemma SweepPage(before: seq<View>, rows: seq<View>, cutoff: int, removed: nat, fails: Option<nat>, went: nat, rows': seq<View>, err: bool)
    requires Sweeping(before, rows, cutoff, removed) && DuePage(rows, cutoff) != []
    requires fails.Some? ==> removed <= fails.value
    requires PageDone(|DuePage(rows, cutoff)|, Left(fails, removed), went, err) && Dropped(rows, went, rows')
    ensures Sweeping(before, rows', cutoff, removed + went) && (fails.Some? ==> removed + went <= fails.value)
    ensures if err then SweepStep(before, cutoff, fails, rows', removed + went, true) else went > 0
  {
    DueRows(before, rows, cutoff, removed);
  }

  lemma SweepEnds(before: seq<View>, rows: seq<View>, cutoff: int, removed: nat, fails: Option<nat>, err: bool)
    requires Sweeping(before, rows, cutoff, removed)
    requires if err then fails == Some(removed)
      else removed == DueCount(before, cutoff) && (fails.Some? ==> removed < fails.value)
    ensures SweepStep(before, cutoff, fails, rows, removed, err)
  {
  }

  lemma ExpungeFirst(rows: seq<View>)
    requires Ordered(rows) && rows != []
    ensures Filter(rows, NotId(rows[0].id)) == rows[1..]
  {
    assert rows == [rows[0]] + rows[1..];
    FilterHead(rows[0], rows[1..], NotId(rows[0].id));
    FilterAll(rows[1..], NotId(rows[0].id));
  }

  class Transcripts {
    var rows: seq<View>

    ghost predicate Valid()
      reads this
    {
      Ordered(rows)
    }

    constructor ()
      ensures Valid() && rows == []
    {
      rows := [];
    }

    /** The engine's newest-first bounded read. */
    function ScanNewest(p: View -> bool, limit: nat): seq<View>
      reads this
    {
      Reverse(Newest(Filter(rows, p), limit))
    }

    method Expunge(id: string)
      requires Valid()
      modifies this
      ensures Valid() && rows == Filter(old(rows), NotId(id))
    {
      OrderedFilter(rows, NotId(id));
      rows := Filter(rows, NotId(id));
    }

    /** Keeps each owner's newest rows, counting from the newest row back. */
    method CapOwners()
      requires Valid()
      modifies this
      ensures Valid() && OwnersCapped(old(rows), rows)
    {
      var kept: seq<View> := [];
      var counts: map<string, nat> := map[];
      var i := |rows|;
      while i > 0
        invariant 0 <= i <= |rows| && rows == old(rows)
        invariant Ordered(kept) && forall v :: v in kept ==> v in rows[i..]
        invariant KeptOf(kept, rows[i..]) && CountsOf(counts, kept)
      {
        i := i - 1;
        var v := rows[i];
        var n := if v.seg.owner in counts then counts[v.seg.owner] else 0;
        assert rows[i..] == [v] + rows[i + 1..];
        OrderedFront(rows, i, kept);
        if n >= MAX_PER_EXTENSION {
          CapWhenFull(v, rows[i + 1..], kept, counts, n);
        } else {
          CapWithRoom(v, rows[i + 1..], kept, counts, n);
          kept := [v] + kept;
          counts := counts[v.seg.owner := n + 1];
        }
      }
      assert rows[0..] == rows;
      rows := kept;
    }

    /** Enforces both declared caps, or what the engine gets done of them. */
    method EnforceCaps(owners: bool, ceiling: bool)
      requires Valid()
      modifies this
      ensures Valid() && CapsPartly(old(rows), rows)
      ensures owners && ceiling ==> CapsEnforced(old(rows), rows)
    {
      if owners {
        CapOwners();
      }
      if ceiling {
        rows := Newest(rows, GLOBAL_CEILING);
      }
    }

    /** Trims one call to its newest rows: scan one row more than the cap and
        expunge what the window cannot hold, until the call fits. The engine
        fails after `passes` expunges, if ever, on the next scan or expunge. */
    method TrimCall(owner: string, callId: string, passes: Option<nat>) returns (err: bool)
      requires Valid()
      modifies this
      ensures Valid() && TrimStep(old(rows), owner, callId, passes, rows, err)
    {
      ghost var before := rows;
      var done: nat := 0;
      while true
        invariant Trimming(before, rows, owner, callId, done)
        invariant passes.Some? ==> done <= passes.value
        decreases Excess(CallRows(before, owner, callId), MAX_PER_CALL) - done
      {
        if passes == Some(done) {
          TrimEnds(before, rows, owner, callId, done, passes, true);
          return true;
        }
        var views := ScanNewest(InCall(owner, callId), MAX_PER_CALL + 1);
        if |views| <= MAX_PER_CALL {
          TrimEnds(before, rows, owner, callId, done, passes, false);
          return false;
        }
        // The window holds cap + 1 rows, so exactly one is past the cap.
        var past := views[MAX_PER_CALL];
        TrimPass(before, rows, owner, callId, done);
        Expunge(past.id);
        done := done + 1;
      }
    }

    /** Stores one segment and enforces the caps. `id` and `now` are the fresh
        key and the clock reading. */
    method Append(id: string, now: int, seg: Segment, fault: AppendFault) returns (err: bool)
      requires Valid() && forall r :: r in rows ==> r.seqNo < now && r.id != id
      modifies this
      ensures Valid() && AppendStep(old(rows), View(id, now, seg), fault, rows, err)
    {
      if fault.ApplyFails? {
        assert AppendVia(rows, View(id, now, seg), fault, rows, rows, true);
        return true;
      }
      OrderedAppend(rows, View(id, now, seg));
      rows := rows + [View(id, now, seg)];
      if fault.CapsFail? {
        EnforceCaps(fault.owners, fault.ceiling);
        assert AppendVia(old(rows), View(id, now, seg), fault, rows, rows, true);
        return true;
      }
      EnforceCaps(true, true);
      ghost var capped := rows;
      err := TrimCall(seg.owner, seg.callId, if fault.TrimFails? then Some(fault.passes) else None);
      assert AppendVia(old(rows), View(id, now, seg), fault, capped, rows, err);
    }

    /** A bounded read with no promised order. */
    method ScanAny(p: View -> bool, limit: nat) returns (views: seq<View>)
      requires Valid()
      ensures Distinct(views) && |views| == (if |Filter(rows, p)| <= limit then |Filter(rows, p)| else limit)
      ensures forall i :: 0 <= i < |views| ==> views[i] in rows && p(views[i])
      ensures forall i, j :: 0 <= i < j < |views| ==> views[i].id != views[j].id
    {
      OrderedFilter(rows, p);
      FilterMembers(rows, p);
      views := Newest(Filter(rows, p), limit);
      forall i | 0 <= i < |views| ensures views[i] in Filter(rows, p) {}
    }

    /** Erases one call: at most one read window of its rows, in no particular
        order. Nothing outside the call changes. The engine fails after `fails`
        expunges, if ever; the scan counts as the first. */
    method DeleteCall(owner: string, callId: string, fails: Option<nat>) returns (removed: nat, err: bool)
      requires Valid()
      modifies this
      ensures Valid() && DeleteStep(old(rows), owner, callId, fails, rows, removed, err)
    {
      if fails == Some(0) {
        return 0, true;
      }
      var views := ScanAny(InCall(owner, callId), MAX_PER_CALL);
      var i := 0;
      while i < |views|
        invariant 0 <= i <= |views|
        invariant fails.Some? ==> i <= fails.value
        invariant Deleting(old(rows), rows, owner, callId, i)
        invariant AllStored(views, i, rows)
      {
        if fails == Some(i) {
          return 0, true;
        }
        DeletePass(old(rows), rows, owner, callId, i, views[i]);
        RestStored(rows, views, i);
        Expunge(views[i].id);
        i := i + 1;
      }
      return |views|, false;
    }

    /** Expunges a page of the oldest rows one by one; the engine may fail after
        `fails` of them. */
    method ExpungeOldest(views: seq<View>, fails: Option<nat>) returns (removed: nat, err: bool)
      requires Valid() && views <= rows
      modifies this
      ensures Dropped(old(rows), removed, rows)
      ensures PageDone(|views|, fails, removed, err)
    {
      removed := 0;
      while removed < |views|
        invariant 0 <= removed <= |views| && (fails.Some? ==> removed <= fails.value)
        invariant Ordered(rows) && rows == old(rows)[removed..]
      {
        if fails == Some(removed) {
          return removed, true;
        }
        assert views[removed] == rows[0];
        ExpungeFirst(rows);
        Expunge(views[removed].id);
        removed := removed + 1;
      }
      err := false;
    }

    /** Removes every row appended before the cutoff, oldest first and page by
        page. The engine fails after `fails` expunges, if ever, on the next scan or
        expunge. */
    method SweepBefore(cutoff: int, fails: Option<nat>) returns (removed: nat, err: bool)
      requires Valid()
      modifies this
      ensures Valid() && SweepStep(old(rows), cutoff, fails, rows, removed, err)
    {
      removed := 0;
      ghost var before := rows;
      while true
        invariant Sweeping(before, rows, cutoff, removed)
        invariant fails.Some? ==> removed <= fails.value
        decreases DueCount(before, cutoff) - removed
      {
        DueRows(before, rows, cutoff, removed);
        var views := DuePage(rows, cutoff);
        if |views| == 0 {
          err := fails == Some(removed);
          SweepEnds(before, rows, cutoff, removed, fails, err);
          return;
        }
        ghost var was := rows;
        var went;
        went, err := ExpungeOldest(views, Left(fails, removed));
        SweepPage(before, was, cutoff, removed, fails, went, rows, err);
        removed := removed + went;
        if err {
          return;
        }
      }
    }

    /** One call's transcript for its owner, `None` when it holds no such call. */
    method Call(owner: string, callId: string) returns (found: Option<CallTranscript>)
      ensures var segs := Segs(Newest(CallRows(rows, owner, callId), MAX_PER_CALL));
        found == if segs == [] then None else Some(WholeCall(owner, callId, segs))
    {
      var views := ScanNewest(InCall(owner, callId), MAX_PER_CALL);
      var groups := ReassembleTranscripts(Segs(views), 1);
      CallSegsMatch(rows, owner, callId, MAX_PER_CALL);
      SegsReverse(Newest(CallRows(rows, owner, callId), MAX_PER_CALL));
      CallGroups(Segs(Newest(CallRows(rows, owner, callId), MAX_PER_CALL)), owner, callId, groups);
      if |groups| == 0 {
        return None;
      }
      return Some(groups[0]);
    }

    /** The owner's history, newest call first, at most `maxCalls` calls. */
    method Export(owner: string, maxCalls: nat) returns (groups: seq<CallTranscript>)
      ensures IsReassembled(Reverse(Segs(Newest(OwnerRows(rows, owner), MAX_PER_EXTENSION))), maxCalls, groups)
    {
      var views := ScanNewest(InOwner(owner), MAX_PER_EXTENSION);
      SegsReverse(Newest(OwnerRows(rows, owner), MAX_PER_EXTENSION));
      groups := ReassembleTranscripts(Segs(views), maxCalls);
    }
  }
}
