/** A run that tears a hole into a stored call: a call at its cap, two appends
    whose caps fail, and one whose trim fails after its first expunge. */
module TranscriptHoles {
  import opened Collections
  import opened Sequences
  import opened Reassembly
  import opened Transcripts
  import opened TranscriptRuns

  function Key(i: nat): string { seq(i, _ => 'k') }

  function Row(seg: Segment, i: nat): View { View(Key(i), i, seg) }

  /** The first n rows appended to the call. */
  function Rows(seg: Segment, n: nat): (rows: seq<View>)
    ensures |rows| == n && forall i :: 0 <= i < n ==> rows[i] == Row(seg, i)
  {
    seq(n, i requires 0 <= i < n => Row(seg, i))
  }

  lemma RowsAreOrdered(seg: Segment, n: nat)
    ensures Ordered(Rows(seg, n))
  {
    forall i: nat, j: nat | i < j < n ensures Rows(seg, n)[i].id != Rows(seg, n)[j].id {
      assert |Key(i)| == i && |Key(j)| == j;
    }
  }

  lemma RowsGrow(seg: Segment, n: nat)
    ensures Rows(seg, n + 1) == Rows(seg, n) + [Row(seg, n)]
  {
  }

  lemma RowsOfTheCall(seg: Segment, n: nat)
    ensures CallRows(Rows(seg, n), seg.owner, seg.callId) == Rows(seg, n)
  {
    FilterAll(Rows(seg, n), InCall(seg.owner, seg.callId));
  }

  /** Below the caps enforcement changes nothing. */
  lemma BelowTheCaps(rows: seq<View>)
    requires Ordered(rows) && |rows| <= MAX_PER_EXTENSION
    ensures CapsEnforced(rows, rows)
  {
    forall o ensures |OwnerRows(rows, o)| <= |rows| { FilterMembers(rows, InOwner(o)); }
    assert OwnersCapped(rows, rows) && rows == Newest(rows, GLOBAL_CEILING);
  }

  const LAST: nat := MAX_PER_CALL + 2

  function FaultAt(i: nat): AppendFault {
    if i < MAX_PER_CALL then NoFault else if i < LAST then CapsFail(false, false) else TrimFails(1)
  }

  /** The store before the i-th append, and after the last one. */
  function StateAt(seg: Segment, i: nat): seq<View> {
    if i <= LAST then Rows(seg, i) else TrimmedBy(Rows(seg, LAST + 1), MAX_PER_CALL, 1)
  }

  function OpAt(seg: Segment, i: nat): Op {
    Appended(Row(seg, i), FaultAt(i), Rows(seg, i + 1), i >= MAX_PER_CALL)
  }

  lemma TornIsOrdered(seg: Segment)
    ensures var all, torn := Rows(seg, LAST + 1), TrimmedBy(Rows(seg, LAST + 1), MAX_PER_CALL, 1);
      && torn == all[..2] + all[3..]
      && Ordered(torn) && TrimStep(all, seg.owner, seg.callId, Some(1), torn, true)
  {
    var all, torn := Rows(seg, LAST + 1), TrimmedBy(Rows(seg, LAST + 1), MAX_PER_CALL, 1);
    RowsAreOrdered(seg, LAST + 1);
    RowsOfTheCall(seg, LAST + 1);
    RemoveAt(all, 2, all[2].id);
    OrderedFilter(all, NotId(all[2].id));
    FilterAll(torn, InCall(seg.owner, seg.callId));
    FilterNone(torn, NotInCall(seg.owner, seg.callId));
    FilterNone(all, NotInCall(seg.owner, seg.callId));
  }

  lemma StepIsNext(seg: Segment, i: nat)
    requires i <= LAST
    ensures Next(StateAt(seg, i), OpAt(seg, i), StateAt(seg, i + 1))
  {
    RowsGrow(seg, i);
    RowsAreOrdered(seg, i + 1);
    BelowTheCaps(Rows(seg, i + 1));
    if i < MAX_PER_CALL {
      RowsOfTheCall(seg, i + 1);
    } else if i == LAST {
      TornIsOrdered(seg);
    }
  }

  /** Such a run leaves the call's third row missing with both older rows stored,
      and no delete was needed for it. */
  lemma HoleIsReachable(seg: Segment) returns (states: seq<seq<View>>, ops: seq<Op>)
    ensures IsRun(states, ops) && |ops| == MAX_PER_CALL + 3
    ensures forall i :: 0 <= i < |ops| ==> ops[i] == OpAt(seg, i)
    ensures states[|ops|] == StateAt(seg, LAST + 1)
    ensures var f, p := CallRows(states[|ops|], seg.owner, seg.callId), Trace(states, ops, seg.owner, seg.callId);
      !IsSuffix(f, p.history) && Row(seg, 2) in p.torn && f == [Row(seg, 0), Row(seg, 1)] + Rows(seg, LAST + 1)[3..]
  {
    states := seq(LAST + 2, i requires 0 <= i < LAST + 2 => StateAt(seg, i));
    ops := seq(LAST + 1, i requires 0 <= i < LAST + 1 => OpAt(seg, i));
    forall i: nat | i < |ops| ensures Next(states[i], ops[i], states[i + 1]) && IsNew(ops[i].row, ops[..i]) {
      StepIsNext(seg, i);
      RowsAreOrdered(seg, i + 1);
      forall j: nat | j < i ensures ops[j].row.seqNo < ops[i].row.seqNo && ops[j].row.id != ops[i].row.id {
        assert Rows(seg, i + 1)[j] == ops[j].row && Rows(seg, i + 1)[i] == ops[i].row;
      }
    }
    TornRow(seg, states, ops);
  }

  /** What the last append's trim did to the call. */
  lemma TornCall(seg: Segment)
    ensures var all, torn := Rows(seg, LAST + 1), StateAt(seg, LAST + 1);
      && CallRows(all, seg.owner, seg.callId) == all && CallRows(torn, seg.owner, seg.callId) == torn
      && torn == [Row(seg, 0), Row(seg, 1)] + all[3..]
      && Row(seg, 2) in Lost(all, torn) && !Precedes(Row(seg, 2), torn)
  {
    var all, torn := Rows(seg, LAST + 1), StateAt(seg, LAST + 1);
    TornIsOrdered(seg);
    RowsOfTheCall(seg, LAST + 1);
    FilterAll(torn, InCall(seg.owner, seg.callId));
    assert all[2] in all && torn[0] == all[0] && torn[0] in torn;
    forall i | 0 <= i < |torn| ensures torn[i] != all[2] {}
  }

  lemma TornRow(seg: Segment, states: seq<seq<View>>, ops: seq<Op>)
    requires IsRun(states, ops) && |ops| == LAST + 1
    requires states[LAST + 1] == StateAt(seg, LAST + 1) && ops[LAST] == OpAt(seg, LAST)
    ensures var f, p := CallRows(states[|ops|], seg.owner, seg.callId), Trace(states, ops, seg.owner, seg.callId);
      !IsSuffix(f, p.history) && Row(seg, 2) in p.torn && f == [Row(seg, 0), Row(seg, 1)] + Rows(seg, LAST + 1)[3..]
  {
    TornCall(seg);
    HolesIffTorn(states, ops, seg.owner, seg.callId);
    var before := Trace(states[..LAST + 1], ops[..LAST], seg.owner, seg.callId);
    assert Trace(states, ops, seg.owner, seg.callId)
        == After(before, states[LAST], ops[LAST], states[LAST + 1], seg.owner, seg.callId);
  }

  /** One more clean append to the torn call: what is left is whole again,
      although a row was torn out and no delete came between. */
  lemma HealIsReachable(seg: Segment) returns (states: seq<seq<View>>, ops: seq<Op>)
    ensures IsRun(states, ops)
    ensures var f, p := CallRows(states[|ops|], seg.owner, seg.callId), Trace(states, ops, seg.owner, seg.callId);
      Row(seg, 2) in p.torn && IsSuffix(f, p.history) && |f| == MAX_PER_CALL
  {
    var torn, v := StateAt(seg, LAST + 1), Row(seg, LAST + 1);
    var all := torn + [v];
    var left := Newest(all, MAX_PER_CALL);
    var op := Appended(v, NoFault, all, false);
    var before, past := HoleIsReachable(seg);
    states, ops := before + [left], past + [op];
    TornAndOneMore(seg);
    CleanAppendToOneCall(torn, v);
    forall j: nat | j < |past| ensures past[j].row.seqNo < v.seqNo && past[j].row.id != v.id {
      assert past[j] == OpAt(seg, j) && |Key(j)| == j && |Key(LAST + 1)| == LAST + 1;
    }
    ExtendRun(before, past, op, left);
    assert states[..|past| + 1] == before && ops[..|past|] == past;
    NoDeleteNoCut(states, ops, seg.owner, seg.callId);
    CleanAppendRestores(states, ops, seg.owner);
  }

  /** A clean append to a store that holds one call only and is below the other
      caps leaves the call's newest rows. */
  lemma CleanAppendToOneCall(rows: seq<View>, v: View)
    requires Ordered(rows + [v]) && |rows| < MAX_PER_EXTENSION
    requires forall r :: r in rows + [v] ==> InCall(v.seg.owner, v.seg.callId)(r)
    ensures Next(rows, Appended(v, NoFault, rows + [v], false), Newest(rows + [v], MAX_PER_CALL))
    ensures CallRows(Newest(rows + [v], MAX_PER_CALL), v.seg.owner, v.seg.callId) == Newest(rows + [v], MAX_PER_CALL)
  {
    var all := rows + [v];
    var left := Newest(all, MAX_PER_CALL);
    BelowTheCaps(all);
    forall i | 0 <= i < |all| ensures InCall(v.seg.owner, v.seg.callId)(all[i]) { assert all[i] in all; }
    FilterAll(all, InCall(v.seg.owner, v.seg.callId));
    FilterAll(left, InCall(v.seg.owner, v.seg.callId));
    FilterNone(all, NotInCall(v.seg.owner, v.seg.callId));
    FilterNone(left, NotInCall(v.seg.owner, v.seg.callId));
  }

  lemma TornAndOneMore(seg: Segment)
    ensures var all := StateAt(seg, LAST + 1) + [Row(seg, LAST + 1)];
      && Ordered(all) && |all| == MAX_PER_CALL + 3
      && forall r :: r in all ==> InCall(seg.owner, seg.callId)(r)
  {
    var torn, v := StateAt(seg, LAST + 1), Row(seg, LAST + 1);
    TornIsOrdered(seg);
    forall r | r in torn ensures r.seqNo < v.seqNo && r.id != v.id && r.seg == seg {
      var i :| 0 <= i < |torn| && torn[i] == r;
      assert |r.id| == r.seqNo && |v.id| == LAST + 1;
    }
    OrderedAppend(torn, v);
  }

  lemma {:induction false} NoDeleteNoCut(states: seq<seq<View>>, ops: seq<Op>, o: string, c: string)
    requires |states| == |ops| + 1 && forall i :: 0 <= i < |ops| ==> !ops[i].Deleted?
    ensures !Trace(states, ops, o, c).cut
  {
    if ops != [] {
      NoDeleteNoCut(states[..|ops|], ops[..|ops| - 1], o, c);
    }
  }

  lemma ExtendRun(states: seq<seq<View>>, ops: seq<Op>, op: Op, rows': seq<View>)
    requires IsRun(states, ops) && Next(states[|ops|], op, rows') && (op.Appended? ==> IsNew(op.row, ops))
    ensures IsRun(states + [rows'], ops + [op])
  {
    var all, more := states + [rows'], ops + [op];
    forall i | 0 <= i < |more|
      ensures Next(all[i], more[i], all[i + 1]) && (more[i].Appended? ==> IsNew(more[i].row, more[..i]))
    {
      assert more[..i] == ops[..i];
      if i == |ops| { assert ops[..i] == ops; }
    }
  }
}
