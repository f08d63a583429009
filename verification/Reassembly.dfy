/** Grouping newest-first transcript segments into whole calls. */
module Reassembly {
  import opened Sequences

  datatype Direction = Inbound | Outbound

  /** One transcribed chunk of a call. */
  datatype Segment = Segment(owner: string, callId: string, direction: Direction, remote: string, startedAt: int, text: string)

  datatype CallTranscript = CallTranscript(
    owner: string, callId: string, direction: Direction, remote: string, startedAt: int, lines: seq<string>)

  // ---- The simple specification ----

  /** The distinct call ids in order of first appearance. */
  function Calls(rows: seq<Segment>): seq<string> {
    if rows == [] then []
    else
      var before, last := Calls(rows[..|rows| - 1]), rows[|rows| - 1];
      if last.callId in before then before else before + [last.callId]
  }

  function HasCall(c: string): Segment -> bool {
    (r: Segment) => r.callId == c
  }

  function RowsOf(rows: seq<Segment>, c: string): seq<Segment> {
    Filter(rows, HasCall(c))
  }

  function Texts(rows: seq<Segment>): seq<string> {
    if rows == [] then [] else Texts(rows[..|rows| - 1]) + [rows[|rows| - 1].text]
  }

  function LatestStart(rows: seq<Segment>): int
    requires rows != []
  {
    var last := rows[|rows| - 1].startedAt;
    if |rows| == 1 then last
    else
      var before := LatestStart(rows[..|rows| - 1]);
      if before < last then last else before
  }

  /** `Calls` lists exactly the ids that occur, each once; `LatestStart` is the
      maximum start. */
  lemma {:induction false} CallsAreDistinctIds(rows: seq<Segment>)
    ensures forall c :: c in Calls(rows) <==> exists i :: 0 <= i < |rows| && rows[i].callId == c
    ensures forall i, j :: 0 <= i < j < |Calls(rows)| ==> Calls(rows)[i] != Calls(rows)[j]
  {
    if rows != [] {
      var rest := rows[..|rows| - 1];
      CallsAreDistinctIds(rest);
      forall c | c in Calls(rest) ensures exists i :: 0 <= i < |rows| && rows[i].callId == c {
        var i :| 0 <= i < |rest| && rest[i].callId == c;
        assert rows[i].callId == c;
      }
      forall i | 0 <= i < |rows| ensures rows[i].callId in Calls(rows) {
        if i < |rest| { assert rest[i].callId == rows[i].callId; }
      }
    }
  }

  lemma {:induction false} LatestStartIsMaximum(rows: seq<Segment>)
    requires rows != []
    ensures forall i :: 0 <= i < |rows| ==> rows[i].startedAt <= LatestStart(rows)
    ensures exists i :: 0 <= i < |rows| && rows[i].startedAt == LatestStart(rows)
  {
    var rest := rows[..|rows| - 1];
    if |rows| > 1 {
      LatestStartIsMaximum(rest);
      forall i | 0 <= i < |rows| ensures rows[i].startedAt <= LatestStart(rows) {
        if i < |rest| { assert rest[i] == rows[i]; }
      }
      var i :| 0 <= i < |rest| && rest[i].startedAt == LatestStart(rest);
      assert rows[i] == rest[i];
      assert rows[|rows| - 1].startedAt == LatestStart(rows) || rows[i].startedAt == LatestStart(rows);
    } else {
      assert rows[0].startedAt == LatestStart(rows);
    }
  }

  lemma {:induction false} TextsAt(rows: seq<Segment>)
    ensures |Texts(rows)| == |rows| && forall i :: 0 <= i < |rows| ==> Texts(rows)[i] == rows[i].text
  {
    if rows != [] {
      TextsAt(rows[..|rows| - 1]);
      assert forall i :: 0 <= i < |rows| - 1 ==> rows[i] == rows[..|rows| - 1][i];
    }
  }

  /** Calls are listed in the order in which their first rows come. */
  lemma {:induction false} CallsInOrderOfAppearance(rows: seq<Segment>, i: nat, j: nat, q: nat)
    requires i < j < |Calls(rows)| && q < |rows| && rows[q].callId == Calls(rows)[j]
    ensures exists p :: 0 <= p < q && rows[p].callId == Calls(rows)[i]
  {
    var rest := rows[..|rows| - 1];
    CallsAreDistinctIds(rest);
    if q < |rest| {
      assert rest[q] == rows[q] && rest[q].callId in Calls(rest);
      assert j < |Calls(rest)|;
      CallsInOrderOfAppearance(rest, i, j, q);
      var p :| 0 <= p < q && rest[p].callId == Calls(rest)[i];
      assert rows[p].callId == Calls(rows)[i];
    } else {
      assert Calls(rest)[i] in Calls(rest);
      var p :| 0 <= p < |rest| && rest[p].callId == Calls(rest)[i];
      assert rows[p].callId == Calls(rows)[i];
    }
  }

  /** One call's group: who and where from its first row, the latest start, all
      its texts in the given order. */
  function GroupOf(rows: seq<Segment>, c: string, lines: seq<string>): CallTranscript
    requires RowsOf(rows, c) != []
  {
    var own := RowsOf(rows, c);
    CallTranscript(own[0].owner, c, own[0].direction, own[0].remote, LatestStart(own), lines)
  }

  /** The first `maxCalls` calls of the rows, each with all its lines, last row
      first. */
  ghost predicate IsReassembled(rows: seq<Segment>, maxCalls: nat, groups: seq<CallTranscript>) {
    var ids := Calls(rows);
    && |groups| == (if |ids| <= maxCalls then |ids| else maxCalls)
    && forall g :: 0 <= g < |groups| ==>
         && RowsOf(rows, ids[g]) != []
         && groups[g] == GroupOf(rows, ids[g], Reverse(Texts(RowsOf(rows, ids[g]))))
  }

  // ---- The algorithm ----

  /** Reverses in place with two pointers. */
  method ReverseLines(lines: array<string>)
    modifies lines
    ensures lines[..] == Reverse(old(lines[..]))
  {
    var i, j := 0, lines.Length - 1;
    while i < j
      invariant 0 <= i && j == lines.Length - 1 - i && i <= j + 1
      invariant forall k :: 0 <= k < i ==> lines[k] == old(lines[lines.Length - 1 - k]) && lines[lines.Length - 1 - k] == old(lines[k])
      invariant forall k :: i <= k <= j ==> lines[k] == old(lines[k])
    {
      lines[i], lines[j] := lines[j], lines[i];
      i, j := i + 1, j - 1;
    }
  }

  ghost predicate RawGroup(rows: seq<Segment>, c: string, group: CallTranscript) {
    RowsOf(rows, c) != [] && group == GroupOf(rows, c, Texts(RowsOf(rows, c)))
  }

  ghost predicate AllRaw(rows: seq<Segment>, ids: seq<string>, groups: seq<CallTranscript>) {
    |groups| <= |ids| && forall g :: 0 <= g < |groups| ==> RawGroup(rows, ids[g], groups[g])
  }

  /** The first calls, up to the cap, are indexed; no others. */
  ghost predicate Indexed(ids: seq<string>, count: nat, maxCalls: nat, byCall: map<string, nat>) {
    && count == (if |ids| <= maxCalls then |ids| else maxCalls)
    && (forall g :: 0 <= g < count ==> ids[g] in byCall && byCall[ids[g]] == g)
    && (forall c :: c in byCall ==> byCall[c] < count && ids[byCall[c]] == c)
  }

  /** The grouping state after a prefix of the rows: the included calls with
      their lines in fetch order, and the index of each included call. */
  ghost predicate Grouped(rows: seq<Segment>, maxCalls: nat, groups: seq<CallTranscript>, byCall: map<string, nat>) {
    Indexed(Calls(rows), |groups|, maxCalls, byCall) && AllRaw(rows, Calls(rows), groups)
  }

  lemma RowsOfStep(rows: seq<Segment>, r: Segment, c: string)
    ensures RowsOf(rows + [r], c) == RowsOf(rows, c) + if r.callId == c then [r] else []
  {
    assert (rows + [r])[..|rows|] == rows;
  }

  lemma {:induction false} CallHasRows(rows: seq<Segment>, c: string)
    ensures c in Calls(rows) <==> RowsOf(rows, c) != []
  {
    if rows != [] { CallHasRows(rows[..|rows| - 1], c); }
  }

  lemma CallsStep(rows: seq<Segment>, r: Segment)
    ensures Calls(rows + [r]) == if r.callId in Calls(rows) then Calls(rows) else Calls(rows) + [r.callId]
  {
    assert (rows + [r])[..|rows|] == rows;
  }

  lemma OwnStep(rows: seq<Segment>, r: Segment)
    ensures Texts(rows + [r]) == Texts(rows) + [r.text]
    ensures rows != [] ==>
      LatestStart(rows + [r]) == if LatestStart(rows) < r.startedAt then r.startedAt else LatestStart(rows)
  {
    assert (rows + [r])[..|rows|] == rows;
  }

  /** What one row does to the grouping state. */
  function StepGroup(groups: seq<CallTranscript>, byCall: map<string, nat>, row: Segment, maxCalls: nat)
    : (seq<CallTranscript>, map<string, nat>)
    requires forall c :: c in byCall ==> byCall[c] < |groups|
  {
    if row.callId in byCall then
      (groups[byCall[row.callId] := Extended(groups[byCall[row.callId]], row)], byCall)
    else if |groups| < maxCalls then
      (groups + [CallTranscript(row.owner, row.callId, row.direction, row.remote, row.startedAt, [row.text])],
       byCall[row.callId := |groups|])
    else (groups, byCall)
  }

  function Extended(group: CallTranscript, row: Segment): CallTranscript {
    group.(lines := group.lines + [row.text],
           startedAt := if group.startedAt < row.startedAt then row.startedAt else group.startedAt)
  }

  lemma SameCallExtends(rows: seq<Segment>, row: Segment, group: CallTranscript)
    requires RawGroup(rows, row.callId, group)
    ensures RawGroup(rows + [row], row.callId, Extended(group, row))
  {
    RowsOfStep(rows, row, row.callId);
    OwnStep(RowsOf(rows, row.callId), row);
  }

  lemma OtherCallStays(rows: seq<Segment>, row: Segment, c: string, group: CallTranscript)
    requires RawGroup(rows, c, group) && row.callId != c
    ensures RawGroup(rows + [row], c, group)
  {
    RowsOfStep(rows, row, c);
    assert RowsOf(rows + [row], c) == RowsOf(rows, c);
  }

  lemma NewCallStarts(rows: seq<Segment>, row: Segment)
    requires row.callId !in Calls(rows)
    ensures RawGroup(rows + [row], row.callId,
                     CallTranscript(row.owner, row.callId, row.direction, row.remote, row.startedAt, [row.text]))
  {
    RowsOfStep(rows, row, row.callId);
    CallHasRows(rows, row.callId);
    assert RowsOf(rows + [row], row.callId) == [row];
    OwnStep([], row);
    assert [] + [row] == [row];
  }

  lemma KnownCallLands(rows: seq<Segment>, row: Segment, maxCalls: nat, groups: seq<CallTranscript>, byCall: map<string, nat>)
    requires Grouped(rows, maxCalls, groups, byCall) && row.callId in byCall
    ensures Grouped(rows + [row], maxCalls, groups[byCall[row.callId] := Extended(groups[byCall[row.callId]], row)], byCall)
  {
    assert Calls(rows)[byCall[row.callId]] == row.callId;
    CallsStep(rows, row);
    KnownCallGroups(rows, row, Calls(rows), groups, byCall[row.callId]);
  }

  lemma KnownCallGroups(rows: seq<Segment>, row: Segment, ids: seq<string>, groups: seq<CallTranscript>, idx: nat)
    requires AllRaw(rows, ids, groups) && idx < |groups| && ids[idx] == row.callId
    requires forall g :: 0 <= g < |groups| && ids[g] == row.callId ==> g == idx
    ensures AllRaw(rows + [row], ids, groups[idx := Extended(groups[idx], row)])
  {
    forall g | 0 <= g < |groups| ensures RawGroup(rows + [row], ids[g], groups[idx := Extended(groups[idx], row)][g]) {
      KnownCallGroup(rows, row, ids[g], groups[g]);
    }
  }

  lemma KnownCallGroup(rows: seq<Segment>, row: Segment, c: string, group: CallTranscript)
    requires RawGroup(rows, c, group)
    ensures RawGroup(rows + [row], c, if c == row.callId then Extended(group, row) else group)
  {
    if c == row.callId { SameCallExtends(rows, row, group); } else { OtherCallStays(rows, row, c, group); }
  }

  /** Included calls other than the row's own are untouched by it. */
  lemma OthersStay(rows: seq<Segment>, row: Segment, ids: seq<string>, groups: seq<CallTranscript>)
    requires AllRaw(rows, ids, groups) && forall g :: 0 <= g < |groups| ==> ids[g] != row.callId
    ensures AllRaw(rows + [row], ids, groups)
  {
    forall g | 0 <= g < |groups| ensures RawGroup(rows + [row], ids[g], groups[g]) {
      OtherCallStays(rows, row, ids[g], groups[g]);
    }
  }

  lemma NewCallIndexed(ids: seq<string>, count: nat, maxCalls: nat, byCall: map<string, nat>, c: string)
    requires Indexed(ids, count, maxCalls, byCall) && c !in byCall && count < maxCalls
    ensures c !in ids && |ids| == count
    ensures Indexed(ids + [c], count + 1, maxCalls, byCall[c := count])
  {
  }

  lemma NewCallRaw(rows: seq<Segment>, row: Segment, ids: seq<string>, groups: seq<CallTranscript>)
    requires AllRaw(rows, ids, groups) && |ids| == |groups| && row.callId !in ids && row.callId !in Calls(rows)
    ensures AllRaw(rows + [row], ids + [row.callId],
                   groups + [CallTranscript(row.owner, row.callId, row.direction, row.remote, row.startedAt, [row.text])])
  {
    OthersStay(rows, row, ids, groups);
    NewCallStarts(rows, row);
  }

  lemma NewCallLands(rows: seq<Segment>, row: Segment, maxCalls: nat, groups: seq<CallTranscript>, byCall: map<string, nat>)
    requires Grouped(rows, maxCalls, groups, byCall) && row.callId !in byCall && |groups| < maxCalls
    ensures Grouped(rows + [row], maxCalls,
                    groups + [CallTranscript(row.owner, row.callId, row.direction, row.remote, row.startedAt, [row.text])],
                    byCall[row.callId := |groups|])
  {
    NewCallIndexed(Calls(rows), |groups|, maxCalls, byCall, row.callId);
    NewCallRaw(rows, row, Calls(rows), groups);
    CallsStep(rows, row);
  }

  lemma RefusedCallStaysOut(rows: seq<Segment>, row: Segment, maxCalls: nat, groups: seq<CallTranscript>, byCall: map<string, nat>)
    requires Grouped(rows, maxCalls, groups, byCall) && row.callId !in byCall && |groups| >= maxCalls
    ensures Grouped(rows + [row], maxCalls, groups, byCall)
  {
    OthersStay(rows, row, Calls(rows), groups);
    CallsStep(rows, row);
  }

  lemma StepGroups(rows: seq<Segment>, row: Segment, maxCalls: nat, groups: seq<CallTranscript>, byCall: map<string, nat>)
    requires Grouped(rows, maxCalls, groups, byCall)
    ensures var (g', b') := StepGroup(groups, byCall, row, maxCalls); Grouped(rows + [row], maxCalls, g', b')
  {
    if row.callId in byCall {
      KnownCallLands(rows, row, maxCalls, groups, byCall);
    } else if |groups| < maxCalls {
      NewCallLands(rows, row, maxCalls, groups, byCall);
    } else {
      RefusedCallStaysOut(rows, row, maxCalls, groups, byCall);
    }
  }

  method Reversed(all: seq<string>) returns (r: seq<string>)
    ensures r == Reverse(all)
  {
    var lines := new string[|all|](j requires 0 <= j < |all| => all[j]);
    assert lines[..] == all;
    ReverseLines(lines);
    r := lines[..];
  }

  /** Restores spoken order: every group's lines reversed in place. */
  method ReverseAll(raw: seq<CallTranscript>) returns (groups: seq<CallTranscript>)
    ensures |groups| == |raw|
    ensures forall g :: 0 <= g < |raw| ==> groups[g] == raw[g].(lines := Reverse(raw[g].lines))
  {
    groups := raw;
    var i := 0;
    while i < |groups|
      invariant 0 <= i <= |groups| == |raw|
      invariant forall g :: 0 <= g < i ==> groups[g] == raw[g].(lines := Reverse(raw[g].lines))
      invariant forall g :: i <= g < |groups| ==> groups[g] == raw[g]
    {
      var lines := Reversed(groups[i].lines);
      groups := groups[i := groups[i].(lines := lines)];
      i := i + 1;
    }
  }

  /** One pass of the grouping loop. */
  method Land(groups: seq<CallTranscript>, byCall: map<string, nat>, row: Segment, maxCalls: nat)
    returns (groups': seq<CallTranscript>, byCall': map<string, nat>)
    requires forall c :: c in byCall ==> byCall[c] < |groups|
    ensures (groups', byCall') == StepGroup(groups, byCall, row, maxCalls)
  {
    groups', byCall' := groups, byCall;
    if row.callId !in byCall' {
      if |groups'| >= maxCalls {
        return;
      }
      byCall' := byCall'[row.callId := |groups'|];
      groups' := groups' + [CallTranscript(row.owner, row.callId, row.direction, row.remote, row.startedAt, [])];
    }
    var idx := byCall'[row.callId];
    var group := groups'[idx];
    group := group.(lines := group.lines + [row.text]);
    if group.startedAt < row.startedAt {
      group := group.(startedAt := row.startedAt);
    }
    groups' := groups'[idx := group];
    if row.callId !in byCall {
      assert group.lines == [row.text];
      assert groups' == groups + [group];
    } else {
      assert group == Extended(groups[idx], row);
    }
  }

  lemma RawToReassembled(rows: seq<Segment>, maxCalls: nat, raw: seq<CallTranscript>, byCall: map<string, nat>, groups: seq<CallTranscript>)
    requires Grouped(rows, maxCalls, raw, byCall) && |groups| == |raw|
    requires forall g :: 0 <= g < |raw| ==> groups[g] == raw[g].(lines := Reverse(raw[g].lines))
    ensures IsReassembled(rows, maxCalls, groups)
  {
    forall g | 0 <= g < |groups|
      ensures RowsOf(rows, Calls(rows)[g]) != []
      ensures groups[g] == GroupOf(rows, Calls(rows)[g], Reverse(Texts(RowsOf(rows, Calls(rows)[g]))))
    {
      assert RawGroup(rows, Calls(rows)[g], raw[g]);
    }
  }

  /** Groups newest-first segments into whole calls, at most `maxCalls` of them:
      segments of included calls keep landing, only new calls are refused past
      the cap; one finishing reverse per group restores spoken order. */
  method ReassembleTranscripts(rows: seq<Segment>, maxCalls: nat) returns (groups: seq<CallTranscript>)
    ensures IsReassembled(rows, maxCalls, groups)
  {
    groups := [];
    var byCall: map<string, nat> := map[];
    var k := 0;
    while k < |rows|
      invariant 0 <= k <= |rows|
      invariant Grouped(rows[..k], maxCalls, groups, byCall)
    {
      assert rows[..k + 1] == rows[..k] + [rows[k]];
      StepGroups(rows[..k], rows[k], maxCalls, groups, byCall);
      groups, byCall := Land(groups, byCall, rows[k], maxCalls);
      k := k + 1;
    }
    assert rows[..|rows|] == rows;
    ghost var raw := groups;
    groups := ReverseAll(groups);
    RawToReassembled(rows, maxCalls, raw, byCall, groups);
  }

  lemma {:induction false} TextsConcat(a: seq<Segment>, b: seq<Segment>)
    ensures Texts(a + b) == Texts(a) + Texts(b)
  {
    if b == [] {
      assert a + b == a;
    } else {
      assert (a + b)[..|a + b| - 1] == a + b[..|b| - 1];
      TextsConcat(a, b[..|b| - 1]);
    }
  }

  lemma {:induction false} TextsReverse(rows: seq<Segment>)
    ensures Texts(Reverse(rows)) == Reverse(Texts(rows))
  {
    if rows != [] {
      var rest, last := rows[..|rows| - 1], rows[|rows| - 1];
      TextsReverse(rest);
      TextsConcat([last], Reverse(rest));
      ReverseConcat(Texts(rest), [last.text]);
      assert Texts([last]) == [last.text];
      assert Reverse([last.text]) == [last.text];
    }
  }

  /** On newest-first input every group's lines come out in spoken order. */
  lemma SpokenOrder(spoken: seq<Segment>, c: string)
    ensures Reverse(Texts(RowsOf(Reverse(spoken), c))) == Texts(RowsOf(spoken, c))
  {
    FilterReverse(spoken, HasCall(c));
    TextsReverse(RowsOf(spoken, c));
    ReverseTwice(Texts(RowsOf(spoken, c)));
  }
}
