/** One outbound message against racing receipts: the sender's second write and
    the receipts' lookups and writes as separate steps, in any order. */
module DeliveryRace {
  import opened Delivery

  /** A receipt between its lookup and its write, with the message it read. */
  datatype Receipt = Receipt(event: Event, seen: Delivery)

  /** `story` lists the events whose writes were stored, in order. */
  datatype State = State(answer: Answer, marked: bool, row: Delivery, open: seq<Receipt>, story: seq<Event>)

  /** The sender's second write; a receipt's lookup, which finds the message by
      its stored ref; a receipt's write. Either write may fail. */
  datatype Act = Mark(works: bool) | Look(ref: string, verdict: Verdict, detail: string) | Write(i: nat, works: bool)

  function Init(answer: Answer): State {
    State(answer, false, NEW_DELIVERY, [], [])
  }

  function Store(s: State, seen: Delivery, e: Event): State {
    s.(row := DeliveryAdvance(seen, e).0, story := s.story + [e])
  }

  function Step(s: State, a: Act): State {
    match a
    case Mark(works) =>
      if s.marked then s
      else if works then Store(s, NEW_DELIVERY, EventOf(s.answer)).(marked := true)
      else s.(marked := true)
    case Look(ref, verdict, detail) =>
      if ref != "" && ref == s.row.providerRef
      then s.(open := s.open + [Receipt(ProviderVerdict(verdict, detail), s.row)]) else s
    case Write(i, works) =>
      if i >= |s.open| then s
      else
        var r, closed := s.open[i], s.(open := s.open[..i] + s.open[i + 1..]);
        if works then Store(closed, r.seen, r.event) else closed
  }

  function Exec(answer: Answer, acts: seq<Act>): State {
    if acts == [] then Init(answer) else Step(Exec(answer, acts[..|acts| - 1]), acts[|acts| - 1])
  }

  /** What a receipt read differs from the row at most in what it overwrites. */
  ghost predicate UpToDate(s: State, r: Receipt) {
    r.event.ProviderVerdict? && r.seen.status != Queued && r.seen.providerRef == s.row.providerRef
  }

  ghost predicate Inv(s: State) {
    && s.row == Run(s.story)
    && (!s.marked ==> s.story == [])
    && (s.row.providerRef != "" ==> s.row.status != Queued)
    && (s.open != [] ==> s.row.providerRef != "")
    && forall i :: 0 <= i < |s.open| ==> UpToDate(s, s.open[i])
  }

  /** A verdict's outcome depends on nothing of the message but its ref. */
  lemma VerdictForgets(seen: Delivery, row: Delivery, e: Event)
    requires e.ProviderVerdict? && seen.providerRef == row.providerRef
    ensures DeliveryAdvance(seen, e) == DeliveryAdvance(row, e)
    ensures DeliveryAdvance(row, e).0.providerRef == row.providerRef && DeliveryAdvance(row, e).0.status != Queued
  {
    AlwaysHeard(seen, e);
    AlwaysHeard(row, e);
  }

  lemma RunSnoc(story: seq<Event>, e: Event)
    ensures Run(story + [e]) == DeliveryAdvance(Run(story), e).0
  {
    assert (story + [e])[..|story|] == story;
  }

  lemma StepKeeps(s: State, a: Act)
    requires Inv(s)
    ensures Inv(Step(s, a))
  {
    match a
    case Mark(_) => RunSnoc([], EventOf(s.answer));
    case Look(_, _, _) =>
    case Write(i, works) =>
      if i < |s.open| {
        assert UpToDate(s, s.open[i]);
        VerdictForgets(s.open[i].seen, s.row, s.open[i].event);
        RunSnoc(s.story, s.open[i].event);
      }
  }

  /** However receipts race each other and the sender, the stored message is what
      the stored events give one after the other, in the order of their writes: no
      stale read is ever felt. */
  lemma {:induction false} RacingReceiptsAreSerial(answer: Answer, acts: seq<Act>)
    ensures Inv(Exec(answer, acts)) && Exec(answer, acts).row == Run(Exec(answer, acts).story)
  {
    if acts != [] {
      RacingReceiptsAreSerial(answer, acts[..|acts| - 1]);
      StepKeeps(Exec(answer, acts[..|acts| - 1]), acts[|acts| - 1]);
    }
  }

  /** So the receipt written last decides status and story. */
  lemma LastWriteDecides(answer: Answer, acts: seq<Act>)
    requires var story := Exec(answer, acts).story; story != [] && story[|story| - 1].ProviderVerdict?
    ensures var s := Exec(answer, acts); Tells(s.row, s.story[|s.story| - 1])
  {
    RacingReceiptsAreSerial(answer, acts);
    LastVerdictDecides(Exec(answer, acts).story, |Exec(answer, acts).story| - 1);
  }

  /** A message whose second write was lost stays queued: no receipt can find it. */
  lemma {:induction false} LostMarkStaysQueued(answer: Answer, acts: seq<Act>)
    requires forall i :: 0 <= i < |acts| ==> acts[i] != Mark(true)
    ensures Exec(answer, acts).row == NEW_DELIVERY && Exec(answer, acts).story == []
  {
    if acts != [] {
      LostMarkStaysQueued(answer, acts[..|acts| - 1]);
      RacingReceiptsAreSerial(answer, acts[..|acts| - 1]);
    }
  }
}
