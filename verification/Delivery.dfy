/** The delivery lifecycle of outbound messages: the transition table, the step
    function, runs of events, and the messaging operations that feed it. */
module Delivery {
  import opened Collections

  datatype OutboundStatus = Queued | Sent | Delivered | Failed

  datatype FailureKind = FailureNone | Transient | Rejected | Provider

  datatype Verdict = VerdictDelivered | VerdictFailed

  /** The machine-owned part of a message. */
  datatype Delivery = Delivery(status: OutboundStatus, providerRef: string, failureKind: FailureKind, failureDetail: string)

  const NEW_DELIVERY := Delivery(Queued, "", FailureNone, "")

  datatype Event =
    | SendAccepted(ref: string)
    | SendRefused(failure: FailureKind, detail: string)
    | ProviderVerdict(verdict: Verdict, detail: string)

  datatype EventKind = OnAccepted | OnRefused | OnVerdict

  datatype Move = Move(from: OutboundStatus, on: EventKind, to: OutboundStatus)

  const DELIVERY_MOVES: set<Move> := {
    Move(Queued, OnAccepted, Sent),
    Move(Queued, OnRefused, Failed),
    Move(Queued, OnVerdict, Delivered),
    Move(Sent, OnVerdict, Delivered),
    Move(Failed, OnVerdict, Delivered),
    Move(Delivered, OnVerdict, Delivered),
    Move(Queued, OnVerdict, Failed),
    Move(Sent, OnVerdict, Failed),
    Move(Failed, OnVerdict, Failed),
    Move(Delivered, OnVerdict, Failed)
  }

  function StatusOf(v: Verdict): OutboundStatus {
    match v
    case VerdictDelivered => Delivered
    case VerdictFailed => Failed
  }

  /** The verdict a reported status stands for, if it is one. */
  function VerdictOf(status: OutboundStatus): (v: Option<Verdict>)
    ensures v.Some? <==> exists w :: StatusOf(w) == status
    ensures v.Some? ==> StatusOf(v.value) == status
  {
    match status
    case Delivered => assert StatusOf(VerdictDelivered) == status; Some(VerdictDelivered)
    case Failed => assert StatusOf(VerdictFailed) == status; Some(VerdictFailed)
    case _ => None
  }

  function Kind(e: Event): EventKind {
    match e
    case SendAccepted(_) => OnAccepted
    case SendRefused(_, _) => OnRefused
    case ProviderVerdict(_, _) => OnVerdict
  }

  function Target(e: Event): OutboundStatus {
    match e
    case SendAccepted(_) => Sent
    case SendRefused(_, _) => Failed
    case ProviderVerdict(v, _) => StatusOf(v)
  }

  /** Applies one event; an event with no legal move changes nothing. */
  function DeliveryAdvance(d: Delivery, e: Event): (r: (Delivery, bool))
    ensures r.1 <==> Move(d.status, Kind(e), r.0.status) in DELIVERY_MOVES && r.0.status == Target(e)
    ensures !r.1 ==> r.0 == d
  {
    if Move(d.status, Kind(e), Target(e)) !in DELIVERY_MOVES then (d, false)
    else match e
      case SendAccepted(ref) => (Delivery(Sent, ref, FailureNone, ""), true)
      case SendRefused(failure, detail) => (d.(status := Failed, failureKind := failure, failureDetail := detail), true)
      case ProviderVerdict(v, detail) =>
        if v == VerdictFailed
        then (d.(status := StatusOf(v), failureKind := Provider, failureDetail := detail), true)
        else (d.(status := StatusOf(v), failureKind := FailureNone, failureDetail := ""), true)
  }

  /** What each event makes of a message: the gateway's answer counts while it is
      queued, a verdict always, and only an accepted send brings a ref. */
  lemma WhatEventsDo(d: Delivery, e: Event)
    ensures DeliveryAdvance(d, e) ==
      match e
      case SendAccepted(ref) => if d.status == Queued then (Delivery(Sent, ref, FailureNone, ""), true) else (d, false)
      case SendRefused(kind, detail) =>
        if d.status == Queued then (Delivery(Failed, d.providerRef, kind, detail), true) else (d, false)
      case ProviderVerdict(VerdictDelivered, _) => (Delivery(Delivered, d.providerRef, FailureNone, ""), true)
      case ProviderVerdict(VerdictFailed, detail) => (Delivery(Failed, d.providerRef, Provider, detail), true)
  {
    AlwaysHeard(d, e);
  }

  function Run(events: seq<Event>): Delivery {
    if events == [] then NEW_DELIVERY
    else DeliveryAdvance(Run(events[..|events| - 1]), events[|events| - 1]).0
  }

  /** Every verdict moves, from every state; send events move only from queued. */
  lemma AlwaysHeard(d: Delivery, e: Event)
    ensures DeliveryAdvance(d, e).1 <==> e.ProviderVerdict? || d.status == Queued
    ensures DeliveryAdvance(d, e).1 ==> DeliveryAdvance(d, e).0.status != Queued
  {
    assert Move(d.status, OnVerdict, Delivered) in DELIVERY_MOVES && Move(d.status, OnVerdict, Failed) in DELIVERY_MOVES by {
      match d.status { case Queued => case Sent => case Delivered => case Failed => }
    }
    if e.ProviderVerdict? {
      assert StatusOf(e.verdict) == Delivered || StatusOf(e.verdict) == Failed;
    }
  }

  predicate NamesItsFailure(e: Event) { e.SendRefused? ==> e.failure != FailureNone }

  /** Failed exactly when there is a failure story. */
  predicate StoryFits(d: Delivery) {
    && (d.status == Failed <==> d.failureKind != FailureNone)
    && (d.failureKind == FailureNone ==> d.failureDetail == "")
  }

  lemma {:induction false} FailedIffStory(events: seq<Event>)
    requires forall i :: 0 <= i < |events| ==> NamesItsFailure(events[i])
    ensures StoryFits(Run(events))
  {
    if events != [] {
      FailedIffStory(events[..|events| - 1]);
      assert NamesItsFailure(events[|events| - 1]);
    }
  }

  lemma {:induction false} QueuedIsNew(events: seq<Event>)
    ensures Run(events).status == Queued ==> Run(events) == NEW_DELIVERY
  {
    if events != [] {
      QueuedIsNew(events[..|events| - 1]);
      AlwaysHeard(Run(events[..|events| - 1]), events[|events| - 1]);
    }
  }

  lemma StepOn(d: Delivery, e: Event)
    ensures d.status != Queued ==>
      DeliveryAdvance(d, e).0.status != Queued && DeliveryAdvance(d, e).0.providerRef == d.providerRef
  {
  }

  lemma {:induction false} PrefixRun(events: seq<Event>, i: nat, j: nat)
    requires i <= j <= |events|
    ensures Run(events[..i]).status != Queued ==>
      Run(events[..j]).status != Queued && Run(events[..j]).providerRef == Run(events[..i]).providerRef
  {
    if i < j {
      PrefixRun(events, i, j - 1);
      var more := events[..j];
      assert more[..|more| - 1] == events[..j - 1];
      StepOn(Run(events[..j - 1]), more[|more| - 1]);
    }
  }

  /** A state left is left for good: never back to queued, and the ref a message
      got when it left is the one it keeps; before that it has none. So the ref
      is set at most once and never cleared. */
  lemma NeverBack(events: seq<Event>, i: nat, j: nat)
    requires i <= j <= |events|
    ensures Run(events[..i]).status != Queued ==> Run(events[..j]).status != Queued
    ensures Run(events[..i]).providerRef != "" ==> Run(events[..j]).providerRef == Run(events[..i]).providerRef
    ensures forall k, l :: 0 <= k < l <= i <= j && Run(events[..k]).providerRef != Run(events[..l]).providerRef ==>
      Run(events[..k]).providerRef == "" && Run(events[..j]).providerRef == Run(events[..l]).providerRef
  {
    PrefixRun(events, i, j);
    QueuedIsNew(events[..i]);
    forall k, l | 0 <= k < l <= i && Run(events[..k]).providerRef != Run(events[..l]).providerRef
      ensures Run(events[..k]).providerRef == "" && Run(events[..j]).providerRef == Run(events[..l]).providerRef
    {
      PrefixRun(events, k, l);
      QueuedIsNew(events[..k]);
      PrefixRun(events, l, j);
      QueuedIsNew(events[..l]);
    }
  }

  /** What a verdict says about the message. */
  ghost predicate Tells(d: Delivery, e: Event)
    requires e.ProviderVerdict?
  {
    && d.status == StatusOf(e.verdict)
    && d.failureKind == (if e.verdict == VerdictFailed then Provider else FailureNone)
    && d.failureDetail == (if e.verdict == VerdictFailed then e.detail else "")
  }

  /** The last verdict alone decides status and failure story, whatever came
      before it and whatever send events come after. */
  lemma {:induction false} LastVerdictDecides(events: seq<Event>, k: nat)
    requires k < |events| && events[k].ProviderVerdict?
    requires forall j :: k < j < |events| ==> !events[j].ProviderVerdict?
    ensures Tells(Run(events), events[k])
  {
    if k < |events| - 1 {
      LastVerdictDecides(events[..|events| - 1], k);
      AlwaysHeard(Run(events[..|events| - 1]), events[|events| - 1]);
    } else {
      AlwaysHeard(Run(events[..k]), events[k]);
    }
  }

  /** So a verdict repeated later, with no other verdict between, changes nothing. */
  lemma RepeatChangesNothing(events: seq<Event>, k: nat)
    requires k < |events| && events[k].ProviderVerdict?
    requires forall j :: k < j < |events| ==> !events[j].ProviderVerdict?
    ensures Run(events + [events[k]]) == Run(events)
  {
    LastVerdictDecides(events, k);
    assert (events + [events[k]])[..|events + [events[k]]| - 1] == events;
  }

  // ---- The messaging operations ----

  datatype ErrorFamily = Rejection | TransientError | Infrastructure

  datatype SendError = SendError(family: ErrorFamily, text: string)

  /** A refusal fails the same way on a retry; anything else may not. */
  function FailureKindOf(err: SendError): (kind: FailureKind)
    ensures kind == Rejected || kind == Transient
    ensures kind == Rejected <==> err.family == Rejection
  {
    if err.family == Rejection then Rejected else Transient
  }

  datatype Message = Message(owner: string, remote: string, outbound: bool, delivery: Delivery)

  datatype Answer = Accepted(ref: string) | Refused(err: SendError)

  function EventOf(answer: Answer): Event {
    match answer
    case Accepted(ref) => SendAccepted(ref)
    case Refused(err) => SendRefused(FailureKindOf(err), err.text)
  }

  datatype ReceiptResult = NotAVerdict | NoSuchMessage | WriteFailed | Applied(msg: Message)

  class Messages {
    var messages: map<string, Message>

    /** Every outbound message's story fits its status. */
    ghost predicate Valid()
      reads this
    {
      forall id :: id in messages && messages[id].outbound ==> StoryFits(messages[id].delivery)
    }

    constructor ()
      ensures Valid() && messages == map[]
    {
      messages := map[];
    }

    /** Persists a new outbound message and records the gateway's answer to it;
        `appended` and `marked` say whether the two writes work. Nothing is sent
        that is not stored, and the message handed back tells the answer even when
        the second write is lost. */
    method Forward(id: string, owner: string, remote: string, appended: bool, answer: Answer, marked: bool)
      returns (sent: Option<Message>, err: bool)
      requires Valid() && id !in messages
      modifies this
      ensures Valid()
      ensures sent.Some? <==> appended
      ensures !appended ==> err && messages == old(messages)
      ensures appended ==>
        && sent.value == Message(owner, remote, true, Run([EventOf(answer)])) && err == answer.Refused?
        && messages == old(messages)[id := if marked then sent.value else sent.value.(delivery := NEW_DELIVERY)]
      ensures appended && answer.Accepted? ==> sent.value.delivery == Delivery(Sent, answer.ref, FailureNone, "")
      ensures appended && answer.Refused? ==>
        sent.value.delivery == Delivery(Failed, "", FailureKindOf(answer.err), answer.err.text)
    {
      if !appended {
        return None, true;
      }
      var msg := Message(owner, remote, true, NEW_DELIVERY);
      messages := messages[id := msg];
      var (next, _) := DeliveryAdvance(msg.delivery, EventOf(answer));
      assert [EventOf(answer)][..0] == [];
      msg := msg.(delivery := next);
      if marked {
        messages := messages[id := msg];
      }
      return Some(msg), answer.Refused?;
    }

    method ByProviderRef(ref: string) returns (found: Option<string>)
      ensures found.Some? ==>
        ref != "" && found.value in messages && messages[found.value].outbound && messages[found.value].delivery.providerRef == ref
      ensures found.None? ==>
        ref == "" || forall id :: id in messages && messages[id].outbound ==> messages[id].delivery.providerRef != ref
    {
      if ref == "" {
        return None;
      }
      var matching := set id | id in messages && messages[id].outbound && messages[id].delivery.providerRef == ref;
      if matching == {} {
        assert forall id :: id in messages && messages[id].outbound && messages[id].delivery.providerRef == ref ==> id in matching;
        return None;
      }
      var id :| id in matching;
      return Some(id);
    }

    /** Applies a provider's verdict to the message its ref names. */
    method DeliveryReceipt(ref: string, status: OutboundStatus, detail: string, written: bool)
      returns (r: ReceiptResult, ghost target: string)
      requires Valid()
      modifies this
      ensures Valid()
      ensures r.NotAVerdict? <==> status == Queued || status == Sent
      ensures r.NoSuchMessage? <==>
        && VerdictOf(status).Some?
        && (ref == "" ||
            forall id :: id in old(messages) && old(messages)[id].outbound ==> old(messages)[id].delivery.providerRef != ref)
      ensures !r.Applied? ==> messages == old(messages)
      ensures r.WriteFailed? ==> !written
      ensures r.Applied? ==>
        && written && target in old(messages) && old(messages)[target].outbound
        && old(messages)[target].delivery.providerRef == ref
        && messages == old(messages)[target := r.msg]
        && r.msg == old(messages)[target].(delivery := r.msg.delivery)
        && Tells(r.msg.delivery, ProviderVerdict(VerdictOf(status).value, detail))
        && r.msg.delivery.providerRef == ref
    {
      target := "";
      var verdict := VerdictOf(status);
      if verdict.None? {
        return NotAVerdict, target;
      }
      var found := ByProviderRef(ref);
      if found.None? {
        return NoSuchMessage, target;
      }
      target := found.value;
      var msg := messages[found.value];
      AlwaysHeard(msg.delivery, ProviderVerdict(verdict.value, detail));
      var (next, _) := DeliveryAdvance(msg.delivery, ProviderVerdict(verdict.value, detail));
      if !written {
        return WriteFailed, target;
      }
      messages := messages[found.value := msg.(delivery := next)];
      return Applied(msg.(delivery := next)), target;
    }

    /** A read marker is a delivered verdict. */
    method RemoteRead(ref: string, written: bool) returns (known: bool, ghost target: string)
      requires Valid()
      modifies this
      ensures Valid()
      ensures known && written ==>
        && target in old(messages) && old(messages)[target].delivery.providerRef == ref
        && messages == old(messages)[target := old(messages)[target].(delivery := Delivery(Delivered, ref, FailureNone, ""))]
      ensures !(known && written) ==> messages == old(messages)
    {
      var r;
      r, target := DeliveryReceipt(ref, Delivered, "", written);
      known := !r.NoSuchMessage?;
    }
  }
}
