/** The outbound fax lifecycle: the transition table and the step function. */
module FaxMachine {

  /** `Received` is the inbound fact; the others are the outbound lifecycle. */
  datatype FaxStatus = Queued | Sending | Transmitted | Received | Failed

  datatype FaxEventKind = OnAccepted | OnSettled | OnSubmitFailed | OnVerdict

  datatype FaxEvent = FaxAccepted | FaxSettled | FaxSubmitFailed | FaxVerdict(status: FaxStatus)

  datatype FaxMove = FaxMove(from: FaxStatus, on: FaxEventKind, to: FaxStatus)

  const FAX_MOVES: set<FaxMove> := {
    FaxMove(Queued, OnAccepted, Sending),
    FaxMove(Queued, OnSubmitFailed, Failed),
    FaxMove(Sending, OnSettled, Transmitted),
    FaxMove(Queued, OnVerdict, Transmitted),
    FaxMove(Sending, OnVerdict, Transmitted),
    FaxMove(Failed, OnVerdict, Transmitted),
    FaxMove(Transmitted, OnVerdict, Transmitted),
    FaxMove(Queued, OnVerdict, Failed),
    FaxMove(Sending, OnVerdict, Failed),
    FaxMove(Transmitted, OnVerdict, Failed),
    FaxMove(Failed, OnVerdict, Failed)
  }

  function Kind(e: FaxEvent): FaxEventKind {
    match e
    case FaxAccepted => OnAccepted
    case FaxSettled => OnSettled
    case FaxSubmitFailed => OnSubmitFailed
    case FaxVerdict(_) => OnVerdict
  }

  /** The status an event proposes. */
  function Target(e: FaxEvent): FaxStatus {
    match e
    case FaxAccepted => Sending
    case FaxSettled => Transmitted
    case FaxSubmitFailed => Failed
    case FaxVerdict(s) => s
  }

  /** Applies one event; an event with no legal move changes nothing. */
  function FaxAdvance(from: FaxStatus, e: FaxEvent): (r: (FaxStatus, bool))
    ensures r.1 <==> FaxMove(from, Kind(e), r.0) in FAX_MOVES && r.0 == Target(e)
    ensures !r.1 ==> r.0 == from
  {
    if FaxMove(from, Kind(e), Target(e)) in FAX_MOVES then (Target(e), true) else (from, false)
  }

  /** A verdict moves exactly the outbound states, and only to transmitted or
      failed; submits and settlement fire on their one lane; nothing ever enters
      or leaves the received fact. */
  lemma LegalMoves(from: FaxStatus, e: FaxEvent)
    ensures FaxAdvance(from, e).1 <==>
      match e
      case FaxVerdict(s) => from != Received && (s == Transmitted || s == Failed)
      case FaxSettled => from == Sending
      case _ => from == Queued
    ensures FaxAdvance(from, e).0 == Received <==> from == Received
  {
  }
}
