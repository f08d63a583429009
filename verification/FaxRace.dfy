/** Sends and status webhooks racing on the fax rows. A drive is three atomic
    sections (gateway answer, first write, settling write); a webhook is two (the
    lookup, the write), so a verdict is decided on a row that may have moved by
    the time it is stored. Threads interleave freely; the engine may refuse any
    write or lookup, retention may expunge any row and the process may restart at
    any moment. */
module FaxRace {
  import opened FaxMachine
  import opened FaxStore
  import opened FaxService

  datatype SenderPc = AtGateway | ToFail(reason: string) | ToSend(ref: string, immediate: bool) | ToSettle | Sent

  datatype Sender = Sender(id: string, pc: SenderPc)

  datatype HookPc = ToRead | ToApply(id: string) | Answered

  datatype Hook = Hook(report: Report, pc: HookPc)

  /** The gateway gave this ref to this fax. */
  datatype Issue = Issue(ref: string, id: string)

  /** One stored status write: the row, the event behind it, what it replaced. */
  datatype Change = Change(id: string, on: FaxEventKind, from: FaxStatus, to: FaxStatus, ref: string)

  /** `lost` are the faxes whose drive's first write the engine refused. */
  datatype Race = Race(
    store: Store, senders: seq<Sender>, hooks: seq<Hook>,
    ids: set<string>, issued: set<Issue>, lost: set<string>, log: seq<Change>)

  const IDLE := Race(Store(map[], {}), [], [], {}, {}, {}, [])

  datatype Act =
    | Create(id: string, owner: string, remote: string, path: string, at: int)
    | Inbound(id: string, owner: string, remote: string, path: string, ref: string, pages: int, at: int)
    | Answer(t: nat, answer: GatewayAnswer)
    | Write(t: nat, at: int)
    | LoseWrite(t: nat)
    | Hear(report: Report)
    | Look(h: nat, found: string)
    | Apply(h: nat)
    | FailHook(h: nat)
    | Expunge(id: string)
    | Restart

  // ---- The atomic sections; a step that is not enabled changes nothing ----

  function AfterCreate(s: Race, a: Act): Race
    requires a.Create?
  {
    if a.id in s.ids then s
    else s.(store := s.store.(rows := s.store.rows[a.id := OutboundRow(a.owner, a.remote, a.path, a.at)]),
            senders := s.senders + [Sender(a.id, AtGateway)], ids := s.ids + {a.id})
  }

  function AfterInbound(s: Race, a: Act): Race
    requires a.Inbound?
  {
    if a.id in s.ids then s
    else s.(store := s.store.(rows := s.store.rows[a.id := InboundRow(a.owner, a.remote, a.path, a.ref, a.pages, a.at)]),
            ids := s.ids + {a.id}, issued := s.issued + {Issue(a.ref, a.id)})
  }

  function AfterAnswer(s: Race, t: nat, answer: GatewayAnswer): Race {
    if t >= |s.senders| || !s.senders[t].pc.AtGateway? then s
    else match answer
      case Refused(reason) => s.(senders := s.senders[t := Sender(s.senders[t].id, ToFail(reason))])
      case Accepted(ref, immediate) =>
        s.(senders := s.senders[t := Sender(s.senders[t].id, ToSend(ref, immediate))],
           issued := s.issued + {Issue(ref, s.senders[t].id)})
  }

  /** One `UpdateStatus`, logged when the row is there. */
  function Stored(s: Race, id: string, on: FaxEventKind, d: FaxDelivery, at: int): Race {
    if id !in s.store.rows then s
    else s.(store := AfterUpdate(s.store, id, d, at),
            log := s.log + [Change(id, on, s.store.rows[id].status, d.status, d.providerRef)])
  }

  function AfterWrite(s: Race, t: nat, at: int): Race {
    if t >= |s.senders| then s
    else
      var id := s.senders[t].id;
      match s.senders[t].pc
      case ToFail(reason) =>
        Stored(s, id, OnSubmitFailed, DriveWrites(Refused(reason))[0], at).(senders := s.senders[t := Sender(id, Sent)])
      case ToSend(ref, immediate) =>
        Stored(s, id, OnAccepted, DriveWrites(Accepted(ref, immediate))[0], at)
          .(senders := s.senders[t := Sender(id, if immediate then ToSettle else Sent)])
      case ToSettle =>
        Stored(s, id, OnSettled, SETTLING, at).(senders := s.senders[t := Sender(id, Sent)])
      case _ => s
  }

  /** The engine refuses the write; the drive logs that and goes on. */
  function AfterLoseWrite(s: Race, t: nat): Race {
    if t >= |s.senders| || s.senders[t].pc.AtGateway? || s.senders[t].pc.Sent? then s
    else
      var id, pc := s.senders[t].id, s.senders[t].pc;
      s.(senders := s.senders[t := Sender(id, if pc.ToSend? && pc.immediate then ToSettle else Sent)],
         lost := if pc.ToSettle? then s.lost else s.lost + {id})
  }

  function AfterHear(s: Race, report: Report): Race {
    s.(hooks := s.hooks + [Hook(report, ToRead)])
  }

  predicate Carries(s: Race, id: string, ref: string) {
    ref != "" && id in s.store.rows && s.store.rows[id].providerRef == ref
  }

  /** The lookup and the decision: `found` is the row the ref resolves to. A ref
      without a row ends the webhook, and so does a verdict with no legal move. */
  function AfterLook(s: Race, h: nat, found: string): Race {
    if h >= |s.hooks| || !s.hooks[h].pc.ToRead? then s
    else
      var report := s.hooks[h].report;
      if Carries(s, found, report.ref) && FaxAdvance(s.store.rows[found].status, FaxVerdict(Claimed(report))).1
      then s.(hooks := s.hooks[h := Hook(report, ToApply(found))])
      else s.(hooks := s.hooks[h := Hook(report, Answered)])
  }

  function AfterApply(s: Race, h: nat): Race {
    if h >= |s.hooks| || !s.hooks[h].pc.ToApply? then s
    else
      var report, id := s.hooks[h].report, s.hooks[h].pc.id;
      var done := s.(hooks := s.hooks[h := Hook(report, Answered)]);
      if id !in s.store.rows || KeyOf(report) in s.store.applied then done
      else done.(store := AfterIdempotent(s.store, KeyOf(report), id, DeliveryOf(report), report.at),
                 log := s.log + [Change(id, OnVerdict, s.store.rows[id].status, Claimed(report), report.ref)])
  }

  /** The lookup or the write fails; the webhook answers with an error. */
  function AfterFailHook(s: Race, h: nat): Race {
    if h >= |s.hooks| then s else s.(hooks := s.hooks[h := Hook(s.hooks[h].report, Answered)])
  }

  function AfterExpunge(s: Race, id: string): Race {
    s.(store := s.store.(rows := s.store.rows - {id}))
  }

  /** The threads and the idempotence keys die with the process. */
  function AfterRestart(s: Race): Race {
    s.(store := s.store.(applied := {}), senders := [], hooks := [])
  }

  function Next(s: Race, a: Act): Race {
    match a
    case Create(_, _, _, _, _) => AfterCreate(s, a)
    case Inbound(_, _, _, _, _, _, _) => AfterInbound(s, a)
    case Answer(t, answer) => AfterAnswer(s, t, answer)
    case Write(t, at) => AfterWrite(s, t, at)
    case LoseWrite(t) => AfterLoseWrite(s, t)
    case Hear(report) => AfterHear(s, report)
    case Look(h, found) => AfterLook(s, h, found)
    case Apply(h) => AfterApply(s, h)
    case FailHook(h) => AfterFailHook(s, h)
    case Expunge(id) => AfterExpunge(s, id)
    case Restart => AfterRestart(s)
  }

  function Run(acts: seq<Act>): Race {
    if acts == [] then IDLE else Next(Run(acts[..|acts| - 1]), acts[|acts| - 1])
  }

  // ---- What every interleaving keeps ----

  predicate Unsent(pc: SenderPc) { pc.AtGateway? || pc.ToFail? || pc.ToSend? }

  /** The faxes whose drive has not made its first write. */
  function UnsentIds(s: Race): set<string> {
    set t | 0 <= t < |s.senders| && Unsent(s.senders[t].pc) :: s.senders[t].id
  }

  ghost predicate Judged(log: seq<Change>, id: string) {
    exists k :: 0 <= k < |log| && log[k].id == id && log[k].on == OnVerdict
  }

  /** Before its first write a drive's row is queued, without ref and unjudged;
      before the settling write it is sending, unless a verdict came first or the
      first write was lost and it is queued still. */
  ghost predicate SenderOk(s: Race, sender: Sender) {
    && sender.id in s.ids
    && (sender.pc.ToSend? ==> Issue(sender.pc.ref, sender.id) in s.issued)
    && (Unsent(sender.pc) ==> !Judged(s.log, sender.id) && sender.id !in s.lost)
    && (Unsent(sender.pc) && sender.id in s.store.rows ==>
          s.store.rows[sender.id].status == Queued && s.store.rows[sender.id].providerRef == "")
    && (sender.pc.ToSettle? && sender.id in s.store.rows ==>
          var status := s.store.rows[sender.id].status;
          if Judged(s.log, sender.id) then status == Transmitted || status == Failed
          else status == if sender.id in s.lost then Queued else Sending)
  }

  /** A webhook about to write has a lawful verdict for an outbound row that
      carries its ref, and whose drive has made its first write. */
  ghost predicate HookOk(s: Race, hook: Hook) {
    hook.pc.ToApply? ==>
      && Lawful(hook.report) && hook.report.ref != ""
      && hook.pc.id in s.ids && hook.pc.id !in s.lost && Issue(hook.report.ref, hook.pc.id) in s.issued
      && (hook.pc.id in s.store.rows ==>
            s.store.rows[hook.pc.id].status != Received && s.store.rows[hook.pc.id].providerRef == hook.report.ref)
      && hook.pc.id !in UnsentIds(s)
  }

  ghost predicate RowOk(s: Race, id: string)
    requires id in s.store.rows
  {
    && id in s.ids
    && (s.store.rows[id].providerRef != "" ==> Issue(s.store.rows[id].providerRef, id) in s.issued)
    && (id in s.lost ==> s.store.rows[id].providerRef == "")
  }

  /** A settling write over a verdict, or over a first write that was lost. */
  ghost predicate Overrules(s: Race, k: int)
    requires 0 <= k < |s.log|
  {
    s.log[k].on == OnSettled && (Judged(s.log[..k], s.log[k].id) || s.log[k].id in s.lost)
  }

  predicate Legal(c: Change) { FaxMove(c.from, c.on, c.to) in FAX_MOVES }

  ghost predicate ChangeOk(s: Race, k: int)
    requires 0 <= k < |s.log|
  {
    && s.log[k].id in s.ids
    && (Legal(s.log[k]) <==> !Overrules(s, k))
    && s.log[k].id !in UnsentIds(s) && (s.log[k].on == OnVerdict ==> s.log[k].id !in s.lost)
    && (s.log[k].on == OnVerdict ==> Issue(s.log[k].ref, s.log[k].id) in s.issued)
  }

  ghost predicate OneSenderEach(s: Race) {
    forall t, u :: 0 <= t < u < |s.senders| ==> s.senders[t].id != s.senders[u].id
  }

  ghost predicate Inv(s: Race) {
    && OneSenderEach(s)
    && (forall t :: 0 <= t < |s.senders| ==> SenderOk(s, s.senders[t]))
    && (forall h :: 0 <= h < |s.hooks| ==> HookOk(s, s.hooks[h]))
    && (forall id :: id in s.store.rows ==> RowOk(s, id)) && s.lost <= s.ids
    && (forall k :: 0 <= k < |s.log| ==> ChangeOk(s, k))
  }

  lemma JudgedAfter(log: seq<Change>, c: Change, id: string)
    ensures Judged(log + [c], id) <==> Judged(log, id) || (c.on == OnVerdict && c.id == id)
  {
    var more := log + [c];
    if k :| 0 <= k < |log| && log[k].id == id && log[k].on == OnVerdict { assert more[k] == log[k]; }
    if c.on == OnVerdict && c.id == id { assert more[|log|] == c; }
  }

  /** A step only adds fresh faxes to the unsent ones, and only loses the first
      write of an unsent one. */
  ghost predicate Follows(s: Race, s': Race) {
    && s.issued <= s'.issued && s.ids <= s'.ids
    && UnsentIds(s') <= UnsentIds(s) + (s'.ids - s.ids)
    && s.lost <= s'.lost <= s.lost + UnsentIds(s)
  }

  lemma ChangeStays(s: Race, s': Race, k: int)
    requires Follows(s, s') && s.log <= s'.log && 0 <= k < |s.log| && ChangeOk(s, k)
    ensures ChangeOk(s', k)
  {
    assert s'.log[..k] == s.log[..k];
  }

  /** A change that is judged rightly on its own keeps the whole log right. */
  lemma LogGrows(s: Race, s': Race, c: Change)
    requires s'.log == s.log + [c] && Follows(s, s') && c.id in s'.ids && c.id !in UnsentIds(s')
    requires forall k :: 0 <= k < |s.log| ==> ChangeOk(s, k)
    requires Legal(c) <==> !(c.on == OnSettled && (Judged(s.log, c.id) || c.id in s'.lost))
    requires c.on == OnVerdict ==> Issue(c.ref, c.id) in s'.issued && c.id !in s'.lost
    ensures forall k :: 0 <= k < |s'.log| ==> ChangeOk(s', k)
  {
    forall k | 0 <= k < |s'.log| ensures ChangeOk(s', k) {
      if k < |s.log| { ChangeStays(s, s', k); }
      assert s'.log[..|s.log|] == s.log;
    }
  }

  lemma LogKept(s: Race, s': Race)
    requires s'.log == s.log && Follows(s, s')
    requires forall k :: 0 <= k < |s.log| ==> ChangeOk(s, k)
    ensures forall k :: 0 <= k < |s'.log| ==> ChangeOk(s', k)
  {
    forall k | 0 <= k < |s'.log| ensures ChangeOk(s', k) {
      ChangeStays(s, s', k);
    }
  }

  /** A fresh id has no history. */
  lemma FreshIsUnjudged(s: Race, id: string)
    requires Inv(s) && id !in s.ids
    ensures !Judged(s.log, id)
  {
    forall k | 0 <= k < |s.log| ensures s.log[k].id != id { assert ChangeOk(s, k); }
  }

  lemma CreateKeeps(s: Race, a: Act)
    requires Inv(s) && a.Create? && a.id !in s.ids
    ensures Inv(AfterCreate(s, a))
  {
    var s' := AfterCreate(s, a);
    LogKept(s, s');
    FreshIsUnjudged(s, a.id);
    forall t | 0 <= t < |s'.senders| ensures SenderOk(s', s'.senders[t]) {
      if t < |s.senders| { assert SenderOk(s, s.senders[t]); }
    }
    forall h | 0 <= h < |s'.hooks| ensures HookOk(s', s'.hooks[h]) {
      assert HookOk(s, s.hooks[h]);
    }
    forall id | id in s'.store.rows ensures RowOk(s', id) {
      if id != a.id { assert RowOk(s, id); }
    }
    forall t, u | 0 <= t < u < |s'.senders| ensures s'.senders[t].id != s'.senders[u].id {
      assert SenderOk(s, s.senders[t]);
    }
  }

  lemma InboundKeeps(s: Race, a: Act)
    requires Inv(s) && a.Inbound? && a.id !in s.ids
    ensures Inv(AfterInbound(s, a))
  {
    var s' := AfterInbound(s, a);
    LogKept(s, s');
    forall t | 0 <= t < |s'.senders| ensures SenderOk(s', s'.senders[t]) {
      assert SenderOk(s, s.senders[t]);
    }
    forall h | 0 <= h < |s'.hooks| ensures HookOk(s', s'.hooks[h]) {
      assert HookOk(s, s.hooks[h]);
    }
    forall id | id in s'.store.rows ensures RowOk(s', id) {
      if id != a.id { assert RowOk(s, id); }
    }
  }

  lemma AnswerKeeps(s: Race, t: nat, answer: GatewayAnswer)
    requires Inv(s) && t < |s.senders| && s.senders[t].pc.AtGateway?
    ensures Inv(AfterAnswer(s, t, answer))
  {
    var s' := AfterAnswer(s, t, answer);
    LogKept(s, s');
    forall u | 0 <= u < |s'.senders| ensures SenderOk(s', s'.senders[u]) {
      assert SenderOk(s, s.senders[u]);
    }
    forall h | 0 <= h < |s'.hooks| ensures HookOk(s', s'.hooks[h]) {
      assert HookOk(s, s.hooks[h]);
    }
    forall id | id in s'.store.rows ensures RowOk(s', id) {
      assert RowOk(s, id);
    }
  }

  /** What one write by sender t does, whichever it is. */
  ghost predicate IsWrite(s: Race, t: nat, on: FaxEventKind, d: FaxDelivery, at: int, pc: SenderPc, s': Race) {
    && t < |s.senders|
    && s' == Stored(s, s.senders[t].id, on, d, at).(senders := s.senders[t := Sender(s.senders[t].id, pc)])
    && on != OnVerdict && !Unsent(pc) && d.status != Received && d.status != Queued
    && (Unsent(s.senders[t].pc) || d.providerRef == "")
  }

  lemma OthersKept(s: Race, t: nat, on: FaxEventKind, d: FaxDelivery, at: int, pc: SenderPc, s': Race)
    requires Inv(s) && IsWrite(s, t, on, d, at, pc, s')
    ensures OneSenderEach(s')
    ensures forall u :: 0 <= u < |s'.senders| && u != t ==> SenderOk(s', s'.senders[u])
    ensures forall h :: 0 <= h < |s'.hooks| ==> HookOk(s', s'.hooks[h])
    ensures forall id :: Judged(s'.log, id) <==> Judged(s.log, id)
  {
    forall id ensures Judged(s'.log, id) <==> Judged(s.log, id) {
      if s'.log != s.log { JudgedAfter(s.log, s'.log[|s.log|], id); }
    }
    forall u | 0 <= u < |s'.senders| && u != t ensures SenderOk(s', s'.senders[u]) {
      assert SenderOk(s, s.senders[u]);
    }
    forall h | 0 <= h < |s'.hooks| ensures HookOk(s', s'.hooks[h]) {
      assert HookOk(s, s.hooks[h]);
    }
  }

  lemma WriteLogged(s: Race, t: nat, on: FaxEventKind, d: FaxDelivery, at: int, pc: SenderPc, s': Race)
    requires Inv(s) && IsWrite(s, t, on, d, at, pc, s')
    requires s.senders[t].id in s.store.rows ==>
      (FaxMove(s.store.rows[s.senders[t].id].status, on, d.status) in FAX_MOVES <==>
        !(on == OnSettled && (Judged(s.log, s.senders[t].id) || s.senders[t].id in s.lost)))
    ensures forall k :: 0 <= k < |s'.log| ==> ChangeOk(s', k)
  {
    assert SenderOk(s, s.senders[t]);
    if s.senders[t].id in s.store.rows {
      LogGrows(s, s', s'.log[|s.log|]);
    } else {
      LogKept(s, s');
    }
  }

  lemma WriteKeeps(s: Race, t: nat, at: int)
    requires Inv(s) && t < |s.senders| && (Unsent(s.senders[t].pc) || s.senders[t].pc.ToSettle?) && !s.senders[t].pc.AtGateway?
    ensures Inv(AfterWrite(s, t, at))
  {
    var sender, s' := s.senders[t], AfterWrite(s, t, at);
    var d := match sender.pc
      case ToFail(reason) => DriveWrites(Refused(reason))[0]
      case ToSend(ref, immediate) => DriveWrites(Accepted(ref, immediate))[0]
      case _ => SETTLING;
    var on := match sender.pc case ToFail(_) => OnSubmitFailed case ToSend(_, _) => OnAccepted case _ => OnSettled;
    assert SenderOk(s, sender);
    OthersKept(s, t, on, d, at, s'.senders[t].pc, s');
    WriteLogged(s, t, on, d, at, s'.senders[t].pc, s');
    forall id | id in s'.store.rows ensures RowOk(s', id) {
      assert RowOk(s, id);
    }
    assert SenderOk(s', s'.senders[t]);
  }

  lemma LoseWriteKeeps(s: Race, t: nat)
    requires Inv(s) && t < |s.senders| && !s.senders[t].pc.AtGateway? && !s.senders[t].pc.Sent?
    ensures Inv(AfterLoseWrite(s, t))
  {
    var s', sender := AfterLoseWrite(s, t), s.senders[t];
    assert SenderOk(s, sender);
    LogKept(s, s');
    forall u | 0 <= u < |s'.senders| ensures SenderOk(s', s'.senders[u]) {
      assert SenderOk(s, s.senders[u]);
    }
    forall h | 0 <= h < |s'.hooks| ensures HookOk(s', s'.hooks[h]) {
      assert HookOk(s, s.hooks[h]);
    }
    forall id | id in s'.store.rows ensures RowOk(s', id) {
      assert RowOk(s, id);
    }
  }

  lemma FailHookKeeps(s: Race, h: nat)
    requires Inv(s)
    ensures Inv(AfterFailHook(s, h))
  {
    var s' := AfterFailHook(s, h);
    LogKept(s, s');
    forall t | 0 <= t < |s'.senders| ensures SenderOk(s', s'.senders[t]) {
      assert SenderOk(s, s.senders[t]);
    }
    forall g | 0 <= g < |s'.hooks| ensures HookOk(s', s'.hooks[g]) {
      assert HookOk(s, s.hooks[g]);
    }
    forall id | id in s'.store.rows ensures RowOk(s', id) {
      assert RowOk(s, id);
    }
  }

  lemma HearKeeps(s: Race, report: Report)
    requires Inv(s)
    ensures Inv(AfterHear(s, report))
  {
    var s' := AfterHear(s, report);
    LogKept(s, s');
    forall t | 0 <= t < |s'.senders| ensures SenderOk(s', s'.senders[t]) {
      assert SenderOk(s, s.senders[t]);
    }
    forall h | 0 <= h < |s'.hooks| ensures HookOk(s', s'.hooks[h]) {
      if h < |s.hooks| { assert HookOk(s, s.hooks[h]); }
    }
    forall id | id in s'.store.rows ensures RowOk(s', id) {
      assert RowOk(s, id);
    }
  }

  lemma LookKeeps(s: Race, h: nat, found: string)
    requires Inv(s) && h < |s.hooks| && s.hooks[h].pc.ToRead?
    ensures Inv(AfterLook(s, h, found))
  {
    var s' := AfterLook(s, h, found);
    LogKept(s, s');
    forall t | 0 <= t < |s'.senders| ensures SenderOk(s', s'.senders[t]) {
      assert SenderOk(s, s.senders[t]);
    }
    forall g | 0 <= g < |s'.hooks| ensures HookOk(s', s'.hooks[g]) {
      assert HookOk(s, s.hooks[g]);
      if g == h && s'.hooks[h].pc.ToApply? {
        assert RowOk(s, found);
        LegalMoves(s.store.rows[found].status, FaxVerdict(Claimed(s.hooks[h].report)));
      }
    }
    forall id | id in s'.store.rows ensures RowOk(s', id) {
      assert RowOk(s, id);
    }
  }

  lemma ApplyKeeps(s: Race, h: nat)
    requires Inv(s) && h < |s.hooks| && s.hooks[h].pc.ToApply?
    ensures Inv(AfterApply(s, h))
  {
    var hook, s' := s.hooks[h], AfterApply(s, h);
    assert HookOk(s, hook);
    if hook.pc.id in s.store.rows && KeyOf(hook.report) !in s.store.applied {
      var c := s'.log[|s.log|];
      LegalMoves(c.from, FaxVerdict(Claimed(hook.report)));
      LogGrows(s, s', c);
      forall id ensures Judged(s'.log, id) <==> Judged(s.log, id) || id == hook.pc.id {
        JudgedAfter(s.log, c, id);
      }
    } else {
      LogKept(s, s');
    }
    forall t | 0 <= t < |s'.senders| ensures SenderOk(s', s'.senders[t]) {
      assert SenderOk(s, s.senders[t]);
    }
    forall g | 0 <= g < |s'.hooks| ensures HookOk(s', s'.hooks[g]) {
      assert HookOk(s, s.hooks[g]);
    }
    forall id | id in s'.store.rows ensures RowOk(s', id) {
      assert RowOk(s, id);
    }
  }

  lemma ExpungeKeeps(s: Race, gone: string)
    requires Inv(s)
    ensures Inv(AfterExpunge(s, gone))
  {
    var s' := AfterExpunge(s, gone);
    LogKept(s, s');
    forall t | 0 <= t < |s'.senders| ensures SenderOk(s', s'.senders[t]) {
      assert SenderOk(s, s.senders[t]);
    }
    forall h | 0 <= h < |s'.hooks| ensures HookOk(s', s'.hooks[h]) {
      assert HookOk(s, s.hooks[h]);
    }
    forall id | id in s'.store.rows ensures RowOk(s', id) {
      assert RowOk(s, id);
    }
  }

  lemma RestartKeeps(s: Race)
    requires Inv(s)
    ensures Inv(AfterRestart(s))
  {
    var s' := AfterRestart(s);
    LogKept(s, s');
    forall id | id in s'.store.rows ensures RowOk(s', id) {
      assert RowOk(s, id);
    }
  }

  lemma NextKeeps(s: Race, a: Act)
    requires Inv(s)
    ensures Inv(Next(s, a))
  {
    match a
    case Create(id, _, _, _, _) => if id !in s.ids { CreateKeeps(s, a); }
    case Inbound(id, _, _, _, _, _, _) => if id !in s.ids { InboundKeeps(s, a); }
    case Answer(t, answer) => if t < |s.senders| && s.senders[t].pc.AtGateway? { AnswerKeeps(s, t, answer); }
    case Write(t, at) =>
      if t < |s.senders| && !s.senders[t].pc.AtGateway? && !s.senders[t].pc.Sent? { WriteKeeps(s, t, at); }
    case LoseWrite(t) =>
      if t < |s.senders| && !s.senders[t].pc.AtGateway? && !s.senders[t].pc.Sent? { LoseWriteKeeps(s, t); }
    case Hear(report) => HearKeeps(s, report);
    case Look(h, found) => if h < |s.hooks| && s.hooks[h].pc.ToRead? { LookKeeps(s, h, found); }
    case Apply(h) => if h < |s.hooks| && s.hooks[h].pc.ToApply? { ApplyKeeps(s, h); }
    case FailHook(h) => FailHookKeeps(s, h);
    case Expunge(id) => ExpungeKeeps(s, id);
    case Restart => RestartKeeps(s);
  }

  lemma {:induction false} RunKeeps(acts: seq<Act>)
    ensures Inv(Run(acts))
  {
    if acts != [] {
      RunKeeps(acts[..|acts| - 1]);
      NextKeeps(Run(acts[..|acts| - 1]), acts[|acts| - 1]);
    }
  }

  // ---- What it means ----

  /** In every run, a stored status write is a move of the table, except exactly
      one kind: the settling write of an immediate receipt when a verdict for the
      same fax was stored before it or the drive's first write was lost. */
  lemma EveryWriteIsAMove(acts: seq<Act>, k: int)
    requires 0 <= k < |Run(acts).log|
    ensures Legal(Run(acts).log[k]) <==> !Overrules(Run(acts), k)
  {
    RunKeeps(acts);
    assert ChangeOk(Run(acts), k);
  }

  /** A fax whose first write was lost carries no ref, and no verdict ever
      reaches it. */
  lemma LostFaxIsOutOfReach(acts: seq<Act>, id: string)
    requires id in Run(acts).lost
    ensures id in Run(acts).store.rows ==> Run(acts).store.rows[id].providerRef == ""
    ensures !Judged(Run(acts).log, id)
  {
    var s := Run(acts);
    RunKeeps(acts);
    if id in s.store.rows { assert RowOk(s, id); }
    forall k | 0 <= k < |s.log| && s.log[k].on == OnVerdict ensures s.log[k].id != id { assert ChangeOk(s, k); }
  }

  /** So a drive's first write never overwrites a verdict: it replaces queued. */
  lemma FirstWriteReplacesQueued(acts: seq<Act>, k: int)
    requires 0 <= k < |Run(acts).log|
    requires Run(acts).log[k].on == OnAccepted || Run(acts).log[k].on == OnSubmitFailed
    ensures Run(acts).log[k].from == Queued
  {
    EveryWriteIsAMove(acts, k);
  }

  predicate Deferred(a: Act) {
    a.Answer? && a.answer.Accepted? ==> !a.answer.immediate
  }

  lemma {:induction false} DeferredNeverSettles(acts: seq<Act>)
    requires forall i :: 0 <= i < |acts| ==> Deferred(acts[i])
    ensures forall t :: 0 <= t < |Run(acts).senders| ==>
      var pc := Run(acts).senders[t].pc; !pc.ToSettle? && !(pc.ToSend? && pc.immediate)
    ensures forall k :: 0 <= k < |Run(acts).log| ==> Run(acts).log[k].on != OnSettled
  {
    if acts != [] {
      DeferredNeverSettles(acts[..|acts| - 1]);
      assert Deferred(acts[|acts| - 1]);
    }
  }

  /** With deferred receipts every stored status change is legal, although the
      webhook decides on a row it read before. */
  lemma DeferredRunsAreLegal(acts: seq<Act>, k: int)
    requires forall i :: 0 <= i < |acts| ==> Deferred(acts[i])
    requires 0 <= k < |Run(acts).log|
    ensures Legal(Run(acts).log[k])
  {
    DeferredNeverSettles(acts);
    EveryWriteIsAMove(acts, k);
  }

  /** A verdict is only ever stored on a fax its ref was issued to, so with
      unique refs on the fax it speaks about. */
  lemma VerdictHitsItsFax(acts: seq<Act>, k: int, id: string)
    requires 0 <= k < |Run(acts).log| && Run(acts).log[k].on == OnVerdict
    requires forall issue :: issue in Run(acts).issued && issue.ref == Run(acts).log[k].ref ==> issue.id == id
    ensures Run(acts).log[k].id == id
  {
    RunKeeps(acts);
    assert ChangeOk(Run(acts), k);
  }

  lemma RunSnoc(acts: seq<Act>, a: Act)
    ensures Run(acts + [a]) == Next(Run(acts), a)
  {
    assert (acts + [a])[..|acts + [a]| - 1] == acts;
  }

  /** A webhook that looks and applies without anything in between. */
  lemma VerdictInOneGo(s: Race, id: string, report: Report)
    requires Carries(s, id, report.ref) && s.store.rows[id].status == Sending
    requires report.status == Failed && KeyOf(report) !in s.store.applied
    ensures var t := AfterApply(AfterLook(AfterHear(s, report), |s.hooks|, id), |s.hooks|);
      && t.senders == s.senders && id in t.store.rows && t.store.rows[id].status == Failed
      && t.log == s.log + [Change(id, OnVerdict, Sending, Failed, report.ref)]
  {
    LegalMoves(Sending, FaxVerdict(Failed));
    var looked := AfterLook(AfterHear(s, report), |s.hooks|, id);
    assert looked == s.(hooks := s.hooks + [Hook(report, ToApply(id))]);
  }

  lemma SettlesOver(s: Race, t: nat, at: int)
    requires t < |s.senders| && s.senders[t].pc.ToSettle? && s.senders[t].id in s.store.rows
    ensures var id := s.senders[t].id;
      AfterWrite(s, t, at).log == s.log + [Change(id, OnSettled, s.store.rows[id].status, Transmitted, "")]
  {
  }

  lemma RunFour(acts: seq<Act>, a: Act, b: Act, c: Act, d: Act)
    ensures Run(acts + [a] + [b] + [c] + [d]) == Next(Next(Next(Next(Run(acts), a), b), c), d)
  {
    RunSnoc(acts, a);
    RunSnoc(acts + [a], b);
    RunSnoc(acts + [a] + [b], c);
    RunSnoc(acts + [a] + [b] + [c], d);
  }

  /** The exception can happen whenever an immediate receipt is between its two
      writes: a failure reported there is stored and then overwritten. */
  lemma SettlingOverrulesAFailure(acts: seq<Act>, t: nat, report: Report, at: int)
    requires var s := Run(acts);
      && t < |s.senders| && s.senders[t].pc.ToSettle? && Carries(s, s.senders[t].id, report.ref)
      && s.store.rows[s.senders[t].id].status == Sending
      && report.status == Failed && KeyOf(report) !in s.store.applied
    ensures var s := Run(acts);
      var id, h := s.senders[t].id, |s.hooks|;
      Run(acts + [Hear(report)] + [Look(h, id)] + [Apply(h)] + [Write(t, at)]).log ==
        s.log + [Change(id, OnVerdict, Sending, Failed, report.ref)] + [Change(id, OnSettled, Failed, Transmitted, "")]
  {
    var s := Run(acts);
    var id, h := s.senders[t].id, |s.hooks|;
    VerdictInOneGo(s, id, report);
    RunFour(acts, Hear(report), Look(h, id), Apply(h), Write(t, at));
    SettlesOver(AfterApply(AfterLook(AfterHear(s, report), h, id), h), t, at);
  }

  /** And such a moment is reachable: the first one of any immediate receipt. */
  lemma BetweenTheWrites(id: string, owner: string, remote: string, path: string, ref: string)
    requires ref != ""
    ensures var s := Run([] + [Create(id, owner, remote, path, 0)] + [Answer(0, Accepted(ref, true))] + [Write(0, 1)]);
      && s.senders == [Sender(id, ToSettle)] && Carries(s, id, ref)
      && s.store.rows[id].status == Sending && s.store.applied == {}
  {
    var create, answer := Create(id, owner, remote, path, 0), Answer(0, Accepted(ref, true));
    RunSnoc([], create);
    RunSnoc([] + [create], answer);
    RunSnoc([] + [create] + [answer], Write(0, 1));
  }

  /** So is the other exception: with an immediate receipt and a lost first write
      the settling write takes the row from queued, and the ref is nowhere. */
  lemma LostWriteSettlesQueued(id: string, owner: string, remote: string, path: string, ref: string)
    ensures var s := Run([] + [Create(id, owner, remote, path, 0)] + [Answer(0, Accepted(ref, true))] + [LoseWrite(0)] + [Write(0, 1)]);
      && s.log == [Change(id, OnSettled, Queued, Transmitted, "")] && !Legal(s.log[0])
      && id in s.lost && id in s.store.rows && s.store.rows[id].providerRef == ""
  {
    RunFour([], Create(id, owner, remote, path, 0), Answer(0, Accepted(ref, true)), LoseWrite(0), Write(0, 1));
    var accepted := AcceptedAtOnce(id, owner, remote, path, ref);
    var unmarked := accepted.(senders := [Sender(id, ToSettle)], lost := {id});
    assert AfterLoseWrite(accepted, 0) == unmarked;
    SettlesOver(unmarked, 0, 1);
    LegalMoves(Queued, FaxSettled);
  }

  /** A first send whose receipt is immediate, before any write. */
  function AcceptedAtOnce(id: string, owner: string, remote: string, path: string, ref: string): (s: Race)
    ensures s == AfterAnswer(AfterCreate(IDLE, Create(id, owner, remote, path, 0)), 0, Accepted(ref, true))
  {
    Race(Store(map[id := OutboundRow(owner, remote, path, 0)], {}), [Sender(id, ToSend(ref, true))], [], {id}, {Issue(ref, id)}, {}, [])
  }
}
