/** The fax service: sends and resends drive the gateway synchronously, provider
    verdicts arrive by reference, inbound documents are spooled and stored. The
    gateway's answer, fresh ids, fresh paths and clock readings are parameters. */
module FaxService {
  import opened Collections
  import opened Blobs
  import opened FaxMachine
  import opened FaxStore

  newtype byte = x: int | 0 <= x < 256

  const MAX_PDF_SIZE: nat := 20 * 1024 * 1024

  /** "%PDF-" */
  const PDF_SIGNATURE: seq<byte> := [0x25, 0x50, 0x44, 0x46, 0x2D]

  const SELF_SEND := "provider rejected: HTTP 400: faxes cannot be sent to your own number"

  datatype GatewayAnswer = Refused(reason: string) | Accepted(ref: string, immediate: bool)

  datatype Invalid = NothingAttached | NotPdf | TooLarge | NotResendable | NoDocument

  /** How one call ends: refused up front, a failed spool or row write, a row
      that does not exist, a stored path that aborts the call, a forward the
      gateway refused (the job carries the story), or a job under way. */
  datatype Outcome =
    | Rejected(why: Invalid)
    | SpoolFailed
    | StoreFailed
    | NotFound
    | Aborted
    | ForwardFailed(job: FaxRow)
    | Ok(job: FaxRow)

  /** The first objection to an upload, in the order they are raised. */
  function Objection(pdf: seq<byte>): Option<Invalid> {
    if |pdf| == 0 then Some(NothingAttached)
    else if !(PDF_SIGNATURE <= pdf) then Some(NotPdf)
    else if |pdf| > MAX_PDF_SIZE then Some(TooLarge)
    else None
  }

  // ---- Driving one job through the gateway ----

  /** An immediate receipt's second write: one page, no ref. */
  const SETTLING := FaxDelivery(Transmitted, "", "", 1)

  /** What is written to the row, in order. */
  function DriveWrites(answer: GatewayAnswer): seq<FaxDelivery> {
    match answer
    case Refused(reason) => [FaxDelivery(Failed, "", reason, 0)]
    case Accepted(ref, immediate) =>
      [FaxDelivery(Sending, ref, "", 0)] + if immediate then [SETTLING] else []
  }

  /** Which of a drive's writes the engine takes; a lost one is only logged. */
  datatype Marks = Marks(first: bool, second: bool)

  function AfterDrive(s: Store, id: string, answer: GatewayAnswer, marks: Marks, at: int, settledAt: int): Store {
    var first := if marks.first then AfterUpdate(s, id, DriveWrites(answer)[0], at) else s;
    if |DriveWrites(answer)| == 2 && marks.second then AfterUpdate(first, id, DriveWrites(answer)[1], settledAt) else first
  }

  /** The job handed back, advanced by the machine beside the row. */
  function DrivenJob(job: FaxRow, answer: GatewayAnswer): FaxRow {
    match answer
    case Refused(reason) => job.(status := FaxAdvance(job.status, FaxSubmitFailed).0, error := reason)
    case Accepted(ref, immediate) =>
      var sending := job.(status := FaxAdvance(job.status, FaxAccepted).0, providerRef := ref);
      if immediate then sending.(status := FaxAdvance(sending.status, FaxSettled).0) else sending
  }

  function Concluded(job: FaxRow, answer: GatewayAnswer): Outcome {
    if answer.Refused? then ForwardFailed(DrivenJob(job, answer)) else Ok(DrivenJob(job, answer))
  }

  /** The first write is a legal move from queued. The settling write is one
      exactly when the first write was taken: otherwise it settles a queued row. */
  lemma DriveWritesAreLegal(s: Store, id: string, answer: GatewayAnswer, marks: Marks, at: int)
    requires id in s.rows && s.rows[id].status == Queued
    ensures FaxMove(Queued, if answer.Refused? then OnSubmitFailed else OnAccepted, DriveWrites(answer)[0].status) in FAX_MOVES
    ensures |DriveWrites(answer)| == 2 ==>
      var before := AfterDrive(s, id, answer, marks.(second := false), at, at).rows[id].status;
      FaxMove(before, OnSettled, DriveWrites(answer)[1].status) in FAX_MOVES <==> marks.first
  {
    LegalMoves(Queued, FaxSettled);
    LegalMoves(Sending, FaxSettled);
  }

  /** When the job handed back agrees with the stored row, for a fresh outbound
      row and up to the write's stamp and the pages: exactly when the last write
      was taken and, for an immediate receipt with a ref, the first one too. Page
      counts agree exactly unless a settling write was taken: it stores one page
      and the job has none. The ref is stored exactly by the first write. */
  lemma DriveReportsTheRow(s: Store, id: string, answer: GatewayAnswer, marks: Marks, at: int, settledAt: int)
    requires id in s.rows
    requires var r := s.rows[id]; r == OutboundRow(r.owner, r.remote, r.documentPath, r.createdAt)
    ensures var stored := AfterDrive(s, id, answer, marks, at, settledAt).rows[id];
      var job := DrivenJob(s.rows[id], answer);
      var settling := answer.Accepted? && answer.immediate;
      && (job == stored.(pages := job.pages, updatedAt := job.updatedAt) <==>
            if settling then marks.second && (marks.first || answer.ref == "") else marks.first)
      && (job.pages == stored.pages <==> !(settling && marks.second))
      && stored.providerRef == (if answer.Accepted? && marks.first then answer.ref else "")
  {
    LegalMoves(Queued, FaxSubmitFailed);
    LegalMoves(Queued, FaxAccepted);
    LegalMoves(Sending, FaxSettled);
  }

  /** The objections, first come first raised: an empty upload, one that does not
      start with the five signature bytes, one over twenty mebibytes. */
  lemma ObjectionsRaised(pdf: seq<byte>)
    ensures Objection(pdf) == Some(NothingAttached) <==> |pdf| == 0
    ensures Objection(pdf) == Some(NotPdf) <==>
      |pdf| > 0 && (|pdf| < 5 || (pdf[0], pdf[1], pdf[2], pdf[3], pdf[4]) != (37, 80, 68, 70, 45))
    ensures Objection(pdf) == Some(TooLarge) <==>
      |pdf| > 20_971_520 && (pdf[0], pdf[1], pdf[2], pdf[3], pdf[4]) == (37, 80, 68, 70, 45)
    ensures Objection(pdf).None? || Objection(pdf).value in {NothingAttached, NotPdf, TooLarge}
  {
    assert |pdf| >= 5 ==> pdf[..5] == [pdf[0], pdf[1], pdf[2], pdf[3], pdf[4]];
    assert PDF_SIGNATURE <= pdf <==> |pdf| >= 5 && pdf[..5] == PDF_SIGNATURE;
  }

  /** Where a fresh outbound row ends, and what the caller is told: refused with
      the reason, on its way under its ref, or sent as one page; and queued still
      when no write is taken. */
  lemma DriveEnds(s: Store, id: string, owner: string, remote: string, path: string, now: int,
                  answer: GatewayAnswer, at: int, settledAt: int)
    ensures var queued := OutboundRow(owner, remote, path, now);
      var row := AfterDrive(s.(rows := s.rows[id := queued]), id, answer, Marks(true, true), at, settledAt).rows[id];
      match answer
      case Refused(reason) =>
        && row == FaxRow(owner, remote, Outbound, Failed, 0, path, "", reason, now, at)
        && Concluded(queued, answer) == ForwardFailed(row.(updatedAt := now))
      case Accepted(ref, false) =>
        && row == FaxRow(owner, remote, Outbound, Sending, 0, path, ref, "", now, at)
        && Concluded(queued, answer) == Ok(row.(updatedAt := now))
      case Accepted(ref, true) =>
        && row == FaxRow(owner, remote, Outbound, Transmitted, 1, path, ref, "", now, settledAt)
        && Concluded(queued, answer) == Ok(row.(updatedAt := now, pages := 0))
    ensures var queued := OutboundRow(owner, remote, path, now);
      AfterDrive(s.(rows := s.rows[id := queued]), id, answer, Marks(false, false), at, settledAt).rows[id] ==
        FaxRow(owner, remote, Outbound, Queued, 0, path, "", "", now, now)
  {
    LegalMoves(Queued, FaxSubmitFailed);
    LegalMoves(Queued, FaxAccepted);
    LegalMoves(Sending, FaxSettled);
  }

  // ---- Provider verdicts ----

  datatype Report = Report(ref: string, status: FaxStatus, pages: int, error: string, at: int)

  /** An outbound fax cannot become received; that report means transmitted. */
  function Claimed(r: Report): FaxStatus {
    if r.status == Received then Transmitted else r.status
  }

  function KeyOf(r: Report): IdemKey { IdemKey(r.ref, Claimed(r)) }

  function DeliveryOf(r: Report): FaxDelivery { FaxDelivery(Claimed(r), "", r.error, r.pages) }

  /** The store after one report was applied to the row it resolved to. */
  function AfterVerdict(s: Store, id: string, r: Report): Store
    requires id in s.rows
  {
    if FaxAdvance(s.rows[id].status, FaxVerdict(Claimed(r))).1
    then AfterIdempotent(s, KeyOf(r), id, DeliveryOf(r), r.at)
    else s
  }

  function VerdictJob(row: FaxRow, r: Report): FaxRow {
    if FaxAdvance(row.status, FaxVerdict(Claimed(r))).1
    then row.(status := Claimed(r), pages := r.pages, error := r.error)
    else row
  }

  /** The reports a lifecycle can hear. */
  predicate Lawful(r: Report) { Claimed(r) == Transmitted || Claimed(r) == Failed }

  predicate SameStory(a: FaxRow, b: FaxRow) {
    a.status == b.status && a.pages == b.pages && a.error == b.error
  }

  /** What a reported status means for an outbound fax: received means
      transmitted, queued and sending mean nothing. */
  predicate Means(reported: FaxStatus, status: FaxStatus) {
    match status
    case Transmitted => reported == Transmitted || reported == Received
    case Failed => reported == Failed
    case _ => false
  }

  /** The row with a report's story: its status, pages, error and time. */
  predicate TellsReport(row: FaxRow, before: FaxRow, r: Report) {
    Means(r.status, row.status) && row == before.(status := row.status, pages := r.pages, error := r.error, updatedAt := r.at)
  }

  lemma MeansClaimed(r: Report)
    ensures Lawful(r) <==> Means(r.status, Claimed(r))
    ensures forall status :: Means(r.status, status) ==> status == Claimed(r)
  {
  }

  /** Two reports share a key exactly when they are about the same ref and claim
      the same status. */
  lemma KeysTell(a: Report, b: Report)
    requires Lawful(a) && Lawful(b)
    ensures KeyOf(a) == KeyOf(b) <==> a.ref == b.ref && exists status :: Means(a.status, status) && Means(b.status, status)
    ensures KeyOf(a).ref == a.ref && Means(a.status, KeyOf(a).status)
  {
    MeansClaimed(a);
    MeansClaimed(b);
    assert Means(a.status, Claimed(a)) && Means(b.status, Claimed(b));
  }

  /** The job handed back claims the report was stored; on an outbound row that
      is so exactly when no report of this status was applied for this ref, or
      when the row happened to hold the very same story already. */
  lemma ReportedJobMatchesRow(s: Store, id: string, r: Report)
    requires id in s.rows && s.rows[id].status != Received && Lawful(r)
    ensures SameStory(VerdictJob(s.rows[id], r), AfterVerdict(s, id, r).rows[id]) <==>
      || (forall status :: Means(r.status, status) ==> IdemKey(r.ref, status) !in s.applied)
      || (Means(r.status, s.rows[id].status) && s.rows[id].pages == r.pages && s.rows[id].error == r.error)
    ensures var job := VerdictJob(s.rows[id], r);
      Means(r.status, job.status) && job == s.rows[id].(status := job.status, pages := r.pages, error := r.error)
  {
    MeansClaimed(r);
    LegalMoves(s.rows[id].status, FaxVerdict(Claimed(r)));
  }

  /** A report whose key was already used leaves no trace, although the job
      handed back carries the later page count. */
  lemma RicherRepeatIsLost(row: FaxRow)
    requires row.status == Sending
    ensures var s0 := Store(map["f" := row], {});
      var s1 := AfterVerdict(s0, "f", Report("r", Transmitted, 1, "", 10));
      var later := Report("r", Transmitted, 7, "", 20);
      AfterVerdict(s1, "f", later) == s1 && s1.rows["f"].pages == 1 && VerdictJob(s1.rows["f"], later).pages == 7
  {
  }

  /** The keys live in the process: after a restart the same report is heard again. */
  lemma RestartHearsRepeat(s: Store, id: string, r: Report)
    requires id in s.rows && s.rows[id].status != Received && Lawful(r)
    ensures TellsReport(AfterVerdict(Store(s.rows, {}), id, r).rows[id], s.rows[id], r)
    ensures (exists status :: Means(r.status, status) && IdemKey(r.ref, status) in s.applied) ==>
      AfterVerdict(s, id, r).rows[id] == s.rows[id]
  {
    MeansClaimed(r);
    LegalMoves(s.rows[id].status, FaxVerdict(Claimed(r)));
  }

  /** One report: a ref nobody carries changes nothing, else some row carrying
      it takes the verdict. */
  ghost predicate VerdictStep(s: Store, r: Report, s': Store) {
    || (s' == s && (r.ref == "" || forall id :: id in s.rows ==> s.rows[id].providerRef != r.ref))
    || (r.ref != "" && exists id :: id in s.rows && s.rows[id].providerRef == r.ref && s' == AfterVerdict(s, id, r))
  }

  /** What happens to the store while one fax is watched: a report is applied, or
      something else goes on that leaves the fax, its ref and its keys alone. */
  datatype Event = Reported(report: Report) | Elsewhere

  /** The row is the only one carrying its ref, and outbound. */
  ghost predicate Tracked(s: Store, id: string, ref: string) {
    && id in s.rows && ref != "" && s.rows[id].providerRef == ref && s.rows[id].status != Received
    && forall other :: other in s.rows && s.rows[other].providerRef == ref ==> other == id
  }

  ghost predicate Quiet(s: Store, s': Store, id: string, ref: string) {
    && (id in s.rows ==> id in s'.rows && s'.rows[id] == s.rows[id])
    && (Tracked(s, id, ref) ==> Tracked(s', id, ref))
    && forall key: IdemKey :: key.ref == ref ==> (key in s'.applied <==> key in s.applied)
  }

  ghost predicate EventStep(s: Store, e: Event, s': Store, id: string, ref: string) {
    if e.Reported? then VerdictStep(s, e.report, s') else Quiet(s, s', id, ref)
  }

  ghost predicate IsVerdictRun(states: seq<Store>, events: seq<Event>, id: string, ref: string) {
    |states| == |events| + 1 && forall i :: 0 <= i < |events| ==> EventStep(states[i], events[i], states[i + 1], id, ref)
  }

  /** A report the lifecycle of this ref's fax can hear. */
  predicate Speaks(e: Event, ref: string) {
    e.Reported? && e.report.ref == ref && exists status :: Means(e.report.status, status)
  }

  /** Both tell of the same status. */
  predicate SameVerdict(a: Report, b: Report) {
    exists status :: Means(a.status, status) && Means(b.status, status)
  }

  lemma SpeaksIsLawful(e: Event, ref: string)
    ensures Speaks(e, ref) <==> e.Reported? && e.report.ref == ref && Lawful(e.report)
  {
    if e.Reported? {
      MeansClaimed(e.report);
      assert Lawful(e.report) ==> Means(e.report.status, Claimed(e.report));
    }
  }

  /** Event k is the first report of its status for this ref in the process. */
  ghost predicate IsFirst(applied: set<IdemKey>, events: seq<Event>, ref: string, k: int) {
    && 0 <= k < |events| && Speaks(events[k], ref)
    && (forall status :: Means(events[k].report.status, status) ==> IdemKey(ref, status) !in applied)
    && forall j :: 0 <= j < k && Speaks(events[j], ref) ==> !SameVerdict(events[j].report, events[k].report)
  }

  /** Event k is the first occurrence for this ref that came last. */
  ghost predicate Decides(applied: set<IdemKey>, events: seq<Event>, ref: string, k: int) {
    IsFirst(applied, events, ref, k) && forall m :: k < m < |events| ==> !IsFirst(applied, events, ref, m)
  }

  lemma EventKeepsTracked(s: Store, e: Event, s': Store, id: string, ref: string)
    requires EventStep(s, e, s', id, ref) && Tracked(s, id, ref)
    ensures Tracked(s', id, ref)
    ensures !Speaks(e, ref) || KeyOf(e.report) in s.applied ==> s'.rows[id] == s.rows[id]
    ensures Speaks(e, ref) && KeyOf(e.report) !in s.applied ==> TellsReport(s'.rows[id], s.rows[id], e.report)
    ensures forall key: IdemKey :: key.ref == ref ==>
      (key in s'.applied <==> key in s.applied || (Speaks(e, ref) && key == KeyOf(e.report)))
  {
    SpeaksIsLawful(e, ref);
    if e.Reported? {
      var r := e.report;
      MeansClaimed(r);
      if target :| target in s.rows && s.rows[target].providerRef == r.ref && s' == AfterVerdict(s, target, r) {
        LegalMoves(s.rows[target].status, FaxVerdict(Claimed(r)));
      }
    }
  }

  /** Some report so far used the key. */
  ghost predicate Used(events: seq<Event>, key: IdemKey) {
    exists j :: 0 <= j < |events| && Speaks(events[j], key.ref) && KeyOf(events[j].report) == key
  }

  lemma UsedAfter(events: seq<Event>, key: IdemKey)
    requires events != []
    ensures var n := |events| - 1;
      Used(events, key) <==> Used(events[..n], key) || (Speaks(events[n], key.ref) && KeyOf(events[n].report) == key)
  {
    var n := |events| - 1;
    if j :| 0 <= j < n && Speaks(events[..n][j], key.ref) && KeyOf(events[..n][j].report) == key {
      assert events[..n][j] == events[j];
    }
    if j :| 0 <= j < |events| && Speaks(events[j], key.ref) && KeyOf(events[j].report) == key {
      if j < n { assert events[..n][j] == events[j]; }
    }
  }

  /** The process has applied exactly the keys it held and those of the lawful
      reports for the ref. */
  lemma {:induction false} KeysAfterRun(states: seq<Store>, events: seq<Event>, id: string, ref: string, key: IdemKey)
    requires IsVerdictRun(states, events, id, ref) && Tracked(states[0], id, ref) && key.ref == ref
    ensures Tracked(states[|events|], id, ref)
    ensures key in states[|events|].applied <==> key in states[0].applied || Used(events, key)
  {
    if events != [] {
      var n := |events| - 1;
      KeysAfterRun(states[..|events|], events[..n], id, ref, key);
      EventKeepsTracked(states[n], events[n], states[n + 1], id, ref);
      UsedAfter(events, key);
    }
  }

  lemma FirstInPrefix(applied: set<IdemKey>, events: seq<Event>, ref: string, k: int)
    requires events != [] && 0 <= k < |events| - 1
    ensures IsFirst(applied, events[..|events| - 1], ref, k) <==> IsFirst(applied, events, ref, k)
  {
    assert forall j :: 0 <= j <= k ==> events[..|events| - 1][j] == events[j];
  }

  /** Who decides once one more event has happened. */
  lemma DecidesAfter(applied: set<IdemKey>, events: seq<Event>, ref: string, k: int)
    requires events != []
    ensures var n := |events| - 1;
      Decides(applied, events, ref, k) <==>
        if IsFirst(applied, events, ref, n) then k == n else Decides(applied, events[..n], ref, k)
  {
    var n := |events| - 1;
    if 0 <= k < n {
      FirstInPrefix(applied, events, ref, k);
      forall m | k < m < n ensures IsFirst(applied, events[..n], ref, m) <==> IsFirst(applied, events, ref, m) {
        FirstInPrefix(applied, events, ref, m);
      }
    }
  }

  /** Some report decides as soon as one first occurrence has arrived. */
  lemma {:induction false} SomeoneDecides(applied: set<IdemKey>, events: seq<Event>, ref: string, first: nat) returns (k: nat)
    requires IsFirst(applied, events, ref, first)
    ensures Decides(applied, events, ref, k)
  {
    var n := |events| - 1;
    if IsFirst(applied, events, ref, n) {
      k := n;
    } else {
      FirstInPrefix(applied, events, ref, first);
      k := SomeoneDecides(applied, events[..n], ref, first);
    }
    DecidesAfter(applied, events, ref, k);
  }

  lemma SameVerdictSameKey(events: seq<Event>, ref: string, j: nat, k: nat)
    requires j < |events| && k < |events| && Speaks(events[j], ref) && Speaks(events[k], ref)
    ensures SameVerdict(events[j].report, events[k].report) <==> KeyOf(events[j].report) == KeyOf(events[k].report)
    ensures forall status :: Means(events[k].report.status, status) <==> IdemKey(ref, status) == KeyOf(events[k].report)
  {
    SpeaksIsLawful(events[j], ref);
    SpeaksIsLawful(events[k], ref);
    KeysTell(events[j].report, events[k].report);
    MeansClaimed(events[k].report);
  }

  /** A report meets an unused key exactly when it is a first occurrence. */
  lemma FreshKeyIsFirst(states: seq<Store>, events: seq<Event>, id: string, ref: string)
    requires IsVerdictRun(states, events, id, ref) && Tracked(states[0], id, ref) && events != []
    ensures var n := |events| - 1;
      && Tracked(states[n], id, ref)
      && (Speaks(events[n], ref) ==>
            (KeyOf(events[n].report) !in states[n].applied <==> IsFirst(states[0].applied, events, ref, n)))
  {
    var n := |events| - 1;
    var before := events[..n];
    assert forall j :: 0 <= j < n ==> before[j] == events[j];
    if Speaks(events[n], ref) {
      var key := KeyOf(events[n].report);
      SameVerdictSameKey(events, ref, n, n);
      assert Means(events[n].report.status, key.status) && key == IdemKey(ref, key.status);
      KeysAfterRun(states[..|events|], before, id, ref, key);
      forall j | 0 <= j < n && Speaks(events[j], ref)
        ensures SameVerdict(events[j].report, events[n].report) <==> KeyOf(before[j].report) == key
      {
        SameVerdictSameKey(events, ref, j, n);
      }
    } else {
      KeysAfterRun(states[..|events|], before, id, ref, IdemKey(ref, Failed));
    }
  }

  /** A report the lifecycle can hear is stored if and only if its status was not
      heard before for this ref: a new verdict always reaches the row, whatever
      verdicts of the other status came before it. */
  lemma StoredIffNew(states: seq<Store>, events: seq<Event>, id: string, ref: string, k: nat)
    requires IsVerdictRun(states, events, id, ref) && Tracked(states[0], id, ref)
    requires k < |events| && Speaks(events[k], ref)
    ensures id in states[k].rows && id in states[k + 1].rows
    ensures if IsFirst(states[0].applied, events, ref, k)
      then TellsReport(states[k + 1].rows[id], states[k].rows[id], events[k].report)
      else states[k + 1].rows[id] == states[k].rows[id]
  {
    RunPrefix(states, events, id, ref, k);
    FirstSoFar(states[0].applied, events, ref, k);
    FreshKeyIsFirst(states[..k + 2], events[..k + 1], id, ref);
    EventKeepsTracked(states[k], events[k], states[k + 1], id, ref);
  }

  lemma RunPrefix(states: seq<Store>, events: seq<Event>, id: string, ref: string, k: nat)
    requires IsVerdictRun(states, events, id, ref) && k < |events|
    ensures IsVerdictRun(states[..k + 2], events[..k + 1], id, ref)
    ensures states[..k + 2][0] == states[0] && states[..k + 2][k] == states[k] && events[..k + 1][k] == events[k]
    ensures EventStep(states[k], events[k], states[k + 1], id, ref)
  {
    var shorter, fewer := states[..k + 2], events[..k + 1];
    forall i | 0 <= i < |fewer| ensures EventStep(shorter[i], fewer[i], shorter[i + 1], id, ref) {
      assert EventStep(states[i], events[i], states[i + 1], id, ref);
    }
  }

  lemma FirstSoFar(applied: set<IdemKey>, events: seq<Event>, ref: string, k: nat)
    requires k < |events|
    ensures IsFirst(applied, events[..k + 1], ref, k) <==> IsFirst(applied, events, ref, k)
  {
    assert forall j :: 0 <= j <= k ==> events[..k + 1][j] == events[j];
  }

  /** Reports rewrite a row's story and nothing else of it. */
  lemma {:induction false} StoryOnly(states: seq<Store>, events: seq<Event>, id: string, ref: string)
    requires IsVerdictRun(states, events, id, ref) && Tracked(states[0], id, ref)
    ensures Tracked(states[|events|], id, ref)
    ensures var r, r' := states[0].rows[id], states[|events|].rows[id];
      r' == r.(status := r'.status, error := r'.error, pages := r'.pages, updatedAt := r'.updatedAt)
  {
    if events != [] {
      var n := |events| - 1;
      StoryOnly(states[..|events|], events[..n], id, ref);
      EventKeepsTracked(states[n], events[n], states[n + 1], id, ref);
    }
  }

  /** Within one process, whatever reports arrive for whatever faxes and whatever
      else goes on: an outbound row carries the status whose first occurrence
      came last, with that report's pages, error and time. */
  lemma {:induction false} FirstOccurrencesDecide(states: seq<Store>, events: seq<Event>, id: string, ref: string, k: int)
    requires IsVerdictRun(states, events, id, ref) && Tracked(states[0], id, ref)
    requires Decides(states[0].applied, events, ref, k)
    ensures id in states[|events|].rows && TellsReport(states[|events|].rows[id], states[0].rows[id], events[k].report)
  {
    var n := |events| - 1;
    FreshKeyIsFirst(states, events, id, ref);
    EventKeepsTracked(states[n], events[n], states[n + 1], id, ref);
    DecidesAfter(states[0].applied, events, ref, k);
    if k == n {
      StoryOnly(states[..|events|], events[..n], id, ref);
    } else {
      FirstOccurrencesDecide(states[..|events|], events[..n], id, ref, k);
    }
  }

  /** And a row no first occurrence spoke to is as it was. */
  lemma {:induction false} SilenceChangesNothing(states: seq<Store>, events: seq<Event>, id: string, ref: string)
    requires IsVerdictRun(states, events, id, ref) && Tracked(states[0], id, ref)
    requires forall k :: 0 <= k < |events| ==> !IsFirst(states[0].applied, events, ref, k)
    ensures id in states[|events|].rows && states[|events|].rows[id] == states[0].rows[id]
  {
    if events != [] {
      var n := |events| - 1;
      FreshKeyIsFirst(states, events, id, ref);
      EventKeepsTracked(states[n], events[n], states[n + 1], id, ref);
      forall k | 0 <= k < n ensures !IsFirst(states[0].applied, events[..n], ref, k) {
        FirstInPrefix(states[0].applied, events, ref, k);
      }
      SilenceChangesNothing(states[..|events|], events[..n], id, ref);
    }
  }

  lemma VerdictKeepsReceived(s: Store, r: Report, s': Store, id: string)
    requires VerdictStep(s, r, s') && id in s.rows && s.rows[id].status == Received
    ensures id in s'.rows && s'.rows[id] == s.rows[id]
  {
    if target :| target in s.rows && s.rows[target].providerRef == r.ref && s' == AfterVerdict(s, target, r) {
      LegalMoves(s.rows[target].status, FaxVerdict(Claimed(r)));
    }
  }

  /** A received document has no lifecycle: no report ever changes its row. */
  lemma {:induction false} InboundRowIsInert(states: seq<Store>, events: seq<Event>, id: string, ref: string)
    requires IsVerdictRun(states, events, id, ref) && id in states[0].rows && states[0].rows[id].status == Received
    ensures id in states[|events|].rows && states[|events|].rows[id] == states[0].rows[id]
  {
    if events != [] {
      var n := |events| - 1;
      InboundRowIsInert(states[..|events|], events[..n], id, ref);
      if events[n].Reported? {
        VerdictKeepsReceived(states[n], events[n].report, states[n + 1], id);
      }
    }
  }

  // ---- The service ----

  /** Every stored document path names an existing file. */
  ghost predicate AllSpooled(rows: map<string, FaxRow>, files: set<File>) {
    forall id :: id in rows && rows[id].documentPath != "" ==> FileOf(rows[id].documentPath) in files
  }

  class Service {
    const faxes: Faxes
    const blobs: BlobStore
    /** Extension to its own number; a number that does not parse is no entry. */
    const identities: map<string, string>

    constructor (faxes: Faxes, blobs: BlobStore, identities: map<string, string>)
      ensures this.faxes == faxes && this.blobs == blobs && this.identities == identities
    {
      this.faxes, this.blobs, this.identities := faxes, blobs, identities;
    }

    /** What the gateway lane answers: a fax to one's own number is refused
        without asking the gateway. */
    function Answer(owner: string, remote: string, gateway: GatewayAnswer): GatewayAnswer {
      if owner in identities && identities[owner] == remote then Refused(SELF_SEND) else gateway
    }

    /** Submits one persisted queued job and records the outcome on its row; a
        write the engine does not take is logged and passed over. */
    method Drive(id: string, queued: FaxRow, gateway: GatewayAnswer, marks: Marks, at: int, settledAt: int)
      returns (outcome: Outcome)
      requires queued.status == Queued
      modifies faxes
      ensures var answer := Answer(queued.owner, queued.remote, gateway);
        && faxes.View() == AfterDrive(old(faxes.View()), id, answer, marks, at, settledAt)
        && outcome == Concluded(queued, answer)
    {
      var job := queued;
      var answer := Answer(job.owner, job.remote, gateway);
      if answer.Refused? {
        job := job.(status := FaxAdvance(job.status, FaxSubmitFailed).0, error := answer.reason);
        var _ := faxes.UpdateStatus(id, FaxDelivery(Failed, "", job.error, 0), at, marks.first);
        return ForwardFailed(job);
      }
      job := job.(status := FaxAdvance(job.status, FaxAccepted).0, providerRef := answer.ref);
      var _ := faxes.UpdateStatus(id, FaxDelivery(Sending, answer.ref, "", 0), at, marks.first);
      if answer.immediate {
        job := job.(status := FaxAdvance(job.status, FaxSettled).0);
        var _ := faxes.UpdateStatus(id, SETTLING, settledAt, marks.second);
      }
      return Ok(job);
    }

    /** Sends an uploaded document. `spooled` is the fresh path its copy gets, if
        the spool works; `stored` whether the row write does. */
    method Send(owner: string, to: string, pdf: seq<byte>, id: string, spooled: Option<string>, stored: bool,
        gateway: GatewayAnswer, marks: Marks, now: int, at: int, settledAt: int) returns (outcome: Outcome)
      requires id !in faxes.rows
      modifies faxes, blobs
      ensures Objection(pdf).Some? ==>
        outcome == Rejected(Objection(pdf).value) && faxes.View() == old(faxes.View()) && blobs.files == old(blobs.files)
      ensures Objection(pdf).None? && spooled.None? ==>
        outcome == SpoolFailed && faxes.View() == old(faxes.View()) && blobs.files == old(blobs.files)
      ensures Objection(pdf).None? && spooled.Some? ==>
        blobs.files == old(blobs.files) + {FileOf(spooled.value)}
      ensures Objection(pdf).None? && spooled.Some? && !stored ==>
        outcome == StoreFailed && faxes.View() == old(faxes.View())
      ensures Objection(pdf).None? && spooled.Some? && stored ==>
        var row := OutboundRow(owner, to, spooled.value, now);
        var answer := Answer(owner, to, gateway);
        && faxes.View() == AfterDrive(old(faxes.View()).(rows := old(faxes.rows)[id := row]), id, answer, marks, at, settledAt)
        && outcome == Concluded(row, answer)
      ensures AllSpooled(old(faxes.rows), old(blobs.files)) ==> AllSpooled(faxes.rows, blobs.files)
    {
      if |pdf| == 0 {
        return Rejected(NothingAttached);
      }
      if !(PDF_SIGNATURE <= pdf) {
        return Rejected(NotPdf);
      }
      if |pdf| > MAX_PDF_SIZE {
        return Rejected(TooLarge);
      }
      if spooled.None? {
        return SpoolFailed;
      }
      blobs.Save(spooled.value);
      var job := OutboundRow(owner, to, spooled.value, now);
      var created := faxes.Create(id, job, stored);
      if !created.Written? {
        return StoreFailed;
      }
      outcome := Drive(id, job, gateway, marks, at, settledAt);
    }

    /** Resubmits a failed outbound fax as a new job on the SAME document; the
        original row stays as it is. `loaded` says whether its read works. */
    method Resend(owner: string, id: string, loaded: bool, newId: string, stored: bool,
        gateway: GatewayAnswer, marks: Marks, now: int, at: int, settledAt: int) returns (outcome: Outcome)
      requires newId !in faxes.rows
      modifies faxes
      ensures !loaded ==> outcome == StoreFailed && faxes.View() == old(faxes.View())
      ensures loaded && (id !in old(faxes.rows) || old(faxes.rows)[id].owner != owner) ==>
        outcome == NotFound && faxes.View() == old(faxes.View())
      ensures loaded && id in old(faxes.rows) && old(faxes.rows)[id].owner == owner ==>
        var failed := old(faxes.rows)[id];
        if failed.direction != Outbound || failed.status != Failed then
          outcome == Rejected(NotResendable) && faxes.View() == old(faxes.View())
        else if !ValidRelPath(failed.documentPath) then outcome == Aborted && faxes.View() == old(faxes.View())
        else if FileOf(failed.documentPath) !in blobs.files then outcome == SpoolFailed && faxes.View() == old(faxes.View())
        else if !stored then outcome == StoreFailed && faxes.View() == old(faxes.View())
        else
          var row := OutboundRow(owner, failed.remote, failed.documentPath, now);
          var answer := Answer(owner, failed.remote, gateway);
          && faxes.View() == AfterDrive(old(faxes.View()).(rows := old(faxes.rows)[newId := row]), newId, answer, marks, at, settledAt)
          && outcome == Concluded(row, answer)
      ensures forall other :: other in old(faxes.rows) ==> other in faxes.rows && faxes.rows[other] == old(faxes.rows)[other]
      ensures AllSpooled(old(faxes.rows), blobs.files) ==> AllSpooled(faxes.rows, blobs.files)
    {
      if !loaded {
        return StoreFailed;
      }
      if id !in faxes.rows || faxes.rows[id].owner != owner {
        return NotFound;
      }
      var job := faxes.rows[id];
      if job.direction != Outbound || job.status != Failed {
        return Rejected(NotResendable);
      }
      if !ValidRelPath(job.documentPath) {
        return Aborted;
      }
      var found := blobs.Open(job.documentPath);
      if !found {
        return SpoolFailed;
      }
      var retry := OutboundRow(owner, job.remote, job.documentPath, now);
      var created := faxes.Create(newId, retry, stored);
      if !created.Written? {
        return StoreFailed;
      }
      outcome := Drive(newId, retry, gateway, marks, at, settledAt);
    }

    /** Stores an inbound document as a received fact. */
    method Receive(owner: string, from: string, pages: int, pdf: seq<byte>, ref: string,
        id: string, spooled: Option<string>, stored: bool, now: int) returns (outcome: Outcome)
      requires id !in faxes.rows
      modifies faxes, blobs
      ensures pdf == [] ==> outcome == Rejected(NoDocument)
      ensures pdf != [] && spooled.None? ==> outcome == SpoolFailed
      ensures blobs.files == old(blobs.files) + if pdf != [] && spooled.Some? then {FileOf(spooled.value)} else {}
      ensures pdf != [] && spooled.Some? && !stored ==> outcome == StoreFailed
      ensures pdf != [] && spooled.Some? && stored ==>
        var row := FaxRow(owner, from, Inbound, Received, pages, spooled.value, ref, "", now, now);
        outcome == Ok(row) && faxes.View() == old(faxes.View()).(rows := old(faxes.rows)[id := row])
      ensures !outcome.Ok? ==> faxes.View() == old(faxes.View())
      ensures AllSpooled(old(faxes.rows), old(blobs.files)) ==> AllSpooled(faxes.rows, blobs.files)
    {
      if |pdf| == 0 {
        return Rejected(NoDocument);
      }
      if spooled.None? {
        return SpoolFailed;
      }
      blobs.Save(spooled.value);
      var job := InboundRow(owner, from, spooled.value, ref, pages, now);
      var created := faxes.Create(id, job, stored);
      if !created.Written? {
        return StoreFailed;
      }
      return Ok(job);
    }

    /** Advances the job a provider verdict names. `looks` and `applies` say
        whether the lookup and the write work. */
    method UpdateProviderStatus(r: Report, looks: bool, applies: bool) returns (outcome: Outcome, ghost target: Option<string>)
      modifies faxes
      ensures faxes.View() == old(faxes.View()) || VerdictStep(old(faxes.View()), r, faxes.View())
      ensures outcome == NotFound <==>
        r.ref == "" || (looks && forall id :: id in old(faxes.rows) ==> old(faxes.rows)[id].providerRef != r.ref)
      ensures outcome == NotFound || outcome == StoreFailed ==> faxes.View() == old(faxes.View())
      ensures outcome == StoreFailed ==> !looks || !applies
      ensures outcome.Ok? || (r.ref != "" && looks && outcome == StoreFailed) ==>
        target.Some? && target.value in old(faxes.rows) && old(faxes.rows)[target.value].providerRef == r.ref
      ensures r.ref != "" && looks && outcome == StoreFailed ==>
        !applies && FaxAdvance(old(faxes.rows)[target.value].status, FaxVerdict(Claimed(r))).1
      ensures outcome.Ok? ==>
        && faxes.View() == AfterVerdict(old(faxes.View()), target.value, r)
        && outcome == Ok(VerdictJob(old(faxes.rows)[target.value], r))
      ensures outcome == NotFound || outcome == StoreFailed || outcome.Ok?
      ensures AllSpooled(old(faxes.rows), blobs.files) ==> AllSpooled(faxes.rows, blobs.files)
    {
      target := None;
      var found, failed := faxes.ByProviderRef(r.ref, looks);
      if failed {
        return StoreFailed, None;
      }
      if found.None? {
        return NotFound, None;
      }
      target := found;
      var id, job, status := found.value, faxes.rows[found.value], r.status;
      if status == Received {
        status := Transmitted;
      }
      var (next, ok) := FaxAdvance(job.status, FaxVerdict(status));
      if !ok {
        return Ok(job), target;
      }
      var written := faxes.AdvanceIdempotent(IdemKey(r.ref, status), id, FaxDelivery(next, "", r.error, r.pages), r.at, applies);
      if !written.Written? {
        return StoreFailed, target;
      }
      return Ok(job.(status := next, pages := r.pages, error := r.error)), target;
    }
  }

  /** A fax goes past the gateway's answer exactly when its number is the sender's
      own: then it is refused whatever the gateway would say. */
  lemma SelfSendIsRefused(service: Service, owner: string, remote: string)
    ensures if owner in service.identities && service.identities[owner] == remote
      then forall gateway :: service.Answer(owner, remote, gateway) ==
             Refused("provider rejected: HTTP 400: faxes cannot be sent to your own number")
      else forall gateway :: service.Answer(owner, remote, gateway) == gateway
  {
  }
}
