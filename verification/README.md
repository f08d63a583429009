# Webphone: verified models of the stateful core

Dafny models of the parts of the webphone server that keep state across calls,
restarts and racing threads, with proofs of what holds over all their runs.
`dafny verify dfyconfig.toml` checks everything.

Each component is written twice where that says something: as specification
functions or relations on plain values, over which the run-level lemmas speak,
and as classes and loops in the source's own shape, proved against them.

| component | files |
|---|---|
| CRM resolver: TTL cache, single flight, worker pool | `CrmResolver`, `CrmCache`, `CrmPeople` |
| dial-cooldown gate | `DialWindows` |
| transcript store and reassembly | `Transcripts`, `Reassembly`, `TranscriptRuns`, `TranscriptHoles` |
| fax lifecycle: machine, store, service, racing webhooks, retention | `FaxMachine`, `FaxStore`, `FaxService`, `FaxRace`, `FaxRaceVerdicts`, `FaxRaceRestart`, `Blobs`, `Retention` |
| message delivery machine | `Delivery`, `DeliveryRace` |
| Matrix sync receiver | `MatrixSync`, `MatrixDelivery` |
| call reports | `Reports`, `ReportNumbers`, `ReportLaws`, `Ordering` |
| legacy import and contacts | `Contacts`, `Upserts`, `LegacyImport`, `TranscriptImport` |
| transcription outcomes | `AsrOutcomes` |
| shared: engine contract, sequences, sets | `MetaEngine`, `Sequences`, `Collections`, `Clock` |

## How to read the model

- `Resolve` is a thread machine: its steps are the mutex-held sections `cached`,
  `join`, `remember` and the two halves of `settle`, plus the lookup's return.
  The class `Resolver` performs the same sections in place.
- The read-model engine is a keyed map with bounded scans and cap enforcement.
  `MetaEngine` states that contract, with ties on a stamp open either way; the
  bodies of `Trim`, `Scan` and the stores' `EnforceCaps` stand in for the engine
  and show that it can be met.
- Engine and gateway failures, fresh ids, fresh blob paths and clock readings are
  parameters, or steps of a machine: `FaxRace` may lose any status write, lookup
  or idempotent apply, `TranscriptRuns` and `DialWindows` may cut any operation
  short, `MatrixSync` may crash or fail anywhere. A statement about runs without
  failures says so. Failures of reads that only end a call with an error are left
  out where nothing changes.
- Times are integers, nanoseconds unless a model says otherwise; durations and
  counters do not overflow.
- Enforcement is one engine call for all collections. A failing one is taken to
  have applied any of a collection's caps, each in full or not at all.
- Transcript rows carry a strictly increasing clock reading and fresh keys.
- `People` states its result per list position: a number listed twice may be
  answered differently at its two positions by a changing CRM.
- A contact id minted during an import is modelled as "some fresh id", so equal
  stores means equal up to the choice of minted ids.

## Where code and comments disagree

The model follows the code.

- `internal/domain/fax.go:197-201` says a second verdict of the same status
  refreshes the row; the idempotence key (`internal/fax/service.go:291`) keeps it
  out (`FaxService.RicherRepeatIsLost`).
- `internal/readmodels/faxes.go:89` says fax rows are never deleted; the retention
  sweep deletes them.
- An immediate receipt stores one page and returns a job with none
  (`FaxService.DriveReportsTheRow`).
- A drive only logs a failed first write (`internal/fax/service.go:167-169`) and
  still stores the settlement of an immediate receipt: a queued row becomes
  transmitted, which the machine forbids, and its ref is nowhere
  (`FaxRace.LostWriteSettlesQueued`).
- A resent fax shares its document with the failed one, and retention unlinks it
  with the older row (`Retention.ResendLosesDocument`).
- A fax sweep that fails on an expunge has already noted the row's path, so the
  pass unlinks the document of a row that is still stored
  (`Retention.StuckRowLosesDocument`).
- The count of unlinked blobs counts paths, not files
  (`Retention.SharedDocumentCountsTwice`).
- An interrupted transcript trim removes the younger surplus first and leaves a
  hole (`TranscriptHoles.HoleIsReachable`) below the read window; the next clean
  append closes it (`TranscriptHoles.HealIsReachable`). A delete cut short leaves
  holes anywhere.
- `internal/retention/retention.go:75-76` speaks of a logged zero for a failing fax
  or transcript sweep; the summary keeps what was removed before the failure.

## Model

| member | source | states |
|---|---|---|
| `CrmResolver.Resolver.Cached` | internal/crm/resolver.go:282-304 | a fresh entry is handed out, an expired one is dropped from the map, nothing else changes; the time to live is 6 hours for a match and 5 minutes for a miss |
| `CrmResolver.Resolver.Join` | internal/crm/resolver.go:254-265 | the first caller for a number registers a flight and leads; every other gets that flight back |
| `CrmResolver.Resolver.Remember` | internal/crm/resolver.go:306-318 | the entry is stored, after dropping the whole map when it holds 1024 entries |
| `CrmResolver.Resolver.Settle` | internal/crm/resolver.go:269-280 | the in-flight entry goes first, then the result is written and the channel closed |
| `CrmResolver.ExecKeeps` | internal/crm/resolver.go:126-170 | every interleaving of any number of `Resolve` calls, with ticking clock and callers that give up, stays inside one invariant |
| `CrmResolver.InflightIffOneLeader` | internal/crm/resolver.go:131-170 | in every reachable state a number is in `inflight` exactly when one call leads it between join and settle, and never two |
| `CrmResolver.ClosedOnceAfterWrite` | internal/crm/resolver.go:269-280 | a flight is closed at most once, only after its result was written; the result is an answer the CRM gave for that number; a leader that returned has closed it |
| `CrmResolver.RunProgress` | internal/crm/resolver.go:146-170 | each of a leader's own moves brings it nearer its end, whatever the other calls do |
| `CrmResolver.WaiterIsWoken` | internal/crm/resolver.go:135-145 | no waiter is stranded: once its leader has made its remaining moves the flight is closed and the waiter's next step returns the leader's answer |
| `CrmResolver.CacheHoldsUpstreamAnswers` | internal/crm/resolver.go:148-169 | every cached entry is what a successful lookup of exactly that number left; failures never enter; at most 1024 entries |
| `CrmResolver.ServedFresh` | internal/crm/resolver.go:282-304 | an answer served from the cache was given for that number at most 6 hours (match) or 5 minutes (miss) earlier |
| `CrmResolver.StaticCrmMatchesPlainLookup` | internal/crm/resolver.go:126-170 | against a CRM with fixed answers and no failures every call that did not give up returns what the uncached lookup would, resets and sharing included |
| `CrmResolver.CountersCountLookups` | internal/crm/resolver.go:150-166 | hit, miss and failure counters count the upstream lookups by outcome, apart from those a leader has not yet counted |
| `CrmCache.AnswerIsStored` | internal/crm/resolver.go:148-157 | a leader's step on a match or a miss stores exactly that answer with its stamp under its number, beside the other entries, or alone when the map held 1024 |
| `CrmCache.ServedIffFresh` | internal/crm/resolver.go:282-304 | a call ends with the cached answer if and only if its number has an entry at most 6 hours (match) or 5 minutes (miss) old; an older entry goes and the call moves on |
| `CrmCache.AnswerIsServed` | internal/crm/resolver.go:126-170 | over every run: once an answer was stored, and until its number is written again or the map is dropped, each call on the number that starts within the lifetime ends in one step with that answer, and the CRM is not asked |
| `CrmPeople.Schedule` | internal/crm/resolver.go:204-226 | under any scheduling of the workers some move is always possible until all have ended (no deadlock), the run ends, each position is resolved exactly once and each named one sent exactly once; never more than eight lookups run at once |
| `CrmPeople.RunPool` | internal/crm/resolver.go:204-227 | once closed the channel holds what the named positions gave, all of it and nothing else |
| `CrmPeople.Drain` | internal/crm/resolver.go:229-233 | the map folded from the channel has an entry for exactly the numbers a named position was resolved for |
| `CrmPeople.People` | internal/crm/resolver.go:198-234 | the map holds exactly the listed numbers some position resolved to a named person, each with such a person; every position is resolved once |
| `CrmPeople.PeopleAreTheOffered` | internal/crm/resolver.go:213-233 | a number is in the map if and only if some position of it was answered with a match whose name is not empty, and then with such a person |
| `CrmPeople.PeopleOfStaticCrm` | internal/crm/resolver.go:198-234 | with fixed answers the map is the plain one: the listed numbers with a non-empty name, each mapped to its person |
| `CrmPeople.PeopleOfResolverRun` | internal/crm/resolver.go:198-234 | served by any interleaved run of the resolver, other callers included, against a CRM with fixed answers: the listed non-empty numbers with a named person, nothing when the CRM is off |
| `MetaEngine.CrowdedOut` | internal/readmodels/dialwindows.go:243-249 | a row a cap removed had at least n rows of its group no older than itself |
| `MetaEngine.ScanFinds` | internal/readmodels/dialwindows.go:209-217 | a row with fewer than `limit` rows of its group no older than itself is in every newest-first scan |
| `MetaEngine.Trim` | internal/readmodels/dialwindows.go:79-80 | the cap contract can be met: every group keeps exactly its newest n rows |
| `MetaEngine.Scan` | internal/readmodels/dialwindows.go:210-214 | the scan contract can be met: distinct rows of the group, newest first, complete up to the limit |
| `DialWindows.DialWindows.Attempt` | internal/readmodels/dialwindows.go:133-157 | one check-and-record: an armed override is spent and the dial granted; inside the window the dial is denied and nothing is written; otherwise the slot takes the second of the dial and the caps run; every engine failure included |
| `DialWindows.DialWindows.ArmOverride` | internal/readmodels/dialwindows.go:161-173 | the slot's one-shot bypass is armed and the caps run |
| `DialWindows.DialWindows.RecordAttempt` | internal/readmodels/dialwindows.go:231-241 | the slot is replaced by the truncated second, then both collections are trimmed |
| `DialWindows.DialWindows.EnforceCaps` | internal/readmodels/dialwindows.go:250-256 | both dial collections are trimmed per owner and overall; a failure may leave any of the four caps undone |
| `DialWindows.DialWindows.Active` | internal/readmodels/dialwindows.go:209-229 | the listing names exactly slots still in their window, newest first, and every such slot among the newest fifty |
| `DialWindows.ListedIffDenied` | internal/readmodels/dialwindows.go:209-229 | for a positive cooldown and a slot among the owner's newest 50, the listing names it exactly when an attempt at that instant with no armed override is denied |
| `DialWindows.SpacedUnlessEvicted` | internal/readmodels/dialwindows.go:133-157 | over every run, with the caps also enforced on behalf of other collections and failing anywhere, and a clock that never runs back: two granted dials on a slot, the later spending no override, are more than the cooldown less one second apart, unless the slot was evicted between them, which takes 500 other slots of the owner no older than it or the global ceiling |
| `DialWindows.FullCooldownIffWholeSecond` | internal/readmodels/dialwindows.go:71 | the full cooldown is guaranteed after a dial if and only if the dial fell on a whole second |
| `DialWindows.EarlyRedialWitness` | internal/readmodels/dialwindows.go:71 | a dial on the last nanosecond of a second may be followed almost a second inside the cooldown |
| `DialWindows.DeniedChangesNothing` | internal/readmodels/dialwindows.go:127-132 | a denied attempt leaves both collections as they were: the step of `RetriesNeverPostpone` |
| `DialWindows.RetriesNeverPostpone` | internal/readmodels/dialwindows.go:150-154 | after any number of denied attempts the first instant the gate opens is the same |
| `DialWindows.GateOpensIff` | internal/readmodels/dialwindows.go:133-157 | with a working engine an attempt is granted if and only if an unspent override is there, or no slot, or no cooldown, or the slot's second is a cooldown ago; a grant answers with the dial's time, a denial with the slot's |
| `DialWindows.ErrorsAreReported` | internal/readmodels/dialwindows.go:133-157 | an error is reported exactly when an engine call the attempt gets to fails; before the grant that denies and changes nothing, after it the dial stays granted |
| `DialWindows.GrantIsRecorded` | internal/readmodels/dialwindows.go:231-241 | after a grant the slot holds the second of the dial and the override is spent, unless 500 newer rows of the owner or 100,000 in all took them |
| `DialWindows.GrantRestoresCaps` | internal/readmodels/dialwindows.go:243-256 | after a grant no owner has more than 500 slots or overrides, and no more than 100,000 are stored |
| `DialWindows.ArmRestoresCaps` | internal/readmodels/dialwindows.go:161-173 | and so after an arm |
| `DialWindows.ListedSlotsRun` | internal/readmodels/dialwindows.go:209-229 | a listed slot is a dial whose cooldown still runs, with its second and the cooldown in whole seconds |
| `DialWindows.ArmingArms` | internal/readmodels/dialwindows.go:161-173 | an arm leaves an unspent override stamped with its second, unless the caps took it for 500 newer ones of the owner or 100,000 in all |
| `DialWindows.ArmStaysUsable` | internal/readmodels/dialwindows.go:159-173 | over every run an arm stays usable until a dial on its slot is granted or it is crowded out |
| `DialWindows.ArmedDialGoesThrough` | internal/readmodels/dialwindows.go:139-148 | so the next attempt on an armed slot is granted at any instant and with any cooldown, inside the window included |
| `DialWindows.SpendsNeverExceedArms` | internal/readmodels/dialwindows.go:139-148 | over every run, spent overrides of a slot never exceed its arms (plus one armed at the start) |
| `DialWindows.ArmBetweenSpends` | internal/readmodels/dialwindows.go:159-173 | between two spends on a slot lies an arm of it |
| `Reassembly.ReverseLines` | internal/readmodels/transcripts.go:426-430 | the two-pointer swap reverses the array in place |
| `Reassembly.ReverseAll` | internal/readmodels/transcripts.go:420-422 | every group's lines are reversed, nothing else of it changes |
| `Reassembly.Land` | internal/readmodels/transcripts.go:398-419 | one segment lands in its call's group, opens a new one below the cap, or is refused past it |
| `Reassembly.ReassembleTranscripts` | internal/readmodels/transcripts.go:395-424 | the groups are the first `maxCalls` distinct call ids in order of first appearance; each holds all the texts of its call in reversed input order and the latest start |
| `Reassembly.CallsAreDistinctIds` | internal/readmodels/transcripts.go:397-413 | the specification lists exactly the ids that occur, each once |
| `Reassembly.CallsInOrderOfAppearance` | internal/readmodels/transcripts.go:397-413 | calls are listed in the order in which their first rows come |
| `Reassembly.LatestStartIsMaximum` | internal/readmodels/transcripts.go:416-418 | the group's start is the maximum of its segments' starts |
| `Reassembly.SpokenOrder` | internal/readmodels/transcripts.go:386-394 | on newest-first input the lines come out in spoken order |
| `Transcripts.Transcripts.TrimCall` | internal/readmodels/transcripts.go:154-174 | from any size the loop ends with the call's newest 1500 rows and every other row as it was, or, when the engine fails, after as many passes as succeeded |
| `Transcripts.TrimLeavesNewest` | internal/readmodels/transcripts.go:145-151 | a finished trim leaves exactly the newest 1500 of the call and nothing else changed |
| `Transcripts.InterruptedTrimHoles` | internal/readmodels/transcripts.go:164-173 | a trim the engine interrupts leaves the call without holes exactly when it removed nothing or all of the surplus |
| `Transcripts.Transcripts.EnforceCaps` | internal/readmodels/transcripts.go:139-141 | each owner keeps its newest 5000 rows and the collection its newest up to the ceiling; a failure may leave either cap undone |
| `Transcripts.Transcripts.Append` | internal/readmodels/transcripts.go:123-143 | the segment is stored last, then the caps and the call's trim run; each engine failure stops at its own point |
| `Transcripts.Transcripts.DeleteCall` | internal/readmodels/transcripts.go:322-340 | one read window of the call's rows goes, or as many as the engine expunged before it failed, and nothing outside the call changes; a failure reports no removals |
| `Transcripts.DeleteIsCompleteIffCapped` | internal/readmodels/transcripts.go:326-340 | a delete that reports success leaves nothing of the call exactly when it had at most 1500 rows |
| `Transcripts.Transcripts.SweepBefore` | internal/readmodels/transcripts.go:360-384 | the rows appended before the cutoff go oldest first, page by page; a failing scan or expunge stops it there, and the count is what went |
| `Transcripts.SweepRemovesTheDue` | internal/readmodels/transcripts.go:360-384 | a sweep that reports no failure leaves exactly the rows appended at or after the cutoff |
| `Transcripts.Transcripts.Call` | internal/readmodels/transcripts.go:286-315 | the one call's transcript with its lines in append order, or none when the owner holds no such call |
| `Transcripts.Transcripts.Export` | internal/readmodels/transcripts.go:245-255 | the owner's rows, as many as the owner cap, reassembled into at most `maxCalls` groups |
| `Transcripts.CallGroups` | internal/readmodels/transcripts.go:310-314 | reassembling one call gives one group, its lines in append order |
| `Transcripts.WholeCallTells` | internal/readmodels/transcripts.go:286-315 | what a reader of a call sees: direction and remote of its latest segment, the latest start, and every text in append order |
| `Transcripts.RowsNamed` | internal/readmodels/transcripts.go:154-160 | the rows the bounded reads filter are those that name the owner, and the call |
| `TranscriptRuns.HolesIffTorn` | internal/readmodels/transcripts.go:123-174 | over every run, each append, trim, delete, sweep and enforcement failing anywhere: a stored call is a suffix without holes of what was stored to it since the last delete that left nothing of it, if and only if every row an interrupted trim or a partial delete took since then is older than every row left |
| `TranscriptRuns.ReadWindowHasNoHoles` | internal/readmodels/transcripts.go:286-297 | over every such run: unless a delete of the call was cut short, its newest 1500 rows are the last ones stored, one after the other, whatever trims were interrupted |
| `TranscriptRuns.CleanAppendRestores` | internal/readmodels/transcripts.go:116-143 | after any such run one clean append restores the owner cap, the ceiling and the call cap, and closes every hole of its call unless a delete of it was cut short |
| `TranscriptHoles.HoleIsReachable` | internal/readmodels/transcripts.go:154-174 | a call at its cap, two appends whose caps fail and one whose trim fails after its first expunge: the third row is missing, both older ones are stored |
| `TranscriptHoles.HealIsReachable` | internal/readmodels/transcripts.go:154-174 | an interrupted trim alone does not decide: one more clean append and the same call is without holes, no delete between |
| `TranscriptRuns.StoredCallsHaveNoHoles` | internal/readmodels/transcripts.go:116-143 | over every run without failures a stored call is a suffix without holes of what was appended to it since its last delete, at most 1500 rows, 5000 per owner |
| `TranscriptRuns.CallReadsAreComplete` | internal/readmodels/transcripts.go:286-340 | over every run with failures anywhere: unless the last append to the call stored its row without finishing the trim, reading the call returns all of it and a delete that reports success leaves none of it |
| `TranscriptRuns.ExportIsComplete` | internal/readmodels/transcripts.go:241-255 | over every run with failures anywhere: an export with room for all calls holds every stored segment of the owner exactly once, in spoken order, unless an append of the owner's stored its row and the caps have not been enforced since |
| `FaxMachine.FaxAdvance` | internal/domain/fax.go:227-232 | an event moves the status exactly when the table has the move, and then to the event's target; otherwise it is inert |
| `FaxMachine.LegalMoves` | internal/domain/fax.go:205-219 | which events move which states: verdicts every outbound state and only to transmitted or failed, settlement only sending, submits only queued; received is never entered or left |
| `FaxStore.Faxes.Create` | internal/readmodels/faxes.go:113-130 | the row is stored under its id, nothing else changes; a failing engine changes nothing |
| `FaxStore.Faxes.UpdateStatus` | internal/readmodels/faxes.go:137-160 | the row takes status, error and pages, and the ref only when one is carried; a missing row and a failing engine are reported and nothing changes |
| `FaxStore.Faxes.AdvanceIdempotent` | internal/readmodels/faxes.go:168-191 | the same update, applied at most once per key in this process; a key counts as applied only when the write was taken |
| `FaxStore.Faxes.ByProviderRef` | internal/readmodels/faxes.go:264-279 | a row carrying the ref, none for an empty ref or a ref nobody carries; a failing engine is reported |
| `FaxStore.PathsAreDocuments` | internal/readmodels/faxes.go:336-339 | the returned paths are exactly the non-empty document paths of the rows met |
| `FaxStore.Faxes.ExpungePage` | internal/readmodels/faxes.go:336-346 | rows go one by one, each path noted before its row; a failed expunge leaves its row stored and its path noted |
| `FaxStore.Faxes.SweepBefore` | internal/readmodels/faxes.go:318-348 | the loop ends; without failure exactly the rows created before the cutoff are gone, oldest first, and the paths are their non-empty documents in that order; with a failure the rows gone, the rows met and the paths are stated exactly |
| `FaxStore.SweepTakesTheOldest` | internal/readmodels/faxes.go:318-348 | a sweep meets only rows created before the cutoff, oldest first; a complete one leaves exactly the others |
| `FaxService.DriveWritesAreLegal` | internal/fax/service.go:149-175 | the first write of a drive is a legal move from queued; the settling write is one if and only if the first write was stored |
| `FaxService.DriveReportsTheRow` | internal/fax/service.go:149-178 | for every pair of stored and lost writes: the job handed back is the stored row, up to the stamp and the pages, if and only if the last write was stored and, for an immediate receipt with a ref, the first one too; the page counts agree exactly unless a settling write was stored (1 in the row, 0 in the job); the row has the ref exactly when the first write was stored |
| `FaxService.DriveEnds` | internal/fax/service.go:136-179 | where a fresh row ends when both writes are taken: failed with the reason, sending under the ref, or transmitted under the ref with one page; and what the caller is told |
| `FaxService.ObjectionsRaised` | internal/fax/service.go:105-115 | an upload is refused for being empty, for not starting with the five bytes of a PDF, for being over 20 MiB, in this order, and for nothing else |
| `FaxService.SelfSendIsRefused` | internal/fax/service.go:137-147 | a fax to the sender's own number is refused whatever the gateway would answer, any other gets the gateway's answer |
| `FaxService.Service.Drive` | internal/fax/service.go:136-179 | a fax to the sender's own number is refused without the gateway; the row takes those of the answer's writes the engine takes, and the job tells the answer |
| `FaxService.Service.Send` | internal/fax/service.go:102-130 | uploads are refused in order (empty, not a PDF, over 20 MiB); otherwise the document is spooled, one queued row created and driven; a stored row always has its document |
| `FaxService.Service.Resend` | internal/fax/service.go:186-211 | only a failed outbound fax with an existing document is resubmitted, as a new row on the same document; every existing row stays as it is |
| `FaxService.Service.Receive` | internal/fax/service.go:214-247 | a document is spooled and one received row stored; an empty one is refused |
| `FaxService.Service.UpdateProviderStatus` | internal/fax/service.go:274-302 | the row carrying the ref takes the verdict under its idempotence key and the job claims it; an unknown ref is reported; a verdict with no legal move, a failed lookup and a failed write change nothing |
| `FaxService.ReportedJobMatchesRow` | internal/fax/service.go:291-301 | on an outbound row the job handed back tells the stored story if and only if no report of this status was applied for this ref, or the row told the same story already |
| `FaxService.KeysTell` | internal/fax/service.go:291 | two reports share an idempotence key if and only if they name the same ref and claim the same status, received claiming transmitted |
| `FaxService.RicherRepeatIsLost` | internal/fax/service.go:291-299 | a second report of the same status with more pages does not reach the row, although the job reports it |
| `FaxService.RestartHearsRepeat` | internal/readmodels/faxes.go:162-191 | the keys live in the process: after a restart the same report is applied again |
| `FaxService.FirstOccurrencesDecide` | internal/fax/service.go:274-302 | over any sequence of reports for any faxes in one process, other writes elsewhere between them, an outbound row carries the status whose first occurrence came last, with that report's pages, error and time |
| `FaxService.StoredIffNew` | internal/fax/service.go:274-302 | over any sequence of events in one process, a report the lifecycle can hear is stored if and only if no earlier report for its ref claimed the same status; a failure after a success, or the reverse, always reaches the row |
| `FaxService.SilenceChangesNothing` | internal/fax/service.go:274-302 | a row no first occurrence spoke to is as it was |
| `FaxService.InboundRowIsInert` | internal/fax/service.go:284-290 | no sequence of reports changes a received row |
| `FaxService.SomeoneDecides` | internal/fax/service.go:291-293 | as soon as one first occurrence has arrived, exactly the last such report decides |
| `FaxRace.EveryWriteIsAMove` | internal/fax/service.go:136-179 | over every interleaving of sends, webhooks, lost writes, expunges and restarts, a stored status write is a move of the table if and only if it is not the settling write of an immediate receipt after a stored verdict for that fax or a lost first write |
| `FaxRace.LostFaxIsOutOfReach` | internal/fax/service.go:167-169 | a fax whose first write was lost carries no ref and no verdict ever reaches it |
| `FaxRace.LostWriteSettlesQueued` | internal/fax/service.go:167-175 | that exception is reachable: an immediate receipt whose first write is lost settles a queued row, and the ref is nowhere |
| `FaxRace.FirstWriteReplacesQueued` | internal/fax/service.go:165-169 | the drive's first write never overwrites a verdict: it always replaces queued |
| `FaxRace.DeferredRunsAreLegal` | internal/fax/service.go:274-302 | with deferred receipts every stored status change is a legal move, although the webhook decides on a row it read before |
| `FaxRace.VerdictHitsItsFax` | internal/fax/service.go:277-292 | a verdict is stored only on a fax its ref was issued to |
| `FaxRace.SettlingOverrulesAFailure` | internal/fax/service.go:170-175 | a failure reported between the two writes of an immediate receipt is stored and then overwritten by transmitted |
| `FaxRace.BetweenTheWrites` | internal/fax/service.go:165-170 | that moment is reachable for every immediate receipt with a ref |
| `FaxRaceRestart.RestartStrandsTheFax` | internal/fax/service.go:136-179 | once the process has restarted, a fax without a stored ref keeps its row for good, whatever happens after, until retention removes it: nothing submits it again and no verdict reaches it |
| `FaxRaceVerdicts.RaceIsVerdictRun` | internal/fax/service.go:274-302 | seen from a driven fax with a ref of its own, every stretch of the racing machine within one process is a sequence of reports in the order of their writes |
| `FaxRaceVerdicts.RacingReportsDecide` | internal/fax/service.go:274-302 | so webhooks that decide on rows they read earlier, racing each other and everything else, leave the fax with the status whose first occurrence was written last |
| `Blobs.ValidPathStaysInside` | internal/domain/relpath.go:25-38 | a path that passes the check names a place below the root: every step is a named entry |
| `Blobs.AcceptedPaths` | internal/domain/relpath.go:25-38 | a path is accepted if and only if it is not empty, does not start with a slash, has no backslash and has no ".." between slashes or at an end |
| `Blobs.FilesJoin` | internal/blob/store.go:56-94 | the file of a joined path is the one path's steps after the other's; a name is one step, "" and "." none |
| `Blobs.PathsAlias` | internal/domain/relpath.go:25-38 | the check does not make paths unique: a "." segment gives a second path to the same file |
| `Blobs.BlobStore.Remove` | internal/blob/store.go:87-94 | exactly the named file goes; a missing file is no error, a stuck one is |
| `Retention.UnlinkAll` | internal/retention/retention.go:98-112 | every valid listed path is unlinked unless its file is stuck; the count counts paths |
| `Retention.SweepOnce` | internal/retention/retention.go:77-122 | a failed store sweep skips the pass; otherwise the fax rows, the transcripts and then the files go as stated, each sweep as far as it got, with the summary's numbers |
| `Retention.SurvivorKeepsDocument` | internal/retention/retention.go:98-112 | after any pass, cut short or not, a row that was not removed still has its document if and only if its file cannot be unlinked or no released store path names it, and no row the sweep met shares and releases it |
| `Retention.SurvivorOfCompletePass` | internal/retention/retention.go:98-112 | after a complete pass: exactly when no released path names it and no expirable row shares and releases it |
| `Retention.ResendLosesDocument` | internal/fax/service.go:197-210 | the condition is needed: a resend younger than the cutoff loses its document to the expired original |
| `Retention.StuckRowLosesDocument` | internal/readmodels/faxes.go:336-344 | a row whose expunge failed survives the pass without its document |
| `Retention.SharedDocumentCountsTwice` | internal/retention/retention.go:107-111 | a document named twice is unlinked once and counted twice |
| `Retention.CountIsFilesRemoved` | internal/retention/retention.go:98-112 | the count equals the number of files removed if and only if the paths unlinked name different files, all of which existed |
| `Retention.RemovedFiles` | internal/retention/retention.go:98-112 | the files that go are exactly the existing ones a valid, unstuck listed path names |
| `Delivery.VerdictOf` | internal/domain/delivery.go:42-51 | a status is a verdict exactly when it is delivered or failed |
| `Delivery.DeliveryAdvance` | internal/domain/delivery.go:145-167 | an event moves exactly when the table has the move, to the event's target; otherwise it is inert |
| `Delivery.WhatEventsDo` | internal/domain/delivery.go:145-167 | every event's whole effect: a gateway answer counts only while queued, a verdict always; only an accepted send brings a ref, and only failures a story |
| `Delivery.AlwaysHeard` | internal/domain/delivery.go:111-136 | verdicts move from every state, send events only from queued, and nothing moves to queued |
| `Delivery.FailedIffStory` | internal/domain/delivery.go:145-167 | over every event list whose refusals name a failure, a message is failed exactly when its failure kind is set |
| `Delivery.NeverBack` | internal/domain/delivery.go:145-167 | over every event list the state never returns to queued and the ref is set at most once and never cleared |
| `Delivery.LastVerdictDecides` | internal/domain/delivery.go:156-165 | the last verdict alone decides status and failure story, whatever send events surround it |
| `Delivery.RepeatChangesNothing` | internal/domain/delivery.go:116-122 | repeating the last verdict changes nothing |
| `Delivery.FailureKindOf` | internal/messaging/service.go:393-398 | a rejection is not retryable, everything else is transient; never none |
| `Delivery.Messages.Forward` | internal/messaging/service.go:159-196 | a message that cannot be stored is not sent; a stored one is queued, then takes the gateway's answer; the message handed back tells the answer even when the second write fails |
| `Delivery.Messages.ByProviderRef` | internal/store/messages.go:128-144 | an outbound message carrying the ref, none for an empty ref |
| `Delivery.Messages.DeliveryReceipt` | internal/messaging/service.go:337-361 | only verdicts are accepted; the message of the ref takes exactly what the verdict says and keeps its ref; every outbound story still fits its status |
| `Delivery.Messages.RemoteRead` | internal/messaging/service.go:370-373 | a read marker is a delivered verdict, an unknown ref changes nothing |
| `DeliveryRace.RacingReceiptsAreSerial` | internal/messaging/service.go:181-196 | however receipts race each other and the sender's second write, with any write failing, the stored message is what the stored events give one after the other in the order of their writes: a receipt decided on a stale read is never felt |
| `DeliveryRace.LastWriteDecides` | internal/messaging/service.go:337-361 | so the receipt written last alone decides status and failure story |
| `DeliveryRace.LostMarkStaysQueued` | internal/messaging/service.go:189-193 | a message whose second write was lost stays queued for good: no receipt finds it |
| `MatrixSync.ApplyDirect` | internal/matrix/receiver.go:111-123 | a peer whose entry is a list with a non-empty name first takes that room, every other peer keeps its own |
| `MatrixDelivery.FoldTakesNewest` | internal/matrix/receiver.go:198-204 | folding a round's account data takes the rooms its newest content names and keeps every other peer's |
| `MatrixSync.InvertRooms` | internal/matrix/receiver.go:98-108 | every mapped room is inverted to one of its peers |
| `MatrixSync.InverseRoundTrip` | internal/matrix/receiver.go:98-108 | with one peer per room the inversion loses nothing |
| `MatrixSync.OfferedAtLeastOnce` | internal/matrix/receiver.go:157-195 | over any run with crashes, failed syncs and failed saves anywhere, every event before the persisted cursor has been offered |
| `MatrixSync.CursorNeverBack` | internal/matrix/receiver.go:191-193 | the persisted cursor never moves back |
| `MatrixSync.OfferedAtMost` | internal/matrix/receiver.go:153-156 | an event is offered at most once more than there were crashes and failed saves |
| `MatrixSync.OfferedExactlyOnce` | internal/matrix/receiver.go:189-193 | with neither crash nor failed save each event before the cursor is offered exactly once |
| `MatrixSync.OfferedInRoomOrder` | internal/matrix/receiver.go:205-216 | and in order within its room, although rooms come in any order |
| `MatrixSync.DeliveredAtMost` | internal/matrix/receiver.go:205-219 | a message reaches the inbox at most as often as its event was offered, so at most once more than there were crashes and failed saves |
| `MatrixSync.RestartSkipsMessages` | internal/matrix/receiver.go:204-214 | after a restart a round without a change of the direct-room data passes over every message for good, offered but not delivered |
| `MatrixDelivery.OfferDelivers` | internal/matrix/receiver.go:204-219 | an offered event is delivered by that offer, to a peer mapped to its room, if and only if it lands (address, download and inbox all work), is text or media by somebody else, and its room is in the map as folded for its round |
| `MatrixDelivery.DeliveredIsHeard` | internal/matrix/receiver.go:204-221 | over every run, crashes and failures anywhere, the deliveries are exactly the offers that meet that condition, in their order |
| `MatrixDelivery.DeliveredExactlyOnce` | internal/matrix/receiver.go:189-221 | with neither crash nor failed save each event before the cursor is delivered exactly once if its offer met the condition, otherwise never |
| `MatrixDelivery.NamedRoomsAreHeard` | internal/matrix/receiver.go:111-221 | while nothing crashes, no save fails and no room is learned by sending: text or media by somebody else before the cursor, in a room the newest account data of its round names, is delivered exactly once if its offer landed |
| `MatrixDelivery.DeliveredInRoomOrder` | internal/matrix/receiver.go:205-219 | and messages arrive in order within their room |
| `MatrixSync.RunRound` | internal/matrix/receiver.go:163-193 | one round's steps add up to: map updated, batch offered in order, messages delivered, cursor saved or not |
| `MatrixSync.Receiver.IngestRoom` | internal/matrix/receiver.go:205-216 | each event of a timeline is offered in order; exactly other people's text and media in direct rooms whose address, download and inbox write work are delivered |
| `MatrixSync.Receiver.IngestRooms` | internal/matrix/receiver.go:205-219 | all joined rooms in any order form one batch: every event once, rooms in order |
| `MatrixSync.Receiver.Ingest` | internal/matrix/receiver.go:198-221 | the account data is folded before any room is looked up |
| `MatrixSync.Receiver.Round` | internal/matrix/receiver.go:157-195 | one turn of the loop is a run of the protocol; a permanent refusal stops it, anything else keeps it alive |
| `Reports.WeekHoldsTheDay` | internal/reports/reports.go:342-354 | the week start is the one Monday (day 4, 5 January 1970, and every seventh day from it) whose seven days hold the day |
| `Reports.CountInto` | internal/reports/reports.go:163-181 | one record adds its share to a tally: answered means talk time, missed means inbound without |
| `Reports.Collect` | internal/reports/reports.go:153-236 | the loop leaves the totals, the day, contact and hour tallies, the week and the undated count of exactly the records seen |
| `Reports.Aggregate` | internal/reports/reports.go:147-261 | the report: totals, days oldest first, 24 hours, contacts by talk time then calls then number, the current week and the undated count, each the sum over its records |
| `ReportNumbers.TotalNumbers` | internal/reports/reports.go:153-181 | the totals count the records by direction, answered, missed and talk time; undated counts those without a start |
| `ReportNumbers.WeekNumbers` | internal/reports/reports.go:229-235 | with a clock the week starts on a Monday, holds its day and counts exactly the dated records of its seven days; without one it is empty |
| `ReportNumbers.HourNumbers` | internal/reports/reports.go:225-227 | hour h counts the records that start in its sixty minutes |
| `ReportNumbers.DayNumbers` | internal/reports/reports.go:195-223 | exactly the days on which a record starts, each once and oldest first, dated by its first record, with the tally of all of them |
| `ReportNumbers.ContactNumbers` | internal/reports/reports.go:183-193 | exactly the non-empty other parties, caller when inbound and destination when outbound, each once with calls and talk, ranked by talk, then calls, then number |
| `Ordering.SortedIsUnique` | internal/reports/reports.go:242-258 | a strict order admits one listing of a set, so the two sorts leave nothing to chance |
| `Ordering.SortSet` | internal/reports/reports.go:242-258 | the values of a map come out in order, each once |
| `ReportLaws.DaysConserve` | internal/reports/reports.go:195-223 | day tallies plus undated records make up the totals in every column |
| `ReportLaws.HoursConserve` | internal/reports/reports.go:225-227 | the hour ladder sums to the days in calls and in talk |
| `ReportLaws.ContactsConserve` | internal/reports/reports.go:183-193 | the contacts sum to the records that name a remote party |
| `ReportLaws.WeekConserves` | internal/reports/reports.go:229-232 | the week equals the listed days inside its seven |
| `ReportLaws.TalliesBalance` | internal/reports/reports.go:165-181 | in every part inbound plus outbound is calls, answered and missed are disjoint, and only inbound calls are missed |
| `ReportLaws.OrderDoesNotMatter` | internal/reports/reports.go:146-261 | any permutation of the records gives the same report except the time of day inside the days' dates |
| `ReportLaws.ReportIsDetermined` | internal/reports/reports.go:6-12 | the same records give the same report, exactly |
| `Reports.BusiestHours` | internal/reports/reports.go:282-299 | exactly the hours with calls, by calls then talk then hour |
| `ReportNumbers.BusiestFirst` | internal/reports/reports.go:291-297 | more calls first, then more talk, then the earlier hour |
| `Reports.TopContacts` | internal/reports/reports.go:267-277 | the best-ranked contacts, each outranking every one left out |
| `Reports.MaxDayTalk` | internal/reports/reports.go:303-313 | the largest daily talk time |
| `Contacts.ContactList.Save` | internal/readmodels/contacts.go:110-137 | a taken slot is renamed keeping id and age; a new number is refused exactly when the owner has 500; no list outgrows its cap |
| `Contacts.SaveTells` | internal/readmodels/contacts.go:110-137 | the slot has the new name and, if it was taken, its old id and age; no other slot changes |
| `Contacts.RefusedAtTheCap` | internal/readmodels/contacts.go:139-150 | refused: a new number for an owner who has five hundred |
| `Contacts.UpsertFits` | internal/readmodels/contacts.go:139-150 | an accepted save overfills no list |
| `Contacts.ContactList.OwnerViews` | internal/readmodels/contacts.go:171-185 | the window of one over the cap shows every slot of the owner, newest first |
| `Contacts.ContactList.Delete` | internal/readmodels/contacts.go:200-220 | one of the owner's contacts with that id goes, nothing when there is none or the engine fails |
| `Upserts.PrefixForgotten` | internal/app/legacy.go:12-19 | for every upsert rule that converges, a partial pass before a full one leaves no trace |
| `Upserts.BootsConverge` | internal/app/legacy.go:20-24 | over any number of interrupted boots a full pass leaves what one full pass at the start would have, and a set flag means that is what is there |
| `LegacyImport.LanesConverge` | internal/app/legacy.go:41-55 | the contact, snippet and fax saves are such rules: contacts keep id and age, snippets their age, faxes nothing |
| `LegacyImport.ImportContacts` | internal/app/legacy.go:25-64 | one boot: nothing once the flag is set; else rows from the front up to the first failed save; the flag is written exactly after a full pass |
| `LegacyImport.ImportIsABoot` | internal/app/legacy.go:25-64 | such a run is one boot of the protocol |
| `LegacyImport.PassRunsIffItFits` | internal/readmodels/contacts.go:139-150 | a pass meets no refusal if and only if every owner it brings a new number has room for all of its numbers, old and new |
| `LegacyImport.StillFits` | internal/app/legacy.go:20-24 | what fits at first still fits after an interrupted pass |
| `LegacyImport.ContactsConverge` | internal/app/legacy.go:25-64 | once the flag is set, the contacts are those of one full import |
| `LegacyImport.SnippetsConverge` | internal/app/legacy.go:69-108 | once the flag is set, the snippets are those of one full import |
| `LegacyImport.SnippetList.Save` | internal/readmodels/snippets.go:103-128 | a taken id keeps its age; a new id is refused exactly when the owner has 100 |
| `LegacyImport.SnippetCap` | internal/readmodels/snippets.go:133-143 | refused: a new id for an owner who has a hundred |
| `LegacyImport.LanesTell` | internal/readmodels/snippets.go:103-128 | a saved snippet takes everything but the age of a taken slot; a fax row is replaced whole |
| `LegacyImport.ImportSnippets` | internal/app/legacy.go:69-108 | one boot of the snippet lane is a boot of the protocol; the flag is written exactly after a pass no save of which was refused or failed |
| `LegacyImport.ImportFaxes` | internal/app/legacy.go:159-198 | one boot of the fax lane is a boot of the protocol; the flag is written exactly after a pass no create of which failed |
| `LegacyImport.FaxesConverge` | internal/app/legacy.go:159-198 | once the flag is set, the fax rows are those of one full import |
| `TranscriptImport.RetryDuplicates` | internal/app/legacy.go:114-153 | the transcript lane does not converge: from any store with room below its caps, over any number of interrupted boots, every row they stored is there beside those of the full pass; the result is that of one pass exactly when none of them stored anything |
| `TranscriptImport.OnePass` | internal/app/legacy.go:131-144 | from any store with room below its caps, one uninterrupted pass stores each segment once, in order |
| `TranscriptImport.AppendKeepsAll` | internal/readmodels/transcripts.go:123-143 | with room for its row in its call, its owner and overall, an append adds the row and drops none, even when it fails after storing it |
| `TranscriptImport.ImportTranscripts` | internal/app/legacy.go:114-153 | one boot of the transcript lane: unparsable rows are skipped, the rows stored are those of the readable list from the front, the first failing append ends it whether or not its row was stored, and the flag is set only after all of them |
| `AsrOutcomes.Outcomes.Record` | internal/asr/outcomes.go:45-61 | every counter, the ring and the last-success and last-error fields follow the trips recorded |
| `AsrOutcomes.Outcomes.Push` | internal/asr/outcomes.go:49-53 | the latency goes into the next slot and the index wraps |
| `AsrOutcomes.Outcomes.Observe` | internal/asr/outcomes.go:64-83 | calls and failures are exact and the average is the truncated mean of the last min(n, 32) latencies |
| `AsrOutcomes.AverageIsOverTheNewest` | internal/asr/outcomes.go:67-74 | the average times the number of trips it is over, at most 32, is the sum of the newest latencies short of less than that number; 0 without trips |
| `AsrOutcomes.SnapshotTells` | internal/asr/outcomes.go:64-83 | calls and failures are counted, last success and last failure are those of the latest trips of their kind |
| `AsrOutcomes.RingSum` | internal/asr/outcomes.go:67-74 | added up in slot order, the ring gives the sum of the newest latencies |
| `AsrOutcomes.TruncDiv` | internal/asr/outcomes.go:73 | the mean is truncated towards zero |
| `AsrOutcomes.Outcomes.HealthCheck` | internal/asr/outcomes.go:92-102 | the verdict, with the last error and its age when degraded |
| `AsrOutcomes.DegradedWhen` | internal/asr/outcomes.go:85-99 | with a clock that never runs back: degraded exactly when a failure carries the last trip's own clock reading |
| `AsrOutcomes.DegradedIffLastFailed` | internal/asr/outcomes.go:85-99 | with distinct readings: degraded exactly when the last trip failed |

## Left out

- TranscriptRuns.HolesIffTorn: an engine that reports a failure although it applied the change, and enforcement that stops inside one cap.
- TranscriptRuns.ExportIsComplete: one owner at a time; `RecentAll` groups by call id across owners and is not modelled.
- MatrixSync.Receiver.Ingest: read receipts, which only call `RemoteRead` (`Delivery.Messages.RemoteRead`); a failing address parse, download and inbox write are one flag per offer.
- MatrixSync.OfferedAtLeastOnce: the server is taken to return every event after the cursor; "limited" timelines are ignored by the code and by the model.
- Reports.Aggregate: parsing of the start field, time zones and daylight saving; a start is a day index and a minute of day.
- Delivery.Messages.Forward: upload checks, sender lookup, thread resolution and attachment spooling before the message is stored; each only ends the call early.
- Delivery.Messages.DeliveryReceipt: one atomic call; `DeliveryRace` splits its lookup from its write for one message.
- CrmPeople.RunPool: what `Resolve` answers at each position is a parameter; `CrmPeople.PeopleOfResolverRun` joins it to the resolver's machine for fixed answers only.
- Contacts.ContactList.Delete: all minted ids are one value, so which of an owner's minted contacts an id names is not told apart.
- LegacyImport.SnippetList.Save: `List` and `Delete` of the snippets.
- Contacts.ContactList.Save: `List` and `Count`, which only read.
- FaxStore.Faxes.SweepBefore: a crash between expunge and unlink, which leaves an orphaned file.
- Retention.SweepOnce: paths that name a directory; the SQL store's own sweep is a parameter.
- AsrOutcomes.Outcomes.Record: wrap-around of the 64-bit counters and of summed durations.
- `Search`, `Recent` and `RecentAll` of the transcripts: the same reassembly over a filtered window.
- The CRM context cache, call logging and profile links; notes, reviews, push devices and audit rows: they repeat shapes covered here.
- HTTP, TLS, JSON, multipart and OAuth code, the archive offer after an inbound fax, change notifications and logging.
- The budget bar's floating-point fraction.
- The hooks' own one-hour replay window in front of the status webhooks.
- Back-off delays between retries of the sync loop.
