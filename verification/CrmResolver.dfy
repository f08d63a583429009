/** The CRM resolver: a TTL cache and a single-flight table in front of an
    upstream lookup.

    `Shared` is the state behind the resolver's mutex; the class `Resolver`
    updates it in place, one method per critical section. `Step` interleaves
    those sections for any number of concurrent `Resolve` calls, and the lemmas
    at the end speak about every run of that machine. */
module CrmResolver {
  import opened Clock
  import opened Collections

  const POSITIVE_TTL: int := 6 * 3600 * SECOND
  const NEGATIVE_TTL: int := 5 * 60 * SECOND
  const MAX_ENTRIES: nat := 1024

  datatype Person = Person(ref: string, name: string)

  const NOBODY := Person("", "")

  /** What one upstream round-trip can say. `Miss` covers both "no such contact"
      and "client disabled"; everything else the client can return is `Failure`. */
  datatype Answer = Match(person: Person) | Miss | Failure

  datatype Entry = Entry(person: Person, miss: bool, fetched: int)

  /** One in-flight lookup. `closes` counts how often its channel was closed (a
      second close would panic); `leader` is bookkeeping for the proofs: the
      call that registered the flight. */
  datatype Flight = Flight(number: string, leader: nat, person: Person, ok: bool, written: bool, closes: nat)

  datatype Shared = Shared(
    cache: map<string, Entry>, inflight: map<string, nat>, flights: seq<Flight>,
    hits: nat, misses: nat, failures: nat)

  function Ttl(e: Entry): int {
    if e.miss then NEGATIVE_TTL else POSITIVE_TTL
  }

  /** The entry a successful round-trip leaves behind. */
  function EntryOf(a: Answer, at: int): Entry
    requires !a.Failure?
  {
    if a.Match? then Entry(a.person, false, at) else Entry(NOBODY, true, at)
  }

  /** What `Resolve` returns to its caller for one upstream answer. */
  function Outcome(a: Answer): (Person, bool) {
    if a.Match? then (a.person, true) else (NOBODY, false)
  }

  // ---- The critical sections as functions on the shared state ----

  function AfterCached(sh: Shared, number: string, now: int): Shared {
    if number in sh.cache && now - sh.cache[number].fetched > Ttl(sh.cache[number])
    then sh.(cache := sh.cache - {number}) else sh
  }

  function CachedEntry(sh: Shared, number: string, now: int): Option<Entry> {
    if number in sh.cache && now - sh.cache[number].fetched <= Ttl(sh.cache[number])
    then Some(sh.cache[number]) else None
  }

  function AfterJoin(sh: Shared, number: string, caller: nat): Shared {
    if number in sh.inflight then sh
    else sh.(inflight := sh.inflight[number := |sh.flights|],
             flights := sh.flights + [Flight(number, caller, NOBODY, false, false, 0)])
  }

  function AfterRemember(sh: Shared, number: string, e: Entry): Shared {
    sh.(cache := (if |sh.cache| >= MAX_ENTRIES then map[] else sh.cache)[number := e])
  }

  function AfterDetach(sh: Shared, number: string): Shared {
    sh.(inflight := sh.inflight - {number})
  }

  function AfterPublish(sh: Shared, f: nat, person: Person, ok: bool): Shared
    requires f < |sh.flights|
  {
    sh.(flights := sh.flights[f := sh.flights[f].(person := person, ok := ok, written := true)])
  }

  function AfterClose(sh: Shared, f: nat): Shared
    requires f < |sh.flights|
  {
    sh.(flights := sh.flights[f := sh.flights[f].(closes := sh.flights[f].closes + 1)])
  }

  function AfterCount(sh: Shared, a: Answer): Shared {
    match a
    case Match(_) => sh.(hits := sh.hits + 1)
    case Miss => sh.(misses := sh.misses + 1)
    case Failure => sh.(failures := sh.failures + 1)
  }

  /** The resolver's mutable state; a flight pointer is an index into `flights`. */
  class Resolver {
    var cache: map<string, Entry>
    var inflight: map<string, nat>
    var flights: seq<Flight>
    var hits: nat
    var misses: nat
    var failures: nat

    function View(): Shared
      reads this
    {
      Shared(cache, inflight, flights, hits, misses, failures)
    }

    constructor ()
      ensures View() == Shared(map[], map[], [], 0, 0, 0)
    {
      cache, inflight, flights, hits, misses, failures := map[], map[], [], 0, 0, 0;
    }

    /** Serves a fresh entry; drops an expired one. */
    method Cached(number: string, now: int) returns (entry: Entry, isFresh: bool)
      modifies this
      ensures View() == AfterCached(old(View()), number, now)
      ensures isFresh <==> CachedEntry(old(View()), number, now).Some?
      ensures isFresh ==> entry == CachedEntry(old(View()), number, now).value
    {
      entry, isFresh := Entry(NOBODY, false, 0), false;
      if number !in cache {
        return;
      }
      var found := cache[number];
      var ttl := POSITIVE_TTL;
      if found.miss {
        ttl := NEGATIVE_TTL;
      }
      if now - found.fetched > ttl {
        cache := cache - {number};
        return;
      }
      return found, true;
    }

    /** `None` makes the caller the leader; otherwise the flight to wait on. */
    method Join(number: string, caller: nat) returns (flight: Option<nat>)
      modifies this
      ensures View() == AfterJoin(old(View()), number, caller)
      ensures flight == if number in old(inflight) then Some(old(inflight[number])) else None
    {
      if number in inflight {
        return Some(inflight[number]);
      }
      inflight := inflight[number := |flights|];
      flights := flights + [Flight(number, caller, NOBODY, false, false, 0)];
      return None;
    }

    /** Stores an entry, first dropping the whole map at the entry bound. */
    method Remember(number: string, entry: Entry)
      modifies this
      ensures View() == AfterRemember(old(View()), number, entry)
    {
      if |cache| >= MAX_ENTRIES {
        cache := map[];
      }
      cache := cache[number := entry];
    }

    /** Retires the in-flight entry, then publishes the result and closes. */
    method Settle(number: string, person: Person, ok: bool)
      requires number in inflight ==> inflight[number] < |flights|
      modifies this
      ensures number !in old(inflight) ==> View() == old(View())
      ensures number in old(inflight) ==>
        View() == AfterClose(AfterPublish(AfterDetach(old(View()), number), old(inflight[number]), person, ok),
                             old(inflight[number]))
    {
      if number in inflight {
        var f := inflight[number];
        inflight := inflight - {number};
        flights := flights[f := flights[f].(person := person, ok := ok, written := true)];
        flights := flights[f := flights[f].(closes := flights[f].closes + 1)];
      }
    }
  }

  // ---- Concurrent Resolve calls ----

  /** How a finished call came by its result. */
  datatype Via =
    | Refused                                       // empty number or no CRM
    | FromCache(entry: Entry, served: int)
    | FromFlight(flight: nat)
    | GaveUp                                        // the waiter's context ended
    | Led(flight: nat, answer: Answer, at: int)

  /** Where one `Resolve` call stands. The stages from `Looking` to `Closed`
      belong to a leader; `at` is the stamp taken when its lookup returned. */
  datatype Pc =
    | Begin
    | Missed
    | Waiting(flight: nat)
    | Looking(flight: nat)
    | Answered(flight: nat, answer: Answer, at: int)
    | Settling(flight: nat, answer: Answer, at: int)
    | Detached(flight: nat, answer: Answer, at: int, found: Option<nat>)
    | Written(flight: nat, answer: Answer, at: int, found: Option<nat>)
    | Closed(flight: nat, answer: Answer, at: int)
    | Done(person: Person, ok: bool, via: Via)

  datatype Thread = Thread(number: string, pc: Pc)

  /** One upstream round-trip, as the CRM saw it. */
  datatype Lookup = Lookup(number: string, answer: Answer, at: int)

  datatype State = State(enabled: bool, now: int, sh: Shared, threads: seq<Thread>, log: seq<Lookup>)

  /** `Run(i)` is call i's next own step; `Reply` is its lookup returning. */
  datatype Action =
    | Spawn(number: string)
    | Tick(elapsed: nat)
    | Run(call: nat)
    | Reply(call: nat, answer: Answer)
    | GiveUp(call: nat)

  function Init(enabled: bool, now: int): State {
    State(enabled, now, Shared(map[], map[], [], 0, 0, 0), [], [])
  }

  function Goto(s: State, i: nat, pc: Pc): State
    requires i < |s.threads|
  {
    s.(threads := s.threads[i := s.threads[i].(pc := pc)])
  }

  function StepBegin(s: State, i: nat): State
    requires i < |s.threads|
  {
    var n := s.threads[i].number;
    if n == "" || !s.enabled then Goto(s, i, Done(NOBODY, false, Refused))
    else
      var pc := match CachedEntry(s.sh, n, s.now)
                case Some(e) => Done(e.person, !e.miss, FromCache(e, s.now))
                case None => Missed;
      Goto(s.(sh := AfterCached(s.sh, n, s.now)), i, pc)
  }

  function StepJoin(s: State, i: nat): State
    requires i < |s.threads|
  {
    var n := s.threads[i].number;
    var pc := if n in s.sh.inflight then Waiting(s.sh.inflight[n]) else Looking(|s.sh.flights|);
    Goto(s.(sh := AfterJoin(s.sh, n, i)), i, pc)
  }

  function StepWake(s: State, i: nat, f: nat): State
    requires i < |s.threads|
  {
    if f < |s.sh.flights| && s.sh.flights[f].closes > 0
    then Goto(s, i, Done(s.sh.flights[f].person, s.sh.flights[f].ok, FromFlight(f)))
    else s
  }

  /** Settle's critical section: look the flight up again by number, then delete it. */
  function StepDetach(s: State, i: nat, f: nat, a: Answer, at: int): State
    requires i < |s.threads|
  {
    var n := s.threads[i].number;
    var found := if n in s.sh.inflight then Some(s.sh.inflight[n]) else None;
    Goto(s.(sh := AfterDetach(s.sh, n)), i, Detached(f, a, at, found))
  }

  function StepRemember(s: State, i: nat, f: nat, a: Answer, at: int): State
    requires i < |s.threads| && !a.Failure?
  {
    Goto(s.(sh := AfterRemember(s.sh, s.threads[i].number, EntryOf(a, at))), i, Settling(f, a, at))
  }

  function StepPublish(s: State, i: nat, f: nat, a: Answer, at: int, found: Option<nat>): State
    requires i < |s.threads|
  {
    var sh := if found.Some? && found.value < |s.sh.flights|
              then AfterPublish(s.sh, found.value, Outcome(a).0, Outcome(a).1) else s.sh;
    Goto(s.(sh := sh), i, Written(f, a, at, found))
  }

  function StepClose(s: State, i: nat, f: nat, a: Answer, at: int, found: Option<nat>): State
    requires i < |s.threads|
  {
    var sh := if found.Some? && found.value < |s.sh.flights| then AfterClose(s.sh, found.value) else s.sh;
    Goto(s.(sh := sh), i, Closed(f, a, at))
  }

  function StepCount(s: State, i: nat, f: nat, a: Answer, at: int): State
    requires i < |s.threads|
  {
    Goto(s.(sh := AfterCount(s.sh, a)), i, Done(Outcome(a).0, Outcome(a).1, Led(f, a, at)))
  }

  function StepRun(s: State, i: nat): State
    requires i < |s.threads|
  {
    match s.threads[i].pc
    case Begin => StepBegin(s, i)
    case Missed => StepJoin(s, i)
    case Waiting(f) => StepWake(s, i, f)
    case Looking(_) => s
    case Answered(f, a, at) => if a.Failure? then s else StepRemember(s, i, f, a, at)
    case Settling(f, a, at) => StepDetach(s, i, f, a, at)
    case Detached(f, a, at, found) => StepPublish(s, i, f, a, at, found)
    case Written(f, a, at, found) => StepClose(s, i, f, a, at, found)
    case Closed(f, a, at) => StepCount(s, i, f, a, at)
    case Done(_, _, _) => s
  }

  function StepReply(s: State, i: nat, f: nat, a: Answer): State
    requires i < |s.threads|
  {
    var pc := if a.Failure? then Settling(f, a, s.now) else Answered(f, a, s.now);
    Goto(s.(log := s.log + [Lookup(s.threads[i].number, a, s.now)]), i, pc)
  }

  /** One atomic step; an action that is not enabled changes nothing. */
  function Step(s: State, a: Action): State {
    match a
    case Spawn(n) => s.(threads := s.threads + [Thread(n, Begin)])
    case Tick(d) => s.(now := s.now + d)
    case Run(i) => if i < |s.threads| then StepRun(s, i) else s
    case Reply(i, ans) =>
      if i < |s.threads| && s.threads[i].pc.Looking? then StepReply(s, i, s.threads[i].pc.flight, ans) else s
    case GiveUp(i) =>
      if i < |s.threads| && s.threads[i].pc.Waiting? then Goto(s, i, Done(NOBODY, false, GaveUp)) else s
  }

  /** Any interleaving: a list of actions in the order they take effect. */
  function Exec(s: State, actions: seq<Action>): State
    decreases |actions|
  {
    if actions == [] then s
    else Step(Exec(s, actions[..|actions| - 1]), actions[|actions| - 1])
  }

  // ---- The invariant ----

  /** The flight a leader is responsible for, from join until it returns. */
  function Leads(pc: Pc): Option<nat> {
    match pc
    case Looking(f) => Some(f)
    case Answered(f, _, _) => Some(f)
    case Settling(f, _, _) => Some(f)
    case Detached(f, _, _, _) => Some(f)
    case Written(f, _, _, _) => Some(f)
    case Closed(f, _, _) => Some(f)
    case Done(_, _, via) => if via.Led? then Some(via.flight) else None
    case _ => None
  }

  /** Between join and settle's critical section. */
  predicate Registered(pc: Pc) {
    pc.Looking? || pc.Answered? || pc.Settling?
  }

  predicate HasWritten(pc: Pc) {
    pc.Written? || HasClosed(pc)
  }

  predicate HasClosed(pc: Pc) {
    pc.Closed? || (pc.Done? && pc.via.Led?)
  }

  /** The answer a leader holds once its lookup returned. */
  function Held(pc: Pc): Option<(Answer, int)> {
    match pc
    case Answered(_, a, at) => Some((a, at))
    case Settling(_, a, at) => Some((a, at))
    case Detached(_, a, at, _) => Some((a, at))
    case Written(_, a, at, _) => Some((a, at))
    case Closed(_, a, at) => Some((a, at))
    case Done(_, _, via) => if via.Led? then Some((via.answer, via.at)) else None
    case _ => None
  }

  ghost predicate FlightInv(s: State, f: nat)
    requires f < |s.sh.flights|
  {
    var fl := s.sh.flights[f];
    && fl.leader < |s.threads|
    && var t := s.threads[fl.leader];
    && t.number == fl.number
    && Leads(t.pc) == Some(f)
    && fl.written == HasWritten(t.pc)
    && fl.closes == (if HasClosed(t.pc) then 1 else 0)
    && (fl.written ==> Held(t.pc).Some? && (fl.person, fl.ok) == Outcome(Held(t.pc).value.0))
    && (Registered(t.pc) ==> fl.number in s.sh.inflight && s.sh.inflight[fl.number] == f)
  }

  ghost predicate ThreadInv(s: State, i: nat)
    requires i < |s.threads|
  {
    var t := s.threads[i];
    && (Leads(t.pc).Some? ==> Leads(t.pc).value < |s.sh.flights| && s.sh.flights[Leads(t.pc).value].leader == i)
    && (Held(t.pc).Some? ==> Lookup(t.number, Held(t.pc).value.0, Held(t.pc).value.1) in s.log)
    && (t.pc.Answered? ==> !t.pc.answer.Failure?)
    && (t.pc.Detached? ==> t.pc.found == Some(t.pc.flight))
    && (t.pc.Written? ==> t.pc.found == Some(t.pc.flight))
    && (t.pc.Waiting? ==> t.pc.flight < |s.sh.flights| && s.sh.flights[t.pc.flight].number == t.number)
    && (t.pc.Done? ==> DoneInv(s, t))
    && (!t.pc.Begin? && !(t.pc.Done? && t.pc.via.Refused?) ==> t.number != "" && s.enabled)
  }

  ghost predicate DoneInv(s: State, t: Thread)
    requires t.pc.Done?
  {
    match t.pc.via
    case Refused => (t.number == "" || !s.enabled) && (t.pc.person, t.pc.ok) == (NOBODY, false)
    case GaveUp => (t.pc.person, t.pc.ok) == (NOBODY, false)
    case FromCache(e, served) =>
      && EntryInv(s, t.number, e)
      && e.fetched <= served <= s.now
      && served - e.fetched <= Ttl(e)
      && (t.pc.person, t.pc.ok) == (e.person, !e.miss)
    case FromFlight(f) =>
      && f < |s.sh.flights|
      && s.sh.flights[f].number == t.number
      && s.sh.flights[f].closes == 1
      && (t.pc.person, t.pc.ok) == (s.sh.flights[f].person, s.sh.flights[f].ok)
    case Led(f, a, at) => (t.pc.person, t.pc.ok) == Outcome(a)
  }

  /** The entry is exactly what some answered round-trip for this number left. */
  ghost predicate EntryInv(s: State, number: string, e: Entry) {
    && (e.miss ==> e.person == NOBODY)
    && Lookup(number, if e.miss then Miss else Match(e.person), e.fetched) in s.log
  }

  ghost predicate InflightInv(s: State, n: string)
    requires n in s.sh.inflight
  {
    && s.sh.inflight[n] < |s.sh.flights|
    && var fl := s.sh.flights[s.sh.inflight[n]];
    && fl.number == n
    && fl.leader < |s.threads|
    && Registered(s.threads[fl.leader].pc)
  }

  ghost predicate CacheInv(s: State) {
    && |s.sh.cache| <= MAX_ENTRIES
    && (forall n :: n in s.sh.cache ==> EntryInv(s, n, s.sh.cache[n]))
    && (forall j :: 0 <= j < |s.log| ==> s.log[j].at <= s.now)
  }

  ghost predicate Inv(s: State) {
    && CacheInv(s)
    && (forall n :: n in s.sh.inflight ==> InflightInv(s, n))
    && (forall f :: 0 <= f < |s.sh.flights| ==> FlightInv(s, f))
    && (forall i :: 0 <= i < |s.threads| ==> ThreadInv(s, i))
  }

  // ---- What one step of call i leaves alone ----

  /** The log, the clock and the flights only grow; a closed flight is final. */
  ghost predicate Grows(s: State, s': State) {
    && s'.enabled == s.enabled
    && s.now <= s'.now
    && (forall x :: x in s.log ==> x in s'.log)
    && |s.sh.flights| <= |s'.sh.flights|
    && (forall f :: 0 <= f < |s.sh.flights| ==>
          && s'.sh.flights[f].number == s.sh.flights[f].number
          && s'.sh.flights[f].leader == s.sh.flights[f].leader
          && (s.sh.flights[f].closes == 1 ==> s'.sh.flights[f] == s.sh.flights[f]))
  }

  ghost predicate OthersSame(s: State, s': State, i: nat) {
    && |s.threads| <= |s'.threads|
    && (forall k :: 0 <= k < |s.threads| && k != i ==> s'.threads[k] == s.threads[k])
  }

  lemma ThreadFrame(s: State, s': State, k: nat)
    requires k < |s.threads| && k < |s'.threads| && s'.threads[k] == s.threads[k]
    requires ThreadInv(s, k) && Grows(s, s')
    ensures ThreadInv(s', k)
  {
  }

  lemma FlightFrame(s: State, s': State, i: nat, f: nat)
    requires f < |s.sh.flights| && f < |s'.sh.flights| && s'.sh.flights[f] == s.sh.flights[f]
    requires FlightInv(s, f) && OthersSame(s, s', i) && s.sh.flights[f].leader != i
    requires forall n :: n in s.sh.inflight && s.sh.inflight[n] == f ==> n in s'.sh.inflight && s'.sh.inflight[n] == f
    ensures FlightInv(s', f)
  {
  }

  lemma CacheFrame(s: State, s': State)
    requires CacheInv(s) && (forall x :: x in s.log ==> x in s'.log)
    requires s'.sh.cache.Keys <= s.sh.cache.Keys && forall n :: n in s'.sh.cache ==> s'.sh.cache[n] == s.sh.cache[n]
    requires forall j :: 0 <= j < |s'.log| ==> s'.log[j].at <= s'.now
    ensures CacheInv(s')
  {
    SubsetSize(s'.sh.cache.Keys, s.sh.cache.Keys);
    assert |s'.sh.cache| == |s'.sh.cache.Keys| && |s.sh.cache| == |s.sh.cache.Keys|;
    forall n | n in s'.sh.cache ensures EntryInv(s', n, s'.sh.cache[n]) { assert EntryInv(s, n, s.sh.cache[n]); }
  }

  /** Everything but call i itself survives a step of call i that keeps the
      in-flight table and the flights of other leaders. */
  lemma StepFrame(s: State, s': State, i: nat)
    requires Inv(s) && Grows(s, s') && OthersSame(s, s', i) && |s'.threads| == |s.threads|
    requires s'.sh.inflight == s.sh.inflight && |s'.sh.flights| == |s.sh.flights|
    requires forall f :: 0 <= f < |s.sh.flights| && s.sh.flights[f].leader != i ==> s'.sh.flights[f] == s.sh.flights[f]
    requires i < |s.threads| && (Registered(s.threads[i].pc) ==> Registered(s'.threads[i].pc))
    ensures forall k :: 0 <= k < |s'.threads| && k != i ==> ThreadInv(s', k)
    ensures forall f :: 0 <= f < |s'.sh.flights| && s.sh.flights[f].leader != i ==> FlightInv(s', f)
    ensures forall n :: n in s'.sh.inflight ==> InflightInv(s', n)
  {
    forall k | 0 <= k < |s'.threads| && k != i ensures ThreadInv(s', k) { ThreadFrame(s, s', k); }
    forall f | 0 <= f < |s'.sh.flights| && s.sh.flights[f].leader != i ensures FlightInv(s', f) {
      FlightFrame(s, s', i, f);
    }
    forall n | n in s'.sh.inflight ensures InflightInv(s', n) { assert InflightInv(s, n); }
  }

  // ---- Every step keeps the invariant ----

  /** No flight is led by a call that leads none. */
  lemma LeadsNone(s: State, i: nat, f: nat)
    requires Inv(s) && i < |s.threads| && Leads(s.threads[i].pc).None? && f < |s.sh.flights|
    ensures s.sh.flights[f].leader != i
  {
    assert FlightInv(s, f);
  }

  /** A leader leads one flight only. */
  lemma LeadsOne(s: State, i: nat, f: nat)
    requires Inv(s) && i < |s.threads| && Leads(s.threads[i].pc).Some? && f < |s.sh.flights|
    requires f != Leads(s.threads[i].pc).value
    ensures s.sh.flights[f].leader != i
  {
    assert FlightInv(s, f);
  }

  lemma StepBeginKeeps(s: State, i: nat)
    requires Inv(s) && i < |s.threads| && s.threads[i].pc.Begin?
    ensures Inv(StepBegin(s, i))
  {
    var s' := StepBegin(s, i);
    assert ThreadInv(s, i);
    forall f | 0 <= f < |s.sh.flights| ensures s.sh.flights[f].leader != i { LeadsNone(s, i, f); }
    StepFrame(s, s', i);
    CacheFrame(s, s');
    BeginOwn(s, i);
  }

  lemma BeginOwn(s: State, i: nat)
    requires Inv(s) && i < |s.threads| && s.threads[i].pc.Begin?
    ensures ThreadInv(StepBegin(s, i), i)
  {
    var n := s.threads[i].number;
    if n in s.sh.cache {
      var e := s.sh.cache[n];
      assert EntryInv(s, n, e);
      var l := Lookup(n, if e.miss then Miss else Match(e.person), e.fetched);
      var j :| 0 <= j < |s.log| && s.log[j] == l;
      assert s.log[j].at <= s.now;
    }
  }

  lemma JoinWaits(s: State, i: nat)
    requires Inv(s) && i < |s.threads| && s.threads[i].pc.Missed? && s.threads[i].number in s.sh.inflight
    ensures Inv(StepJoin(s, i))
  {
    var s', n := StepJoin(s, i), s.threads[i].number;
    assert InflightInv(s, n);
    forall f | 0 <= f < |s.sh.flights| ensures s.sh.flights[f].leader != i { LeadsNone(s, i, f); }
    assert ThreadInv(s, i);
    CacheFrame(s, s');
    StepFrame(s, s', i);
  }

  lemma JoinLeads(s: State, i: nat)
    requires Inv(s) && i < |s.threads| && s.threads[i].pc.Missed? && s.threads[i].number !in s.sh.inflight
    ensures Inv(StepJoin(s, i))
  {
    var s', n := StepJoin(s, i), s.threads[i].number;
    assert ThreadInv(s, i);
    CacheFrame(s, s');
    forall k | 0 <= k < |s'.threads| && k != i ensures ThreadInv(s', k) { ThreadFrame(s, s', k); }
    forall f | 0 <= f < |s.sh.flights| ensures FlightInv(s', f) {
      LeadsNone(s, i, f);
      FlightFrame(s, s', i, f);
    }
    forall m | m in s'.sh.inflight ensures InflightInv(s', m) { if m != n { assert InflightInv(s, m); } }
  }

  lemma StepWakeKeeps(s: State, i: nat)
    requires Inv(s) && i < |s.threads| && s.threads[i].pc.Waiting?
    ensures Inv(StepWake(s, i, s.threads[i].pc.flight))
  {
    var f := s.threads[i].pc.flight;
    var s' := StepWake(s, i, f);
    assert ThreadInv(s, i);
    assert FlightInv(s, f);
    forall g | 0 <= g < |s.sh.flights| ensures s.sh.flights[g].leader != i { LeadsNone(s, i, g); }
    StepFrame(s, s', i);
    CacheFrame(s, s');
  }

  lemma GiveUpKeeps(s: State, i: nat)
    requires Inv(s) && i < |s.threads| && s.threads[i].pc.Waiting?
    ensures Inv(Goto(s, i, Done(NOBODY, false, GaveUp)))
  {
    var s' := Goto(s, i, Done(NOBODY, false, GaveUp));
    assert ThreadInv(s, i);
    forall g | 0 <= g < |s.sh.flights| ensures s.sh.flights[g].leader != i { LeadsNone(s, i, g); }
    StepFrame(s, s', i);
    CacheFrame(s, s');
  }

  /** The steps of a leader touch no flight but its own. */
  lemma LeaderFrame(s: State, s': State, i: nat)
    requires Inv(s) && Grows(s, s') && OthersSame(s, s', i) && |s'.threads| == |s.threads| && i < |s.threads|
    requires Leads(s.threads[i].pc).Some? && Leads(s'.threads[i].pc) == Leads(s.threads[i].pc)
    requires s'.sh.inflight == s.sh.inflight && |s'.sh.flights| == |s.sh.flights|
    requires forall f :: 0 <= f < |s.sh.flights| && f != Leads(s.threads[i].pc).value ==> s'.sh.flights[f] == s.sh.flights[f]
    requires Registered(s.threads[i].pc) ==> Registered(s'.threads[i].pc)
    requires OwnInv(s', i)
    requires CacheInv(s')
    ensures Inv(s')
  {
    forall f | 0 <= f < |s.sh.flights| && s.sh.flights[f].leader != i ensures s'.sh.flights[f] == s.sh.flights[f] {
      assert ThreadInv(s, i);
    }
    StepFrame(s, s', i);
    forall f | 0 <= f < |s'.sh.flights| ensures FlightInv(s', f) {
      if f != Leads(s.threads[i].pc).value { LeadsOne(s, i, f); }
    }
  }

  /** The leader's own record and flight after one of its steps past join. */
  ghost predicate OwnInv(s: State, i: nat) {
    && i < |s.threads|
    && Leads(s.threads[i].pc).Some?
    && Leads(s.threads[i].pc).value < |s.sh.flights|
    && ThreadInv(s, i)
    && FlightInv(s, Leads(s.threads[i].pc).value)
  }

  lemma ReplyOwn(s: State, i: nat, a: Answer)
    requires OwnInv(s, i) && s.threads[i].pc.Looking?
    ensures OwnInv(StepReply(s, i, s.threads[i].pc.flight, a), i)
  {
    assert StepReply(s, i, s.threads[i].pc.flight, a).log[|s.log|] == Lookup(s.threads[i].number, a, s.now);
  }

  lemma StepReplyKeeps(s: State, i: nat, a: Answer)
    requires Inv(s) && i < |s.threads| && s.threads[i].pc.Looking?
    ensures Inv(StepReply(s, i, s.threads[i].pc.flight, a))
  {
    LeaderOwns(s, i);
    ReplyOwn(s, i, a);
    var s' := StepReply(s, i, s.threads[i].pc.flight, a);
    CacheFrame(s, s');
    LeaderFrame(s, s', i);
  }

  lemma LeaderOwns(s: State, i: nat)
    requires Inv(s) && i < |s.threads| && Leads(s.threads[i].pc).Some?
    ensures OwnInv(s, i)
  {
    assert ThreadInv(s, i);
  }

  lemma RememberCache(s: State, i: nat, f: nat, a: Answer, at: int)
    requires CacheInv(s) && i < |s.threads| && !a.Failure? && Lookup(s.threads[i].number, a, at) in s.log
    ensures CacheInv(StepRemember(s, i, f, a, at))
  {
    var s' := StepRemember(s, i, f, a, at);
    forall n | n in s'.sh.cache ensures EntryInv(s', n, s'.sh.cache[n]) {
      if n != s.threads[i].number { assert EntryInv(s, n, s.sh.cache[n]); }
    }
  }

  lemma StepRememberKeeps(s: State, i: nat, f: nat, a: Answer, at: int)
    requires Inv(s) && i < |s.threads| && s.threads[i].pc == Answered(f, a, at) && !a.Failure?
    ensures Inv(StepRemember(s, i, f, a, at))
  {
    LeaderOwns(s, i);
    RememberCache(s, i, f, a, at);
    LeaderFrame(s, StepRemember(s, i, f, a, at), i);
  }

  lemma StepDetachKeeps(s: State, i: nat, f: nat, a: Answer, at: int)
    requires Inv(s) && i < |s.threads| && s.threads[i].pc == Settling(f, a, at)
    ensures Inv(StepDetach(s, i, f, a, at))
  {
    var s', n := StepDetach(s, i, f, a, at), s.threads[i].number;
    LeaderOwns(s, i);
    CacheFrame(s, s');
    forall k | 0 <= k < |s'.threads| && k != i ensures ThreadInv(s', k) { ThreadFrame(s, s', k); }
    forall g | 0 <= g < |s'.sh.flights| && g != f ensures FlightInv(s', g) { DetachFlight(s, i, f, a, at, g); }
    forall m | m in s'.sh.inflight ensures InflightInv(s', m) { DetachInflight(s, i, f, a, at, m); }
  }

  lemma DetachFlight(s: State, i: nat, f: nat, a: Answer, at: int, g: nat)
    requires Inv(s) && i < |s.threads| && s.threads[i].pc == Settling(f, a, at) && g < |s.sh.flights| && g != f
    ensures FlightInv(StepDetach(s, i, f, a, at), g)
  {
    LeadsOne(s, i, g);
    LeaderOwns(s, i);
    assert FlightInv(s, g);
    FlightFrame(s, StepDetach(s, i, f, a, at), i, g);
  }

  lemma DetachInflight(s: State, i: nat, f: nat, a: Answer, at: int, m: string)
    requires Inv(s) && i < |s.threads| && s.threads[i].pc == Settling(f, a, at)
    requires m in s.sh.inflight && m != s.threads[i].number
    ensures InflightInv(StepDetach(s, i, f, a, at), m)
  {
    assert InflightInv(s, m);
    LeaderOwns(s, i);
    LeadsOne(s, i, s.sh.inflight[m]);
  }

  lemma StepPublishKeeps(s: State, i: nat, f: nat, a: Answer, at: int, found: Option<nat>)
    requires Inv(s) && i < |s.threads| && s.threads[i].pc == Detached(f, a, at, found)
    ensures Inv(StepPublish(s, i, f, a, at, found))
  {
    var s' := StepPublish(s, i, f, a, at, found);
    LeaderOwns(s, i);
    CacheFrame(s, s');
    LeaderFrame(s, s', i);
  }

  lemma StepCloseKeeps(s: State, i: nat, f: nat, a: Answer, at: int, found: Option<nat>)
    requires Inv(s) && i < |s.threads| && s.threads[i].pc == Written(f, a, at, found)
    ensures Inv(StepClose(s, i, f, a, at, found))
  {
    var s' := StepClose(s, i, f, a, at, found);
    LeaderOwns(s, i);
    CacheFrame(s, s');
    LeaderFrame(s, s', i);
  }

  lemma CountOwn(s: State, i: nat, f: nat, a: Answer, at: int)
    requires OwnInv(s, i) && s.threads[i].pc == Closed(f, a, at)
    ensures OwnInv(StepCount(s, i, f, a, at), i)
  {
  }

  lemma StepCountKeeps(s: State, i: nat, f: nat, a: Answer, at: int)
    requires Inv(s) && i < |s.threads| && s.threads[i].pc == Closed(f, a, at)
    ensures Inv(StepCount(s, i, f, a, at))
  {
    var s' := StepCount(s, i, f, a, at);
    LeaderOwns(s, i);
    CountOwn(s, i, f, a, at);
    CacheFrame(s, s');
    LeaderFrame(s, s', i);
  }

  lemma SpawnTickKeeps(s: State, a: Action)
    requires Inv(s) && (a.Spawn? || a.Tick?)
    ensures Inv(Step(s, a))
  {
    var s' := Step(s, a);
    CacheFrame(s, s');
    forall k | 0 <= k < |s.threads| ensures ThreadInv(s', k) { ThreadFrame(s, s', k); }
    forall f | 0 <= f < |s'.sh.flights| ensures FlightInv(s', f) {
      assert FlightInv(s, f);
      FlightFrame(s, s', |s.threads|, f);
    }
    forall m | m in s'.sh.inflight ensures InflightInv(s', m) { assert InflightInv(s, m); }
  }

  lemma RunKeeps(s: State, i: nat)
    requires Inv(s) && i < |s.threads|
    ensures Inv(StepRun(s, i))
  {
    match s.threads[i].pc
    case Begin => StepBeginKeeps(s, i);
    case Missed => if s.threads[i].number in s.sh.inflight { JoinWaits(s, i); } else { JoinLeads(s, i); }
    case Waiting(_) => StepWakeKeeps(s, i);
    case Answered(f, ans, at) => if !ans.Failure? { StepRememberKeeps(s, i, f, ans, at); }
    case Settling(f, ans, at) => StepDetachKeeps(s, i, f, ans, at);
    case Detached(f, ans, at, found) => StepPublishKeeps(s, i, f, ans, at, found);
    case Written(f, ans, at, found) => StepCloseKeeps(s, i, f, ans, at, found);
    case Closed(f, ans, at) => StepCountKeeps(s, i, f, ans, at);
    case Looking(_) =>
    case Done(_, _, _) =>
  }

  lemma StepKeeps(s: State, a: Action)
    requires Inv(s)
    ensures Inv(Step(s, a))
  {
    match a
    case Spawn(_) => SpawnTickKeeps(s, a);
    case Tick(_) => SpawnTickKeeps(s, a);
    case Run(i) => if i < |s.threads| { RunKeeps(s, i); }
    case Reply(i, ans) =>
      if i < |s.threads| && s.threads[i].pc.Looking? { StepReplyKeeps(s, i, ans); }
    case GiveUp(i) =>
      if i < |s.threads| && s.threads[i].pc.Waiting? { GiveUpKeeps(s, i); }
  }

  /** Every interleaving of any number of calls stays inside the invariant. */
  lemma {:induction false} ExecKeeps(s: State, actions: seq<Action>)
    requires Inv(s)
    ensures Inv(Exec(s, actions))
    decreases |actions|
  {
    if actions != [] {
      ExecKeeps(s, actions[..|actions| - 1]);
      StepKeeps(Exec(s, actions[..|actions| - 1]), actions[|actions| - 1]);
    }
  }

  // ---- What every run guarantees ----

  ghost predicate Reachable(s: State) {
    exists enabled, now, actions :: s == Exec(Init(enabled, now), actions)
  }

  lemma ReachableInv(s: State)
    requires Reachable(s)
    ensures Inv(s)
  {
    var enabled, now, actions :| s == Exec(Init(enabled, now), actions);
    ExecKeeps(Init(enabled, now), actions);
  }

  ghost predicate LeadsNumber(s: State, i: int, n: string) {
    0 <= i < |s.threads| && s.threads[i].number == n && Registered(s.threads[i].pc)
  }

  /** A number is in flight exactly while one call, and only one, stands for it
      between join and settle's critical section. */
  lemma InflightIffOneLeader(s: State, n: string)
    requires Reachable(s)
    ensures n in s.sh.inflight <==> exists i :: LeadsNumber(s, i, n)
    ensures forall i, j :: LeadsNumber(s, i, n) && LeadsNumber(s, j, n) ==> i == j
  {
    ReachableInv(s);
    if n in s.sh.inflight {
      assert InflightInv(s, n);
      assert FlightInv(s, s.sh.inflight[n]);
      assert LeadsNumber(s, s.sh.flights[s.sh.inflight[n]].leader, n);
    }
    forall i | LeadsNumber(s, i, n)
      ensures n in s.sh.inflight && s.sh.flights[s.sh.inflight[n]].leader == i
    {
      assert ThreadInv(s, i);
      assert FlightInv(s, Leads(s.threads[i].pc).value);
    }
  }

  /** A flight's channel is closed at most once, only after its result was
      written, and that result is the leader's upstream answer; a leader that
      returned has closed it. */
  lemma ClosedOnceAfterWrite(s: State, f: nat)
    requires Reachable(s) && f < |s.sh.flights|
    ensures s.sh.flights[f].leader < |s.threads|
    ensures var fl, pc := s.sh.flights[f], s.threads[s.sh.flights[f].leader].pc;
      && fl.closes <= 1
      && (pc.Done? ==> fl.closes == 1)
      && (fl.closes == 1 ==> fl.written)
      && (fl.written ==> exists x :: x in s.log && x.number == fl.number && (fl.person, fl.ok) == Outcome(x.answer))
  {
    ReachableInv(s);
    assert FlightInv(s, f);
    assert ThreadInv(s, s.sh.flights[f].leader);
    if s.sh.flights[f].written {
      var h := Held(s.threads[s.sh.flights[f].leader].pc).value;
      var x := Lookup(s.sh.flights[f].number, h.0, h.1);
      assert x in s.log && x.number == s.sh.flights[f].number && (s.sh.flights[f].person, s.sh.flights[f].ok) == Outcome(x.answer);
    }
  }

  /** A leader's remaining steps until its flight is closed. */
  function Remaining(pc: Pc): nat {
    match pc
    case Looking(_) => 5
    case Answered(_, _, _) => 4
    case Settling(_, _, _) => 3
    case Detached(_, _, _, _) => 2
    case Written(_, _, _, _) => 1
    case _ => 0
  }

  /** Does action a advance leader i? Only `Looking` waits for the outside. */
  predicate Advances(s: State, a: Action, i: nat) {
    && i < |s.threads|
    && Remaining(s.threads[i].pc) > 0
    && if s.threads[i].pc.Looking? then a.Reply? && a.call == i else a == Run(i)
  }

  function Moves(s: State, actions: seq<Action>, i: nat): nat
    decreases |actions|
  {
    if actions == [] then 0
    else Moves(s, actions[..|actions| - 1], i)
         + if Advances(Exec(s, actions[..|actions| - 1]), actions[|actions| - 1], i) then 1 else 0
  }

  /** A step of call i moves nobody else. */
  lemma StepRunOthers(s: State, i: nat)
    requires i < |s.threads|
    ensures |StepRun(s, i).threads| == |s.threads|
    ensures forall k :: 0 <= k < |s.threads| && k != i ==> StepRun(s, i).threads[k] == s.threads[k]
  {
  }

  lemma LeaderRun(s: State, i: nat)
    requires i < |s.threads| && Leads(s.threads[i].pc).Some? && ThreadInv(s, i)
    ensures i < |StepRun(s, i).threads| && Leads(StepRun(s, i).threads[i].pc) == Leads(s.threads[i].pc)
    ensures Remaining(StepRun(s, i).threads[i].pc) + (if Advances(s, Run(i), i) then 1 else 0) <= Remaining(s.threads[i].pc)
  {
  }

  lemma StepProgress(s: State, a: Action, i: nat)
    requires i < |s.threads| && Leads(s.threads[i].pc).Some? && ThreadInv(s, i)
    ensures i < |Step(s, a).threads| && Leads(Step(s, a).threads[i].pc) == Leads(s.threads[i].pc)
    ensures Remaining(Step(s, a).threads[i].pc) + (if Advances(s, a, i) then 1 else 0) <= Remaining(s.threads[i].pc)
  {
    if a.Run? && a.call < |s.threads| {
      if a.call == i { LeaderRun(s, i); } else { StepRunOthers(s, a.call); }
    }
  }

  lemma {:induction false} RunProgress(s: State, actions: seq<Action>, i: nat)
    requires Inv(s) && i < |s.threads| && Leads(s.threads[i].pc).Some?
    ensures i < |Exec(s, actions).threads| && Leads(Exec(s, actions).threads[i].pc) == Leads(s.threads[i].pc)
    ensures Remaining(Exec(s, actions).threads[i].pc) + Moves(s, actions, i) <= Remaining(s.threads[i].pc)
    decreases |actions|
  {
    if actions != [] {
      var before := actions[..|actions| - 1];
      RunProgress(s, before, i);
      ExecKeeps(s, before);
      assert ThreadInv(Exec(s, before), i);
      StepProgress(Exec(s, before), actions[|actions| - 1], i);
    }
  }

  lemma RunKeepsFlights(s: State, i: nat, f: nat)
    requires f < |s.sh.flights| && i < |s.threads|
    ensures f < |StepRun(s, i).sh.flights| && StepRun(s, i).sh.flights[f].leader == s.sh.flights[f].leader
  {
    match s.threads[i].pc
    case Detached(_, _, _, _) =>
    case Written(_, _, _, _) =>
    case Missed =>
    case _ => assert StepRun(s, i).sh.flights == s.sh.flights;
  }

  lemma StepKeepsFlights(s: State, a: Action, f: nat)
    requires f < |s.sh.flights|
    ensures f < |Step(s, a).sh.flights| && Step(s, a).sh.flights[f].leader == s.sh.flights[f].leader
  {
    if a.Run? && a.call < |s.threads| { RunKeepsFlights(s, a.call, f); }
  }

  /** A flight keeps its identity through a run. */
  lemma {:induction false} FlightsStay(s: State, actions: seq<Action>, f: nat)
    requires f < |s.sh.flights|
    ensures f < |Exec(s, actions).sh.flights|
    ensures Exec(s, actions).sh.flights[f].leader == s.sh.flights[f].leader
    decreases |actions|
  {
    if actions != [] {
      FlightsStay(s, actions[..|actions| - 1], f);
      StepKeepsFlights(Exec(s, actions[..|actions| - 1]), actions[|actions| - 1], f);
    }
  }

  /** A flight whose leader has made its remaining moves is closed, with the
      leader's answer in it. */
  lemma LedFlightCloses(s: State, actions: seq<Action>, f: nat)
    requires Inv(s) && f < |s.sh.flights| && s.sh.flights[f].leader < |s.threads|
    requires Moves(s, actions, s.sh.flights[f].leader) >= Remaining(s.threads[s.sh.flights[f].leader].pc)
    ensures var leader, t := s.sh.flights[f].leader, Exec(s, actions);
      && f < |t.sh.flights| && t.sh.flights[f].closes == 1
      && leader < |t.threads| && Held(t.threads[leader].pc).Some?
      && (t.sh.flights[f].person, t.sh.flights[f].ok) == Outcome(Held(t.threads[leader].pc).value.0)
  {
    assert FlightInv(s, f);
    var leader, t := s.sh.flights[f].leader, Exec(s, actions);
    ExecKeeps(s, actions);
    RunProgress(s, actions, leader);
    FlightsStay(s, actions, f);
    assert FlightInv(t, f);
  }

  /** No waiter is stranded. Whatever the other calls do, once the leader of the
      flight has made its remaining moves (at most five, one of them the lookup
      returning) the flight is closed, and the waiter's next own step returns
      the leader's answer. */
  lemma WaiterIsWoken(s: State, actions: seq<Action>, i: nat)
    requires Reachable(s) && i < |s.threads| && s.threads[i].pc.Waiting?
    ensures s.threads[i].pc.flight < |s.sh.flights|
    ensures s.sh.flights[s.threads[i].pc.flight].leader < |s.threads|
    ensures
      var f := s.threads[i].pc.flight;
      var leader := s.sh.flights[f].leader;
      var t := Exec(s, actions);
      Moves(s, actions, leader) >= Remaining(s.threads[leader].pc) ==>
        && f < |t.sh.flights| && t.sh.flights[f].closes == 1
        && leader < |t.threads| && Held(t.threads[leader].pc).Some?
        && (i < |t.threads| && t.threads[i].pc == Waiting(f) ==>
              Step(t, Run(i)).threads[i].pc ==
                Done(Outcome(Held(t.threads[leader].pc).value.0).0, Outcome(Held(t.threads[leader].pc).value.0).1, FromFlight(f)))
  {
    ReachableInv(s);
    assert ThreadInv(s, i);
    var f := s.threads[i].pc.flight;
    assert FlightInv(s, f);
    if Moves(s, actions, s.sh.flights[f].leader) >= Remaining(s.threads[s.sh.flights[f].leader].pc) {
      LedFlightCloses(s, actions, f);
    }
  }

  /** Every cached entry is what a successful round-trip for exactly that number
      left behind; failures never enter, and the map stays within its bound. */
  lemma CacheHoldsUpstreamAnswers(s: State)
    requires Reachable(s)
    ensures |s.sh.cache| <= 1024
    ensures forall n :: n in s.sh.cache ==>
      exists x :: x in s.log && x.number == n && !x.answer.Failure?
        && s.sh.cache[n] == if x.answer.Match? then Entry(x.answer.person, false, x.at) else Entry(Person("", ""), true, x.at)
  {
    ReachableInv(s);
    forall n | n in s.sh.cache
      ensures exists x :: x in s.log && x.number == n && !x.answer.Failure? && s.sh.cache[n] == EntryOf(x.answer, x.at)
    {
      var e := s.sh.cache[n];
      assert EntryInv(s, n, e);
      var x := Lookup(n, if e.miss then Miss else Match(e.person), e.fetched);
      assert x in s.log && x.number == n && !x.answer.Failure? && e == EntryOf(x.answer, x.at);
    }
  }

  /** A call answered by the cache returned an answer the CRM gave for that
      number at most six hours (a match) or five minutes (a miss) before. */
  lemma ServedFresh(s: State, i: nat)
    requires Reachable(s) && i < |s.threads| && s.threads[i].pc.Done? && s.threads[i].pc.via.FromCache?
    ensures exists x ::
      && x in s.log && x.number == s.threads[i].number && !x.answer.Failure?
      && (s.threads[i].pc.person, s.threads[i].pc.ok) == (if x.answer.Match? then (x.answer.person, true) else (Person("", ""), false))
      && 0 <= s.threads[i].pc.via.served - x.at <= (if x.answer.Match? then 21_600_000_000_000 else 300_000_000_000)
  {
    ReachableInv(s);
    assert ThreadInv(s, i);
    var e := s.threads[i].pc.via.entry;
    var x := Lookup(s.threads[i].number, if e.miss then Miss else Match(e.person), e.fetched);
    assert x in s.log && x.number == s.threads[i].number;
  }

  /** Against a CRM with fixed answers and no failures, every call that did not
      give up returns what the uncached lookup would, whatever was cached,
      shared or reset on the way. */
  lemma StaticCrmMatchesPlainLookup(s: State, crm: string -> Answer, i: nat)
    requires Reachable(s) && i < |s.threads| && s.threads[i].pc.Done? && !s.threads[i].pc.via.GaveUp?
    requires forall x :: x in s.log ==> x.answer == crm(x.number)
    ensures (s.threads[i].pc.person, s.threads[i].pc.ok) ==
      if s.threads[i].number != "" && s.enabled && crm(s.threads[i].number).Match?
      then (crm(s.threads[i].number).person, true) else (Person("", ""), false)
  {
    ReachableInv(s);
    assert ThreadInv(s, i);
    match s.threads[i].pc.via
    case FromFlight(f) =>
      assert FlightInv(s, f);
      assert ThreadInv(s, s.sh.flights[f].leader);
    case FromCache(e, _) => assert EntryInv(s, s.threads[i].number, e);
    case _ =>
  }

  // ---- The lookup counters ----

  /** The answer a leader still owes the counters. */
  function Owed(pc: Pc): Option<Answer> {
    if pc.Done? then None
    else match Held(pc) case Some(h) => Some(h.0) case None => None
  }

  /** The three kinds of upstream outcome, forgetting who was matched. */
  predicate SameKind(a: Answer, b: Answer) {
    (a.Match? <==> b.Match?) && (a.Miss? <==> b.Miss?)
  }

  function Owes(pc: Pc, kind: Answer): nat {
    if Owed(pc).Some? && SameKind(Owed(pc).value, kind) then 1 else 0
  }

  function CountOwed(threads: seq<Thread>, kind: Answer): nat {
    if threads == [] then 0
    else CountOwed(threads[..|threads| - 1], kind) + Owes(threads[|threads| - 1].pc, kind)
  }

  function CountLookups(log: seq<Lookup>, kind: Answer): nat {
    if log == [] then 0
    else CountLookups(log[..|log| - 1], kind) + if SameKind(log[|log| - 1].answer, kind) then 1 else 0
  }

  function Counter(sh: Shared, kind: Answer): nat {
    match kind case Match(_) => sh.hits case Miss => sh.misses case Failure => sh.failures
  }

  lemma {:induction false} CountOwedUpdate(threads: seq<Thread>, i: nat, t: Thread, kind: Answer)
    requires i < |threads|
    ensures CountOwed(threads[i := t], kind) + Owes(threads[i].pc, kind) == CountOwed(threads, kind) + Owes(t.pc, kind)
  {
    var last := |threads| - 1;
    if i == last {
      assert threads[i := t][..last] == threads[..last];
    } else {
      assert threads[i := t][..last] == threads[..last][i := t];
      CountOwedUpdate(threads[..last], i, t, kind);
    }
  }

  /** Lookups made so far, by outcome: the counter plus what leaders still owe. */
  ghost predicate Tally(s: State, kind: Answer) {
    CountLookups(s.log, kind) == Counter(s.sh, kind) + CountOwed(s.threads, kind)
  }

  /** Nothing is owed before the lookup returned. */
  lemma QuietDebt(s: State, i: nat, kind: Answer)
    requires i < |s.threads| && (s.threads[i].pc.Begin? || s.threads[i].pc.Missed? || s.threads[i].pc.Waiting?)
    ensures Counter(StepRun(s, i).sh, kind) == Counter(s.sh, kind)
    ensures Owes(StepRun(s, i).threads[i].pc, kind) == 0 == Owes(s.threads[i].pc, kind)
  {
  }

  /** A leader carries its answer unchanged until it counts it. */
  lemma CarriedDebt(s: State, i: nat, kind: Answer)
    requires i < |s.threads|
    requires var pc := s.threads[i].pc; pc.Answered? || pc.Settling? || pc.Detached? || pc.Written?
    ensures Counter(StepRun(s, i).sh, kind) == Counter(s.sh, kind)
    ensures Owed(StepRun(s, i).threads[i].pc) == Owed(s.threads[i].pc)
  {
  }

  lemma PaidDebt(s: State, i: nat, f: nat, a: Answer, at: int, kind: Answer)
    requires i < |s.threads| && s.threads[i].pc == Closed(f, a, at)
    ensures Counter(StepCount(s, i, f, a, at).sh, kind) == Counter(s.sh, kind) + Owes(s.threads[i].pc, kind)
    ensures Owes(StepCount(s, i, f, a, at).threads[i].pc, kind) == 0
  {
  }

  lemma LeaderDebt(s: State, i: nat, kind: Answer)
    requires i < |s.threads| && !(s.threads[i].pc.Begin? || s.threads[i].pc.Missed? || s.threads[i].pc.Waiting?)
    ensures Counter(StepRun(s, i).sh, kind) + Owes(StepRun(s, i).threads[i].pc, kind)
         == Counter(s.sh, kind) + Owes(s.threads[i].pc, kind)
  {
    match s.threads[i].pc
    case Closed(f, a, at) => PaidDebt(s, i, f, a, at, kind);
    case Looking(_) =>
    case Done(_, _, _) =>
    case _ => CarriedDebt(s, i, kind);
  }

  lemma RunKeepsLog(s: State, i: nat)
    requires i < |s.threads|
    ensures StepRun(s, i).log == s.log
  {
  }

  lemma RunTallies(s: State, s': State, i: nat, kind: Answer)
    requires i < |s.threads| && Tally(s, kind) && s' == StepRun(s, i)
    ensures Tally(s', kind)
  {
    if s.threads[i].pc.Begin? || s.threads[i].pc.Missed? || s.threads[i].pc.Waiting? {
      QuietDebt(s, i, kind);
    } else {
      LeaderDebt(s, i, kind);
    }
    StepRunOthers(s, i);
    RunKeepsLog(s, i);
    CountOwedUpdate(s.threads, i, s'.threads[i], kind);
    assert s'.threads == s.threads[i := s'.threads[i]];
  }

  lemma ReplyTallies(s: State, i: nat, f: nat, a: Answer, kind: Answer)
    requires i < |s.threads| && s.threads[i].pc == Looking(f) && Tally(s, kind)
    ensures Tally(StepReply(s, i, f, a), kind)
  {
    var s' := StepReply(s, i, f, a);
    CountOwedUpdate(s.threads, i, s'.threads[i], kind);
    assert s'.log[..|s.log|] == s.log;
  }

  lemma StepTallies(s: State, a: Action, kind: Answer)
    requires Tally(s, kind)
    ensures Tally(Step(s, a), kind)
  {
    match a
    case Run(i) => if i < |s.threads| { RunTallies(s, StepRun(s, i), i, kind); }
    case Reply(i, ans) =>
      if i < |s.threads| && s.threads[i].pc.Looking? { ReplyTallies(s, i, s.threads[i].pc.flight, ans, kind); }
    case GiveUp(i) =>
      if i < |s.threads| && s.threads[i].pc.Waiting? {
        CountOwedUpdate(s.threads, i, s.threads[i].(pc := Done(NOBODY, false, GaveUp)), kind);
      }
    case Spawn(n) => assert Step(s, a).threads[..|s.threads|] == s.threads;
    case Tick(_) =>
  }

  /** The counters count upstream round-trips, one each and by outcome: every
      lookup made is counted or owed by a leader that has not returned yet. */
  lemma {:induction false} CountersCountLookups(enabled: bool, now: int, actions: seq<Action>, kind: Answer)
    ensures Tally(Exec(Init(enabled, now), actions), kind)
    decreases |actions|
  {
    if actions != [] {
      CountersCountLookups(enabled, now, actions[..|actions| - 1], kind);
      StepTallies(Exec(Init(enabled, now), actions[..|actions| - 1]), actions[|actions| - 1], kind);
    }
  }
}
