/** The chat receiver's cursor protocol: fetch everything after the persisted
    cursor, ingest it, save the new cursor. The process may crash anywhere, a
    sync or a save may fail, and the room map lives only in memory.

    A cursor token is a position in the server's stream (the empty token is
    position 0), and a response holds every event between two positions; see
    "Syncing" in the Matrix Client-Server API. */
module MatrixSync {
  import opened Collections

  datatype Kind = Text | Media | Encrypted | Other

  /** One peer's value in the direct-room account data. */
  datatype RoomRef = Named(room: string) | NotAName

  datatype PeerRooms = Rooms(rooms: seq<RoomRef>) | NotAList

  datatype Item = RoomEvent(room: string, sender: string, kind: Kind) | Direct(content: map<string, PeerRooms>)

  /** A delivered message: whose conversation, and which event. */
  datatype Inbound = Inbound(peer: string, pos: nat)

  // ---- The direct-room map ----

  /** The room one account-data entry names, if its first element names one. */
  function FirstRoom(entry: PeerRooms): Option<string> {
    if entry.Rooms? && |entry.rooms| > 0 && entry.rooms[0].Named? && entry.rooms[0].room != ""
    then Some(entry.rooms[0].room) else None
  }

  /** The map after one account-data event: an entry that names a room replaces
      the peer's, every other peer keeps its own. */
  function Directed(dm: map<string, string>, content: map<string, PeerRooms>): map<string, string> {
    dm + map peer | peer in content && FirstRoom(content[peer]).Some? :: FirstRoom(content[peer]).value
  }

  /** The content names this room for the peer: its entry is a list whose first
      element is this name, and the name is not empty. */
  predicate NamesRoom(content: map<string, PeerRooms>, peer: string, room: string) {
    peer in content && content[peer].Rooms? && content[peer].rooms != [] && content[peer].rooms[0] == Named(room) && room != ""
  }

  /** The map takes every room the content names and otherwise stays. */
  ghost predicate Takes(dm: map<string, string>, content: map<string, PeerRooms>, dm': map<string, string>) {
    forall peer :: if exists room :: NamesRoom(content, peer, room)
      then peer in dm' && NamesRoom(content, peer, dm'[peer])
      else (peer in dm' <==> peer in dm) && (peer in dm ==> dm'[peer] == dm[peer])
  }

  lemma DirectedTakes(dm: map<string, string>, content: map<string, PeerRooms>)
    ensures Takes(dm, content, Directed(dm, content))
  {
    forall peer | peer in content && FirstRoom(content[peer]).Some?
      ensures NamesRoom(content, peer, FirstRoom(content[peer]).value) {}
  }

  /** Room to peer: every mapped room, each to one of the peers mapped to it. */
  ghost predicate IsInverse(dm: map<string, string>, peers: map<string, string>) {
    && peers.Keys == dm.Values
    && forall room :: room in peers ==> peers[room] in dm && dm[peers[room]] == room
  }

  /** With one peer per room the inversion loses nothing. */
  lemma InverseRoundTrip(dm: map<string, string>, peers: map<string, string>)
    requires IsInverse(dm, peers)
    requires forall a, b :: a in dm && b in dm && dm[a] == dm[b] ==> a == b
    ensures forall peer :: peer in dm ==> dm[peer] in peers && peers[dm[peer]] == peer
    ensures IsInverse(peers, dm)
  {
    assert forall peer :: peer in dm ==> dm[peer] in dm.Values;
    assert dm.Keys == peers.Values by {
      forall peer | peer in dm ensures peer in peers.Values { assert dm[peer] in peers; }
    }
  }

  method ApplyDirect(dm: map<string, string>, content: map<string, PeerRooms>) returns (dm': map<string, string>)
    ensures dm' == Directed(dm, content) && Takes(dm, content, dm')
  {
    DirectedTakes(dm, content);
    dm' := dm;
    var left := content.Keys;
    while left != {}
      invariant left <= content.Keys
      invariant forall peer :: peer in dm' <==> peer in dm || (peer in content && peer !in left && FirstRoom(content[peer]).Some?)
      invariant forall peer :: peer in dm' ==>
        dm'[peer] == if peer in content && peer !in left && FirstRoom(content[peer]).Some?
                     then FirstRoom(content[peer]).value else dm[peer]
      decreases left
    {
      var peer :| peer in left;
      left := left - {peer};
      var room := FirstRoom(content[peer]);
      if room.None? {
        continue;
      }
      dm' := dm'[peer := room.value];
    }
  }

  /** Peers are visited in any order; the first one met keeps the room. */
  method InvertRooms(dm: map<string, string>) returns (peers: map<string, string>)
    ensures IsInverse(dm, peers)
  {
    peers := map[];
    var left := dm.Keys;
    while left != {}
      invariant left <= dm.Keys
      invariant forall room :: room in peers ==> peers[room] in dm && dm[peers[room]] == room
      invariant forall peer :: peer in dm && peer !in left ==> dm[peer] in peers
      decreases left
    {
      var peer :| peer in left;
      left := left - {peer};
      if dm[peer] !in peers {
        peers := peers[dm[peer] := peer];
      }
    }
    forall room | room in peers ensures room in dm.Values { assert peers[room] in dm; }
  }

  // ---- The protocol ----

  /** Between rounds; ingesting a batch that ends at `next`, with the room map
      folded for it, the inverse of that, and what is still to be offered; or
      stopped for good by a permanent refusal. */
  datatype Phase =
    | Idle
    | Ingesting(next: nat, folded: map<string, string>, peers: map<string, string>, pending: seq<nat>)
    | Stopped

  datatype State = State(
    stream: seq<Item>, cursor: nat, dm: map<string, string>,
    offered: seq<nat>, delivered: seq<Inbound>, phase: Phase)

  const START := State([], 0, map[], [], [], Idle)

  /** An offer lands when the peer is an address, the media could be fetched and
      the inbox took the message; otherwise the code logs it and goes on. */
  datatype Step =
    | Grow(item: Item)
    | Learn(peer: string, room: string)
    | Fetch(next: nat, peers: map<string, string>, order: seq<nat>)
    | Refuse(permanent: bool)
    | Offer(lands: bool)
    | Save(ok: bool)
    | Crash

  predicate IsEvent(stream: seq<Item>, p: nat) { p < |stream| && stream[p].RoomEvent? }

  predicate SameRoom(stream: seq<Item>, p: nat, q: nat) {
    IsEvent(stream, p) && IsEvent(stream, q) && stream[p].room == stream[q].room
  }

  ghost predicate InRoomOrder(stream: seq<Item>, order: seq<nat>) {
    forall i, j :: 0 <= i < j < |order| && SameRoom(stream, order[i], order[j]) ==> order[i] < order[j]
  }

  /** Every event from c up to n, once each, rooms in any order and each room's
      events in stream order. */
  ghost predicate IsBatch(stream: seq<Item>, c: nat, n: nat, order: seq<nat>) {
    && Distinct(order)
    && (forall i :: 0 <= i < |order| ==> c <= order[i] < n && IsEvent(stream, order[i]))
    && (forall p :: c <= p < n && IsEvent(stream, p) ==> p in order)
    && InRoomOrder(stream, order)
  }

  /** The room map after the account data of a batch: the server reports only
      the latest direct-room content. */
  function AfterDirects(stream: seq<Item>, c: nat, n: nat, dm: map<string, string>): map<string, string>
    requires c <= n <= |stream|
  {
    if n == c then dm
    else if stream[n - 1].Direct? then Directed(dm, stream[n - 1].content)
    else AfterDirects(stream, c, n - 1, dm)
  }

  /** Conversation by someone else, in a room some peer is mapped to. */
  predicate Delivers(me: string, peers: map<string, string>, e: Item) {
    && e.RoomEvent? && e.sender != me && e.room in peers
    && (e.kind.Text? || e.kind.Media?)
  }

  ghost predicate CanFetch(s: State, next: nat, peers: map<string, string>, order: seq<nat>) {
    && s.phase.Idle? && s.cursor <= next <= |s.stream|
    && IsBatch(s.stream, s.cursor, next, order)
    && IsInverse(AfterDirects(s.stream, s.cursor, next, s.dm), peers)
  }

  /** Offering one event: it may come out as a message. */
  function Ingested(me: string, stream: seq<Item>, peers: map<string, string>, p: nat, lands: bool): seq<Inbound> {
    if lands && p < |stream| && Delivers(me, peers, stream[p]) then [Inbound(peers[stream[p].room], p)] else []
  }

  function AfterOffer(me: string, s: State, lands: bool): State {
    if s.phase.Ingesting? && s.phase.pending != [] then
      var p := s.phase.pending[0];
      s.(offered := s.offered + [p],
         delivered := s.delivered + Ingested(me, s.stream, s.phase.peers, p, lands),
         phase := s.phase.(pending := s.phase.pending[1..]))
    else s
  }

  function AfterSave(s: State, ok: bool): State {
    if s.phase.Ingesting? && s.phase.pending == []
    then s.(cursor := if ok then s.phase.next else s.cursor, phase := Idle)
    else s
  }

  /** A step that is not enabled changes nothing. */
  ghost function Next(me: string, s: State, step: Step): State {
    match step
    case Grow(item) => s.(stream := s.stream + [item])
    case Learn(peer, room) => s.(dm := s.dm[peer := room])
    case Fetch(next, peers, order) =>
      if CanFetch(s, next, peers, order)
      then
        var folded := AfterDirects(s.stream, s.cursor, next, s.dm);
        s.(dm := folded, phase := Ingesting(next, folded, peers, order))
      else s
    case Refuse(permanent) => if s.phase.Idle? && permanent then s.(phase := Stopped) else s
    case Offer(lands) => AfterOffer(me, s, lands)
    case Save(ok) => AfterSave(s, ok)
    case Crash => s.(dm := map[], phase := Idle)
  }

  ghost function Run(me: string, s: State, steps: seq<Step>): State {
    if steps == [] then s else Next(me, Run(me, s, steps[..|steps| - 1]), steps[|steps| - 1])
  }

  /** Crashes and failed saves. */
  function Failures(steps: seq<Step>): nat {
    if steps == [] then 0
    else Failures(steps[..|steps| - 1]) + if steps[|steps| - 1] == Crash || steps[|steps| - 1] == Save(false) then 1 else 0
  }

  // ---- At least once, and how often at most ----

  function Pending(s: State): seq<nat> { if s.phase.Ingesting? then s.phase.pending else [] }

  function Horizon(s: State): nat { if s.phase.Ingesting? then s.phase.next else s.cursor }

  /** Every event below the batch's end is offered or still pending in it. */
  ghost predicate Covered(s: State) {
    && s.cursor <= Horizon(s) <= |s.stream|
    && Distinct(Pending(s))
    && (forall i :: 0 <= i < |Pending(s)| ==> s.cursor <= Pending(s)[i] < Horizon(s) && IsEvent(s.stream, Pending(s)[i]))
    && forall p: nat :: p < Horizon(s) && IsEvent(s.stream, p) ==> p in s.offered || p in Pending(s)
  }

  lemma NextKeepsCovered(me: string, s: State, step: Step)
    requires Covered(s)
    ensures Covered(Next(me, s, step)) && s.cursor <= Next(me, s, step).cursor
  {
    var s' := Next(me, s, step);
    match step
    case Offer(lands) =>
      if s.phase.Ingesting? && s.phase.pending != [] {
        OfferKeepsCovered(me, s, lands);
      }
    case Fetch(next, peers, order) =>
      if CanFetch(s, next, peers, order) {
        forall p: nat | p < next && IsEvent(s.stream, p) ensures p in s.offered || p in order {}
      }
    case _ =>
  }

  lemma OfferKeepsCovered(me: string, s: State, lands: bool)
    requires Covered(s) && s.phase.Ingesting? && s.phase.pending != []
    ensures Covered(AfterOffer(me, s, lands))
  {
    var s', p := AfterOffer(me, s, lands), s.phase.pending[0];
    assert s.phase.pending == [p] + s'.phase.pending;
    forall q: nat | q < Horizon(s') && IsEvent(s'.stream, q) ensures q in s'.offered || q in Pending(s') {
      assert q in s.offered || q in s.phase.pending;
    }
  }

  lemma {:induction false} RunKeepsCovered(me: string, steps: seq<Step>)
    ensures Covered(Run(me, START, steps))
  {
    if steps != [] {
      RunKeepsCovered(me, steps[..|steps| - 1]);
      NextKeepsCovered(me, Run(me, START, steps[..|steps| - 1]), steps[|steps| - 1]);
    }
  }

  /** Over any run, with crashes, failed syncs and failed saves anywhere: every
      event before the persisted cursor has been offered. */
  lemma OfferedAtLeastOnce(me: string, steps: seq<Step>, p: nat)
    requires var s := Run(me, START, steps); p < s.cursor && IsEvent(s.stream, p)
    ensures p in Run(me, START, steps).offered
  {
    RunKeepsCovered(me, steps);
  }

  /** The cursor never moves back. */
  lemma {:induction false} CursorNeverBack(me: string, steps: seq<Step>, more: seq<Step>)
    ensures Run(me, START, steps).cursor <= Run(me, START, steps + more).cursor
  {
    if more == [] {
      assert steps + more == steps;
    } else {
      var fewer := more[..|more| - 1];
      CursorNeverBack(me, steps, fewer);
      assert (steps + more)[..|steps + more| - 1] == steps + fewer;
      RunKeepsCovered(me, steps + fewer);
      NextKeepsCovered(me, Run(me, START, steps + fewer), more[|more| - 1]);
    }
  }

  function Times(offered: seq<nat>, p: nat): nat { multiset(offered)[p] }

  /** Offered within the current batch, or settled below the cursor. */
  predicate Spent(s: State, p: nat) { p < Horizon(s) && p !in Pending(s) }

  ghost predicate Bounded(s: State, failures: nat) {
    forall p :: Times(s.offered, p) <= failures + if Spent(s, p) then 1 else 0
  }

  lemma OfferKeepsBounded(me: string, s: State, lands: bool, failures: nat)
    requires Covered(s) && Bounded(s, failures) && s.phase.Ingesting? && s.phase.pending != []
    ensures Bounded(AfterOffer(me, s, lands), failures)
  {
    var s', head := AfterOffer(me, s, lands), s.phase.pending[0];
    assert s.phase.pending == [head] + s'.phase.pending;
    forall p ensures Times(s'.offered, p) <= failures + if Spent(s', p) then 1 else 0 {
      assert Times(s'.offered, p) == Times(s.offered, p) + if p == head then 1 else 0;
      assert p != head ==> (p in s.phase.pending <==> p in s'.phase.pending);
      assert Times(s.offered, p) <= failures + if Spent(s, p) then 1 else 0;
    }
  }

  lemma NextKeepsBounded(me: string, s: State, step: Step, failures: nat)
    requires Covered(s) && Bounded(s, failures)
    ensures Bounded(Next(me, s, step), failures + if step == Crash || step == Save(false) then 1 else 0)
  {
    var s' := Next(me, s, step);
    if step.Offer? && s.phase.Ingesting? && s.phase.pending != [] {
      OfferKeepsBounded(me, s, step.lands, failures);
    } else {
      assert s'.offered == s.offered;
      forall p ensures Times(s'.offered, p) <=
        failures + (if step == Crash || step == Save(false) then 1 else 0) + if Spent(s', p) then 1 else 0
      {
        assert Times(s.offered, p) <= failures + if Spent(s, p) then 1 else 0;
      }
    }
  }

  /** However a run goes, an event is offered at most once more than there were
      crashes and failed saves. */
  lemma {:induction false} OfferedAtMost(me: string, steps: seq<Step>)
    ensures Bounded(Run(me, START, steps), Failures(steps))
    ensures forall p :: Times(Run(me, START, steps).offered, p) <= Failures(steps) + 1
  {
    if steps != [] {
      OfferedAtMost(me, steps[..|steps| - 1]);
      RunKeepsCovered(me, steps[..|steps| - 1]);
      NextKeepsBounded(me, Run(me, START, steps[..|steps| - 1]), steps[|steps| - 1], Failures(steps[..|steps| - 1]));
    }
  }

  /** With neither crash nor failed save, each event before the cursor is offered
      exactly once. */
  lemma OfferedExactlyOnce(me: string, steps: seq<Step>, p: nat)
    requires Failures(steps) == 0
    requires var s := Run(me, START, steps); p < s.cursor && IsEvent(s.stream, p)
    ensures Times(Run(me, START, steps).offered, p) == 1
  {
    OfferedAtLeastOnce(me, steps, p);
    OfferedAtMost(me, steps);
  }

  /** What was offered lies below the cursor or in the batch, and in each room
      before everything still pending. */
  ghost predicate Ordered(s: State) {
    && InRoomOrder(s.stream, s.offered + Pending(s))
    && (forall i :: 0 <= i < |s.offered| ==> s.offered[i] < Horizon(s))
  }

  lemma OfferKeepsOrdered(me: string, s: State, lands: bool)
    requires Covered(s) && Ordered(s) && s.phase.Ingesting? && s.phase.pending != []
    ensures Ordered(AfterOffer(me, s, lands))
  {
    var s' := AfterOffer(me, s, lands);
    assert s'.offered + s'.phase.pending == s.offered + s.phase.pending;
  }

  lemma FetchKeepsOrdered(me: string, s: State, next: nat, peers: map<string, string>, order: seq<nat>)
    requires Covered(s) && Ordered(s) && CanFetch(s, next, peers, order)
    ensures Ordered(Next(me, s, Fetch(next, peers, order)))
  {
    assert s.offered + [] == s.offered;
  }

  lemma NextKeepsOrdered(me: string, s: State, step: Step)
    requires Covered(s) && Ordered(s) && step != Crash && step != Save(false)
    ensures Ordered(Next(me, s, step))
  {
    var s' := Next(me, s, step);
    match step
    case Grow(item) =>
      var all := s.offered + Pending(s);
      assert forall i :: 0 <= i < |all| ==> all[i] < |s.stream|;
    case Fetch(next, peers, order) =>
      if CanFetch(s, next, peers, order) { FetchKeepsOrdered(me, s, next, peers, order); }
    case Offer(lands) =>
      if s.phase.Ingesting? && s.phase.pending != [] { OfferKeepsOrdered(me, s, lands); }
    case _ =>
  }

  /** And in order within its room. */
  lemma {:induction false} OfferedInRoomOrder(me: string, steps: seq<Step>)
    requires Failures(steps) == 0
    ensures Ordered(Run(me, START, steps))
    ensures InRoomOrder(Run(me, START, steps).stream, Run(me, START, steps).offered)
  {
    if steps != [] {
      var before := steps[..|steps| - 1];
      OfferedInRoomOrder(me, before);
      RunKeepsCovered(me, before);
      NextKeepsOrdered(me, Run(me, START, before), steps[|steps| - 1]);
    }
    var s := Run(me, START, steps);
    assert forall i :: 0 <= i < |s.offered| ==> (s.offered + Pending(s))[i] == s.offered[i];
  }

  // ---- Delivered ----

  function Deliveries(delivered: seq<Inbound>, p: nat): nat {
    if delivered == [] then 0
    else Deliveries(delivered[..|delivered| - 1], p) + if delivered[|delivered| - 1].pos == p then 1 else 0
  }

  /** Deliveries are offers of other people's conversation. */
  ghost predicate DeliveriesAreOffers(me: string, s: State) {
    && (forall p :: Deliveries(s.delivered, p) <= Times(s.offered, p))
    && forall i :: 0 <= i < |s.delivered| ==>
         && s.delivered[i].pos in s.offered && IsEvent(s.stream, s.delivered[i].pos)
         && s.stream[s.delivered[i].pos].sender != me
         && !s.stream[s.delivered[i].pos].kind.Encrypted? && !s.stream[s.delivered[i].pos].kind.Other?
  }

  lemma OfferKeepsDeliveries(me: string, s: State, lands: bool)
    requires DeliveriesAreOffers(me, s) && s.phase.Ingesting? && s.phase.pending != []
    ensures DeliveriesAreOffers(me, AfterOffer(me, s, lands))
  {
    var s', head := AfterOffer(me, s, lands), s.phase.pending[0];
    var more := Ingested(me, s.stream, s.phase.peers, head, lands);
    assert head in s'.offered by { assert s'.offered[|s.offered|] == head; }
    forall p ensures Deliveries(s'.delivered, p) <= Times(s'.offered, p) {
      assert Times(s'.offered, p) == Times(s.offered, p) + if p == head then 1 else 0;
      if more == [] {
        assert s'.delivered == s.delivered;
      } else {
        assert s'.delivered[..|s'.delivered| - 1] == s.delivered;
      }
    }
    assert forall i :: 0 <= i < |s.delivered| ==> s.delivered[i].pos in s'.offered;
  }

  lemma {:induction false} RunKeepsDeliveries(me: string, steps: seq<Step>)
    ensures DeliveriesAreOffers(me, Run(me, START, steps))
  {
    if steps != [] {
      var s, step := Run(me, START, steps[..|steps| - 1]), steps[|steps| - 1];
      RunKeepsDeliveries(me, steps[..|steps| - 1]);
      if step.Offer? && s.phase.Ingesting? && s.phase.pending != [] {
        OfferKeepsDeliveries(me, s, step.lands);
      }
    }
  }

  /** Over any run a message reaches the inbox at most once more than there were
      crashes and failed saves, and what reaches it is an offered event of plain
      conversation by somebody else. */
  lemma DeliveredAtMost(me: string, steps: seq<Step>, p: nat)
    ensures Deliveries(Run(me, START, steps).delivered, p) <= Failures(steps) + 1
    ensures Deliveries(Run(me, START, steps).delivered, p) <= Times(Run(me, START, steps).offered, p)
  {
    RunKeepsDeliveries(me, steps);
    OfferedAtMost(me, steps);
  }

  // ---- Whole rounds ----

  /** The messages a batch comes out as, in the order it is offered. */
  function DeliveredOf(me: string, stream: seq<Item>, peers: map<string, string>, order: seq<nat>, lands: seq<bool>): seq<Inbound>
    requires |order| == |lands|
  {
    if order == [] then []
    else
      var n := |order| - 1;
      DeliveredOf(me, stream, peers, order[..n], lands[..n]) + Ingested(me, stream, peers, order[n], lands[n])
  }

  lemma DeliveredSnoc(me: string, stream: seq<Item>, peers: map<string, string>, order: seq<nat>, lands: seq<bool>, p: nat, last: bool)
    requires |order| == |lands|
    ensures DeliveredOf(me, stream, peers, order + [p], lands + [last]) ==
      DeliveredOf(me, stream, peers, order, lands) + Ingested(me, stream, peers, p, last)
  {
    assert (order + [p])[..|order|] == order && (lands + [last])[..|lands|] == lands;
  }

  lemma {:induction false} DeliveredConcat(me: string, stream: seq<Item>, peers: map<string, string>,
                                           a: seq<nat>, x: seq<bool>, b: seq<nat>, y: seq<bool>)
    requires |a| == |x| && |b| == |y|
    ensures DeliveredOf(me, stream, peers, a + b, x + y)
         == DeliveredOf(me, stream, peers, a, x) + DeliveredOf(me, stream, peers, b, y)
  {
    if b == [] {
      assert a + b == a && x + y == x;
    } else {
      var n := |b| - 1;
      var bn, yn := b[..n], y[..n];
      var came, came', comes :=
        DeliveredOf(me, stream, peers, a, x), DeliveredOf(me, stream, peers, bn, yn), Ingested(me, stream, peers, b[n], y[n]);
      DeliveredConcat(me, stream, peers, a, x, bn, yn);
      DeliveredSnoc(me, stream, peers, a + bn, x + yn, b[n], y[n]);
      DeliveredSnoc(me, stream, peers, bn, yn, b[n], y[n]);
      SplitLast(a, b);
      SplitLast(x, y);
      Assoc(came, came', comes);
    }
  }

  lemma MoreDelivered(me: string, stream: seq<Item>, peers: map<string, string>, came: seq<Inbound>,
                      a: seq<nat>, x: seq<bool>, b: seq<nat>, y: seq<bool>)
    requires |a| == |x| && |b| == |y|
    ensures came + DeliveredOf(me, stream, peers, a, x) + DeliveredOf(me, stream, peers, b, y)
         == came + DeliveredOf(me, stream, peers, a + b, x + y)
  {
    DeliveredConcat(me, stream, peers, a, x, b, y);
    Assoc(came, DeliveredOf(me, stream, peers, a, x), DeliveredOf(me, stream, peers, b, y));
  }

  lemma SplitLast<T>(a: seq<T>, b: seq<T>)
    requires b != []
    ensures b == b[..|b| - 1] + [b[|b| - 1]] && a + b == a + b[..|b| - 1] + [b[|b| - 1]]
  {
  }

  function Offers(lands: seq<bool>): seq<Step> {
    if lands == [] then [] else Offers(lands[..|lands| - 1]) + [Offer(lands[|lands| - 1])]
  }

  ghost function AfterOffers(me: string, s: State, lands: seq<bool>): State
    requires s.phase.Ingesting? && |lands| <= |s.phase.pending|
  {
    s.(offered := s.offered + s.phase.pending[..|lands|],
       delivered := s.delivered + DeliveredOf(me, s.stream, s.phase.peers, s.phase.pending[..|lands|], lands),
       phase := s.phase.(pending := s.phase.pending[|lands|..]))
  }

  lemma OneOfferMore(me: string, s: State, lands: seq<bool>, last: bool)
    requires s.phase.Ingesting? && |lands| < |s.phase.pending|
    ensures AfterOffer(me, AfterOffers(me, s, lands), last) == AfterOffers(me, s, lands + [last])
  {
    var pending, k := s.phase.pending, |lands|;
    assert pending[..k + 1] == pending[..k] + [pending[k]];
    assert pending[k..][0] == pending[k] && pending[k..][1..] == pending[k + 1..];
    DeliveredSnoc(me, s.stream, s.phase.peers, pending[..k], lands, pending[k], last);
    Assoc(s.offered, pending[..k], [pending[k]]);
    Assoc(s.delivered, DeliveredOf(me, s.stream, s.phase.peers, pending[..k], lands),
          Ingested(me, s.stream, s.phase.peers, pending[k], last));
  }

  lemma NoOffers(me: string, s: State)
    requires s.phase.Ingesting?
    ensures AfterOffers(me, s, []) == s
  {
    assert s.phase.pending[..0] == [] && s.phase.pending[0..] == s.phase.pending;
    assert s.offered + [] == s.offered && s.delivered + [] == s.delivered;
  }

  lemma {:induction false} RunOffers(me: string, s: State, lands: seq<bool>)
    requires s.phase.Ingesting? && |lands| <= |s.phase.pending|
    ensures Run(me, s, Offers(lands)) == AfterOffers(me, s, lands)
  {
    if lands == [] {
      NoOffers(me, s);
    } else {
      var n := |lands| - 1;
      RunOffers(me, s, lands[..n]);
      RunConcat(me, s, Offers(lands[..n]), [Offer(lands[n])]);
      RunOne(me, AfterOffers(me, s, lands[..n]), Offer(lands[n]));
      OneOfferMore(me, s, lands[..n], lands[n]);
      assert lands[..n] + [lands[n]] == lands;
    }
  }

  lemma {:induction false} RunConcat(me: string, s: State, a: seq<Step>, b: seq<Step>)
    ensures Run(me, s, a + b) == Run(me, Run(me, s, a), b)
  {
    if b == [] {
      assert a + b == a;
    } else {
      RunConcat(me, s, a, b[..|b| - 1]);
      assert (a + b)[..|a + b| - 1] == a + b[..|b| - 1];
    }
  }

  /** The steps of one round that got an answer. */
  function RoundSteps(next: nat, peers: map<string, string>, order: seq<nat>, lands: seq<bool>, saved: bool): seq<Step> {
    [Fetch(next, peers, order)] + Offers(lands) + [Save(saved)]
  }

  ghost function AfterRound(me: string, s: State, next: nat, peers: map<string, string>, order: seq<nat>, lands: seq<bool>, saved: bool): State
    requires s.cursor <= next <= |s.stream| && |order| == |lands|
  {
    s.(dm := AfterDirects(s.stream, s.cursor, next, s.dm),
       offered := s.offered + order,
       delivered := s.delivered + DeliveredOf(me, s.stream, peers, order, lands),
       cursor := if saved then next else s.cursor)
  }

  lemma RunOne(me: string, s: State, step: Step)
    ensures Run(me, s, [step]) == Next(me, s, step)
  {
    assert [step][..0] == [];
  }

  lemma OffersDone(me: string, s: State, lands: seq<bool>)
    requires s.phase.Ingesting? && |lands| == |s.phase.pending|
    ensures Run(me, s, Offers(lands)) ==
      s.(offered := s.offered + s.phase.pending,
         delivered := s.delivered + DeliveredOf(me, s.stream, s.phase.peers, s.phase.pending, lands),
         phase := s.phase.(pending := []))
  {
    RunOffers(me, s, lands);
    assert s.phase.pending[..|lands|] == s.phase.pending && s.phase.pending[|lands|..] == [];
  }

  lemma RunRound(me: string, s: State, next: nat, peers: map<string, string>, order: seq<nat>, lands: seq<bool>, saved: bool)
    requires CanFetch(s, next, peers, order) && |lands| == |order|
    ensures Run(me, s, RoundSteps(next, peers, order, lands, saved)) == AfterRound(me, s, next, peers, order, lands, saved)
  {
    var fetched := Next(me, s, Fetch(next, peers, order));
    OffersDone(me, fetched, lands);
    RunThree(me, s, Fetch(next, peers, order), Offers(lands), Save(saved));
  }

  lemma RunThree(me: string, s: State, first: Step, middle: seq<Step>, last: Step)
    ensures Run(me, s, [first] + middle + [last]) == Next(me, Run(me, Next(me, s, first), middle), last)
  {
    RunConcat(me, s, [first] + middle, [last]);
    RunConcat(me, s, [first], middle);
    RunOne(me, s, first);
    RunOne(me, Run(me, s, [first] + middle), last);
  }

  lemma Assoc<T>(a: seq<T>, b: seq<T>, c: seq<T>)
    ensures a + b + c == a + (b + c)
  {
  }

  lemma {:induction false} NothingDelivered(me: string, stream: seq<Item>, order: seq<nat>, lands: seq<bool>)
    requires |order| == |lands|
    ensures DeliveredOf(me, stream, map[], order, lands) == []
  {
    if order != [] {
      NothingDelivered(me, stream, order[..|order| - 1], lands[..|order| - 1]);
    }
  }

  lemma {:induction false} NoDirectsNoMap(stream: seq<Item>, c: nat, n: nat, dm: map<string, string>)
    requires c <= n <= |stream| && forall p :: c <= p < n ==> !stream[p].Direct?
    ensures AfterDirects(stream, c, n, dm) == dm
  {
    if c < n {
      NoDirectsNoMap(stream, c, n - 1, dm);
    }
  }

  /** Offered is not delivered: after a restart the room map is empty until the
      direct-room account data changes again, and a round without such a change
      passes over every message for good. */
  lemma RestartSkipsMessages(me: string, steps: seq<Step>, next: nat, order: seq<nat>, lands: seq<bool>)
    requires |lands| == |order|
    requires var s := Run(me, START, steps);
      && s.cursor <= next <= |s.stream| && IsBatch(s.stream, s.cursor, next, order)
      && forall p :: s.cursor <= p < next ==> !s.stream[p].Direct?
    ensures var s := Run(me, START, steps);
      var s' := Run(me, START, steps + [Crash] + RoundSteps(next, map[], order, lands, true));
      s'.cursor == next && s'.offered == s.offered + order && s'.delivered == s.delivered
  {
    var s := Run(me, START, steps);
    RunConcat(me, START, steps + [Crash], RoundSteps(next, map[], order, lands, true));
    RunConcat(me, START, steps, [Crash]);
    RunOne(me, s, Crash);
    var restarted := Next(me, s, Crash);
    NoDirectsNoMap(s.stream, s.cursor, next, map[]);
    RunRound(me, restarted, next, map[], order, lands, true);
    NothingDelivered(me, s.stream, order, lands);
  }

  // ---- The receiver ----

  /** One event of a room's timeline; `id` stands for its place in the stream,
      and delivering it would or would not land. */
  datatype Timeline = Timeline(id: nat, sender: string, kind: Kind, lands: bool)

  datatype Response = Response(nextBatch: nat, directs: seq<map<string, PeerRooms>>, rooms: map<string, seq<Timeline>>)

  /** A room's timeline is part of the stream, in order. */
  ghost predicate IsTimeline(stream: seq<Item>, c: nat, n: nat, room: string, events: seq<Timeline>) {
    && (forall i :: 0 <= i < |events| ==>
          c <= events[i].id < n && events[i].id < |stream|
          && stream[events[i].id] == RoomEvent(room, events[i].sender, events[i].kind))
    && (forall i, j :: 0 <= i < j < |events| ==> events[i].id < events[j].id)
    && (forall p: nat :: c <= p < n && IsEvent(stream, p) && stream[p].room == room ==>
          exists i :: 0 <= i < |events| && events[i].id == p)
  }

  /** What the server answers a sync from position c: everything up to its next
      batch, and the latest direct-room content if it changed. */
  ghost predicate IsResponse(stream: seq<Item>, c: nat, resp: Response) {
    && c <= resp.nextBatch <= |stream|
    && (forall room :: room in resp.rooms ==> IsTimeline(stream, c, resp.nextBatch, room, resp.rooms[room]))
    && (forall p: nat :: c <= p < resp.nextBatch && IsEvent(stream, p) ==> stream[p].room in resp.rooms)
    && (forall dm :: AllDirected(dm, resp.directs) == AfterDirects(stream, c, resp.nextBatch, dm))
  }

  function AllDirected(dm: map<string, string>, directs: seq<map<string, PeerRooms>>): map<string, string> {
    if directs == [] then dm
    else Directed(AllDirected(dm, directs[..|directs| - 1]), directs[|directs| - 1])
  }

  function Ids(events: seq<Timeline>): (ids: seq<nat>)
    ensures |ids| == |events| && forall i :: 0 <= i < |ids| ==> ids[i] == events[i].id
  {
    seq(|events|, i requires 0 <= i < |events| => events[i].id)
  }

  /** One event more of a timeline. */
  lemma OneIngested(me: string, stream: seq<Item>, peers: map<string, string>, came: seq<Inbound>, offered: seq<nat>,
                    ids: seq<nat>, lands: seq<bool>, i: nat)
    requires i < |ids| == |lands|
    ensures offered + ids[..i] + [ids[i]] == offered + ids[..i + 1]
    ensures came + DeliveredOf(me, stream, peers, ids[..i + 1], lands[..i + 1]) ==
      came + DeliveredOf(me, stream, peers, ids[..i], lands[..i]) + Ingested(me, stream, peers, ids[i], lands[i])
  {
    assert ids[..i + 1] == ids[..i] + [ids[i]] && lands[..i + 1] == lands[..i] + [lands[i]];
    DeliveredSnoc(me, stream, peers, ids[..i], lands[..i], ids[i], lands[i]);
    Assoc(came, DeliveredOf(me, stream, peers, ids[..i], lands[..i]), Ingested(me, stream, peers, ids[i], lands[i]));
  }

  /** What offering these events so far has done to both lists. */
  ghost predicate TookIn(me: string, stream: seq<Item>, peers: map<string, string>, order: seq<nat>, lands: seq<bool>,
                        offered: seq<nat>, offered': seq<nat>, came: seq<Inbound>, came': seq<Inbound>)
  {
    && |lands| == |order| && offered' == offered + order
    && came' == came + DeliveredOf(me, stream, peers, order, lands)
  }

  lemma TookInMore(me: string, stream: seq<Item>, peers: map<string, string>, order: seq<nat>, lands: seq<bool>,
                  offered: seq<nat>, offered': seq<nat>, came: seq<Inbound>, came': seq<Inbound>, events: seq<Timeline>)
    requires TookIn(me, stream, peers, order, lands, offered, offered', came, came')
    ensures TookIn(me, stream, peers, order + Ids(events), lands + Landings(events), offered, offered' + Ids(events),
                  came, came' + DeliveredOf(me, stream, peers, Ids(events), Landings(events)))
  {
    Assoc(offered, order, Ids(events));
    MoreDelivered(me, stream, peers, came, order, lands, Ids(events), Landings(events));
  }

  function Landings(events: seq<Timeline>): (lands: seq<bool>)
    ensures |lands| == |events| && forall i :: 0 <= i < |lands| ==> lands[i] == events[i].lands
  {
    seq(|events|, i requires 0 <= i < |events| => events[i].lands)
  }

  /** A batch as far as the given rooms go. */
  ghost predicate IsPart(stream: seq<Item>, c: nat, n: nat, rooms: set<string>, order: seq<nat>) {
    && Distinct(order)
    && (forall i :: 0 <= i < |order| ==> c <= order[i] < n && IsEvent(stream, order[i]) && stream[order[i]].room in rooms)
    && (forall p: nat :: c <= p < n && IsEvent(stream, p) && stream[p].room in rooms ==> p in order)
    && InRoomOrder(stream, order)
  }

  lemma PartGrows(stream: seq<Item>, c: nat, n: nat, rooms: set<string>, order: seq<nat>, room: string, events: seq<Timeline>)
    requires IsPart(stream, c, n, rooms, order) && room !in rooms && IsTimeline(stream, c, n, room, events)
    ensures IsPart(stream, c, n, rooms + {room}, order + Ids(events))
  {
    var ids, all := Ids(events), order + Ids(events);
    assert forall i :: |order| <= i < |all| ==> all[i] == ids[i - |order|];
    forall p: nat | c <= p < n && IsEvent(stream, p) && stream[p].room in rooms + {room} ensures p in all {
      if stream[p].room == room {
        var i :| 0 <= i < |events| && events[i].id == p;
        assert all[|order| + i] == p;
      } else {
        assert p in order;
      }
    }
  }

  class Receiver {
    const me: string
    var cursor: nat
    var dm: map<string, string>
    var delivered: seq<Inbound>
    ghost var offered: seq<nat>

    /** The state of the protocol between rounds, beside the server's stream. */
    ghost function View(stream: seq<Item>): State
      reads this
    {
      State(stream, cursor, dm, offered, delivered, Idle)
    }

    constructor (me: string, cursor: nat)
      ensures this.me == me && this.cursor == cursor && dm == map[] && delivered == [] && offered == []
    {
      this.me, this.cursor, dm, delivered, offered := me, cursor, map[], [], [];
    }

    /** One room's timeline: own echoes, non-direct rooms, what is not plain
        conversation and what does not land are passed over. */
    method IngestRoom(room: string, events: seq<Timeline>, peers: map<string, string>, ghost stream: seq<Item>)
      requires forall i :: 0 <= i < |events| ==>
        events[i].id < |stream| && stream[events[i].id] == RoomEvent(room, events[i].sender, events[i].kind)
      modifies this`delivered, this`offered
      ensures offered == old(offered) + Ids(events)
      ensures delivered == old(delivered) + DeliveredOf(me, stream, peers, Ids(events), Landings(events))
    {
      var i := 0;
      ghost var ids, lands, came := Ids(events), Landings(events), delivered;
      assert offered + ids[..0] == offered && delivered + [] == delivered;
      while i < |events|
        invariant 0 <= i <= |events|
        invariant offered == old(offered) + ids[..i]
        invariant delivered == came + DeliveredOf(me, stream, peers, ids[..i], lands[..i])
      {
        var ev := events[i];
        offered := offered + [ev.id];
        OneIngested(me, stream, peers, came, old(offered), ids, lands, i);
        i := i + 1;
        if ev.sender == me || room !in peers {
          continue;
        }
        if (ev.kind.Text? || ev.kind.Media?) && ev.lands {
          delivered := delivered + [Inbound(peers[room], ev.id)];
        }
      }
      assert ids[..i] == ids && lands[..i] == lands;
    }

    method FoldDirects(directs: seq<map<string, PeerRooms>>)
      modifies this`dm
      ensures dm == AllDirected(old(dm), directs)
    {
      var i := 0;
      assert directs[..0] == [];
      while i < |directs|
        invariant 0 <= i <= |directs|
        invariant dm == AllDirected(old(dm), directs[..i])
      {
        assert directs[..i + 1][..|directs[..i + 1]| - 1] == directs[..i];
        dm := ApplyDirect(dm, directs[i]);
        i := i + 1;
      }
      assert directs[..i] == directs;
    }

    /** The joined rooms, in any order. */
    method IngestRooms(next: nat, rooms: map<string, seq<Timeline>>, peers: map<string, string>, ghost stream: seq<Item>)
      returns (ghost order: seq<nat>, ghost lands: seq<bool>)
      requires next <= |stream|
      requires forall room :: room in rooms ==> IsTimeline(stream, cursor, next, room, rooms[room])
      modifies this`delivered, this`offered
      ensures IsPart(stream, cursor, next, rooms.Keys, order) && |lands| == |order|
      ensures offered == old(offered) + order
      ensures delivered == old(delivered) + DeliveredOf(me, stream, peers, order, lands)
    {
      order, lands := [], [];
      var left := rooms.Keys;
      ghost var done := {};
      while left != {}
        invariant left !! done && left + done == rooms.Keys
        invariant IsPart(stream, cursor, next, done, order) && |lands| == |order|
        invariant TookIn(me, stream, peers, order, lands, old(offered), offered, old(delivered), delivered)
        decreases left
      {
        var room :| room in left;
        assert room in rooms && room !in done;
        ghost var was, heard := offered, delivered;
        IngestRoom(room, rooms[room], peers, stream);
        PartGrows(stream, cursor, next, done, order, room, rooms[room]);
        TookInMore(me, stream, peers, order, lands, old(offered), was, old(delivered), heard, rooms[room]);
        left, done := left - {room}, done + {room};
        order, lands := order + Ids(rooms[room]), lands + Landings(rooms[room]);
      }
      assert done == rooms.Keys;
    }

    /** One sync response: account data first, then the rooms. */
    method Ingest(resp: Response, ghost stream: seq<Item>)
      returns (ghost order: seq<nat>, ghost lands: seq<bool>, ghost peers: map<string, string>)
      requires IsResponse(stream, cursor, resp)
      modifies this`dm, this`delivered, this`offered
      ensures dm == AfterDirects(stream, cursor, resp.nextBatch, old(dm)) && IsInverse(dm, peers)
      ensures IsBatch(stream, cursor, resp.nextBatch, order) && |lands| == |order|
      ensures offered == old(offered) + order
      ensures delivered == old(delivered) + DeliveredOf(me, stream, peers, order, lands)
    {
      FoldDirects(resp.directs);
      var roomPeer := InvertRooms(dm);
      order, lands := IngestRooms(resp.nextBatch, resp.rooms, roomPeer, stream);
      peers := roomPeer;
    }

    /** One turn of the receive loop: load, sync, ingest, save. A round is a run
        of the protocol: nothing after a failed load or sync, else a fetch, every
        offer, and the save. */
    method Round(loaded: bool, answer: Option<Response>, permanent: bool, saved: bool, ghost stream: seq<Item>)
      returns (alive: bool, ghost steps: seq<Step>)
      requires answer.Some? ==> IsResponse(stream, cursor, answer.value)
      modifies this
      ensures Run(me, old(View(stream)), steps) == if alive then View(stream) else View(stream).(phase := Stopped)
      ensures alive <==> (loaded && answer.Some?) || !permanent
      ensures !(loaded && answer.Some?) ==> steps == [Refuse(permanent)]
      ensures loaded && answer.Some? ==> cursor == if saved then answer.value.nextBatch else old(cursor)
      ensures loaded && answer.Some? ==> exists peers, order, lands :: steps == RoundSteps(answer.value.nextBatch, peers, order, lands, saved)
    {
      ghost var was := View(stream);
      if !loaded || answer.None? {
        steps := [Refuse(permanent)];
        RunOne(me, was, Refuse(permanent));
        return !permanent, steps;
      }
      ghost var order, lands, peers := Ingest(answer.value, stream);
      RunRound(me, was, answer.value.nextBatch, peers, order, lands, saved);
      steps := RoundSteps(answer.value.nextBatch, peers, order, lands, saved);
      if saved {
        cursor := answer.value.nextBatch;
      }
      alive := true;
    }
  }
}
