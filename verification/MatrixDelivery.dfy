/** When an offered event becomes a message: exactly when it lands and is
    conversation by somebody else in a room the map, as folded for its round,
    names. */
module MatrixDelivery {
  import opened MatrixSync

  /** Text or media from somebody else. */
  predicate Conversation(me: string, e: Item) {
    e.RoomEvent? && e.sender != me && (e.kind.Text? || e.kind.Media?)
  }

  /** What one offer depends on beside its event: the map folded for its round,
      which ended at position `upTo`, and whether it lands. */
  datatype Chance = Chance(folded: map<string, string>, upTo: nat, lands: bool)

  /** The offer lands and the map names the event's room as somebody's. */
  predicate Reaches(me: string, e: Item, c: Chance) {
    c.lands && Conversation(me, e) && e.room in c.folded.Values
  }

  predicate Offering(s: State) { s.phase.Ingesting? && s.phase.pending != [] }

  function ChanceIn(s: State, lands: bool): Chance
    requires s.phase.Ingesting?
  {
    Chance(s.phase.folded, s.phase.next, lands)
  }

  /** One chance for each offer of a run. */
  ghost function Chances(me: string, steps: seq<Step>): seq<Chance> {
    if steps == [] then []
    else
      var s := Run(me, START, steps[..|steps| - 1]);
      Chances(me, steps[..|steps| - 1])
      + if steps[|steps| - 1].Offer? && Offering(s) then [ChanceIn(s, steps[|steps| - 1].lands)] else []
  }

  /** The offered events that reach the inbox, in the order they were offered. */
  function Heard(me: string, stream: seq<Item>, offered: seq<nat>, chances: seq<Chance>): seq<nat>
    requires |offered| == |chances|
  {
    if offered == [] then []
    else
      var n := |offered| - 1;
      Heard(me, stream, offered[..n], chances[..n])
      + if offered[n] < |stream| && Reaches(me, stream[offered[n]], chances[n]) then [offered[n]] else []
  }

  function Positions(delivered: seq<Inbound>): (ps: seq<nat>)
    ensures |ps| == |delivered| && forall i :: 0 <= i < |ps| ==> ps[i] == delivered[i].pos
  {
    seq(|delivered|, i requires 0 <= i < |delivered| => delivered[i].pos)
  }

  /** The inverse in use belongs to the folded map, and every offered position
      is an event of the stream. */
  ghost predicate Sound(s: State) {
    && (s.phase.Ingesting? ==> IsInverse(s.phase.folded, s.phase.peers))
    && forall i :: 0 <= i < |s.offered| ==> IsEvent(s.stream, s.offered[i])
  }

  lemma OfferIsSound(me: string, s: State, lands: bool)
    requires Sound(s) && Covered(s)
    ensures Sound(AfterOffer(me, s, lands))
  {
    if Offering(s) {
      assert Pending(s)[0] == s.phase.pending[0];
    }
  }

  lemma StepIsSound(me: string, s: State, step: Step)
    requires Sound(s) && Covered(s)
    ensures Sound(Next(me, s, step))
  {
    match step
    case Offer(lands) => OfferIsSound(me, s, lands);
    case Grow(item) => assert forall p: nat :: IsEvent(s.stream, p) ==> IsEvent(s.stream + [item], p);
    case _ =>
  }

  lemma {:induction false} RunIsSound(me: string, steps: seq<Step>)
    ensures Sound(Run(me, START, steps))
  {
    if steps != [] {
      var before := steps[..|steps| - 1];
      RunIsSound(me, before);
      RunKeepsCovered(me, before);
      StepIsSound(me, Run(me, START, before), steps[|steps| - 1]);
    }
  }

  lemma IngestedReaches(me: string, s: State, p: nat, lands: bool)
    requires Sound(s) && s.phase.Ingesting? && p < |s.stream|
    ensures (lands && Delivers(me, s.phase.peers, s.stream[p])) <==> Reaches(me, s.stream[p], ChanceIn(s, lands))
  {
  }

  /** One offer: the event is delivered, to a peer whose room it came from,
      exactly when it lands, is conversation by somebody else and the map folded
      for this round names its room. */
  lemma OfferDelivers(me: string, steps: seq<Step>, lands: bool)
    requires Offering(Run(me, START, steps))
    ensures var s := Run(me, START, steps);
      var p, s' := s.phase.pending[0], Run(me, START, steps + [Offer(lands)]);
      && p < |s.stream|
      && if Reaches(me, s.stream[p], ChanceIn(s, lands)) then
           && |s'.delivered| == |s.delivered| + 1 && s.delivered <= s'.delivered
           && s'.delivered[|s.delivered|].pos == p
           && s'.delivered[|s.delivered|].peer in s.phase.folded
           && s.phase.folded[s'.delivered[|s.delivered|].peer] == s.stream[p].room
         else s'.delivered == s.delivered
  {
    var s := Run(me, START, steps);
    RunKeepsCovered(me, steps);
    RunIsSound(me, steps);
    assert (steps + [Offer(lands)])[..|steps|] == steps;
    assert Pending(s)[0] == s.phase.pending[0];
    IngestedReaches(me, s, s.phase.pending[0], lands);
  }

  lemma {:induction false} HeardGrows(me: string, stream: seq<Item>, item: Item, offered: seq<nat>, chances: seq<Chance>)
    requires |offered| == |chances| && forall i :: 0 <= i < |offered| ==> offered[i] < |stream|
    ensures Heard(me, stream + [item], offered, chances) == Heard(me, stream, offered, chances)
  {
    if offered != [] {
      var n := |offered| - 1;
      HeardGrows(me, stream, item, offered[..n], chances[..n]);
    }
  }

  lemma HeardSnoc(me: string, stream: seq<Item>, offered: seq<nat>, chances: seq<Chance>, p: nat, c: Chance)
    requires |offered| == |chances|
    ensures Heard(me, stream, offered + [p], chances + [c]) ==
      Heard(me, stream, offered, chances) + if p < |stream| && Reaches(me, stream[p], c) then [p] else []
  {
    assert (offered + [p])[..|offered|] == offered && (chances + [c])[..|chances|] == chances;
  }

  /** What was delivered is what was offered and reaches. */
  ghost predicate Tells(me: string, s: State, chances: seq<Chance>) {
    |chances| == |s.offered| && Positions(s.delivered) == Heard(me, s.stream, s.offered, chances)
  }

  lemma OfferHeard(me: string, s: State, chances: seq<Chance>, lands: bool)
    requires Sound(s) && Offering(s) && s.phase.pending[0] < |s.stream| && Tells(me, s, chances)
    ensures Tells(me, AfterOffer(me, s, lands), chances + [ChanceIn(s, lands)])
  {
    var p := s.phase.pending[0];
    IngestedReaches(me, s, p, lands);
    HeardSnoc(me, s.stream, s.offered, chances, p, ChanceIn(s, lands));
    var s' := AfterOffer(me, s, lands);
    assert Positions(s'.delivered) == Positions(s.delivered) + Positions(Ingested(me, s.stream, s.phase.peers, p, lands));
  }

  lemma GrowHeard(me: string, s: State, item: Item, chances: seq<Chance>)
    requires Sound(s) && Tells(me, s, chances)
    ensures Tells(me, Next(me, s, Grow(item)), chances)
  {
    HeardGrows(me, s.stream, item, s.offered, chances);
  }

  lemma OthersAreSilent(me: string, s: State, step: Step, chances: seq<Chance>)
    requires !step.Grow? && !(step.Offer? && Offering(s)) && Tells(me, s, chances)
    ensures Tells(me, Next(me, s, step), chances + [])
  {
    assert chances + [] == chances;
  }

  /** Over any run, what was delivered is exactly what was offered and reaches. */
  lemma {:induction false} DeliveredIsHeard(me: string, steps: seq<Step>)
    ensures Tells(me, Run(me, START, steps), Chances(me, steps))
  {
    if steps != [] {
      var before, step := steps[..|steps| - 1], steps[|steps| - 1];
      var s := Run(me, START, before);
      DeliveredIsHeard(me, before);
      RunIsSound(me, before);
      if step.Offer? && Offering(s) {
        RunKeepsCovered(me, before);
        assert Pending(s)[0] == s.phase.pending[0];
        OfferHeard(me, s, Chances(me, before), step.lands);
      } else if step.Grow? {
        GrowHeard(me, s, step.item, Chances(me, before));
        assert Chances(me, steps) == Chances(me, before);
      } else {
        OthersAreSilent(me, s, step, Chances(me, before));
      }
    }
  }

  function Count(ps: seq<nat>, p: nat): nat { multiset(ps)[p] }

  lemma {:induction false} DeliveriesCount(delivered: seq<Inbound>, p: nat)
    ensures Deliveries(delivered, p) == Count(Positions(delivered), p)
  {
    if delivered != [] {
      var n := |delivered| - 1;
      DeliveriesCount(delivered[..n], p);
      assert Positions(delivered) == Positions(delivered[..n]) + [delivered[n].pos];
    }
  }

  /** An event offered once is heard once or never, as its own map says. */
  lemma {:induction false} HeardCount(me: string, stream: seq<Item>, offered: seq<nat>, chances: seq<Chance>, p: nat, i: int)
    requires |offered| == |chances|
    requires if 0 <= i < |offered| then offered[i] == p && Count(offered, p) == 1 else Count(offered, p) == 0
    ensures Count(Heard(me, stream, offered, chances), p) ==
      if 0 <= i < |offered| && p < |stream| && Reaches(me, stream[p], chances[i]) then 1 else 0
  {
    if offered != [] {
      var n := |offered| - 1;
      assert offered == offered[..n] + [offered[n]];
      assert Count(offered, p) == Count(offered[..n], p) + if offered[n] == p then 1 else 0;
      if i == n {
        HeardCount(me, stream, offered[..n], chances[..n], p, -1);
      } else {
        assert 0 <= i < n ==> p in offered[..n] by { if 0 <= i < n { assert offered[..n][i] == p; } }
        HeardCount(me, stream, offered[..n], chances[..n], p, if i < n then i else -1);
      }
    }
  }

  /** With neither crash nor failed save, an event before the cursor is delivered
      exactly once if its offer landed, the map named its room then and it is
      conversation by somebody else, and otherwise never. */
  lemma DeliveredExactlyOnce(me: string, steps: seq<Step>, p: nat) returns (i: nat)
    requires Failures(steps) == 0
    requires var s := Run(me, START, steps); p < s.cursor && IsEvent(s.stream, p)
    ensures var s := Run(me, START, steps);
      && i < |s.offered| && s.offered[i] == p && |Chances(me, steps)| == |s.offered|
      && Deliveries(s.delivered, p) == if Reaches(me, s.stream[p], Chances(me, steps)[i]) then 1 else 0
  {
    var s := Run(me, START, steps);
    OfferedAtLeastOnce(me, steps, p);
    OfferedExactlyOnce(me, steps, p);
    i :| 0 <= i < |s.offered| && s.offered[i] == p;
    DeliveredIsHeard(me, steps);
    DeliveriesCount(s.delivered, p);
    HeardCount(me, s.stream, s.offered, Chances(me, steps), p, i);
  }

  lemma {:induction false} HeardIsOffered(me: string, stream: seq<Item>, offered: seq<nat>, chances: seq<Chance>, k: nat)
    requires |offered| == |chances| && k < |Heard(me, stream, offered, chances)|
    ensures Heard(me, stream, offered, chances)[k] in offered
  {
    if offered != [] {
      var n := |offered| - 1;
      assert offered == offered[..n] + [offered[n]];
      if k < |Heard(me, stream, offered[..n], chances[..n])| {
        HeardIsOffered(me, stream, offered[..n], chances[..n], k);
      }
    }
  }

  lemma {:induction false} HeardInOrder(me: string, stream: seq<Item>, offered: seq<nat>, chances: seq<Chance>)
    requires |offered| == |chances| && InRoomOrder(stream, offered)
    ensures InRoomOrder(stream, Heard(me, stream, offered, chances))
  {
    if offered != [] {
      var n := |offered| - 1;
      var before, all := Heard(me, stream, offered[..n], chances[..n]), Heard(me, stream, offered, chances);
      HeardInOrder(me, stream, offered[..n], chances[..n]);
      forall i, j | 0 <= i < j < |all| && SameRoom(stream, all[i], all[j]) ensures all[i] < all[j] {
        if j == |before| {
          HeardIsOffered(me, stream, offered[..n], chances[..n], i);
          var k :| 0 <= k < n && offered[..n][k] == all[i];
          assert offered[k] == all[i] && offered[n] == all[j];
        } else {
          assert all[i] == before[i] && all[j] == before[j];
        }
      }
    }
  }

  /** And messages arrive in order within their room. */
  lemma DeliveredInRoomOrder(me: string, steps: seq<Step>)
    requires Failures(steps) == 0
    ensures InRoomOrder(Run(me, START, steps).stream, Positions(Run(me, START, steps).delivered))
  {
    var s := Run(me, START, steps);
    OfferedInRoomOrder(me, steps);
    DeliveredIsHeard(me, steps);
    HeardInOrder(me, s.stream, s.offered, Chances(me, steps));
  }

  // ---- The account data reaches the map ----

  /** The newest direct-room content from position c up to n, if there is any. */
  function NewestSince(stream: seq<Item>, c: nat, n: nat): map<string, PeerRooms>
    requires c <= n <= |stream|
  {
    if n == c then map[] else if stream[n - 1].Direct? then stream[n - 1].content else NewestSince(stream, c, n - 1)
  }

  function NewestDirect(stream: seq<Item>, n: nat): map<string, PeerRooms>
    requires n <= |stream|
  {
    NewestSince(stream, 0, n)
  }

  /** Folding a round's account data takes the rooms its newest content names and
      keeps every other peer's. */
  lemma {:induction false} FoldTakesNewest(stream: seq<Item>, c: nat, n: nat, dm: map<string, string>)
    requires c <= n <= |stream|
    ensures Takes(dm, NewestSince(stream, c, n), AfterDirects(stream, c, n, dm))
  {
    if n > c {
      if stream[n - 1].Direct? { DirectedTakes(dm, stream[n - 1].content); } else { FoldTakesNewest(stream, c, n - 1, dm); }
    }
  }

  /** The map has every room that the newest content names. */
  ghost predicate Follows(dm: map<string, string>, stream: seq<Item>, n: nat) {
    n <= |stream| && forall peer, room :: NamesRoom(NewestDirect(stream, n), peer, room) ==> peer in dm && dm[peer] == room
  }

  lemma {:induction false} FoldFollows(stream: seq<Item>, c: nat, n: nat, dm: map<string, string>)
    requires c <= n <= |stream| && Follows(dm, stream, c)
    ensures Follows(AfterDirects(stream, c, n, dm), stream, n)
  {
    if n > c {
      assert NewestDirect(stream, n) == if stream[n - 1].Direct? then stream[n - 1].content else NewestDirect(stream, n - 1);
      if stream[n - 1].Direct? {
        DirectedTakes(dm, stream[n - 1].content);
      } else {
        FoldFollows(stream, c, n - 1, dm);
      }
    }
  }

  lemma {:induction false} GrowKeepsNewest(stream: seq<Item>, item: Item, n: nat)
    requires n <= |stream|
    ensures NewestDirect(stream + [item], n) == NewestDirect(stream, n)
  {
    if n > 0 { GrowKeepsNewest(stream, item, n - 1); }
  }

  lemma GrowFollows(dm: map<string, string>, stream: seq<Item>, item: Item, n: nat)
    requires Follows(dm, stream, n)
    ensures Follows(dm, stream + [item], n)
  {
    GrowKeepsNewest(stream, item, n);
  }

  /** Neither a crash, which forgets the map, nor a room learned by sending, which
      overrides it, nor a failed save. */
  predicate Steady(step: Step) { !step.Crash? && !step.Learn? && step != Save(false) }

  ghost predicate MapFollows(s: State) {
    && Follows(s.dm, s.stream, Horizon(s))
    && (s.phase.Ingesting? ==> Follows(s.phase.folded, s.stream, s.phase.next))
  }

  lemma StepFollows(me: string, s: State, step: Step)
    requires MapFollows(s) && Steady(step)
    ensures MapFollows(Next(me, s, step))
  {
    match step
    case Grow(item) =>
      GrowFollows(s.dm, s.stream, item, Horizon(s));
      if s.phase.Ingesting? { GrowFollows(s.phase.folded, s.stream, item, s.phase.next); }
    case Fetch(next, peers, order) =>
      if CanFetch(s, next, peers, order) { FoldFollows(s.stream, s.cursor, next, s.dm); }
    case _ =>
  }

  ghost predicate ChancesFollow(chances: seq<Chance>, stream: seq<Item>) {
    forall i :: 0 <= i < |chances| ==> Follows(chances[i].folded, stream, chances[i].upTo)
  }

  lemma {:induction false} RunFollows(me: string, steps: seq<Step>)
    requires forall i :: 0 <= i < |steps| ==> Steady(steps[i])
    ensures MapFollows(Run(me, START, steps)) && ChancesFollow(Chances(me, steps), Run(me, START, steps).stream)
  {
    if steps != [] {
      var before, step := steps[..|steps| - 1], steps[|steps| - 1];
      var s := Run(me, START, before);
      RunFollows(me, before);
      StepFollows(me, s, step);
      if step.Grow? {
        forall i | 0 <= i < |Chances(me, before)|
          ensures Follows(Chances(me, before)[i].folded, s.stream + [step.item], Chances(me, before)[i].upTo)
        {
          GrowFollows(Chances(me, before)[i].folded, s.stream, step.item, Chances(me, before)[i].upTo);
        }
      }
    }
  }

  lemma {:induction false} SteadyNeverFails(steps: seq<Step>)
    requires forall i :: 0 <= i < |steps| ==> Steady(steps[i])
    ensures Failures(steps) == 0
  {
    if steps != [] { SteadyNeverFails(steps[..|steps| - 1]); }
  }

  /** While nothing crashes, no save fails and no room is learned otherwise: other
      people's text and media before the cursor, in a room that the newest account
      data of their round names, is delivered exactly once if its offer landed. */
  lemma NamedRoomsAreHeard(me: string, steps: seq<Step>, p: nat, peer: string) returns (i: nat)
    requires forall k :: 0 <= k < |steps| ==> Steady(steps[k])
    requires var s := Run(me, START, steps); p < s.cursor && IsEvent(s.stream, p) && Conversation(me, s.stream[p])
    ensures var s, chances := Run(me, START, steps), Chances(me, steps);
      && i < |s.offered| && s.offered[i] == p && |chances| == |s.offered| && chances[i].upTo <= |s.stream|
      && (chances[i].lands && NamesRoom(NewestDirect(s.stream, chances[i].upTo), peer, s.stream[p].room) ==>
            Deliveries(s.delivered, p) == 1)
  {
    SteadyNeverFails(steps);
    RunFollows(me, steps);
    i := DeliveredExactlyOnce(me, steps, p);
  }
}
