/** The racing machine seen from one fax: its applied webhooks are the reports of
    a verdict run, everything else goes on elsewhere. */
module FaxRaceVerdicts {
  import opened FaxMachine
  import opened FaxStore
  import opened FaxService
  import opened FaxRace

  /** What an act does for the fax being watched: a webhook that finds its row
      applies its report, in the order of the writes. */
  function EventOf(s: Race, a: Act): Event {
    if a.Apply? && a.h < |s.hooks| && s.hooks[a.h].pc.ToApply? && s.hooks[a.h].pc.id in s.store.rows
    then Reported(s.hooks[a.h].report) else Elsewhere
  }

  function Stores(pre: seq<Act>, more: seq<Act>): (states: seq<Store>)
    ensures |states| == |more| + 1 && states[0] == Run(pre).store && states[|more|] == Run(pre + more).store
  {
    if more == [] then
      assert pre + more == pre;
      [Run(pre).store]
    else Stores(pre, more[..|more| - 1]) + [Run(pre + more).store]
  }

  function Events(pre: seq<Act>, more: seq<Act>): (events: seq<Event>)
    ensures |events| == |more|
  {
    if more == [] then []
    else
      var n := |more| - 1;
      Events(pre, more[..n]) + [EventOf(Run(pre + more[..n]), more[n])]
  }

  /** The fax's drive has made its writes. */
  ghost predicate Driven(s: Race, id: string) {
    forall t :: 0 <= t < |s.senders| && s.senders[t].id == id ==> s.senders[t].pc.Sent?
  }

  /** The gateway gave this ref to this fax only. */
  ghost predicate OnlyFor(s: Race, ref: string, id: string) {
    forall issue :: issue in s.issued && issue.ref == ref ==> issue.id == id
  }

  lemma TrackedStays(s: Race, id: string, ref: string)
    requires Inv(s) && OnlyFor(s, ref, id) && ref != "" && id in s.store.rows
    requires s.store.rows[id].providerRef == ref && s.store.rows[id].status != Received
    ensures Tracked(s.store, id, ref)
  {
    forall other | other in s.store.rows && s.store.rows[other].providerRef == ref ensures other == id {
      assert RowOk(s, other);
    }
  }

  lemma ApplyReports(s: Race, h: nat)
    requires Inv(s) && EventOf(s, Apply(h)).Reported?
    ensures VerdictStep(s.store, EventOf(s, Apply(h)).report, Next(s, Apply(h)).store)
  {
    var hook := s.hooks[h];
    assert HookOk(s, hook);
    LegalMoves(s.store.rows[hook.pc.id].status, FaxVerdict(Claimed(hook.report)));
    assert Next(s, Apply(h)).store == AfterVerdict(s.store, hook.pc.id, hook.report);
  }

  lemma RowStays(s: Race, a: Act, id: string)
    requires id in s.store.rows && id in s.ids && Driven(s, id)
    requires !EventOf(s, a).Reported? && Leaves(a, id)
    ensures Next(s, a).store.applied == s.store.applied
    ensures id in Next(s, a).store.rows && Next(s, a).store.rows[id] == s.store.rows[id]
  {
  }

  lemma OthersQuiet(s: Race, a: Act, id: string, ref: string)
    requires Inv(s) && Inv(Next(s, a)) && !EventOf(s, a).Reported?
    requires Tracked(s.store, id, ref) && Driven(s, id) && OnlyFor(Next(s, a), ref, id)
    requires Leaves(a, id)
    ensures Quiet(s.store, Next(s, a).store, id, ref)
  {
    assert RowOk(s, id);
    RowStays(s, a, id);
    TrackedStays(Next(s, a), id, ref);
  }

  lemma DrivenStays(s: Race, a: Act, id: string)
    requires Inv(s) && Driven(s, id) && id in s.ids
    ensures Driven(Next(s, a), id)
  {
  }

  lemma IssuedGrows(s: Race, a: Act)
    ensures s.issued <= Next(s, a).issued
  {
  }

  predicate Leaves(a: Act, id: string) { a != Restart && a != FaxRace.Expunge(id) }

  /** A stretch of any run in one process is a verdict run of every fax that is
      driven and has its ref to itself. */
  lemma {:induction false} RaceIsVerdictRun(pre: seq<Act>, more: seq<Act>, id: string, ref: string)
    requires Tracked(Run(pre).store, id, ref) && Driven(Run(pre), id) && OnlyFor(Run(pre + more), ref, id)
    requires forall i :: 0 <= i < |more| ==> Leaves(more[i], id)
    ensures IsVerdictRun(Stores(pre, more), Events(pre, more), id, ref)
    ensures Tracked(Run(pre + more).store, id, ref) && Driven(Run(pre + more), id)
  {
    if more == [] {
      assert pre + more == pre;
    } else {
      var n := |more| - 1;
      var s, a := Run(pre + more[..n]), more[n];
      assert (pre + more)[..|pre + more| - 1] == pre + more[..n];
      IssuedGrows(s, a);
      RaceIsVerdictRun(pre, more[..n], id, ref);
      RunKeeps(pre + more[..n]);
      RunKeeps(pre + more);
      assert RowOk(s, id);
      DrivenStays(s, a, id);
      LastStep(s, a, id, ref);
      RunGrows(Stores(pre, more[..n]), Events(pre, more[..n]), Next(s, a).store, EventOf(s, a), id, ref);
    }
  }

  lemma LastStep(s: Race, a: Act, id: string, ref: string)
    requires Inv(s) && Inv(Next(s, a)) && Tracked(s.store, id, ref) && Driven(s, id)
    requires OnlyFor(Next(s, a), ref, id) && Leaves(a, id)
    ensures EventStep(s.store, EventOf(s, a), Next(s, a).store, id, ref)
    ensures Tracked(Next(s, a).store, id, ref)
  {
    if EventOf(s, a).Reported? { ApplyReports(s, a.h); } else { OthersQuiet(s, a, id, ref); }
    EventKeepsTracked(s.store, EventOf(s, a), Next(s, a).store, id, ref);
  }

  lemma RunGrows(states: seq<Store>, events: seq<Event>, last: Store, e: Event, id: string, ref: string)
    requires IsVerdictRun(states, events, id, ref) && EventStep(states[|events|], e, last, id, ref)
    ensures IsVerdictRun(states + [last], events + [e], id, ref)
  {
  }

  /** Webhooks deciding on rows they read earlier, sends, other faxes and failing
      engine calls in between: within one process a driven fax with a ref of its
      own carries the status whose first occurrence, in the order of the writes,
      came last, with that report's pages, error and time. */
  lemma RacingReportsDecide(pre: seq<Act>, more: seq<Act>, id: string, ref: string, k: int)
    requires Tracked(Run(pre).store, id, ref) && Driven(Run(pre), id) && OnlyFor(Run(pre + more), ref, id)
    requires forall i :: 0 <= i < |more| ==> Leaves(more[i], id)
    requires Decides(Run(pre).store.applied, Events(pre, more), ref, k)
    ensures id in Run(pre + more).store.rows
    ensures TellsReport(Run(pre + more).store.rows[id], Run(pre).store.rows[id], Events(pre, more)[k].report)
  {
    RaceIsVerdictRun(pre, more, id, ref);
    FirstOccurrencesDecide(Stores(pre, more), Events(pre, more), id, ref, k);
  }
}
