/** What a restart leaves behind: a fax whose drive it cut off before a ref was
    stored is nobody's any more. */
module FaxRaceRestart {
  import opened FaxStore
  import opened FaxRace

  /** Neither a sender nor a webhook is about to write this row, and no report can
      find it. */
  ghost predicate Stranded(s: Race, id: string, row: FaxRow) {
    && id in s.ids && id in s.store.rows && s.store.rows[id] == row && row.providerRef == ""
    && (forall t :: 0 <= t < |s.senders| ==> s.senders[t].id != id)
    && (forall h :: 0 <= h < |s.hooks| && s.hooks[h].pc.ToApply? ==> s.hooks[h].pc.id != id)
  }

  lemma StepStrands(s: Race, a: Act, id: string, row: FaxRow)
    requires Stranded(s, id, row) && a != FaxRace.Expunge(id)
    ensures Stranded(Next(s, a), id, row)
  {
    match a
    case Write(t, at) => WriteStrands(s, t, at, id, row);
    case Look(h, found) => assert found == id ==> !Carries(s, found, if h < |s.hooks| then s.hooks[h].report.ref else "");
    case _ =>
  }

  lemma WriteStrands(s: Race, t: nat, at: int, id: string, row: FaxRow)
    requires Stranded(s, id, row)
    ensures Stranded(AfterWrite(s, t, at), id, row)
  {
  }

  /** Once the process has restarted, a fax without a stored ref keeps its row for
      good, whatever is sent, answered, reported or restarted after that, until
      retention removes it: nothing submits it again and no verdict reaches it. */
  lemma {:induction false} RestartStrandsTheFax(acts: seq<Act>, more: seq<Act>, id: string)
    requires id in Run(acts).store.rows && Run(acts).store.rows[id].providerRef == ""
    requires forall i :: 0 <= i < |more| ==> more[i] != FaxRace.Expunge(id)
    ensures Stranded(Run(acts + [Restart] + more), id, Run(acts).store.rows[id])
  {
    if more == [] {
      assert acts + [Restart] + more == acts + [Restart];
      assert (acts + [Restart])[..|acts|] == acts;
      RunKeeps(acts);
      assert RowOk(Run(acts), id);
    } else {
      var n := |more| - 1;
      var all := acts + [Restart] + more;
      assert all[..|all| - 1] == acts + [Restart] + more[..n] && all[|all| - 1] == more[n];
      RestartStrandsTheFax(acts, more[..n], id);
      StepStrands(Run(acts + [Restart] + more[..n]), more[n], id, Run(acts).store.rows[id]);
    }
  }
}
