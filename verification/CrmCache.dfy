/** What the cache is for: an answer, once given, serves every later call on its
    number until it is too old, without asking the CRM again. */
module CrmCache {
  import opened CrmResolver

  /** What a call gets for an answer, and for how long: six hours for a match,
      five minutes for a miss, in nanoseconds. */
  predicate Gives(a: Answer, person: Person, ok: bool) {
    if a.Match? then person == a.person && ok else person == Person("", "") && !ok
  }

  function Lifetime(miss: bool): int { if miss then 300_000_000_000 else 21_600_000_000_000 }

  predicate Holds(s: State, n: string, a: Answer, at: int) {
    && n in s.sh.cache && s.sh.cache[n].fetched == at && s.sh.cache[n].miss == a.Miss?
    && Gives(a, s.sh.cache[n].person, !s.sh.cache[n].miss)
  }

  /** This step writes the number's entry or drops the whole map. */
  predicate Rewrites(s: State, act: Action, n: string) {
    && act.Run? && act.call < |s.threads| && s.threads[act.call].pc.Answered?
    && (s.threads[act.call].number == n || |s.sh.cache| >= 1024)
  }

  /** A leader's step on the answer it got stores it with its stamp, beside what
      was there, or alone when the map held 1024 entries. */
  lemma AnswerIsStored(s: State, i: nat)
    requires Reachable(s) && i < |s.threads| && s.threads[i].pc.Answered?
    ensures var n, a, at, s' := s.threads[i].number, s.threads[i].pc.answer, s.threads[i].pc.at, Step(s, Run(i));
      && !a.Failure? && Holds(s', n, a, at)
      && forall m :: m != n ==>
           (m in s'.sh.cache <==> m in s.sh.cache && |s.sh.cache| < 1024)
           && (m in s'.sh.cache ==> s'.sh.cache[m] == s.sh.cache[m])
  {
    ReachableInv(s);
    assert ThreadInv(s, i);
  }

  /** A call finds its answer in the cache if and only if one is there that is
      not too old; an older one goes. Either way nothing is looked up yet. */
  lemma ServedIffFresh(s: State, j: nat)
    requires j < |s.threads| && s.threads[j].pc.Begin? && s.enabled && s.threads[j].number != ""
    ensures var n, s' := s.threads[j].number, Step(s, Run(j));
      && s'.log == s.log && s'.now == s.now
      && if n in s.sh.cache && s.now - s.sh.cache[n].fetched <= Lifetime(s.sh.cache[n].miss) then
           && s'.threads[j].pc.Done? && s'.sh == s.sh
           && (s'.threads[j].pc.person, s'.threads[j].pc.ok) == (s.sh.cache[n].person, !s.sh.cache[n].miss)
         else s'.threads[j].pc == Missed && s'.sh == s.sh.(cache := s.sh.cache - {n})
  {
  }

  lemma StepKeepsEntry(s: State, act: Action, n: string, a: Answer, at: int)
    requires Holds(s, n, a, at) && !Rewrites(s, act, n) && Step(s, act).now - at <= Lifetime(a.Miss?)
    ensures Holds(Step(s, act), n, a, at)
  {
    if act.Run? && act.call < |s.threads| {
      RunKeepsEntry(s, act.call, n, a, at);
    }
  }

  lemma RunKeepsEntry(s: State, j: nat, n: string, a: Answer, at: int)
    requires j < |s.threads| && Holds(s, n, a, at) && !Rewrites(s, Run(j), n) && s.now - at <= Lifetime(a.Miss?)
    ensures Holds(StepRun(s, j), n, a, at)
  {
    match s.threads[j].pc
    case Begin =>
    case Answered(_, _, _) =>
    case _ => assert StepRun(s, j).sh.cache == s.sh.cache;
  }

  lemma ClockAdvances(s: State, act: Action)
    ensures s.now <= Step(s, act).now && Step(s, act).enabled == s.enabled
  {
  }

  ghost predicate Undisturbed(s: State, actions: seq<Action>, n: string) {
    forall k :: 0 <= k < |actions| ==> !Rewrites(Exec(s, actions[..k]), actions[k], n)
  }

  lemma {:induction false} RunKeepsAnswer(s: State, actions: seq<Action>, n: string, a: Answer, at: int)
    requires Holds(s, n, a, at) && Undisturbed(s, actions, n) && Exec(s, actions).now - at <= Lifetime(a.Miss?)
    ensures Holds(Exec(s, actions), n, a, at) && Exec(s, actions).enabled == s.enabled
    decreases |actions|
  {
    if actions != [] {
      var before := actions[..|actions| - 1];
      ClockAdvances(Exec(s, before), actions[|actions| - 1]);
      forall k | 0 <= k < |before| ensures !Rewrites(Exec(s, before[..k]), before[k], n) {
        assert before[..k] == actions[..k];
      }
      RunKeepsAnswer(s, before, n, a, at);
      StepKeepsEntry(Exec(s, before), actions[|actions| - 1], n, a, at);
    }
  }

  /** Over any run: after a leader stored an answer, and until its number is
      written again or the map is dropped, every call on the number that starts
      within the answer's lifetime ends in its first step with that answer, and
      the CRM is not asked. */
  lemma AnswerIsServed(s: State, i: nat, actions: seq<Action>, j: nat)
    requires Reachable(s) && i < |s.threads| && s.threads[i].pc.Answered?
    requires Undisturbed(Step(s, Run(i)), actions, s.threads[i].number)
    requires var t := Exec(Step(s, Run(i)), actions);
      && j < |t.threads| && t.threads[j] == Thread(s.threads[i].number, Begin)
      && t.now - s.threads[i].pc.at <= if s.threads[i].pc.answer.Match? then 21_600_000_000_000 else 300_000_000_000
    ensures var t := Exec(Step(s, Run(i)), actions);
      var u := Step(t, Run(j));
      && u.threads[j].pc.Done? && Gives(s.threads[i].pc.answer, u.threads[j].pc.person, u.threads[j].pc.ok)
      && u.log == t.log && u.sh == t.sh
  {
    var n, a, at := s.threads[i].number, s.threads[i].pc.answer, s.threads[i].pc.at;
    ReachableInv(s);
    assert ThreadInv(s, i);
    AnswerIsStored(s, i);
    RunKeepsAnswer(Step(s, Run(i)), actions, n, a, at);
    ServedIffFresh(Exec(Step(s, Run(i)), actions), j);
  }
}
