/** Batch resolution: a producer hands list positions to at most eight workers
    over an unbuffered channel; named matches go into a buffered result channel
    and are folded into a map after the last worker left.

    The method's loop is the scheduler: it takes any enabled step. Its guards
    being exhaustive is the absence of deadlock, its measure the termination,
    for every schedule. */
module CrmPeople {
  import opened Collections
  import opened CrmResolver

  const WORKER_CAP: nat := 8

  datatype Worker = Idle | Holding(pos: nat) | Sending(pos: nat) | Exited

  /** Only a match with a name reaches the page. */
  predicate Named(a: Answer) {
    a.Match? && a.person.name != ""
  }

  ghost predicate Gave(numbers: seq<string>, answer: nat -> Answer, k: nat, n: string, p: Person)
    requires k < |numbers|
  {
    numbers[k] == n && Named(answer(k)) && answer(k).person == p
  }

  ghost predicate Justified(numbers: seq<string>, answer: nat -> Answer, r: (string, Person)) {
    exists k :: 0 <= k < |numbers| && Gave(numbers, answer, k, r.0, r.1)
  }

  /** The page's map: exactly the numbers some position of which resolved to a
      named person, each with the person of such a position. */
  ghost predicate IsPeople(numbers: seq<string>, answer: nat -> Answer, people: map<string, Person>) {
    && (forall k :: 0 <= k < |numbers| && Named(answer(k)) ==> numbers[k] in people)
    && (forall n :: n in people ==> Justified(numbers, answer, (n, people[n])))
  }

  /** Steps a worker can still take before it needs new work. */
  function Weight(ws: seq<Worker>): nat {
    if ws == [] then 0
    else Weight(ws[1..]) + match ws[0] case Holding(_) => 3 case Sending(_) => 2 case Idle => 1 case Exited => 0
  }

  lemma {:induction false} WeightUpdate(ws: seq<Worker>, w: nat, x: Worker)
    requires w < |ws|
    ensures Weight(ws[w := x]) + Weight([ws[w]]) == Weight(ws) + Weight([x])
  {
    if w > 0 {
      assert ws[w := x][1..] == ws[1..][w - 1 := x];
      WeightUpdate(ws[1..], w - 1, x);
    } else {
      assert ws[w := x][1..] == ws[1..];
    }
  }

  /** The position a worker is busy with. */
  function Busy(w: Worker): Option<nat> {
    match w case Holding(p) => Some(p) case Sending(p) => Some(p) case _ => None
  }

  /** Every handed-out position is in exactly one place: with one worker, or
      resolved; results came from distinct resolved positions. */
  ghost predicate Placed(ws: seq<Worker>, next: nat, resolved: seq<nat>, sent: seq<nat>) {
    && Distinct(resolved) && Distinct(sent)
    && (forall i :: 0 <= i < |sent| ==> sent[i] in resolved)
    && (forall p :: p in resolved ==> p < next)
    && (forall w :: 0 <= w < |ws| && Busy(ws[w]).Some? ==> Busy(ws[w]).value < next)
    && (forall w :: 0 <= w < |ws| && ws[w].Holding? ==> ws[w].pos !in resolved)
    && (forall w :: 0 <= w < |ws| && ws[w].Sending? ==> ws[w].pos in resolved && ws[w].pos !in sent)
    && (forall v, w :: 0 <= v < w < |ws| && Busy(ws[v]).Some? ==> Busy(ws[w]) != Busy(ws[v]))
    && (forall p :: 0 <= p < next ==> p in resolved || exists w :: 0 <= w < |ws| && ws[w] == Holding(p))
  }

  /** Results so far: one per sent position; named resolved positions are sent
      or about to be. */
  ghost predicate Delivered(numbers: seq<string>, answer: nat -> Answer, ws: seq<Worker>,
                            resolved: seq<nat>, sent: seq<nat>, results: seq<(string, Person)>) {
    && |results| == |sent|
    && (forall i :: 0 <= i < |sent| ==> sent[i] < |numbers| && Gave(numbers, answer, sent[i], results[i].0, results[i].1))
    && (forall w :: 0 <= w < |ws| && ws[w].Sending? ==> ws[w].pos < |numbers| && Named(answer(ws[w].pos)))
    && (forall p :: p in resolved && Named(answer(p)) ==> p in sent || exists w :: 0 <= w < |ws| && ws[w] == Sending(p))
  }

  lemma SendersHaveRoom(numbers: seq<string>, answer: nat -> Answer, ws: seq<Worker>, next: nat,
                        resolved: seq<nat>, sent: seq<nat>, results: seq<(string, Person)>)
    requires next <= |numbers| && Placed(ws, next, resolved, sent) && Delivered(numbers, answer, ws, resolved, sent, results)
    ensures forall w :: 0 <= w < |ws| && ws[w].Sending? ==> |results| < |numbers|
  {
    forall w | 0 <= w < |ws| && ws[w].Sending? ensures |results| < |numbers| {
      Room(sent, |numbers|, ws[w].pos);
    }
  }

  lemma TakeKeeps(numbers: seq<string>, answer: nat -> Answer, ws: seq<Worker>, w: nat, next: nat,
                  resolved: seq<nat>, sent: seq<nat>, results: seq<(string, Person)>)
    requires w < |ws| && next <= |numbers| && ws[w].Idle? && next < |numbers|
    requires Placed(ws, next, resolved, sent) && Delivered(numbers, answer, ws, resolved, sent, results)
    ensures Placed(ws[w := Holding(next)], next + 1, resolved, sent)
    ensures Delivered(numbers, answer, ws[w := Holding(next)], resolved, sent, results)
    ensures Weight(ws[w := Holding(next)]) + 1 == Weight(ws) + 3
  {
    WeightUpdate(ws, w, Holding(next));
    var ws' := ws[w := Holding(next)];
    forall p | 0 <= p < next + 1 ensures p in resolved || exists v :: 0 <= v < |ws'| && ws'[v] == Holding(p) {
      if p == next {
        assert ws'[w] == Holding(p);
      } else if p !in resolved {
        var v :| 0 <= v < |ws| && ws[v] == Holding(p);
        assert ws'[v] == Holding(p);
      }
    }
    SendersStay(answer, ws, w, ws', resolved, sent);
  }

  lemma ExitKeeps(numbers: seq<string>, answer: nat -> Answer, ws: seq<Worker>, w: nat, next: nat,
                  resolved: seq<nat>, sent: seq<nat>, results: seq<(string, Person)>)
    requires w < |ws| && next <= |numbers| && ws[w].Idle?
    requires Placed(ws, next, resolved, sent) && Delivered(numbers, answer, ws, resolved, sent, results)
    ensures Placed(ws[w := Exited], next, resolved, sent)
    ensures Delivered(numbers, answer, ws[w := Exited], resolved, sent, results)
    ensures Weight(ws[w := Exited]) + 1 == Weight(ws) + 0
  {
    WeightUpdate(ws, w, Exited);
    var ws' := ws[w := Exited];
    HoldersStay(ws, w, ws', next, resolved);
    SendersStay(answer, ws, w, ws', resolved, sent);
  }

  lemma ResolveKeeps(numbers: seq<string>, answer: nat -> Answer, ws: seq<Worker>, w: nat, next: nat,
                     resolved: seq<nat>, sent: seq<nat>, results: seq<(string, Person)>)
    requires w < |ws| && next <= |numbers| && ws[w].Holding?
    requires Placed(ws, next, resolved, sent) && Delivered(numbers, answer, ws, resolved, sent, results)
    ensures var p := ws[w].pos; var x := if Named(answer(p)) then Sending(p) else Idle;
      && Placed(ws[w := x], next, resolved + [p], sent)
      && Delivered(numbers, answer, ws[w := x], resolved + [p], sent, results)
      && Weight(ws[w := x]) < Weight(ws)
  {
    var p := ws[w].pos;
    var x := if Named(answer(p)) then Sending(p) else Idle;
    var ws', resolved' := ws[w := x], resolved + [p];
    WeightUpdate(ws, w, x);
    forall q | 0 <= q < next ensures q in resolved' || exists v :: 0 <= v < |ws'| && ws'[v] == Holding(q) {
      if q !in resolved {
        var v :| 0 <= v < |ws| && ws[v] == Holding(q);
        if v == w { assert resolved'[|resolved|] == q; } else { assert ws'[v] == Holding(q); }
      }
    }
    forall q | q in resolved' && Named(answer(q)) ensures q in sent || exists v :: 0 <= v < |ws'| && ws'[v] == Sending(q) {
      if q == p {
        assert ws'[w] == Sending(q);
      } else if q !in sent {
        var v :| 0 <= v < |ws| && ws[v] == Sending(q);
        assert ws'[v] == Sending(q);
      }
    }
  }

  lemma SendKeeps(numbers: seq<string>, answer: nat -> Answer, ws: seq<Worker>, w: nat, next: nat,
                  resolved: seq<nat>, sent: seq<nat>, results: seq<(string, Person)>)
    requires w < |ws| && next <= |numbers| && ws[w].Sending?
    requires Placed(ws, next, resolved, sent) && Delivered(numbers, answer, ws, resolved, sent, results)
    ensures var p := ws[w].pos;
      && p < |numbers|
      && Placed(ws[w := Idle], next, resolved, sent + [p])
      && Delivered(numbers, answer, ws[w := Idle], resolved, sent + [p], results + [(numbers[p], answer(p).person)])
    ensures Weight(ws[w := Idle]) + 2 == Weight(ws) + 1
  {
    WeightUpdate(ws, w, Idle);
    var p := ws[w].pos;
    var ws', sent' := ws[w := Idle], sent + [p];
    HoldersStay(ws, w, ws', next, resolved);
    forall q | q in resolved && Named(answer(q)) ensures q in sent' || exists v :: 0 <= v < |ws'| && ws'[v] == Sending(q) {
      if q == p {
        assert sent'[|sent|] == q;
      } else if q !in sent {
        var v :| 0 <= v < |ws| && ws[v] == Sending(q);
        assert ws'[v] == Sending(q);
      }
    }
  }

  lemma HoldersStay(ws: seq<Worker>, w: nat, ws': seq<Worker>, next: nat, resolved: seq<nat>)
    requires w < |ws| && !ws[w].Holding? && |ws'| == |ws| && ws' == ws[w := ws'[w]]
    requires forall p :: 0 <= p < next ==> p in resolved || exists v :: 0 <= v < |ws| && ws[v] == Holding(p)
    ensures forall p :: 0 <= p < next ==> p in resolved || exists v :: 0 <= v < |ws| && ws'[v] == Holding(p)
  {
    forall p | 0 <= p < next ensures p in resolved || exists v :: 0 <= v < |ws| && ws'[v] == Holding(p) {
      if p !in resolved {
        var v :| 0 <= v < |ws| && ws[v] == Holding(p);
        assert ws'[v] == Holding(p);
      }
    }
  }

  lemma SendersStay(answer: nat -> Answer, ws: seq<Worker>, w: nat, ws': seq<Worker>,
                    resolved: seq<nat>, sent: seq<nat>)
    requires w < |ws| && !ws[w].Sending? && |ws'| == |ws| && ws' == ws[w := ws'[w]]
    requires forall p :: p in resolved && Named(answer(p)) ==> p in sent || exists v :: 0 <= v < |ws| && ws[v] == Sending(p)
    ensures forall p :: p in resolved && Named(answer(p)) ==>
      p in sent || exists v :: 0 <= v < |ws| && ws'[v] == Sending(p)
  {
    forall p | p in resolved && Named(answer(p))
      ensures p in sent || exists v :: 0 <= v < |ws| && ws'[v] == Sending(p)
    {
      if p !in sent {
        var v :| 0 <= v < |ws| && ws[v] == Sending(p);
        assert ws'[v] == Sending(p);
      }
    }
  }

  lemma AllIdle(numbers: seq<string>, answer: nat -> Answer, ws: seq<Worker>)
    requires forall w :: 0 <= w < |ws| ==> ws[w].Idle?
    ensures Placed(ws, 0, [], []) && Delivered(numbers, answer, ws, [], [], [])
  {
  }

  lemma AllExited(numbers: seq<string>, answer: nat -> Answer, ws: seq<Worker>, next: nat,
                  resolved: seq<nat>, sent: seq<nat>, results: seq<(string, Person)>)
    requires forall w :: 0 <= w < |ws| ==> ws[w].Exited?
    requires Placed(ws, next, resolved, sent) && Delivered(numbers, answer, ws, resolved, sent, results)
    ensures Distinct(resolved) && (forall p: nat :: p in resolved <==> p < next)
    ensures Delivered(numbers, answer, [], resolved, sent, results)
  {
  }

  /** Position k is answered in the channel's content. */
  ghost predicate Present(numbers: seq<string>, answer: nat -> Answer, results: seq<(string, Person)>, k: nat)
    requires k < |numbers|
  {
    exists i :: 0 <= i < |results| && Gave(numbers, answer, k, results[i].0, results[i].1)
  }

  /** The channel's content at the end: what named positions gave, all of it. */
  ghost predicate IsResults(numbers: seq<string>, answer: nat -> Answer, results: seq<(string, Person)>) {
    && |results| <= |numbers|
    && (forall i :: 0 <= i < |results| ==> Justified(numbers, answer, results[i]))
    && (forall k :: 0 <= k < |numbers| && Named(answer(k)) ==> Present(numbers, answer, results, k))
  }

  lemma SentFit(numbers: seq<string>, sent: seq<nat>)
    requires Distinct(sent) && forall i :: 0 <= i < |sent| ==> sent[i] < |numbers|
    ensures |sent| <= |numbers|
  {
    DistinctSize(sent);
    SubsetSize(Elements(sent), Below(|numbers|));
  }

  lemma ResultsAreNamed(numbers: seq<string>, answer: nat -> Answer, resolved: seq<nat>, sent: seq<nat>, results: seq<(string, Person)>)
    requires Distinct(sent) && Delivered(numbers, answer, [], resolved, sent, results)
    requires forall p: nat :: p < |numbers| ==> p in resolved
    ensures IsResults(numbers, answer, results)
  {
    SentFit(numbers, sent);
    forall i | 0 <= i < |results| ensures Justified(numbers, answer, results[i]) {
      assert Gave(numbers, answer, sent[i], results[i].0, results[i].1);
    }
    forall k | 0 <= k < |numbers| && Named(answer(k)) ensures Present(numbers, answer, results, k) {
      assert k in sent;
      var i :| 0 <= i < |sent| && sent[i] == k;
      assert Gave(numbers, answer, sent[i], results[i].0, results[i].1);
    }
  }

  /** The workers inside a `Resolve` call. */
  function Resolving(ws: seq<Worker>): set<nat> {
    set w: nat | w < |ws| && ws[w].Holding?
  }

  lemma FewResolve(ws: seq<Worker>)
    ensures |Resolving(ws)| <= |ws|
  {
    SubsetSize(Resolving(ws), Below(|ws|));
  }

  /** The workers' run. `answer(k)` is what `Resolve` said for position k;
      `resolved` and `sent` list positions in the order they got there, `peak` is
      the largest number of lookups that ran at once. */
  method Schedule(numbers: seq<string>, answer: nat -> Answer)
    returns (results: seq<(string, Person)>, ghost resolved: seq<nat>, ghost sent: seq<nat>, ghost peak: nat)
    requires |numbers| > 0
    ensures peak <= 8 && peak <= |numbers|
    ensures Distinct(resolved) && (forall p: nat :: p in resolved <==> p < |numbers|)
    ensures Distinct(sent) && Delivered(numbers, answer, [], resolved, sent, results)
  {
    var ws: seq<Worker> := seq(if |numbers| < WORKER_CAP then |numbers| else WORKER_CAP, _ => Idle);
    var next, closed := 0, false;
    results, resolved, sent, peak := [], [], [], 0;
    AllIdle(numbers, answer, ws);
    while !(closed && forall w :: 0 <= w < |ws| ==> ws[w].Exited?)
      invariant 0 < |ws| && |ws| <= 8 && |ws| <= |numbers| && peak <= |ws| && next <= |numbers|
      invariant closed ==> next == |numbers|
      invariant forall w :: 0 <= w < |ws| && ws[w].Exited? ==> closed
      invariant Placed(ws, next, resolved, sent)
      invariant Delivered(numbers, answer, ws, resolved, sent, results)
      decreases 4 * (|numbers| - next) + (if closed then 0 else 1) + Weight(ws)
    {
      SendersHaveRoom(numbers, answer, ws, next, resolved, sent, results);
      FewResolve(ws);
      peak := if |Resolving(ws)| > peak then |Resolving(ws)| else peak;
      if {
        case w :| 0 <= w < |ws| && ws[w].Idle? && next < |numbers| =>       // jobs <- number, received by w
          TakeKeeps(numbers, answer, ws, w, next, resolved, sent, results);
          ws, next := ws[w := Holding(next)], next + 1;
        case !closed && next == |numbers| =>                                 // close(jobs)
          closed := true;
        case w :| 0 <= w < |ws| && ws[w].Idle? && closed =>                  // the range over jobs ends
          ExitKeeps(numbers, answer, ws, w, next, resolved, sent, results);
          ws := ws[w := Exited];
        case w :| 0 <= w < |ws| && ws[w].Holding? =>                         // Resolve returned
          var p := ws[w].pos;
          ResolveKeeps(numbers, answer, ws, w, next, resolved, sent, results);
          ws, resolved := ws[w := if Named(answer(p)) then Sending(p) else Idle], resolved + [p];
        case w :| 0 <= w < |ws| && ws[w].Sending? && |results| < |numbers| => // results <- resolved
          var p := ws[w].pos;
          SendKeeps(numbers, answer, ws, w, next, resolved, sent, results);
          results := results + [(numbers[p], answer(p).person)];
          ws, sent := ws[w := Idle], sent + [p];
      }
    }
    AllExited(numbers, answer, ws, next, resolved, sent, results);
  }

  /** The pool from start to end: what the channel holds once it is closed. */
  method RunPool(numbers: seq<string>, answer: nat -> Answer) returns (results: seq<(string, Person)>, ghost resolved: seq<nat>)
    requires |numbers| > 0
    ensures IsResults(numbers, answer, results)
    ensures Distinct(resolved) && (forall p: nat :: p in resolved <==> p < |numbers|)
  {
    ghost var sent, peak;
    results, resolved, sent, peak := Schedule(numbers, answer);
    ResultsAreNamed(numbers, answer, resolved, sent, results);
  }

  /** Folds the channel into the page's map. */
  method Drain(ghost numbers: seq<string>, ghost answer: nat -> Answer, results: seq<(string, Person)>)
    returns (people: map<string, Person>)
    requires IsResults(numbers, answer, results)
    ensures IsPeople(numbers, answer, people)
  {
    people := map[];
    var i := 0;
    while i < |results|
      invariant 0 <= i <= |results|
      invariant forall j :: 0 <= j < i ==> results[j].0 in people
      invariant forall n :: n in people ==> Justified(numbers, answer, (n, people[n]))
    {
      var (number, person) := results[i];
      assert Justified(numbers, answer, results[i]) && results[i] == (number, person);
      people := people[number := person];
      i := i + 1;
    }
    forall k | 0 <= k < |numbers| && Named(answer(k)) ensures numbers[k] in people {
      assert Present(numbers, answer, results, k);
      var j :| 0 <= j < |results| && Gave(numbers, answer, k, results[j].0, results[j].1);
      assert results[j].0 in people;
    }
  }

  /** The batch lookup behind a page: never blocks, resolves every position
      exactly once, and returns the named people. */
  method People(numbers: seq<string>, answer: nat -> Answer) returns (people: map<string, Person>, ghost resolved: seq<nat>)
    ensures IsPeople(numbers, answer, people)
    ensures Distinct(resolved) && (forall p: nat :: p in resolved <==> p < |numbers|)
  {
    if |numbers| == 0 {
      return map[], [];
    }
    var results;
    results, resolved := RunPool(numbers, answer);
    people := Drain(numbers, answer, results);
  }

  /** The answer at some position of this number is a match with this person, who
      has a name. */
  ghost predicate Offers(numbers: seq<string>, answer: nat -> Answer, n: string, p: Person) {
    exists k :: 0 <= k < |numbers| && numbers[k] == n && answer(k) == Match(p) && p.name != ""
  }

  /** A number is on the page's map if and only if it was offered somebody, and
      then with somebody it was offered. */
  lemma PeopleAreTheOffered(numbers: seq<string>, answer: nat -> Answer, people: map<string, Person>)
    requires IsPeople(numbers, answer, people)
    ensures forall n :: n in people <==> exists p :: Offers(numbers, answer, n, p)
    ensures forall n :: n in people ==> Offers(numbers, answer, n, people[n])
  {
    forall n | n in people ensures Offers(numbers, answer, n, people[n]) {
      var k :| 0 <= k < |numbers| && Gave(numbers, answer, k, n, people[n]);
    }
    forall n, p | Offers(numbers, answer, n, p) ensures n in people {
      var k :| 0 <= k < |numbers| && numbers[k] == n && answer(k) == Match(p) && p.name != "";
      assert Named(answer(k));
    }
  }

  /** With fixed answers the map is the plain one: exactly the listed numbers the
      CRM has a named person for, each with that person. */
  lemma PeopleOfStaticCrm(numbers: seq<string>, crm: string -> Answer, answer: nat -> Answer, people: map<string, Person>)
    requires IsPeople(numbers, answer, people)
    requires forall k :: 0 <= k < |numbers| ==> answer(k) == crm(numbers[k])
    ensures people == map n | n in numbers && crm(n).Match? && crm(n).person.name != "" :: crm(n).person
  {
    var plain := map n | n in numbers && Named(crm(n)) :: crm(n).person;
    forall n | n in people ensures n in plain && plain[n] == people[n] {
      var k :| 0 <= k < |numbers| && Gave(numbers, answer, k, n, people[n]);
    }
    forall n | n in plain ensures n in people {
      var k :| 0 <= k < |numbers| && numbers[k] == n;
      assert Named(answer(k));
    }
  }

  /** What the call that served a position returned. */
  function Served(s: State, calls: seq<nat>): nat -> Answer {
    (k: nat) =>
      if k < |calls| && calls[k] < |s.threads| && s.threads[calls[k]].pc.Done? && s.threads[calls[k]].pc.ok
      then Match(s.threads[calls[k]].pc.person) else Miss
  }

  /** Every position was served by a `Resolve` call of its own number that did not
      give up. */
  predicate Serves(s: State, numbers: seq<string>, calls: seq<nat>) {
    && |calls| == |numbers|
    && forall k :: 0 <= k < |numbers| ==>
         && calls[k] < |s.threads| && s.threads[calls[k]].number == numbers[k]
         && s.threads[calls[k]].pc.Done? && !s.threads[calls[k]].pc.via.GaveUp?
  }

  /** The whole seam: served by any interleaved run of the resolver, with other
      callers, cache and single flight, against a CRM with fixed answers, the map
      is the plain one. */
  lemma PeopleOfResolverRun(s: State, crm: string -> Answer, numbers: seq<string>, calls: seq<nat>, people: map<string, Person>)
    requires Reachable(s) && Serves(s, numbers, calls)
    requires forall x :: x in s.log ==> x.answer == crm(x.number)
    requires IsPeople(numbers, Served(s, calls), people)
    ensures people == map n |
      n in numbers && s.enabled && n != "" && crm(n).Match? && crm(n).person.name != "" :: crm(n).person
  {
    var plain := (n: string) => if s.enabled && n != "" && crm(n).Match? then crm(n) else Miss;
    forall k | 0 <= k < |numbers| ensures Served(s, calls)(k) == plain(numbers[k]) {
      StaticCrmMatchesPlainLookup(s, crm, calls[k]);
    }
    PeopleOfStaticCrm(numbers, plain, Served(s, calls), people);
  }
}
