/** What the report promises its readers: the numbers add up across its parts,
    and the order of the records does not matter. */
module ReportLaws {
  import opened Collections
  import opened Sequences
  import opened Ordering
  import opened Reports

  // ---- Sums over parts ----

  lemma {:induction false} SumAgree(entries: seq<Cdr>, p: Cdr -> bool, q: Cdr -> bool)
    requires forall i :: 0 <= i < |entries| ==> p(entries[i]) == q(entries[i])
    ensures Tallied(entries, p) == Tallied(entries, q)
  {
    if entries != [] { SumAgree(entries[..|entries| - 1], p, q); }
  }

  lemma AddRight(a: Tally, b: Tally, t: Tally)
    ensures Add(Add(a, b), t) == Add(a, Add(b, t))
  {
  }

  lemma AddLeft(a: Tally, b: Tally, t: Tally)
    ensures Add(Add(a, b), t) == Add(Add(a, t), b)
  {
  }

  lemma AddZero(a: Tally)
    ensures Add(a, ZERO) == a
  {
  }

  lemma SumLast(entries: seq<Cdr>, p: Cdr -> bool)
    requires entries != []
    ensures var rest, last := Tallied(entries[..|entries| - 1], p), entries[|entries| - 1];
      Tallied(entries, p) == if p(last) then Add(rest, TallyOf(last)) else rest
  {
  }

  /** Two parts no record is in both of. */
  lemma {:induction false} SumUnion(entries: seq<Cdr>, p: Cdr -> bool, q: Cdr -> bool, either: Cdr -> bool)
    requires forall i :: 0 <= i < |entries| ==>
      (either(entries[i]) <==> p(entries[i]) || q(entries[i])) && !(p(entries[i]) && q(entries[i]))
    ensures Tallied(entries, either) == Add(Tallied(entries, p), Tallied(entries, q))
  {
    if entries == [] {
      AddZero(ZERO);
    } else {
      var rest, last := entries[..|entries| - 1], entries[|entries| - 1];
      SumUnion(rest, p, q, either);
      UnionStep(entries, p, q, either);
      SumLast(entries, either);
    }
  }

  /** The right-hand side of `SumUnion` grows by the last record's share. */
  lemma UnionStep(entries: seq<Cdr>, p: Cdr -> bool, q: Cdr -> bool, either: Cdr -> bool)
    requires entries != []
    requires var last := entries[|entries| - 1]; (either(last) <==> p(last) || q(last)) && !(p(last) && q(last))
    ensures var rest, last := entries[..|entries| - 1], entries[|entries| - 1];
      var both := Add(Tallied(rest, p), Tallied(rest, q));
      Add(Tallied(entries, p), Tallied(entries, q)) == if either(last) then Add(both, TallyOf(last)) else both
  {
    var rest, last := entries[..|entries| - 1], entries[|entries| - 1];
    SumLast(entries, p);
    SumLast(entries, q);
    if p(last) {
      AddLeft(Tallied(rest, p), Tallied(rest, q), TallyOf(last));
    } else if q(last) {
      AddRight(Tallied(rest, p), Tallied(rest, q), TallyOf(last));
    }
  }

  lemma {:induction false} SumNothing(entries: seq<Cdr>, p: Cdr -> bool)
    requires forall i :: 0 <= i < |entries| ==> !p(entries[i])
    ensures Tallied(entries, p) == ZERO
  {
    if entries != [] { SumNothing(entries[..|entries| - 1], p); }
  }

  /** The parts' tallies, added up. */
  function PartsSum<K>(entries: seq<Cdr>, part: K -> Cdr -> bool, keys: seq<K>): Tally {
    if keys == [] then ZERO
    else Add(PartsSum(entries, part, keys[..|keys| - 1]), Tallied(entries, part(keys[|keys| - 1])))
  }

  ghost function AnyOf<K>(part: K -> Cdr -> bool, keys: seq<K>): Cdr -> bool {
    c => exists i :: 0 <= i < |keys| && part(keys[i])(c)
  }

  /** No record is in two of the parts. */
  ghost predicate Apart<K>(part: K -> Cdr -> bool, keys: seq<K>) {
    forall i, j, c :: 0 <= i < j < |keys| ==> !(part(keys[i])(c) && part(keys[j])(c))
  }

  lemma AnyOfOneMore<K>(part: K -> Cdr -> bool, keys: seq<K>, c: Cdr)
    requires Apart(part, keys) && keys != []
    ensures AnyOf(part, keys)(c) <==> AnyOf(part, keys[..|keys| - 1])(c) || part(keys[|keys| - 1])(c)
    ensures !(AnyOf(part, keys[..|keys| - 1])(c) && part(keys[|keys| - 1])(c))
  {
    var n := |keys| - 1;
    var rest := keys[..n];
    if i :| 0 <= i < |rest| && part(rest[i])(c) { assert part(keys[i])(c); }
    if i :| 0 <= i < |keys| && part(keys[i])(c) {
      if i < n { assert part(rest[i])(c); }
    }
  }

  lemma {:induction false} PartsAddUp<K>(entries: seq<Cdr>, part: K -> Cdr -> bool, keys: seq<K>)
    requires Apart(part, keys)
    ensures PartsSum(entries, part, keys) == Tallied(entries, AnyOf(part, keys))
  {
    if keys == [] {
      SumNothing(entries, AnyOf(part, keys));
    } else {
      var n := |keys| - 1;
      PartsAddUp(entries, part, keys[..n]);
      forall i | 0 <= i < |entries| ensures
        && (AnyOf(part, keys)(entries[i]) <==> AnyOf(part, keys[..n])(entries[i]) || part(keys[n])(entries[i]))
        && !(AnyOf(part, keys[..n])(entries[i]) && part(keys[n])(entries[i]))
      {
        AnyOfOneMore(part, keys, entries[i]);
      }
      SumUnion(entries, AnyOf(part, keys[..n]), part(keys[n]), AnyOf(part, keys));
    }
  }

  // ---- Conservation ----

  function DaysTotal(days: seq<Day>): Tally {
    if days == [] then ZERO else Add(DaysTotal(days[..|days| - 1]), days[|days| - 1].tally)
  }

  function HoursTotal(hours: seq<Hour>): (nat, nat) {
    if hours == [] then (0, 0)
    else
      var rest := HoursTotal(hours[..|hours| - 1]);
      (rest.0 + hours[|hours| - 1].calls, rest.1 + hours[|hours| - 1].talk)
  }

  function ContactsTotal(contacts: seq<Contact>): (nat, nat) {
    if contacts == [] then (0, 0)
    else
      var rest := ContactsTotal(contacts[..|contacts| - 1]);
      (rest.0 + contacts[|contacts| - 1].calls, rest.1 + contacts[|contacts| - 1].talk)
  }

  function DayKeys(days: seq<Day>): (keys: seq<int>)
    ensures |keys| == |days| && forall i :: 0 <= i < |keys| ==> keys[i] == days[i].date.day
  {
    seq(|days|, i requires 0 <= i < |days| => days[i].date.day)
  }

  function Numbers(contacts: seq<Contact>): (keys: seq<string>)
    ensures |keys| == |contacts| && forall i :: 0 <= i < |keys| ==> keys[i] == contacts[i].number
  {
    seq(|contacts|, i requires 0 <= i < |contacts| => contacts[i].number)
  }

  lemma {:induction false} DaysAreParts(entries: seq<Cdr>, days: seq<Day>)
    requires forall i :: 0 <= i < |days| ==> IsDay(entries, days[i])
    ensures DaysTotal(days) == PartsSum(entries, OnDay, DayKeys(days))
  {
    if days != [] {
      DaysAreParts(entries, days[..|days| - 1]);
      assert DayKeys(days)[..|days| - 1] == DayKeys(days[..|days| - 1]);
      assert IsDay(entries, days[|days| - 1]);
    }
  }

  function CallsAndTalk(t: Tally): (nat, nat) { (t.calls, t.talk) }

  lemma AddShown(a: Tally, b: Tally)
    ensures CallsAndTalk(Add(a, b)) == (a.calls + b.calls, a.talk + b.talk)
  {
  }

  lemma {:induction false} ContactsAreParts(entries: seq<Cdr>, contacts: seq<Contact>)
    requires forall i :: 0 <= i < |contacts| ==> IsContact(entries, contacts[i])
    ensures ContactsTotal(contacts) == CallsAndTalk(PartsSum(entries, With, Numbers(contacts)))
  {
    if contacts != [] {
      ContactsAreParts(entries, contacts[..|contacts| - 1]);
      assert Numbers(contacts)[..|contacts| - 1] == Numbers(contacts[..|contacts| - 1]);
      assert IsContact(entries, contacts[|contacts| - 1]);
    }
  }

  function Ladder(n: nat): (keys: seq<int>)
    ensures |keys| == n && forall i :: 0 <= i < n ==> keys[i] == i
  {
    if n == 0 then [] else Ladder(n - 1) + [n - 1]
  }

  lemma LadderSnoc(entries: seq<Cdr>, n: nat)
    requires n > 0
    ensures PartsSum(entries, AtHour, Ladder(n)) == Add(PartsSum(entries, AtHour, Ladder(n - 1)), Tallied(entries, AtHour(n - 1)))
  {
    assert Ladder(n)[..n - 1] == Ladder(n - 1);
  }

  lemma HoursSnoc(hours: seq<Hour>, n: nat)
    requires 0 < n <= |hours|
    ensures HoursTotal(hours[..n]) ==
      (HoursTotal(hours[..n - 1]).0 + hours[n - 1].calls, HoursTotal(hours[..n - 1]).1 + hours[n - 1].talk)
  {
    assert hours[..n][..n - 1] == hours[..n - 1];
  }

  lemma {:induction false} HoursAreParts(entries: seq<Cdr>, hours: seq<Hour>, n: nat)
    requires IsHours(entries, hours) && n <= |hours|
    ensures HoursTotal(hours[..n]) == CallsAndTalk(PartsSum(entries, AtHour, Ladder(n)))
  {
    if n > 0 {
      HoursAreParts(entries, hours, n - 1);
      HoursSnoc(hours, n);
      LadderSnoc(entries, n);
      AddShown(PartsSum(entries, AtHour, Ladder(n - 1)), Tallied(entries, AtHour(n - 1)));
    }
  }

  /** A day is listed once. */
  lemma DaysDiffer(entries: seq<Cdr>, days: seq<Day>)
    requires Ascending(days, EarlierDay) && forall i :: 0 <= i < |days| ==> IsDay(entries, days[i])
    ensures forall i, j :: 0 <= i < j < |days| ==> days[i].date.day < days[j].date.day
  {
    forall i, j | 0 <= i < j < |days| ensures days[i].date.day < days[j].date.day {
      assert IsDay(entries, days[i]) && IsDay(entries, days[j]) && EarlierDay(days[i], days[j]);
    }
  }

  /** Every dated record's day is listed. */
  lemma DayIsListed(entries: seq<Cdr>, r: Report, k: nat)
    requires forall d :: d in r.days <==> IsDay(entries, d)
    requires k < |entries| && entries[k].start.Some?
    ensures exists i :: 0 <= i < |r.days| && r.days[i].date.day == entries[k].start.value.day
  {
    var day := entries[k].start.value.day;
    SumCounts(entries, OnDay(day), k);
    FirstIsPresence(entries, day);
    var d := Day(FirstOn(entries, day).value, Tallied(entries, OnDay(day)));
    assert IsDay(entries, d);
    var i :| 0 <= i < |r.days| && r.days[i] == d;
  }

  lemma {:induction false} SumCounts(entries: seq<Cdr>, p: Cdr -> bool, k: nat)
    requires k < |entries| && p(entries[k])
    ensures Tallied(entries, p).calls > 0
  {
    var n := |entries| - 1;
    if k < n {
      SumCounts(entries[..n], p, k);
    } else {
      AddCounts(Tallied(entries[..n], p), entries[n]);
    }
  }

  /** The days and the undated records make up the totals. */
  lemma DaysConserve(entries: seq<Cdr>, now: Option<Stamp>, budget: int, r: Report)
    requires IsReport(entries, now, budget, r)
    ensures Add(DaysTotal(r.days), Tallied(entries, Undated())) == r.totals
    ensures DaysTotal(r.days).calls + r.undated == r.totals.calls
    ensures DaysTotal(r.days) == Tallied(entries, Dated())
  {
    var keys := DayKeys(r.days);
    assert forall i :: 0 <= i < |r.days| ==> r.days[i] in r.days;
    DaysDiffer(entries, r.days);
    DaysAreParts(entries, r.days);
    PartsAddUp(entries, OnDay, keys);
    forall k | 0 <= k < |entries| ensures AnyOf(OnDay, keys)(entries[k]) == Dated()(entries[k]) {
      if entries[k].start.Some? {
        DayIsListed(entries, r, k);
        var i :| 0 <= i < |r.days| && r.days[i].date.day == entries[k].start.value.day;
        assert OnDay(keys[i])(entries[k]);
      }
    }
    SumAgree(entries, AnyOf(OnDay, keys), Dated());
    SumUnion(entries, Dated(), Undated(), Everything());
  }

  /** The hour ladder carries exactly the calls and the talk of the days. */
  lemma HoursConserve(entries: seq<Cdr>, now: Option<Stamp>, budget: int, r: Report)
    requires IsReport(entries, now, budget, r)
    ensures HoursTotal(r.hours) == (DaysTotal(r.days).calls, DaysTotal(r.days).talk)
  {
    DaysConserve(entries, now, budget, r);
    HoursTotalIsDated(entries, r.hours, |r.hours|);
  }

  lemma HoursTotalIsDated(entries: seq<Cdr>, hours: seq<Hour>, n: nat)
    requires IsHours(entries, hours) && n == |hours|
    ensures HoursTotal(hours) == CallsAndTalk(Tallied(entries, Dated()))
  {
    HoursAreParts(entries, hours, n);
    assert hours[..n] == hours;
    HoursCoverDated(entries, Ladder(n));
  }

  lemma HoursCoverDated(entries: seq<Cdr>, keys: seq<int>)
    requires |keys| == HOURS_IN_DAY && forall i :: 0 <= i < |keys| ==> keys[i] == i
    ensures PartsSum(entries, AtHour, keys) == Tallied(entries, Dated())
  {
    PartsAddUp(entries, AtHour, keys);
    forall k | 0 <= k < |entries| ensures AnyOf(AtHour, keys)(entries[k]) == Dated()(entries[k]) {
      HourOf(entries[k], keys);
    }
    SumAgree(entries, AnyOf(AtHour, keys), Dated());
  }

  /** A dated record falls into one of the hours, an undated one into none. */
  lemma HourOf(c: Cdr, keys: seq<int>)
    requires |keys| == HOURS_IN_DAY && forall i :: 0 <= i < |keys| ==> keys[i] == i
    ensures AnyOf(AtHour, keys)(c) == Dated()(c)
  {
    if c.start.Some? {
      var h := c.start.value.minute / 60;
      assert 0 <= h < HOURS_IN_DAY && AtHour(keys[h])(c);
    }
  }

  /** The contacts carry exactly the records that name a remote party. */
  lemma ContactsConserve(entries: seq<Cdr>, now: Option<Stamp>, budget: int, r: Report)
    requires IsReport(entries, now, budget, r)
    ensures ContactsTotal(r.contacts) == (Tallied(entries, Named()).calls, Tallied(entries, Named()).talk)
  {
    var keys := Numbers(r.contacts);
    assert forall i :: 0 <= i < |r.contacts| ==> r.contacts[i] in r.contacts;
    ContactsDiffer(entries, r.contacts);
    ContactsAreParts(entries, r.contacts);
    PartsAddUp(entries, With, keys);
    forall k | 0 <= k < |entries| ensures AnyOf(With, keys)(entries[k]) == Named()(entries[k]) {
      var n := RemoteOf(entries[k]);
      if n != "" {
        SumCounts(entries, With(n), k);
        var c := Contact(n, Tallied(entries, With(n)).calls, Tallied(entries, With(n)).talk);
        assert IsContact(entries, c);
        var i :| 0 <= i < |r.contacts| && r.contacts[i] == c;
        assert With(keys[i])(entries[k]);
      }
    }
    SumAgree(entries, AnyOf(With, keys), Named());
  }

  lemma ContactsDiffer(entries: seq<Cdr>, contacts: seq<Contact>)
    requires Ascending(contacts, Outranks) && forall i :: 0 <= i < |contacts| ==> IsContact(entries, contacts[i])
    ensures forall i, j :: 0 <= i < j < |contacts| ==> contacts[i].number != contacts[j].number
  {
    forall i, j | 0 <= i < j < |contacts| ensures contacts[i].number != contacts[j].number {
      assert IsContact(entries, contacts[i]) && IsContact(entries, contacts[j]) && Outranks(contacts[i], contacts[j]);
      OutranksIsStrict();
    }
  }

  function InWindow(monday: Option<int>): Day -> bool {
    (d: Day) => monday.Some? && monday.value <= d.date.day < monday.value + 7
  }

  /** The week is the part of the days inside its seven. */
  lemma WeekConserves(entries: seq<Cdr>, now: Option<Stamp>, budget: int, r: Report)
    requires IsReport(entries, now, budget, r)
    ensures var week := DaysTotal(Filter(r.days, InWindow(r.week.start)));
      r.week.calls == week.calls && r.week.talk == week.talk
  {
    var window := InWindow(r.week.start);
    var days := Filter(r.days, window);
    var keys := DayKeys(days);
    FilterMembers(r.days, window);
    assert forall i :: 0 <= i < |days| ==> days[i] in days;
    assert forall i :: 0 <= i < |r.days| ==> r.days[i] in r.days;
    DaysDiffer(entries, r.days);
    FilterKeepsOrder(r.days, window);
    DaysAreParts(entries, days);
    PartsAddUp(entries, OnDay, keys);
    forall k | 0 <= k < |entries| ensures AnyOf(OnDay, keys)(entries[k]) == InWeek(r.week.start)(entries[k]) {
      WeekOf(entries, r, days, k);
    }
    SumAgree(entries, AnyOf(OnDay, keys), InWeek(r.week.start));
  }

  /** A record is in the week when its day is one of the week's listed days. */
  lemma WeekOf(entries: seq<Cdr>, r: Report, days: seq<Day>, k: nat)
    requires (forall d :: d in r.days <==> IsDay(entries, d)) && k < |entries|
    requires forall d :: d in days <==> d in r.days && InWindow(r.week.start)(d)
    ensures AnyOf(OnDay, DayKeys(days))(entries[k]) == InWeek(r.week.start)(entries[k])
  {
    var c, keys := entries[k], DayKeys(days);
    if InWeek(r.week.start)(c) {
      DayIsListed(entries, r, k);
      var j :| 0 <= j < |r.days| && r.days[j].date.day == c.start.value.day;
      assert r.days[j] in r.days && r.days[j] in days;
      var i :| 0 <= i < |days| && days[i] == r.days[j];
      assert OnDay(keys[i])(c);
    }
    if i :| 0 <= i < |keys| && OnDay(keys[i])(c) {
      assert days[i] in days;
    }
  }

  lemma {:induction false} FilterKeepsOrder(days: seq<Day>, p: Day -> bool)
    requires forall i, j :: 0 <= i < j < |days| ==> days[i].date.day < days[j].date.day
    ensures forall i, j :: 0 <= i < j < |Filter(days, p)| ==> Filter(days, p)[i].date.day < Filter(days, p)[j].date.day
  {
    if days != [] {
      var rest := days[..|days| - 1];
      FilterKeepsOrder(rest, p);
      FilterMembers(rest, p);
      var kept := Filter(rest, p);
      forall i | 0 <= i < |kept| ensures kept[i].date.day < days[|days| - 1].date.day {
        assert kept[i] in kept;
        var k :| 0 <= k < |rest| && rest[k] == kept[i];
        assert days[k] == kept[i];
      }
    }
  }

  /** In every part: a call came in or went out, and was at most one of answered
      and missed; only what came in can be missed. */
  lemma {:induction false} TalliesBalance(entries: seq<Cdr>, p: Cdr -> bool)
    ensures var t := Tallied(entries, p);
      t.inbound + t.outbound == t.calls && t.answered + t.missed <= t.calls && t.missed <= t.inbound
  {
    if entries != [] {
      TalliesBalance(entries[..|entries| - 1], p);
      OneBalances(Tallied(entries[..|entries| - 1], p), entries[|entries| - 1]);
    }
  }

  lemma OneBalances(t: Tally, c: Cdr)
    requires t.inbound + t.outbound == t.calls && t.answered + t.missed <= t.calls && t.missed <= t.inbound
    ensures var u := Add(t, TallyOf(c));
      u.inbound + u.outbound == u.calls && u.answered + u.missed <= u.calls && u.missed <= u.inbound
  {
  }

  // ---- Order does not matter ----

  lemma {:induction false} SumConcat(a: seq<Cdr>, b: seq<Cdr>, p: Cdr -> bool)
    ensures Tallied(a + b, p) == Add(Tallied(a, p), Tallied(b, p))
  {
    if b == [] {
      assert a + b == a;
      AddZero(Tallied(a, p));
    } else {
      var rest, last := b[..|b| - 1], b[|b| - 1];
      SumConcat(a, rest, p);
      assert a + b == (a + rest) + [last];
      SumSnoc(a + rest, last, p);
      SumLast(b, p);
      AddRight(Tallied(a, p), Tallied(rest, p), TallyOf(last));
    }
  }

  /** Where a record stands does not matter to a sum. */
  lemma SumMoved(a: seq<Cdr>, c: Cdr, b: seq<Cdr>, p: Cdr -> bool)
    ensures Tallied(a + [c] + b, p) == Tallied(a + b + [c], p)
  {
    SumConcat(a + [c], b, p);
    SumSnoc(a, c, p);
    SumSnoc(a + b, c, p);
    SumConcat(a, b, p);
    AddLeft(Tallied(a, p), Tallied(b, p), TallyOf(c));
  }

  lemma OneRemoved(b: seq<Cdr>, i: nat)
    requires i < |b|
    ensures b == b[..i] + [b[i]] + b[i + 1..]
    ensures multiset(b) == multiset(b[..i] + b[i + 1..]) + multiset{b[i]}
  {
    assert b == b[..i] + [b[i]] + b[i + 1..];
    assert multiset(b) == multiset(b[..i]) + multiset{b[i]} + multiset(b[i + 1..]);
  }

  /** Where b keeps the last record of a. */
  lemma Match(a: seq<Cdr>, b: seq<Cdr>) returns (i: nat)
    requires multiset(a) == multiset(b) && a != []
    ensures i < |b| && b[i] == a[|a| - 1]
    ensures multiset(a[..|a| - 1]) == multiset(b[..i] + b[i + 1..])
  {
    var n := |a| - 1;
    assert a[n] in multiset(b);
    i :| 0 <= i < |b| && b[i] == a[n];
    OneRemoved(a, n);
    OneRemoved(b, i);
    assert a[..n] + a[n + 1..] == a[..n];
    assert multiset(a[..n]) == multiset(b) - multiset{b[i]};
  }

  lemma {:induction false} SumPermuted(a: seq<Cdr>, b: seq<Cdr>, p: Cdr -> bool)
    requires multiset(a) == multiset(b)
    ensures Tallied(a, p) == Tallied(b, p)
    decreases |a|
  {
    if a == [] {
      assert |multiset(b)| == 0;
    } else {
      var i := Match(a, b);
      SumPermuted(a[..|a| - 1], b[..i] + b[i + 1..], p);
      SumLast(a, p);
      SumMoved(b[..i], b[i], b[i + 1..], p);
      SumSnoc(b[..i] + b[i + 1..], b[i], p);
      OneRemoved(b, i);
    }
  }

  /** A day without its time of day. */
  function Blurred(d: Day): Day { d.(date := Stamp(d.date.day, 0)) }

  function BlurredDays(days: seq<Day>): (b: seq<Day>)
    ensures |b| == |days| && forall i :: 0 <= i < |b| ==> b[i] == Blurred(days[i])
  {
    seq(|days|, i requires 0 <= i < |days| => Blurred(days[i]))
  }

  lemma BlurredDayCarriesOver(a: seq<Cdr>, b: seq<Cdr>, d: Day)
    requires multiset(a) == multiset(b) && IsDay(a, d)
    ensures FirstOn(b, d.date.day).Some?
    ensures IsDay(b, Day(FirstOn(b, d.date.day).value, d.tally)) && FirstOn(b, d.date.day).value.day == d.date.day
  {
    SumPermuted(a, b, OnDay(d.date.day));
    FirstIsPresence(a, d.date.day);
    FirstIsPresence(b, d.date.day);
  }

  lemma DaysCarryOver(a: seq<Cdr>, b: seq<Cdr>, r: Report, s: Report, x: Day)
    requires multiset(a) == multiset(b)
    requires (forall d :: d in r.days <==> IsDay(a, d)) && (forall d :: d in s.days <==> IsDay(b, d))
    requires x in BlurredDays(r.days)
    ensures x in BlurredDays(s.days)
  {
    var i :| 0 <= i < |r.days| && Blurred(r.days[i]) == x;
    assert r.days[i] in r.days;
    BlurredDayCarriesOver(a, b, r.days[i]);
    var d := Day(FirstOn(b, x.date.day).value, x.tally);
    assert d in s.days;
    var j :| 0 <= j < |s.days| && s.days[j] == d;
    assert BlurredDays(s.days)[j] == x;
  }

  lemma BlurredAscend(entries: seq<Cdr>, days: seq<Day>)
    requires Ascending(days, EarlierDay) && forall d :: d in days <==> IsDay(entries, d)
    ensures Ascending(BlurredDays(days), EarlierDay)
  {
    assert forall i :: 0 <= i < |days| ==> days[i] in days;
    DaysDiffer(entries, days);
  }

  /** Permuting the records changes nothing in the report but the time of day in
      the days' dates, which comes from the first record seen. */
  lemma OrderDoesNotMatter(a: seq<Cdr>, b: seq<Cdr>, now: Option<Stamp>, budget: int, r: Report, s: Report)
    requires multiset(a) == multiset(b)
    requires IsReport(a, now, budget, r) && IsReport(b, now, budget, s)
    ensures r.(days := BlurredDays(r.days)) == s.(days := BlurredDays(s.days))
  {
    forall p ensures Tallied(a, p) == Tallied(b, p) { SumPermuted(a, b, p); }
    assert r.hours == s.hours;
    OutranksIsStrict();
    EarlierDayIsStrict();
    assert forall c :: IsContact(a, c) <==> IsContact(b, c);
    SortedIsUnique(Elements(r.contacts), Outranks, r.contacts, s.contacts);
    forall x ensures x in BlurredDays(r.days) <==> x in BlurredDays(s.days) {
      if x in BlurredDays(r.days) { DaysCarryOver(a, b, r, s, x); }
      if x in BlurredDays(s.days) { DaysCarryOver(b, a, s, r, x); }
    }
    BlurredAscend(a, r.days);
    BlurredAscend(b, s.days);
    SortedIsUnique(Elements(BlurredDays(r.days)), EarlierDay, BlurredDays(r.days), BlurredDays(s.days));
  }

  /** The same records in the same order give the same report, to the minute. */
  lemma ReportIsDetermined(entries: seq<Cdr>, now: Option<Stamp>, budget: int, r: Report, s: Report)
    requires IsReport(entries, now, budget, r) && IsReport(entries, now, budget, s)
    ensures r == s
  {
    OrderDoesNotMatter(entries, entries, now, budget, r, s);
    EarlierDayIsStrict();
    SortedIsUnique(Elements(r.days), EarlierDay, r.days, s.days);
  }
}
