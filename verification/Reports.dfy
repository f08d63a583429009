/** The call report: one pass over call records in any order. Times are a day
    index and a minute of that day in the report's zone (day 0 is 1 January
    1970, a Thursday); talk time is nanoseconds. */
module Reports {
  import opened Collections
  import opened Ordering

  const HOURS_IN_DAY: nat := 24

  type Minute = m: int | 0 <= m < 1440

  datatype Stamp = Stamp(day: int, minute: Minute)

  /** A call record; a start that does not parse is none. */
  datatype Cdr = Cdr(context: string, callerId: string, destination: string, start: Option<Stamp>, billsec: int)

  datatype Tally = Tally(calls: nat, inbound: nat, outbound: nat, answered: nat, missed: nat, talk: nat)

  const ZERO := Tally(0, 0, 0, 0, 0, 0)

  datatype Day = Day(date: Stamp, tally: Tally)

  datatype Hour = Hour(hour: nat, calls: nat, talk: nat)

  datatype Contact = Contact(number: string, calls: nat, talk: nat)

  datatype Week = Week(start: Option<int>, calls: nat, talk: nat, budget: int)

  datatype Report = Report(
    totals: Tally, days: seq<Day>, hours: seq<Hour>, contacts: seq<Contact>, week: Week, undated: nat)

  // ---- One record ----

  predicate Inbound(c: Cdr) { c.context == "public" }

  function SecondsToDuration(seconds: int): nat {
    if seconds <= 0 then 0 else seconds * 1_000_000_000
  }

  /** The other party. */
  function RemoteOf(c: Cdr): string {
    if Inbound(c) then c.callerId else c.destination
  }

  /** Answered means talk time; missed means it came in without. An outbound call
      without talk time is neither. */
  function TallyOf(c: Cdr): Tally {
    Tally(1, if Inbound(c) then 1 else 0, if Inbound(c) then 0 else 1,
          if c.billsec > 0 then 1 else 0, if c.billsec <= 0 && Inbound(c) then 1 else 0,
          SecondsToDuration(c.billsec))
  }

  function Add(a: Tally, b: Tally): Tally {
    Tally(a.calls + b.calls, a.inbound + b.inbound, a.outbound + b.outbound,
          a.answered + b.answered, a.missed + b.missed, a.talk + b.talk)
  }

  /** Sunday is 0. */
  function Weekday(day: int): nat { (day + 4) % 7 }

  /** Monday of the week a day falls in. */
  function WeekStartOf(day: int): int { day - (Weekday(day) + 6) % 7 }

  /** The week is the one Monday-to-Monday window holding the day: day 4, the 5th
      of January 1970, is a Monday, and Mondays are seven days apart. */
  lemma WeekHoldsTheDay(day: int, monday: int)
    ensures WeekStartOf(day) % 7 == 4 && WeekStartOf(day) <= day < WeekStartOf(day) + 7
    ensures monday % 7 == 4 && monday <= day < monday + 7 ==> monday == WeekStartOf(day)
    ensures Weekday(monday) == 1 <==> monday % 7 == 4
  {
  }

  // ---- What is counted ----

  function Everything(): Cdr -> bool { (c: Cdr) => true }

  function Dated(): Cdr -> bool { (c: Cdr) => c.start.Some? }

  function Undated(): Cdr -> bool { (c: Cdr) => c.start.None? }

  function OnDay(day: int): Cdr -> bool { (c: Cdr) => c.start.Some? && c.start.value.day == day }

  function AtHour(hour: int): Cdr -> bool { (c: Cdr) => c.start.Some? && c.start.value.minute / 60 == hour }

  function With(number: string): Cdr -> bool { (c: Cdr) => RemoteOf(c) == number }

  function Named(): Cdr -> bool { (c: Cdr) => RemoteOf(c) != "" }

  function InWeek(monday: Option<int>): Cdr -> bool {
    (c: Cdr) => monday.Some? && c.start.Some? && monday.value <= c.start.value.day < monday.value + 7
  }

  function Tallied(entries: seq<Cdr>, p: Cdr -> bool): Tally {
    if entries == [] then ZERO
    else
      var last := entries[|entries| - 1];
      var rest := Tallied(entries[..|entries| - 1], p);
      if p(last) then Add(rest, TallyOf(last)) else rest
  }

  /** The start of the first record on a day. */
  function FirstOn(entries: seq<Cdr>, day: int): Option<Stamp> {
    if entries == [] then None
    else
      var before := FirstOn(entries[..|entries| - 1], day);
      var last := entries[|entries| - 1];
      if before.None? && OnDay(day)(last) then last.start else before
  }

  lemma SumSnoc(entries: seq<Cdr>, c: Cdr, p: Cdr -> bool)
    ensures Tallied(entries + [c], p) == if p(c) then Add(Tallied(entries, p), TallyOf(c)) else Tallied(entries, p)
  {
    assert (entries + [c])[..|entries + [c]| - 1] == entries;
  }

  lemma FirstSnoc(entries: seq<Cdr>, c: Cdr, day: int)
    ensures FirstOn(entries + [c], day) ==
      if FirstOn(entries, day).None? && OnDay(day)(c) then c.start else FirstOn(entries, day)
  {
    assert (entries + [c])[..|entries + [c]| - 1] == entries;
  }

  lemma {:induction false} FirstIsPresence(entries: seq<Cdr>, day: int)
    ensures FirstOn(entries, day).Some? <==> Tallied(entries, OnDay(day)).calls > 0
    ensures FirstOn(entries, day).Some? ==> FirstOn(entries, day).value.day == day
  {
    if entries != [] { FirstIsPresence(entries[..|entries| - 1], day); }
  }

  // ---- The report, stated ----

  predicate EarlierDay(a: Day, b: Day) {
    a.date.day < b.date.day || (a.date.day == b.date.day && a.date.minute < b.date.minute)
  }

  predicate StringLess(a: string, b: string) {
    if b == "" then false
    else if a == "" then true
    else a[0] < b[0] || (a[0] == b[0] && StringLess(a[1..], b[1..]))
  }

  /** Most talk time first, then most calls, then the number. */
  predicate Outranks(a: Contact, b: Contact) {
    || a.talk > b.talk
    || (a.talk == b.talk && (a.calls > b.calls || (a.calls == b.calls && StringLess(a.number, b.number))))
  }

  /** Most calls first, then most talk time, then the earlier hour. */
  predicate Busier(a: Hour, b: Hour) {
    || a.calls > b.calls
    || (a.calls == b.calls && (a.talk > b.talk || (a.talk == b.talk && a.hour < b.hour)))
  }

  ghost predicate IsDay(entries: seq<Cdr>, d: Day) {
    FirstOn(entries, d.date.day) == Some(d.date) && d.tally == Tallied(entries, OnDay(d.date.day))
  }

  ghost predicate IsContact(entries: seq<Cdr>, c: Contact) {
    && c.number != "" && c.calls > 0
    && c.calls == Tallied(entries, With(c.number)).calls && c.talk == Tallied(entries, With(c.number)).talk
  }

  ghost predicate IsHours(entries: seq<Cdr>, hours: seq<Hour>) {
    && |hours| == HOURS_IN_DAY
    && forall h :: 0 <= h < HOURS_IN_DAY ==> hours[h] == Hour(h, Tallied(entries, AtHour(h)).calls, Tallied(entries, AtHour(h)).talk)
  }

  /** The report on these records: what every part of it adds up, which days and
      contacts it lists, and in which order. */
  ghost predicate IsReport(entries: seq<Cdr>, now: Option<Stamp>, budget: int, r: Report) {
    && r.totals == Tallied(entries, Everything())
    && r.undated == Tallied(entries, Undated()).calls
    && IsHours(entries, r.hours)
    && Ascending(r.days, EarlierDay) && (forall d :: d in r.days <==> IsDay(entries, d))
    && Ascending(r.contacts, Outranks) && (forall c :: c in r.contacts <==> IsContact(entries, c))
    && var monday := if now.Some? then Some(WeekStartOf(now.value.day)) else None;
       r.week == Week(monday, Tallied(entries, InWeek(monday)).calls, Tallied(entries, InWeek(monday)).talk, budget)
  }

  // ---- The fold ----

  /** The accumulators between two records. */
  datatype Fold = Fold(
    totals: Tally, byDay: map<int, Day>, byContact: map<string, Contact>,
    hours: seq<Hour>, weekCalls: nat, weekTalk: nat, undated: nat)

  ghost predicate DayFolded(entries: seq<Cdr>, day: int, slot: Option<Day>) {
    && (slot.Some? <==> FirstOn(entries, day).Some?)
    && (slot.Some? ==> FirstOn(entries, day) == Some(slot.value.date) && slot.value.tally == Tallied(entries, OnDay(day)))
  }

  ghost predicate DaysFolded(entries: seq<Cdr>, byDay: map<int, Day>) {
    forall day :: DayFolded(entries, day, Slot(byDay, day))
  }

  ghost predicate ContactFolded(entries: seq<Cdr>, n: string, slot: Option<Contact>) {
    && (slot.Some? <==> n != "" && Tallied(entries, With(n)).calls > 0)
    && (slot.Some? ==> slot.value == Contact(n, Tallied(entries, With(n)).calls, Tallied(entries, With(n)).talk))
  }

  ghost predicate ContactsFolded(entries: seq<Cdr>, byContact: map<string, Contact>) {
    forall n :: ContactFolded(entries, n, Slot(byContact, n))
  }

  ghost predicate Folded(entries: seq<Cdr>, monday: Option<int>, f: Fold) {
    && f.totals == Tallied(entries, Everything())
    && f.undated == Tallied(entries, Undated()).calls
    && IsHours(entries, f.hours)
    && f.weekCalls == Tallied(entries, InWeek(monday)).calls && f.weekTalk == Tallied(entries, InWeek(monday)).talk
    && DaysFolded(entries, f.byDay)
    && ContactsFolded(entries, f.byContact)
  }

  lemma AddCounts(a: Tally, c: Cdr)
    ensures Add(a, TallyOf(c)).calls > 0
  {
  }

  lemma {:induction false} NoCallsNoTally(entries: seq<Cdr>, p: Cdr -> bool)
    ensures Tallied(entries, p).calls == 0 ==> Tallied(entries, p) == ZERO
  {
    if entries != [] {
      NoCallsNoTally(entries[..|entries| - 1], p);
      AddCounts(Tallied(entries[..|entries| - 1], p), entries[|entries| - 1]);
    }
  }

  /** A day's entry after one more record. */
  function DayAfter(slot: Option<Day>, c: Cdr): Day
    requires c.start.Some?
  {
    var was := if slot.Some? then slot.value else Day(c.start.value, ZERO);
    was.(tally := Add(was.tally, TallyOf(c)))
  }

  lemma DayStep(entries: seq<Cdr>, c: Cdr, day: int, slot: Option<Day>)
    requires DayFolded(entries, day, slot)
    ensures DayFolded(entries + [c], day, if OnDay(day)(c) then Some(DayAfter(slot, c)) else slot)
  {
    SumSnoc(entries, c, OnDay(day));
    FirstSnoc(entries, c, day);
    FirstIsPresence(entries, day);
    NoCallsNoTally(entries, OnDay(day));
  }

  lemma DaysStep(entries: seq<Cdr>, c: Cdr, byDay: map<int, Day>)
    requires DaysFolded(entries, byDay)
    ensures c.start.None? ==> DaysFolded(entries + [c], byDay)
    ensures c.start.Some? ==>
      DaysFolded(entries + [c], byDay[c.start.value.day := DayAfter(Slot(byDay, c.start.value.day), c)])
  {
    var byDay' := if c.start.None? then byDay else byDay[c.start.value.day := DayAfter(Slot(byDay, c.start.value.day), c)];
    forall day ensures DayFolded(entries + [c], day, Slot(byDay', day)) {
      assert DayFolded(entries, day, Slot(byDay, day));
      DayStep(entries, c, day, Slot(byDay, day));
    }
  }

  /** A contact's entry after one more record. */
  function ContactAfter(slot: Option<Contact>, c: Cdr): Contact {
    var was := if slot.Some? then slot.value else Contact(RemoteOf(c), 0, 0);
    was.(calls := was.calls + 1, talk := was.talk + SecondsToDuration(c.billsec))
  }

  lemma ContactStep(entries: seq<Cdr>, c: Cdr, n: string, slot: Option<Contact>)
    requires ContactFolded(entries, n, slot)
    ensures ContactFolded(entries + [c], n, if n != "" && With(n)(c) then Some(ContactAfter(slot, c)) else slot)
  {
    SumSnoc(entries, c, With(n));
    NoCallsNoTally(entries, With(n));
  }

  lemma ContactsStep(entries: seq<Cdr>, c: Cdr, byContact: map<string, Contact>)
    requires ContactsFolded(entries, byContact)
    ensures RemoteOf(c) == "" ==> ContactsFolded(entries + [c], byContact)
    ensures RemoteOf(c) != "" ==>
      ContactsFolded(entries + [c], byContact[RemoteOf(c) := ContactAfter(Slot(byContact, RemoteOf(c)), c)])
  {
    var r := RemoteOf(c);
    var byContact' := if r == "" then byContact else byContact[r := ContactAfter(Slot(byContact, r), c)];
    forall n ensures ContactFolded(entries + [c], n, Slot(byContact', n)) {
      assert ContactFolded(entries, n, Slot(byContact, n));
      ContactStep(entries, c, n, Slot(byContact, n));
    }
  }

  /** An hour's entry after one more record. */
  function HourAfter(hour: Hour, c: Cdr): Hour {
    hour.(calls := hour.calls + 1, talk := hour.talk + SecondsToDuration(c.billsec))
  }

  lemma HoursStep(entries: seq<Cdr>, c: Cdr, hours: seq<Hour>)
    requires IsHours(entries, hours)
    ensures c.start.None? ==> IsHours(entries + [c], hours)
    ensures c.start.Some? ==>
      var h := c.start.value.minute / 60;
      IsHours(entries + [c], hours[h := HourAfter(hours[h], c)])
  {
    forall h ensures Tallied(entries + [c], AtHour(h)) ==
      if AtHour(h)(c) then Add(Tallied(entries, AtHour(h)), TallyOf(c)) else Tallied(entries, AtHour(h))
    {
      SumSnoc(entries, c, AtHour(h));
    }
  }

  lemma EarlierDayIsStrict()
    ensures IsStrict(EarlierDay)
  {
  }

  /** Sorting the map's values gives the days the report must list. */
  lemma ListedDays(entries: seq<Cdr>, byDay: map<int, Day>, days: set<Day>)
    requires DaysFolded(entries, byDay) && days == (set day | day in byDay :: byDay[day])
    ensures Decides(days, EarlierDay)
    ensures forall d :: d in days <==> IsDay(entries, d)
  {
    forall day | day in byDay ensures byDay[day].date.day == day && IsDay(entries, byDay[day]) {
      assert DayFolded(entries, day, Slot(byDay, day));
      FirstIsPresence(entries, day);
    }
    forall d | IsDay(entries, d) ensures d in days {
      assert DayFolded(entries, d.date.day, Slot(byDay, d.date.day));
      assert d.date.day in byDay && byDay[d.date.day] == d;
    }
  }

  lemma ListedContacts(entries: seq<Cdr>, byContact: map<string, Contact>, contacts: set<Contact>)
    requires ContactsFolded(entries, byContact) && contacts == (set n | n in byContact :: byContact[n])
    ensures Decides(contacts, Outranks)
    ensures forall c :: c in contacts <==> IsContact(entries, c)
  {
    assert forall n :: n in byContact ==> ContactFolded(entries, n, Slot(byContact, n));
    forall c | IsContact(entries, c) ensures c in contacts {
      assert ContactFolded(entries, c.number, Slot(byContact, c.number));
      assert c.number in byContact && byContact[c.number] == c;
    }
    forall a, b | a in contacts && b in contacts && a != b ensures Outranks(a, b) || Outranks(b, a) {
      StringsCompare(a.number, b.number);
    }
  }

  lemma {:induction false} StringsCompare(a: string, b: string)
    ensures a == b || StringLess(a, b) || StringLess(b, a)
    ensures !(StringLess(a, b) && StringLess(b, a))
  {
    if a != "" && b != "" {
      StringsCompare(a[1..], b[1..]);
      assert a == [a[0]] + a[1..] && b == [b[0]] + b[1..];
    }
  }

  lemma {:induction false} StringsChain(a: string, b: string, c: string)
    ensures StringLess(a, b) && StringLess(b, c) ==> StringLess(a, c)
  {
    if a != "" && b != "" && c != "" { StringsChain(a[1..], b[1..], c[1..]); }
  }

  lemma OutranksIsStrict()
    ensures IsStrict(Outranks)
  {
    forall a: Contact, b: Contact ensures Outranks(a, b) ==> !Outranks(b, a) { StringsCompare(a.number, b.number); }
    forall a: Contact, b: Contact, c: Contact ensures Outranks(a, b) && Outranks(b, c) ==> Outranks(a, c) {
      StringsChain(a.number, b.number, c.number);
    }
  }

  lemma BusierIsStrict()
    ensures IsStrict(Busier)
  {
  }

  /** The loop's values as one fold step, record by record. */
  lemma FoldStep(entries: seq<Cdr>, monday: Option<int>, f: Fold, c: Cdr, f': Fold)
    requires Folded(entries, monday, f)
    requires f'.totals == Add(f.totals, TallyOf(c))
    requires f'.byContact == if RemoteOf(c) == "" then f.byContact
                             else f.byContact[RemoteOf(c) := ContactAfter(Slot(f.byContact, RemoteOf(c)), c)]
    requires c.start.None? ==> f'.undated == f.undated + 1 && f'.byDay == f.byDay && f'.hours == f.hours
    requires c.start.Some? ==>
      var day, h := c.start.value.day, c.start.value.minute / 60;
      && f'.undated == f.undated
      && f'.byDay == f.byDay[day := DayAfter(Slot(f.byDay, day), c)]
      && f'.hours == f.hours[h := HourAfter(f.hours[h], c)]
    requires InWeek(monday)(c) ==>
      f'.weekCalls == f.weekCalls + 1 && f'.weekTalk == f.weekTalk + SecondsToDuration(c.billsec)
    requires !InWeek(monday)(c) ==> f'.weekCalls == f.weekCalls && f'.weekTalk == f.weekTalk
    ensures Folded(entries + [c], monday, f')
  {
    SumSnoc(entries, c, Everything());
    SumSnoc(entries, c, Undated());
    SumSnoc(entries, c, InWeek(monday));
    DaysStep(entries, c, f.byDay);
    ContactsStep(entries, c, f.byContact);
    HoursStep(entries, c, f.hours);
  }

  lemma FoldStart(monday: Option<int>, hours: seq<Hour>)
    requires |hours| == HOURS_IN_DAY && forall h :: 0 <= h < HOURS_IN_DAY ==> hours[h] == Hour(h, 0, 0)
    ensures Folded([], monday, Fold(ZERO, map[], map[], hours, 0, 0, 0))
  {
  }

  /** One record into the totals. */
  method CountInto(totals: Tally, cdr: Cdr) returns (t: Tally)
    ensures t == Add(totals, TallyOf(cdr))
  {
    t := totals.(calls := totals.calls + 1, talk := totals.talk + SecondsToDuration(cdr.billsec));
    if Inbound(cdr) {
      t := t.(inbound := t.inbound + 1);
    } else {
      t := t.(outbound := t.outbound + 1);
    }
    if cdr.billsec > 0 {
      t := t.(answered := t.answered + 1);
    } else if Inbound(cdr) {
      t := t.(missed := t.missed + 1);
    }
  }

  /** One record into its contact; a record without remote names none. */
  method CountContact(byContact: map<string, Contact>, cdr: Cdr) returns (m: map<string, Contact>)
    ensures m == if RemoteOf(cdr) == "" then byContact
                 else byContact[RemoteOf(cdr) := ContactAfter(Slot(byContact, RemoteOf(cdr)), cdr)]
  {
    m := byContact;
    var remote := RemoteOf(cdr);
    if remote != "" {
      if remote !in m {
        m := m[remote := Contact(remote, 0, 0)];
      }
      var talk := SecondsToDuration(cdr.billsec);
      m := m[remote := m[remote].(calls := m[remote].calls + 1, talk := m[remote].talk + talk)];
    }
  }

  /** One dated record into its day. */
  method CountDay(byDay: map<int, Day>, cdr: Cdr) returns (m: map<int, Day>)
    requires cdr.start.Some?
    ensures var day := cdr.start.value.day; m == byDay[day := DayAfter(Slot(byDay, day), cdr)]
  {
    m := byDay;
    var started := cdr.start.value;
    if started.day !in m {
      m := m[started.day := Day(started, ZERO)];
    }
    var tally := CountInto(m[started.day].tally, cdr);
    m := m[started.day := m[started.day].(tally := tally)];
  }

  /** One dated record into its hour. */
  method CountHour(hours: array<Hour>, cdr: Cdr)
    requires hours.Length == HOURS_IN_DAY && cdr.start.Some?
    modifies hours
    ensures var h := cdr.start.value.minute / 60;
      hours[..] == old(hours[..])[h := HourAfter(old(hours[..])[h], cdr)]
  {
    var h := cdr.start.value.minute / 60;
    hours[h] := hours[h].(calls := hours[h].calls + 1, talk := hours[h].talk + SecondsToDuration(cdr.billsec));
  }

  /** The loop over the records. */
  method Collect(entries: seq<Cdr>, monday: Option<int>) returns (f: Fold)
    ensures Folded(entries, monday, f)
  {
    var hours := new Hour[HOURS_IN_DAY](h => if 0 <= h < HOURS_IN_DAY then Hour(h, 0, 0) else Hour(0, 0, 0));
    var totals, byDay, byContact := ZERO, map[], map[];
    var weekCalls: nat, weekTalk: nat, undated: nat := 0, 0, 0;
    FoldStart(monday, hours[..]);
    f := Fold(totals, byDay, byContact, hours[..], weekCalls, weekTalk, undated);
    var i := 0;
    while i < |entries|
      invariant 0 <= i <= |entries|
      invariant f == Fold(totals, byDay, byContact, hours[..], weekCalls, weekTalk, undated)
      invariant Folded(entries[..i], monday, f)
    {
      var cdr := entries[i];
      totals := CountInto(totals, cdr);
      byContact := CountContact(byContact, cdr);
      if cdr.start.None? {
        undated := undated + 1;
      } else {
        byDay := CountDay(byDay, cdr);
        CountHour(hours, cdr);
        if monday.Some? && monday.value <= cdr.start.value.day < monday.value + 7 {
          weekCalls, weekTalk := weekCalls + 1, weekTalk + SecondsToDuration(cdr.billsec);
        }
      }
      ghost var was := f;
      f := Fold(totals, byDay, byContact, hours[..], weekCalls, weekTalk, undated);
      FoldStep(entries[..i], monday, was, cdr, f);
      i := i + 1;
      assert entries[..i] == entries[..i - 1] + [cdr];
    }
    assert entries[..i] == entries;
  }

  /** Folds the call records into the report. */
  method Aggregate(entries: seq<Cdr>, now: Option<Stamp>, budget: int) returns (report: Report)
    ensures IsReport(entries, now, budget, report)
  {
    var monday := if now.Some? then Some(WeekStartOf(now.value.day)) else None;
    var f := Collect(entries, monday);
    var dayValues := set d | d in f.byDay :: f.byDay[d];
    ListedDays(entries, f.byDay, dayValues);
    EarlierDayIsStrict();
    var days := SortSet(dayValues, EarlierDay);
    var contactValues := set n | n in f.byContact :: f.byContact[n];
    ListedContacts(entries, f.byContact, contactValues);
    OutranksIsStrict();
    var contacts := SortSet(contactValues, Outranks);
    report := Report(f.totals, days, f.hours, contacts, Week(monday, f.weekCalls, f.weekTalk, budget), f.undated);
  }

  /** The hours with calls, busiest first. */
  method BusiestHours(hours: seq<Hour>) returns (busy: seq<Hour>)
    ensures Ascending(busy, Busier) && forall h :: h in busy <==> h in hours && h.calls > 0
  {
    BusierIsStrict();
    var withCalls := set h | h in hours && h.calls > 0;
    busy := SortSet(withCalls, Busier);
  }

  /** The best-ranked contacts, at most `limit` of them. */
  function TopContacts(contacts: seq<Contact>, limit: int): (top: seq<Contact>)
    ensures top <= contacts && (|top| == limit || |top| == |contacts| < limit || top == [])
    ensures Ascending(contacts, Outranks) ==>
      forall i, j :: 0 <= i < |top| <= j < |contacts| ==> Outranks(top[i], contacts[j])
    ensures limit > 0 && contacts != [] ==> top != []
  {
    if limit <= 0 || contacts == [] then []
    else if limit > |contacts| then contacts
    else contacts[..limit]
  }

  /** The largest daily talk time, 0 without days. */
  method MaxDayTalk(days: seq<Day>) returns (max: nat)
    ensures forall i :: 0 <= i < |days| ==> days[i].tally.talk <= max
    ensures max == 0 || exists i :: 0 <= i < |days| && days[i].tally.talk == max
  {
    max := 0;
    for i := 0 to |days|
      invariant forall k :: 0 <= k < i ==> days[k].tally.talk <= max
      invariant max == 0 || exists k :: 0 <= k < i && days[k].tally.talk == max
    {
      if days[i].tally.talk > max {
        max := days[i].tally.talk;
      }
    }
  }
}
