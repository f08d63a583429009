/** The report read off the records themselves: what each number counts, which
    days and contacts are listed, and in which order. */
module ReportNumbers {
  import opened Collections
  import opened Ordering
  import opened Reports

  datatype Column = Calls | CameIn | WentOut | Answered | Missed

  predicate InColumn(column: Column, c: Cdr) {
    match column
    case Calls => true
    case CameIn => c.context == "public"
    case WentOut => c.context != "public"
    case Answered => c.billsec > 0
    case Missed => c.context == "public" && c.billsec <= 0
  }

  /** How many of the chosen records belong in a column. */
  function Records(entries: seq<Cdr>, chosen: Cdr -> bool, column: Column): nat {
    if entries == [] then 0
    else
      var last := entries[|entries| - 1];
      Records(entries[..|entries| - 1], chosen, column) + if chosen(last) && InColumn(column, last) then 1 else 0
  }

  /** Nanoseconds talked in the chosen records. */
  function Talked(entries: seq<Cdr>, chosen: Cdr -> bool): nat {
    if entries == [] then 0
    else
      var last := entries[|entries| - 1];
      Talked(entries[..|entries| - 1], chosen) + if chosen(last) && last.billsec > 0 then 1_000_000_000 * last.billsec else 0
  }

  ghost predicate Shows(t: Tally, entries: seq<Cdr>, chosen: Cdr -> bool) {
    t == Tally(Records(entries, chosen, Calls), Records(entries, chosen, CameIn), Records(entries, chosen, WentOut),
               Records(entries, chosen, Answered), Records(entries, chosen, Missed), Talked(entries, chosen))
  }

  lemma {:induction false} TalliedShows(entries: seq<Cdr>, p: Cdr -> bool, chosen: Cdr -> bool)
    requires forall c :: p(c) == chosen(c)
    ensures Shows(Tallied(entries, p), entries, chosen)
  {
    if entries != [] {
      TalliedShows(entries[..|entries| - 1], p, chosen);
      assert p(entries[|entries| - 1]) == chosen(entries[|entries| - 1]);
    }
  }

  lemma {:induction false} AllRecords(entries: seq<Cdr>)
    ensures Records(entries, All(), Calls) == |entries|
  {
    if entries != [] { AllRecords(entries[..|entries| - 1]); }
  }

  // ---- The choices ----

  function All(): Cdr -> bool { (c: Cdr) => true }

  function Unparsed(): Cdr -> bool { (c: Cdr) => c.start.None? }

  /** Days first up to, and not, last. */
  function OfDays(first: int, last: int): Cdr -> bool {
    (c: Cdr) => c.start.Some? && first <= c.start.value.day < last
  }

  function OfHour(hour: int): Cdr -> bool {
    (c: Cdr) => c.start.Some? && 60 * hour <= c.start.value.minute < 60 * hour + 60
  }

  function OfNumber(number: string): Cdr -> bool {
    (c: Cdr) => (c.context == "public" && c.callerId == number) || (c.context != "public" && c.destination == number)
  }

  // ---- The parts ----

  lemma TotalNumbers(entries: seq<Cdr>, now: Option<Stamp>, budget: int, r: Report)
    requires IsReport(entries, now, budget, r)
    ensures Shows(r.totals, entries, All()) && r.totals.calls == |entries|
    ensures r.undated == Records(entries, Unparsed(), Calls)
  {
    TalliedShows(entries, Everything(), All());
    TalliedShows(entries, Undated(), Unparsed());
    AllRecords(entries);
  }

  /** The week starts on a Monday, holds the clock's day, and counts exactly the
      dated records of its seven days; without a clock it is empty. */
  lemma WeekNumbers(entries: seq<Cdr>, now: Option<Stamp>, budget: int, r: Report)
    requires IsReport(entries, now, budget, r)
    ensures r.week.budget == budget && (r.week.start.Some? <==> now.Some?)
    ensures now.Some? ==>
      var monday := r.week.start.value;
      && monday % 7 == 4 && monday <= now.value.day < monday + 7
      && r.week.calls == Records(entries, OfDays(monday, monday + 7), Calls)
      && r.week.talk == Talked(entries, OfDays(monday, monday + 7))
    ensures now.None? ==> r.week.calls == 0 && r.week.talk == 0
  {
    if now.Some? {
      var monday := WeekStartOf(now.value.day);
      WeekHoldsTheDay(now.value.day, monday);
      TalliedShows(entries, InWeek(Some(monday)), OfDays(monday, monday + 7));
    } else {
      NobodyTallied(entries, InWeek(None));
    }
  }

  lemma {:induction false} NobodyTallied(entries: seq<Cdr>, p: Cdr -> bool)
    requires forall c :: !p(c)
    ensures Tallied(entries, p) == ZERO
  {
    if entries != [] { NobodyTallied(entries[..|entries| - 1], p); }
  }

  /** Hour h counts the records that start in its sixty minutes. */
  lemma HourNumbers(entries: seq<Cdr>, now: Option<Stamp>, budget: int, r: Report, h: nat)
    requires IsReport(entries, now, budget, r) && h < 24
    ensures |r.hours| == 24
    ensures r.hours[h] == Hour(h, Records(entries, OfHour(h), Calls), Talked(entries, OfHour(h)))
  {
    TalliedShows(entries, AtHour(h), OfHour(h));
  }

  /** The first record that starts on a day. */
  ghost predicate Opens(entries: seq<Cdr>, date: Stamp) {
    exists i :: 0 <= i < |entries| && entries[i].start == Some(date)
      && forall j :: 0 <= j < i && entries[j].start.Some? ==> entries[j].start.value.day != date.day
  }

  lemma {:induction false} FirstOpens(entries: seq<Cdr>, date: Stamp)
    requires FirstOn(entries, date.day) == Some(date)
    ensures Opens(entries, date)
  {
    var n := |entries| - 1;
    if FirstOn(entries[..n], date.day).Some? {
      FirstOpens(entries[..n], date);
      var i :| 0 <= i < n && entries[..n][i].start == Some(date)
        && forall j :: 0 <= j < i && entries[..n][j].start.Some? ==> entries[..n][j].start.value.day != date.day;
      assert forall j :: 0 <= j <= i ==> entries[j] == entries[..n][j];
    } else {
      NoneBefore(entries[..n], date.day);
      assert forall j :: 0 <= j < n ==> entries[j] == entries[..n][j];
      assert entries[n].start == Some(date);
    }
  }

  lemma {:induction false} NoneBefore(entries: seq<Cdr>, day: int)
    requires FirstOn(entries, day).None?
    ensures forall j :: 0 <= j < |entries| && entries[j].start.Some? ==> entries[j].start.value.day != day
  {
    if entries != [] {
      NoneBefore(entries[..|entries| - 1], day);
      assert forall j :: 0 <= j < |entries| - 1 ==> entries[j] == entries[..|entries| - 1][j];
    }
  }

  /** The days listed are those on which a record starts, each once, oldest first,
      under the date of its first record and with the tally of all of them. */
  lemma DayNumbers(entries: seq<Cdr>, now: Option<Stamp>, budget: int, r: Report)
    requires IsReport(entries, now, budget, r)
    ensures forall i, j :: 0 <= i < j < |r.days| ==> r.days[i].date.day < r.days[j].date.day
    ensures forall i :: 0 <= i < |r.days| ==>
      var d := r.days[i]; Opens(entries, d.date) && Shows(d.tally, entries, OfDays(d.date.day, d.date.day + 1))
    ensures forall c :: c in entries && c.start.Some? ==>
      exists i :: 0 <= i < |r.days| && r.days[i].date.day == c.start.value.day
  {
    forall i | 0 <= i < |r.days|
      ensures Opens(entries, r.days[i].date)
      ensures Shows(r.days[i].tally, entries, OfDays(r.days[i].date.day, r.days[i].date.day + 1))
    {
      var d := r.days[i];
      assert d in r.days && IsDay(entries, d);
      FirstOpens(entries, d.date);
      TalliedShows(entries, OnDay(d.date.day), OfDays(d.date.day, d.date.day + 1));
    }
    forall i, j | 0 <= i < j < |r.days| ensures r.days[i].date.day < r.days[j].date.day {
      assert r.days[i] in r.days && r.days[j] in r.days && EarlierDay(r.days[i], r.days[j]);
      assert IsDay(entries, r.days[i]) && IsDay(entries, r.days[j]);
    }
    forall c | c in entries && c.start.Some?
      ensures exists i :: 0 <= i < |r.days| && r.days[i].date.day == c.start.value.day
    {
      DayIsListed(entries, r, c);
    }
  }

  lemma DayIsListed(entries: seq<Cdr>, r: Report, c: Cdr)
    requires c in entries && c.start.Some? && forall d :: d in r.days <==> IsDay(entries, d)
    ensures exists i :: 0 <= i < |r.days| && r.days[i].date.day == c.start.value.day
  {
    var day := c.start.value.day;
    if FirstOn(entries, day).None? {
      NoneBefore(entries, day);
      assert false;
    } else {
      FirstIsPresence(entries, day);
      var d := Day(FirstOn(entries, day).value, Tallied(entries, OnDay(day)));
      assert IsDay(entries, d);
      var i :| 0 <= i < |r.days| && r.days[i] == d;
    }
  }

  /** A text before another: at the first place they differ it ends or has the
      smaller character. */
  predicate Sooner(a: string, b: string) {
    exists k :: 0 <= k <= |a| && k < |b| && a[..k] == b[..k] && (k == |a| || a[k] < b[k])
  }

  lemma {:induction false} LessIsSooner(a: string, b: string)
    requires StringLess(a, b)
    ensures Sooner(a, b)
  {
    if a == "" || a[0] < b[0] {
      assert a[..0] == b[..0];
    } else {
      LessIsSooner(a[1..], b[1..]);
      var k :| 0 <= k <= |a[1..]| && k < |b[1..]| && a[1..][..k] == b[1..][..k] && (k == |a[1..]| || a[1..][k] < b[1..][k]);
      assert a[..k + 1] == [a[0]] + a[1..][..k] && b[..k + 1] == [b[0]] + b[1..][..k];
    }
  }

  /** The contacts are the numbers other than the empty one that a record names as
      its other party, each once with its calls and talk, ranked by talk, then
      calls, then number. */
  lemma ContactNumbers(entries: seq<Cdr>, now: Option<Stamp>, budget: int, r: Report)
    requires IsReport(entries, now, budget, r)
    ensures forall i :: 0 <= i < |r.contacts| ==>
      var c := r.contacts[i];
      && c.number != "" && c.calls > 0
      && c == Contact(c.number, Records(entries, OfNumber(c.number), Calls), Talked(entries, OfNumber(c.number)))
    ensures forall n :: n != "" && Records(entries, OfNumber(n), Calls) > 0 ==>
      exists i :: 0 <= i < |r.contacts| && r.contacts[i].number == n
    ensures forall i, j :: 0 <= i < j < |r.contacts| ==> RanksBefore(r.contacts[i], r.contacts[j])
  {
    forall i | 0 <= i < |r.contacts|
      ensures var c := r.contacts[i];
        && c.number != "" && c.calls > 0
        && c == Contact(c.number, Records(entries, OfNumber(c.number), Calls), Talked(entries, OfNumber(c.number)))
    {
      assert r.contacts[i] in r.contacts && IsContact(entries, r.contacts[i]);
      TalliedShows(entries, With(r.contacts[i].number), OfNumber(r.contacts[i].number));
    }
    forall n | n != "" && Records(entries, OfNumber(n), Calls) > 0
      ensures exists i :: 0 <= i < |r.contacts| && r.contacts[i].number == n
    {
      TalliedShows(entries, With(n), OfNumber(n));
      var c := Contact(n, Tallied(entries, With(n)).calls, Tallied(entries, With(n)).talk);
      assert IsContact(entries, c);
      var i :| 0 <= i < |r.contacts| && r.contacts[i] == c;
    }
    forall i, j | 0 <= i < j < |r.contacts| ensures RanksBefore(r.contacts[i], r.contacts[j]) {
      assert Outranks(r.contacts[i], r.contacts[j]);
      if r.contacts[i].talk == r.contacts[j].talk && r.contacts[i].calls == r.contacts[j].calls {
        LessIsSooner(r.contacts[i].number, r.contacts[j].number);
      }
    }
  }

  predicate RanksBefore(a: Contact, b: Contact) {
    && a.talk >= b.talk
    && (a.talk == b.talk ==> a.calls >= b.calls)
    && (a.talk == b.talk && a.calls == b.calls ==> Sooner(a.number, b.number))
  }

  /** Hours are ranked by calls, then talk, then the clock. */
  lemma BusiestFirst(busy: seq<Hour>, i: nat, j: nat)
    requires Ascending(busy, Busier) && i < j < |busy|
    ensures busy[i].calls >= busy[j].calls
    ensures busy[i].calls == busy[j].calls ==> busy[i].talk >= busy[j].talk
    ensures busy[i].calls == busy[j].calls && busy[i].talk == busy[j].talk ==> busy[i].hour < busy[j].hour
  {
  }
}
