/** The dial-cooldown gate: one slot per (owner, remote) holding the second of
    the last allowed dial, one-shot overrides, and cap trimming after every
    write. Times are nanoseconds; slots store whole seconds.

    `AttemptStep` and `ArmStep` say what one call does to the two collections,
    `DialWindows` does it in place, and the lemmas speak about runs of calls
    with any faults and any tie-breaking in the trims. */
module DialWindows {
  import opened Clock
  import opened Collections
  import opened MetaEngine

  const MAX_PER_EXTENSION: nat := 500
  const GLOBAL_CEILING: nat := 100_000
  const MAX_SLOTS_PER_RESPONSE: nat := 50

  datatype Key = Key(owner: string, remote: string)

  datatype Override = Override(consumed: bool, at: int)

  datatype State = State(windows: map<Key, int>, overrides: map<Key, Override>)

  /** Which of the engine calls of one operation fails, if any. `Record` is the
      write an operation exists for, `Caps` the trim after it, with how many of the
      two collections' four caps it had enforced. */
  datatype Fault = NoFault | OverrideLoad | OverrideConsume | WindowLoad | Record | Caps(done: nat)

  /** Two caps on each of the two collections. */
  const CAPS: nat := 4

  /** How many caps the operation gets to. */
  function Reached(fault: Fault): nat { if fault.Caps? then fault.done else CAPS }

  datatype Verdict = Verdict(allowed: bool, stamp: int, err: bool)

  function OwnerOf(k: Key): string { k.owner }

  /** The single group of a collection-wide cap. */
  function Everyone(k: Key): string { "" }

  function WindowStamp(at: int): int { at }

  function OverrideStamp(o: Override): int { o.at }

  predicate Armed(s: State, key: Key) {
    key in s.overrides && !s.overrides[key].consumed
  }

  predicate InWindow(s: State, key: Key, cooldown: int, now: int) {
    key in s.windows && cooldown > 0 && now - s.windows[key] * SECOND < cooldown
  }

  // ---- One call ----

  /** Both caps enforced on one collection, in either order. */
  ghost predicate Trimmed<V(!new)>(m: map<Key, V>, m': map<Key, V>, stamp: V -> int) {
    exists mid ::
      || (KeepsNewest(m, mid, OwnerOf, stamp, MAX_PER_EXTENSION) && KeepsNewest(mid, m', Everyone, stamp, GLOBAL_CEILING))
      || (KeepsNewest(m, mid, Everyone, stamp, GLOBAL_CEILING) && KeepsNewest(mid, m', OwnerOf, stamp, MAX_PER_EXTENSION))
  }

  /** Neither cap, either one, or both. */
  ghost predicate PartlyTrimmed<V(!new)>(m: map<Key, V>, m': map<Key, V>, stamp: V -> int) {
    || m' == m || Trimmed(m, m', stamp)
    || KeepsNewest(m, m', OwnerOf, stamp, MAX_PER_EXTENSION)
    || KeepsNewest(m, m', Everyone, stamp, GLOBAL_CEILING)
  }

  /** `EnforceCaps` on both dial collections; a failed call may have enforced any
      of the four caps. */
  ghost predicate CapsStep(s: State, failed: bool, s': State) {
    if failed then
      PartlyTrimmed(s.windows, s'.windows, WindowStamp) && PartlyTrimmed(s.overrides, s'.overrides, OverrideStamp)
    else
      Trimmed(s.windows, s'.windows, WindowStamp) && Trimmed(s.overrides, s'.overrides, OverrideStamp)
  }

  function Recorded(s: State, key: Key, now: int): State {
    s.(windows := s.windows[key := now / SECOND])
  }

  ghost predicate RecordStep(s: State, key: Key, now: int, fault: Fault, s': State) {
    if fault.Record? then s' == s else CapsStep(Recorded(s, key, now), fault.Caps?, s')
  }

  function Spent(s: State, key: Key, now: int): State {
    s.(overrides := s.overrides[key := Override(true, now / SECOND)])
  }

  ghost predicate AttemptStep(s: State, key: Key, cooldown: int, now: int, fault: Fault, s': State, v: Verdict) {
    if fault.OverrideLoad? then
      s' == s && v == Verdict(false, now, true)
    else if Armed(s, key) then
      if fault.OverrideConsume? then s' == s && v == Verdict(false, now, true)
      else RecordStep(Spent(s, key, now), key, now, fault, s') && v == Verdict(true, now, fault.Record? || fault.Caps?)
    else if fault.WindowLoad? then
      s' == s && v == Verdict(false, now, true)
    else if InWindow(s, key, cooldown, now) then
      s' == s && v == Verdict(false, s.windows[key] * SECOND, false)
    else
      RecordStep(s, key, now, fault, s') && v == Verdict(true, now, fault.Record? || fault.Caps?)
  }

  ghost predicate ArmStep(s: State, key: Key, now: int, fault: Fault, s': State) {
    if fault.Record? then s' == s
    else CapsStep(s.(overrides := s.overrides[key := Override(false, now / SECOND)]), fault.Caps?, s')
  }

  /** One live cooldown window as the typeahead sees it. */
  datatype ActiveSlot = ActiveSlot(remote: string, lastAt: int, window: int)

  /** Go's truncating division of a duration by a second. */
  function WholeSeconds(d: int): int {
    if d >= 0 then d / SECOND else -((-d) / SECOND)
  }

  class DialWindows {
    var windows: map<Key, int>
    var overrides: map<Key, Override>

    function View(): State
      reads this
    {
      State(windows, overrides)
    }

    constructor ()
      ensures View() == State(map[], map[])
    {
      windows, overrides := map[], map[];
    }

    /** Enforces the first `done` of the four caps. */
    method EnforceCaps(done: nat)
      modifies this
      ensures CapsStep(old(View()), true, View())
      ensures done >= CAPS ==> CapsStep(old(View()), false, View())
    {
      if done >= 1 {
        windows := Trim(windows, OwnerOf, WindowStamp, MAX_PER_EXTENSION);
      }
      if done >= 2 {
        windows := Trim(windows, Everyone, WindowStamp, GLOBAL_CEILING);
        assert Trimmed(old(windows), windows, WindowStamp);
      }
      if done >= 3 {
        overrides := Trim(overrides, OwnerOf, OverrideStamp, MAX_PER_EXTENSION);
      }
      if done >= CAPS {
        overrides := Trim(overrides, Everyone, OverrideStamp, GLOBAL_CEILING);
        assert Trimmed(old(overrides), overrides, OverrideStamp);
      }
    }

    method RecordAttempt(key: Key, now: int, fault: Fault) returns (err: bool)
      modifies this
      ensures RecordStep(old(View()), key, now, fault, View())
      ensures err == (fault.Record? || fault.Caps?)
    {
      if fault.Record? {
        return true;
      }
      windows := windows[key := now / SECOND];
      EnforceCaps(Reached(fault));
      return fault.Caps?;
    }

    /** The check-and-record transaction of one dial. */
    method Attempt(owner: string, remote: string, cooldown: int, now: int, fault: Fault)
      returns (allowed: bool, stamp: int, err: bool)
      modifies this
      ensures AttemptStep(old(View()), Key(owner, remote), cooldown, now, fault, View(), Verdict(allowed, stamp, err))
    {
      var key := Key(owner, remote);
      if fault.OverrideLoad? {
        return false, now, true;
      }
      if key in overrides && !overrides[key].consumed {
        if fault.OverrideConsume? {
          return false, now, true;
        }
        overrides := overrides[key := Override(true, now / SECOND)];
        err := RecordAttempt(key, now, fault);
        return true, now, err;
      }
      if fault.WindowLoad? {
        return false, now, true;
      }
      if key in windows && cooldown > 0 && now - windows[key] * SECOND < cooldown {
        return false, windows[key] * SECOND, false;
      }
      err := RecordAttempt(key, now, fault);
      return true, now, err;
    }

    /** Arms the one-shot bypass. */
    method ArmOverride(owner: string, remote: string, now: int, fault: Fault) returns (err: bool)
      modifies this
      ensures ArmStep(old(View()), Key(owner, remote), now, fault, View())
      ensures err == (fault.Record? || fault.Caps?)
    {
      if fault.Record? {
        return true;
      }
      overrides := overrides[Key(owner, remote) := Override(false, now / SECOND)];
      EnforceCaps(Reached(fault));
      return fault.Caps?;
    }

    /** The owner's windows still running, newest first, from the newest fifty. */
    method Active(owner: string, cooldown: int, now: int) returns (slots: seq<ActiveSlot>)
      ensures IsActiveListing(View(), owner, cooldown, now, slots)
    {
      var keys := Scan(windows, OwnerOf, owner, WindowStamp, MAX_SLOTS_PER_RESPONSE);
      slots := [];
      var windowSecs := WholeSeconds(cooldown);
      var i := 0;
      while i < |keys|
        invariant 0 <= i <= |keys|
        invariant slots == LiveSlots(windows, keys[..i], cooldown, now)
      {
        assert keys[..i + 1][..i] == keys[..i];
        var last := windows[keys[i]];
        if now - last * SECOND < cooldown {
          slots := slots + [ActiveSlot(keys[i].remote, last, windowSecs)];
        }
        i := i + 1;
      }
      assert keys[..|keys|] == keys;
      ScanListsActive(View(), owner, keys, cooldown, now);
    }
  }

  ghost predicate IsLive(s: State, owner: string, cooldown: int, now: int, slot: ActiveSlot) {
    var key := Key(owner, slot.remote);
    && key in s.windows
    && now - s.windows[key] * SECOND < cooldown
    && slot == ActiveSlot(slot.remote, s.windows[key], WholeSeconds(cooldown))
  }

  /** Fewer than fifty other slots of the owner are as new. */
  ghost predicate AmongNewest(s: State, key: Key) {
    key in s.windows && |NoOlder(s.windows, OwnerOf, WindowStamp, key)| < 50
  }

  ghost predicate Lists(slots: seq<ActiveSlot>, remote: string) {
    exists i :: 0 <= i < |slots| && slots[i].remote == remote
  }

  /** At most fifty live windows of the owner, newest first and each once; a live
      window among the owner's newest fifty is never missing. */
  ghost predicate IsActiveListing(s: State, owner: string, cooldown: int, now: int, slots: seq<ActiveSlot>) {
    && |slots| <= MAX_SLOTS_PER_RESPONSE
    && (forall i :: 0 <= i < |slots| ==> IsLive(s, owner, cooldown, now, slots[i]))
    && (forall i, j :: 0 <= i < j < |slots| ==> slots[i].lastAt >= slots[j].lastAt && slots[i].remote != slots[j].remote)
    && (forall remote :: AmongNewest(s, Key(owner, remote)) && now - s.windows[Key(owner, remote)] * SECOND < cooldown ==>
          Lists(slots, remote))
  }

  /** The scanned slots still inside their window, in scan order. */
  function LiveSlots(windows: map<Key, int>, keys: seq<Key>, cooldown: int, now: int): seq<ActiveSlot>
    requires forall i :: 0 <= i < |keys| ==> keys[i] in windows
  {
    if keys == [] then []
    else
      var last := keys[|keys| - 1];
      LiveSlots(windows, keys[..|keys| - 1], cooldown, now)
      + if now - windows[last] * SECOND < cooldown then [ActiveSlot(last.remote, windows[last], WholeSeconds(cooldown))] else []
  }

  lemma {:induction false} LiveSlotsSound(s: State, owner: string, keys: seq<Key>, cooldown: int, now: int)
    requires Distinct(keys) && forall i :: 0 <= i < |keys| ==> keys[i] in s.windows && keys[i].owner == owner
    requires forall i, j :: 0 <= i < j < |keys| ==> s.windows[keys[i]] >= s.windows[keys[j]]
    ensures var slots := LiveSlots(s.windows, keys, cooldown, now);
      && |slots| <= |keys|
      && (forall i :: 0 <= i < |slots| ==> IsLive(s, owner, cooldown, now, slots[i]) && Key(owner, slots[i].remote) in keys)
      && (forall i, j :: 0 <= i < j < |slots| ==> slots[i].lastAt >= slots[j].lastAt && slots[i].remote != slots[j].remote)
  {
    if keys != [] {
      var rest, last := keys[..|keys| - 1], keys[|keys| - 1];
      LiveSlotsSound(s, owner, rest, cooldown, now);
      forall i | 0 <= i < |LiveSlots(s.windows, rest, cooldown, now)|
        ensures s.windows[Key(owner, LiveSlots(s.windows, rest, cooldown, now)[i].remote)] >= s.windows[last]
        ensures LiveSlots(s.windows, rest, cooldown, now)[i].remote != last.remote
      {
        var k :| 0 <= k < |rest| && rest[k] == Key(owner, LiveSlots(s.windows, rest, cooldown, now)[i].remote);
        assert keys[k] == rest[k];
      }
    }
  }

  lemma {:induction false} LiveSlotsComplete(windows: map<Key, int>, keys: seq<Key>, cooldown: int, now: int, key: Key)
    requires forall i :: 0 <= i < |keys| ==> keys[i] in windows
    requires key in keys && now - windows[key] * SECOND < cooldown
    ensures Lists(LiveSlots(windows, keys, cooldown, now), key.remote)
  {
    var slots := LiveSlots(windows, keys, cooldown, now);
    var rest := keys[..|keys| - 1];
    if keys[|keys| - 1] == key {
      assert slots[|slots| - 1].remote == key.remote;
    } else {
      LiveSlotsComplete(windows, rest, cooldown, now, key);
      var j :| 0 <= j < |LiveSlots(windows, rest, cooldown, now)| && LiveSlots(windows, rest, cooldown, now)[j].remote == key.remote;
      assert slots[j].remote == key.remote;
    }
  }

  lemma ScanListsActive(s: State, owner: string, keys: seq<Key>, cooldown: int, now: int)
    requires IsScan(s.windows, OwnerOf, owner, WindowStamp, MAX_SLOTS_PER_RESPONSE, keys)
    ensures IsActiveListing(s, owner, cooldown, now, LiveSlots(s.windows, keys, cooldown, now))
  {
    forall i, j | 0 <= i < j < |keys| ensures s.windows[keys[i]] >= s.windows[keys[j]] {
      assert WindowStamp(s.windows[keys[i]]) >= WindowStamp(s.windows[keys[j]]);
    }
    LiveSlotsSound(s, owner, keys, cooldown, now);
    forall remote | AmongNewest(s, Key(owner, remote)) && now - s.windows[Key(owner, remote)] * SECOND < cooldown
      ensures Lists(LiveSlots(s.windows, keys, cooldown, now), remote)
    {
      ScanFinds(s.windows, OwnerOf, WindowStamp, MAX_SLOTS_PER_RESPONSE, keys, Key(owner, remote));
      LiveSlotsComplete(s.windows, keys, cooldown, now, Key(owner, remote));
    }
  }

  /** The typeahead's decoration and the gate agree: for a positive cooldown and
      a slot among the owner's newest fifty, the listing names the remote exactly
      when a fault-free attempt at that instant, with no armed override, is
      denied. */
  lemma ListedIffDenied(s: State, owner: string, remote: string, cooldown: int, now: int, slots: seq<ActiveSlot>, s': State, v: Verdict)
    requires cooldown > 0 && AmongNewest(s, Key(owner, remote)) && !Armed(s, Key(owner, remote))
    requires AttemptStep(s, Key(owner, remote), cooldown, now, NoFault, s', v)
    requires IsActiveListing(s, owner, cooldown, now, slots)
    ensures Lists(slots, remote) <==> !v.allowed
  {
    if Lists(slots, remote) {
      var i :| 0 <= i < |slots| && slots[i].remote == remote;
      assert IsLive(s, owner, cooldown, now, slots[i]);
    }
  }

  // ---- Runs ----

  /** The caps also run on behalf of the other collections of the same engine. */
  datatype Event =
    | Attempted(key: Key, cooldown: int, now: int, fault: Fault, verdict: Verdict)
    | OverrideArmed(key: Key, now: int, fault: Fault)
    | CapsRan(now: int, failed: bool)

  ghost predicate Next(s: State, e: Event, s': State) {
    match e
    case Attempted(key, cooldown, now, fault, v) => AttemptStep(s, key, cooldown, now, fault, s', v)
    case OverrideArmed(key, now, fault) => ArmStep(s, key, now, fault, s')
    case CapsRan(now, failed) => CapsStep(s, failed, s')
  }

  ghost predicate IsRun(states: seq<State>, events: seq<Event>) {
    && |states| == |events| + 1
    && forall i :: 0 <= i < |events| ==> Next(states[i], events[i], states[i + 1])
  }

  ghost predicate ClockNeverBack(events: seq<Event>) {
    forall i, j :: 0 <= i < j < |events| ==> events[i].now <= events[j].now
  }

  /** A dial the caller was told to make. */
  predicate Granted(e: Event) {
    e.Attempted? && e.verdict.allowed && !e.verdict.err
  }

  predicate Spends(s: State, e: Event) {
    e.Attempted? && Armed(s, e.key) && !e.fault.OverrideLoad? && !e.fault.OverrideConsume?
  }

  predicate Arms(e: Event, key: Key) {
    e.OverrideArmed? && e.key == key && !e.fault.Record?
  }

  /** The windows after an event's own write, before the caps are enforced. */
  function BeforeTrim(s: State, e: Event): map<Key, int> {
    if e.Attempted? && e.verdict.allowed && !e.fault.Record? then s.windows[e.key := e.now / SECOND] else s.windows
  }

  /** At least 500 other rows of the owner, or 100,000 others in all, stamped in
      the same second or later. */
  ghost predicate Crowded<V(!new)>(m: map<Key, V>, stamp: V -> int, key: Key) {
    && key in m
    && (|NoOlder(m, OwnerOf, stamp, key)| >= 500 || |NoOlder(m, Everyone, stamp, key)| >= 100_000)
  }

  ghost predicate Evicts(s: State, e: Event, s': State, key: Key) {
    key !in s'.windows && Crowded(BeforeTrim(s, e), WindowStamp, key)
  }

  lemma BothCapsCrowd<V(!new)>(m: map<Key, V>, m': map<Key, V>, stamp: V -> int, key: Key)
    requires Trimmed(m, m', stamp) && key in m
    ensures SubMap(m', m)
    ensures key !in m' ==> Crowded(m, stamp, key)
  {
    var mid :|
      || (KeepsNewest(m, mid, OwnerOf, stamp, MAX_PER_EXTENSION) && KeepsNewest(mid, m', Everyone, stamp, GLOBAL_CEILING))
      || (KeepsNewest(m, mid, Everyone, stamp, GLOBAL_CEILING) && KeepsNewest(mid, m', OwnerOf, stamp, MAX_PER_EXTENSION));
    var ownersFirst :=
      KeepsNewest(m, mid, OwnerOf, stamp, MAX_PER_EXTENSION) && KeepsNewest(mid, m', Everyone, stamp, GLOBAL_CEILING);
    if key !in mid {
      if ownersFirst { CrowdedOut(m, mid, OwnerOf, stamp, MAX_PER_EXTENSION, key); }
      else { CrowdedOut(m, mid, Everyone, stamp, GLOBAL_CEILING, key); }
    } else if key !in m' {
      if ownersFirst {
        CrowdedOut(mid, m', Everyone, stamp, GLOBAL_CEILING, key);
        SubsetSize(NoOlder(mid, Everyone, stamp, key), NoOlder(m, Everyone, stamp, key));
      } else {
        CrowdedOut(mid, m', OwnerOf, stamp, MAX_PER_EXTENSION, key);
        SubsetSize(NoOlder(mid, OwnerOf, stamp, key), NoOlder(m, OwnerOf, stamp, key));
      }
    }
  }

  /** The sizes that the caps speak of, in a map and in a part of it. */
  lemma PartSizes<V(!new)>(m: map<Key, V>, m': map<Key, V>, owner: string)
    requires SubMap(m', m)
    ensures |set k | k in m' && k.owner == owner| <= |Members(m, OwnerOf, owner)|
    ensures |m'| <= |Members(m, Everyone, "")|
  {
    var mine := set k | k in m' && k.owner == owner;
    SubsetSize(mine, Members(m, OwnerOf, owner));
    SubsetSize(m'.Keys, Members(m, Everyone, ""));
  }

  /** Trimming bounds every owner and the whole collection. */
  lemma TrimmedFits<V(!new)>(m: map<Key, V>, m': map<Key, V>, stamp: V -> int, owner: string)
    requires Trimmed(m, m', stamp)
    ensures |set k | k in m' && k.owner == owner| <= 500 && |m'| <= 100_000
  {
    var mid :|
      || (KeepsNewest(m, mid, OwnerOf, stamp, MAX_PER_EXTENSION) && KeepsNewest(mid, m', Everyone, stamp, GLOBAL_CEILING))
      || (KeepsNewest(m, mid, Everyone, stamp, GLOBAL_CEILING) && KeepsNewest(mid, m', OwnerOf, stamp, MAX_PER_EXTENSION));
    PartSizes(mid, m', owner);
    PartSizes(m', m', owner);
  }

  lemma TrimmedOutIsCrowded<V(!new)>(m: map<Key, V>, m': map<Key, V>, stamp: V -> int, key: Key)
    requires PartlyTrimmed(m, m', stamp) && key in m
    ensures SubMap(m', m)
    ensures key !in m' ==> Crowded(m, stamp, key)
  {
    if Trimmed(m, m', stamp) {
      BothCapsCrowd(m, m', stamp, key);
    } else if key !in m' {
      if KeepsNewest(m, m', OwnerOf, stamp, MAX_PER_EXTENSION) {
        CrowdedOut(m, m', OwnerOf, stamp, MAX_PER_EXTENSION, key);
      } else {
        CrowdedOut(m, m', Everyone, stamp, GLOBAL_CEILING, key);
      }
    }
  }

  /** One event rewrites at most its own slot; any slot it loses was crowded. */
  lemma EventOnSlot(s: State, e: Event, s': State, key: Key)
    requires Next(s, e, s') && key in BeforeTrim(s, e)
    ensures key in s'.windows ==> s'.windows[key] == BeforeTrim(s, e)[key]
    ensures key !in s'.windows ==> Evicts(s, e, s', key)
  {
    if s'.windows != BeforeTrim(s, e) {
      assert PartlyTrimmed(BeforeTrim(s, e), s'.windows, WindowStamp);
      TrimmedOutIsCrowded(BeforeTrim(s, e), s'.windows, WindowStamp, key);
    }
  }

  /** Some event in between lost the slot to the caps, and it was crowded. */
  ghost predicate EvictedBetween(states: seq<State>, events: seq<Event>, i: nat, j: nat, key: Key)
    requires j <= |events| && |states| == |events| + 1
  {
    exists m :: i <= m < j && Evicts(states[m], events[m], states[m + 1], key)
  }

  /** The slot's second is there and not older than this one. */
  predicate SlotSince(s: State, key: Key, second: int) { key in s.windows && s.windows[key] >= second }

  lemma SlotStays(s: State, e: Event, s': State, key: Key, second: int)
    requires Next(s, e, s') && SlotSince(s, key, second) && e.now / SECOND >= second
    ensures Evicts(s, e, s', key) || SlotSince(s', key, second)
  {
    EventOnSlot(s, e, s', key);
  }

  lemma SlotWritten(s: State, e: Event, s': State)
    requires Next(s, e, s') && Granted(e)
    ensures Evicts(s, e, s', e.key) || SlotSince(s', e.key, e.now / SECOND)
  {
    EventOnSlot(s, e, s', e.key);
  }

  lemma EvictedSooner(states: seq<State>, events: seq<Event>, i: nat, m: nat, j: nat, key: Key)
    requires m <= j <= |events| && |states| == |events| + 1 && EvictedBetween(states, events, i, m, key)
    ensures EvictedBetween(states, events, i, j, key)
  {
  }

  lemma {:induction false} SlotStaysOrEvicted(states: seq<State>, events: seq<Event>, i: nat, j: nat)
    requires IsRun(states, events) && ClockNeverBack(events) && i < j <= |events| && Granted(events[i])
    ensures EvictedBetween(states, events, i, j, events[i].key) || SlotSince(states[j], events[i].key, events[i].now / SECOND)
    decreases j
  {
    var key, m := events[i].key, j - 1;
    assert Next(states[m], events[m], states[m + 1]);
    if i == m {
      SlotWritten(states[m], events[m], states[j]);
    } else {
      SlotStaysOrEvicted(states, events, i, m);
      LaterSecond(events[i].now, events[m].now);
      if EvictedBetween(states, events, i, m, key) {
        EvictedSooner(states, events, i, m, j, key);
      } else {
        SlotStays(states[m], events[m], states[j], key, events[i].now / SECOND);
      }
    }
  }

  lemma LaterSecond(a: int, b: int)
    requires a <= b
    ensures a / SECOND <= b / SECOND
  {
  }

  /** The spacing guarantee. Two granted dials on one slot, the later spending no
      override, are more than the cooldown less one second apart, unless the
      slot was crowded out between them. */
  lemma SpacedUnlessEvicted(states: seq<State>, events: seq<Event>, i: nat, j: nat)
    requires IsRun(states, events) && ClockNeverBack(events) && i < j < |events|
    requires Granted(events[i]) && Granted(events[j]) && events[i].key == events[j].key
    requires !Spends(states[j], events[j])
    ensures
      || events[j].now - events[i].now > events[j].cooldown - SECOND
      || EvictedBetween(states, events, i, j, events[i].key)
  {
    assert Next(states[j], events[j], states[j + 1]);
    SlotStaysOrEvicted(states, events, i, j);
  }

  /** Exactly when the full cooldown is guaranteed after a dial at `dialed`: no
      later instant the gate lets through is early, if and only if the dial fell
      on a whole second (or there is no cooldown). */
  lemma FullCooldownIffWholeSecond(s: State, key: Key, dialed: int, cooldown: int)
    requires key in s.windows && s.windows[key] == dialed / SECOND
    ensures (forall now :: dialed <= now && !InWindow(s, key, cooldown, now) ==> now - dialed >= cooldown)
        <==> (cooldown <= 0 || dialed % SECOND == 0)
  {
    if cooldown > 0 && dialed % SECOND != 0 {
      var expiry := s.windows[key] * SECOND + cooldown;
      var early := if expiry >= dialed then expiry else dialed;
      assert dialed <= early && !InWindow(s, key, cooldown, early) && early - dialed < cooldown;
    }
  }

  /** The gap is real: a dial at the last nanosecond of a second is followed by
      one the gate allows, almost a second inside the cooldown. */
  lemma EarlyRedialWitness(owner: string, remote: string, cooldown: int)
    requires cooldown >= SECOND
    ensures var key, dialed := Key(owner, remote), SECOND - 1;
      var s := Recorded(State(map[], map[]), key, dialed);
      && InWindow(s, key, cooldown, cooldown - 1)
      && !InWindow(s, key, cooldown, cooldown)
      && cooldown - dialed == cooldown - SECOND + 1
  {
    assert (SECOND - 1) / SECOND == 0;
  }

  // ---- Denials ----

  /** The first instant the gate lets this slot through again. */
  function FirstAllowed(s: State, key: Key, cooldown: int): int
    requires key in s.windows
  {
    s.windows[key] * SECOND + cooldown
  }

  /** The step of `RetriesNeverPostpone`. */
  lemma DeniedChangesNothing(s: State, e: Event, s': State)
    requires Next(s, e, s') && e.Attempted? && !e.verdict.allowed
    ensures s' == s
  {
  }

  /** Retrying never postpones: after any number of denied attempts the state is
      what it was, so a fault-free attempt at `now` succeeds exactly from the
      same first instant on. */
  lemma RetriesNeverPostpone(states: seq<State>, events: seq<Event>, key: Key, cooldown: int, now: int, s': State, v: Verdict)
    requires IsRun(states, events)
    requires forall i :: 0 <= i < |events| ==> events[i].Attempted? && !events[i].verdict.allowed
    requires AttemptStep(states[|events|], key, cooldown, now, NoFault, s', v)
    ensures states[|events|] == states[0]
    ensures !Armed(states[0], key) && key in states[0].windows && cooldown > 0 ==>
      (v.allowed <==> now >= FirstAllowed(states[0], key, cooldown))
    decreases |events|
  {
    AllDenied(states, events, |events|);
  }

  lemma {:induction false} AllDenied(states: seq<State>, events: seq<Event>, n: nat)
    requires IsRun(states, events) && n <= |events|
    requires forall i :: 0 <= i < |events| ==> events[i].Attempted? && !events[i].verdict.allowed
    ensures states[n] == states[0]
  {
    if n > 0 {
      AllDenied(states, events, n - 1);
      assert Next(states[n - 1], events[n - 1], states[n - 1 + 1]);
      DeniedChangesNothing(states[n - 1], events[n - 1], states[n]);
    }
  }

  // ---- Overrides ----

  function CountSpends(states: seq<State>, events: seq<Event>, key: Key, n: nat): nat
    requires n <= |events| && |states| == |events| + 1
  {
    if n == 0 then 0
    else CountSpends(states, events, key, n - 1)
         + if Spends(states[n - 1], events[n - 1]) && events[n - 1].key == key then 1 else 0
  }

  function CountArms(events: seq<Event>, key: Key, n: nat): nat
    requires n <= |events|
  {
    if n == 0 then 0 else CountArms(events, key, n - 1) + if Arms(events[n - 1], key) then 1 else 0
  }

  lemma TrimOverrides(m: map<Key, Override>, m': map<Key, Override>)
    requires PartlyTrimmed(m, m', OverrideStamp)
    ensures SubMap(m', m)
  {
  }

  /** Only arming arms; spending disarms. */
  ghost predicate OverrideMove(s: State, e: Event, s': State, key: Key) {
    Armed(s', key) ==> Arms(e, key) || (Armed(s, key) && !(Spends(s, e) && e.key == key))
  }

  /** The overrides after an event's own write, before the caps are enforced. */
  function OverridesBeforeTrim(s: State, e: Event): map<Key, Override> {
    match e
    case Attempted(k, _, now, _, _) => if Spends(s, e) then s.overrides[k := Override(true, now / SECOND)] else s.overrides
    case OverrideArmed(k, now, fault) => if fault.Record? then s.overrides else s.overrides[k := Override(false, now / SECOND)]
    case CapsRan(_, _) => s.overrides
  }

  lemma EventOnOverride(s: State, e: Event, s': State, key: Key)
    requires Next(s, e, s')
    ensures OverrideMove(s, e, s', key)
  {
    var o := OverridesBeforeTrim(s, e);
    if s'.overrides != o { TrimOverrides(o, s'.overrides); }
  }

  lemma RunOnOverride(states: seq<State>, events: seq<Event>, key: Key)
    requires IsRun(states, events)
    ensures forall i :: 0 <= i < |events| ==> OverrideMove(states[i], events[i], states[i + 1], key)
  {
    forall i | 0 <= i < |events| ensures OverrideMove(states[i], events[i], states[i + 1], key) {
      EventOnOverride(states[i], events[i], states[i + 1], key);
    }
  }

  lemma {:induction false} CountMoves(states: seq<State>, events: seq<Event>, key: Key, n: nat)
    requires |states| == |events| + 1 && n <= |events|
    requires forall i :: 0 <= i < |events| ==> OverrideMove(states[i], events[i], states[i + 1], key)
    ensures CountSpends(states, events, key, n) + (if Armed(states[n], key) then 1 else 0)
         <= CountArms(events, key, n) + (if Armed(states[0], key) then 1 else 0)
  {
    if n > 0 {
      CountMoves(states, events, key, n - 1);
      assert OverrideMove(states[n - 1], events[n - 1], states[n], key);
    }
  }

  /** Spent overrides never outnumber arms, counting one armed at the start. */
  lemma SpendsNeverExceedArms(states: seq<State>, events: seq<Event>, key: Key)
    requires IsRun(states, events)
    ensures CountSpends(states, events, key, |events|)
         <= CountArms(events, key, |events|) + (if Armed(states[0], key) then 1 else 0)
  {
    RunOnOverride(states, events, key);
    CountMoves(states, events, key, |events|);
  }

  lemma {:induction false} DisarmedUntilArmed(states: seq<State>, events: seq<Event>, key: Key, i: nat, j: nat)
    requires |states| == |events| + 1 && i < j <= |events|
    requires forall m :: 0 <= m < |events| ==> OverrideMove(states[m], events[m], states[m + 1], key)
    requires Spends(states[i], events[i]) && events[i].key == key
    requires forall m :: i < m < j ==> !Arms(events[m], key)
    ensures !Armed(states[j], key)
    decreases j
  {
    if j > i + 1 { DisarmedUntilArmed(states, events, key, i, j - 1); }
    assert OverrideMove(states[j - 1], events[j - 1], states[j], key);
  }

  /** One arm buys one bypass: between two spends on a slot lies an arm of it. */
  lemma ArmBetweenSpends(states: seq<State>, events: seq<Event>, i: nat, j: nat)
    requires IsRun(states, events) && i < j < |events|
    requires Spends(states[i], events[i]) && Spends(states[j], events[j]) && events[i].key == events[j].key
    ensures exists m :: i < m < j && Arms(events[m], events[i].key)
  {
    if forall m :: i < m < j ==> !Arms(events[m], events[i].key) {
      RunOnOverride(states, events, events[i].key);
      DisarmedUntilArmed(states, events, events[i].key, i, j);
    }
  }

  /** Arming arms: the override is there, unspent, unless the caps took it. */
  lemma ArmingArms(s: State, key: Key, at: int, fault: Fault, s': State)
    requires ArmStep(s, key, at, fault, s') && !fault.Record?
    ensures key in s'.overrides ==> s'.overrides[key] == Override(false, at / 1_000_000_000)
    ensures key !in s'.overrides ==> Crowded(s.overrides[key := Override(false, at / 1_000_000_000)], OverrideStamp, key)
  {
    var armed := s.overrides[key := Override(false, at / SECOND)];
    TrimmedOutIsCrowded(armed, s'.overrides, OverrideStamp, key);
  }

  /** When a working engine lets a dial through: exactly when an unspent override
      is there, or no slot, or no cooldown, or the slot's second is a cooldown
      ago. A grant answers with the dial's time, a denial with the slot's. */
  lemma GateOpensIff(s: State, key: Key, cooldown: int, now: int, s': State, v: Verdict)
    requires AttemptStep(s, key, cooldown, now, NoFault, s', v)
    ensures !v.err
    ensures v.allowed <==>
      || (key in s.overrides && !s.overrides[key].consumed)
      || key !in s.windows || cooldown <= 0 || now - s.windows[key] * 1_000_000_000 >= cooldown
    ensures v.stamp == if v.allowed then now else s.windows[key] * 1_000_000_000
  {
  }

  /** An attempt reports an error exactly when an engine call it got to failed.
      Before the grant that denies and changes nothing; after it the dial stays
      granted. */
  lemma ErrorsAreReported(s: State, key: Key, cooldown: int, now: int, fault: Fault, s': State, v: Verdict)
    requires AttemptStep(s, key, cooldown, now, fault, s', v)
    ensures var armed := key in s.overrides && !s.overrides[key].consumed;
      var late := armed || key !in s.windows || cooldown <= 0 || now - s.windows[key] * 1_000_000_000 >= cooldown;
      && (v.err <==>
            match fault
            case NoFault => false
            case OverrideLoad => true
            case OverrideConsume => armed
            case WindowLoad => !armed
            case _ => late)
      && (v.err && (fault.OverrideLoad? || fault.OverrideConsume? || fault.WindowLoad?) ==> !v.allowed && s' == s)
      && (v.err && (fault.Record? || fault.Caps?) ==> v.allowed)
  {
  }

  /** What a grant leaves: the slot holds the second of the dial and an override
      is spent, unless the caps took them. */
  lemma GrantIsRecorded(s: State, key: Key, cooldown: int, now: int, s': State, v: Verdict)
    requires AttemptStep(s, key, cooldown, now, NoFault, s', v) && v.allowed
    ensures if key in s'.windows then s'.windows[key] == now / 1_000_000_000
      else Crowded(s.windows[key := now / 1_000_000_000], WindowStamp, key)
    ensures key in s'.overrides ==> s'.overrides[key].consumed
  {
    var before := if Armed(s, key) then Spent(s, key, now) else s;
    var recorded := Recorded(before, key, now);
    TrimmedOutIsCrowded(recorded.windows, s'.windows, WindowStamp, key);
    TrimOverrides(recorded.overrides, s'.overrides);
  }

  /** An arm leaves every cap met, too. */
  lemma ArmRestoresCaps(s: State, key: Key, at: int, s': State, owner: string)
    requires ArmStep(s, key, at, NoFault, s')
    ensures |set k | k in s'.windows && k.owner == owner| <= 500 && |s'.windows| <= 100_000
    ensures |set k | k in s'.overrides && k.owner == owner| <= 500 && |s'.overrides| <= 100_000
  {
    TrimmedFits(s.windows, s'.windows, WindowStamp, owner);
    TrimmedFits(s.overrides[key := Override(false, at / SECOND)], s'.overrides, OverrideStamp, owner);
  }

  /** And every cap holds again, for the slots and for the overrides. */
  lemma GrantRestoresCaps(s: State, key: Key, cooldown: int, now: int, s': State, v: Verdict, owner: string)
    requires AttemptStep(s, key, cooldown, now, NoFault, s', v) && v.allowed
    ensures |set k | k in s'.windows && k.owner == owner| <= 500 && |s'.windows| <= 100_000
    ensures |set k | k in s'.overrides && k.owner == owner| <= 500 && |s'.overrides| <= 100_000
  {
    var before := if Armed(s, key) then Spent(s, key, now) else s;
    TrimmedFits(Recorded(before, key, now).windows, s'.windows, WindowStamp, owner);
    TrimmedFits(before.overrides, s'.overrides, OverrideStamp, owner);
  }

  /** A listed slot is a dial whose cooldown still runs, with its second and the
      cooldown in whole seconds. */
  lemma ListedSlotsRun(s: State, owner: string, cooldown: int, now: int, slots: seq<ActiveSlot>, i: nat)
    requires IsActiveListing(s, owner, cooldown, now, slots) && i < |slots| <= 50 && cooldown >= 0
    ensures var key := Key(owner, slots[i].remote);
      && key in s.windows && slots[i].lastAt == s.windows[key] && now - s.windows[key] * 1_000_000_000 < cooldown
      && slots[i].window * 1_000_000_000 <= cooldown < slots[i].window * 1_000_000_000 + 1_000_000_000
  {
    assert IsLive(s, owner, cooldown, now, slots[i]);
  }

  predicate Unspent(s: State, key: Key) { key in s.overrides && !s.overrides[key].consumed }

  /** The override went to the caps in this step, having been crowded. */
  ghost predicate LosesOverride(s: State, e: Event, s': State, key: Key) {
    key !in s'.overrides && Crowded(OverridesBeforeTrim(s, e), OverrideStamp, key)
  }

  /** A dial on this slot that the gate let through. */
  predicate Dials(e: Event, key: Key) { e.Attempted? && e.key == key && e.verdict.allowed }

  lemma UnspentStays(s: State, e: Event, s': State, key: Key)
    requires Next(s, e, s') && Unspent(s, key)
    ensures Unspent(s', key) || Dials(e, key) || LosesOverride(s, e, s', key)
  {
    var o := OverridesBeforeTrim(s, e);
    if s'.overrides != o && !Dials(e, key) {
      TrimmedOutIsCrowded(o, s'.overrides, OverrideStamp, key);
    }
  }

  ghost predicate LostBetween(states: seq<State>, events: seq<Event>, i: nat, j: nat, key: Key)
    requires j <= |events| && |states| == |events| + 1
  {
    exists m :: i <= m < j && LosesOverride(states[m], events[m], states[m + 1], key)
  }

  predicate DialledBetween(events: seq<Event>, i: nat, j: nat, key: Key)
    requires j <= |events|
  {
    exists m :: i < m < j && Dials(events[m], key)
  }

  /** Over every run an arm stays usable until it is spent or crowded out. */
  lemma {:induction false} ArmStaysUsable(states: seq<State>, events: seq<Event>, i: nat, j: nat)
    requires IsRun(states, events) && i < j <= |events| && events[i].OverrideArmed? && !events[i].fault.Record?
    ensures var key := events[i].key;
      Unspent(states[j], key) || DialledBetween(events, i, j, key) || LostBetween(states, events, i, j, key)
    decreases j
  {
    var key, m := events[i].key, j - 1;
    assert Next(states[m], events[m], states[m + 1]);
    if i == m {
      ArmingArms(states[m], key, events[m].now, events[m].fault, states[m + 1]);
    } else {
      ArmStaysUsable(states, events, i, m);
      if n :| i < n < m && Dials(events[n], key) {
        assert DialledBetween(events, i, j, key);
      } else if n :| i <= n < m && LosesOverride(states[n], events[n], states[n + 1], key) {
        assert LostBetween(states, events, i, j, key);
      } else {
        UnspentStays(states[m], events[m], states[j], key);
      }
    }
  }

  /** So the next dial on an armed slot goes through, at any instant and with any
      cooldown, when the engine can read and spend the override and the caps have
      not taken it. */
  lemma ArmedDialGoesThrough(states: seq<State>, events: seq<Event>, i: nat, j: nat)
    requires IsRun(states, events) && i < j < |events| && events[i].OverrideArmed? && !events[i].fault.Record?
    requires events[j].Attempted? && events[j].key == events[i].key
    requires !events[j].fault.OverrideLoad? && !events[j].fault.OverrideConsume?
    requires !DialledBetween(events, i, j, events[i].key) && !LostBetween(states, events, i, j, events[i].key)
    ensures events[j].verdict.allowed
  {
    assert Next(states[j], events[j], states[j + 1]);
    ArmStaysUsable(states, events, i, j);
  }
}
