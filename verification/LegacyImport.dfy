/** The one-time imports at boot: rows are saved one at a time, a failure leaves
    the rest for the next boot, and the flag is written after a full pass. */
module LegacyImport {
  import opened Collections
  import opened Contacts
  import opened FaxStore
  import opened MetaEngine
  import opened Upserts

  // ---- The lanes ----

  function ContactKey(c: Contact): Key { c.key }

  function SaveContact(slot: Option<Contact>, c: Contact): Contact {
    if slot.Some? then c.(id := slot.value.id, createdAt := slot.value.createdAt) else c
  }

  function ContactKept(c: Contact): (ContactId, int) { (c.id, c.createdAt) }

  datatype Snippet = Snippet(id: string, owner: string, body: string, quick: bool, createdAt: int)

  function SaveSnippet(slot: Option<Snippet>, s: Snippet): Snippet {
    if slot.Some? then s.(createdAt := slot.value.createdAt) else s
  }

  function SnippetKept(s: Snippet): int { s.createdAt }

  datatype Fax = Fax(id: string, row: FaxRow)

  function CreateFax(slot: Option<FaxRow>, f: Fax): FaxRow { f.row }

  function FaxKept(row: FaxRow): int { 0 }

  /** Contacts keep id and age, snippets their age, faxes nothing; all converge. */
  lemma LanesConverge()
    ensures Converges(SaveContact, ContactKept)
    ensures Converges(SaveSnippet, SnippetKept)
    ensures Converges(CreateFax, FaxKept)
  {
  }

  /** What the snippet and fax lanes leave: a snippet takes everything but the age
      of a taken slot, a fax row everything. */
  lemma LanesTell(before: Option<Snippet>, s: Snippet, row: Option<FaxRow>, f: Fax)
    ensures SaveSnippet(before, s) ==
      Snippet(s.id, s.owner, s.body, s.quick, if before.Some? then before.value.createdAt else s.createdAt)
    ensures CreateFax(row, f) == f.row
  {
  }

  /** The stores' own save is the lane's. */
  lemma SaveIsTheLane(slots: map<Key, Contact>, c: Contact)
    ensures Upserted(slots, c) == slots[c.key := SaveContact(Slot(slots, c.key), c)]
  {
  }

  ghost function ContactPass(slots: map<Key, Contact>, legacy: seq<Option<Contact>>): map<Key, Contact> {
    Pass(slots, ContactKey, SaveContact, legacy)
  }

  lemma PassSnoc(slots: map<Key, Contact>, legacy: seq<Option<Contact>>, i: nat)
    requires i < |legacy|
    ensures ContactPass(slots, legacy[..i + 1]) ==
      if legacy[i].None? then ContactPass(slots, legacy[..i]) else Upserted(ContactPass(slots, legacy[..i]), legacy[i].value)
  {
    assert legacy[..i + 1][..|legacy[..i + 1]| - 1] == legacy[..i];
    if legacy[i].Some? { SaveIsTheLane(ContactPass(slots, legacy[..i]), legacy[i].value); }
  }

  // ---- When the cap lets a pass through ----

  /** No save of the pass is refused. */
  ghost predicate NeverRefused(slots: map<Key, Contact>, legacy: seq<Option<Contact>>) {
    forall i :: 0 <= i < |legacy| && legacy[i].Some? ==> !Refused(ContactPass(slots, legacy[..i]), legacy[i].value)
  }

  function LegacyNumbers(legacy: seq<Option<Contact>>, owner: string): set<Key> {
    set i | 0 <= i < |legacy| && legacy[i].Some? && legacy[i].value.key.owner == owner :: legacy[i].value.key
  }

  /** The list `mine` has room for these numbers, if any of them is new. */
  predicate HasRoom(mine: set<Key>, numbers: set<Key>) {
    numbers <= mine || |mine + numbers| <= MAX_PER_EXTENSION
  }

  /** Every owner the legacy rows bring a new number has room for all of its
      numbers, old and new. */
  ghost predicate Fits(slots: map<Key, Contact>, legacy: seq<Option<Contact>>) {
    forall owner :: HasRoom(Members(slots, OwnerOf, owner), LegacyNumbers(legacy, owner))
  }

  lemma NumbersSnoc(legacy: seq<Option<Contact>>, i: nat, owner: string)
    requires 0 < i <= |legacy|
    ensures LegacyNumbers(legacy[..i], owner) == LegacyNumbers(legacy[..i - 1], owner) +
      if legacy[i - 1].Some? && legacy[i - 1].value.key.owner == owner then {legacy[i - 1].value.key} else {}
  {
    var more := legacy[..i];
    assert forall j :: 0 <= j < i - 1 ==> more[j] == legacy[..i - 1][j];
    assert more[i - 1] == legacy[i - 1];
  }

  /** A pass adds exactly the legacy numbers. */
  lemma {:induction false} PassMembers(slots: map<Key, Contact>, legacy: seq<Option<Contact>>, owner: string, i: nat)
    requires i <= |legacy|
    ensures Members(ContactPass(slots, legacy[..i]), OwnerOf, owner) ==
      Members(slots, OwnerOf, owner) + LegacyNumbers(legacy[..i], owner)
  {
    if i > 0 {
      PassMembers(slots, legacy, owner, i - 1);
      PassSnoc(slots, legacy, i - 1);
      NumbersSnoc(legacy, i, owner);
      if legacy[i - 1].Some? {
        UpsertMembers(ContactPass(slots, legacy[..i - 1]), legacy[i - 1].value, owner);
      }
    }
  }

  lemma NumbersGrow(legacy: seq<Option<Contact>>, owner: string, i: nat)
    requires i < |legacy|
    ensures LegacyNumbers(legacy[..i], owner) <= LegacyNumbers(legacy, owner)
    ensures legacy[i].Some? && legacy[i].value.key.owner == owner ==> legacy[i].value.key in LegacyNumbers(legacy, owner)
  {
    assert forall j :: 0 <= j < i ==> legacy[..i][j] == legacy[j];
  }

  lemma FitsIsEnough(slots: map<Key, Contact>, legacy: seq<Option<Contact>>, i: nat)
    requires Fits(slots, legacy) && i < |legacy| && legacy[i].Some?
    ensures !Refused(ContactPass(slots, legacy[..i]), legacy[i].value)
  {
    var c := legacy[i].value;
    var owner := c.key.owner;
    PassMembers(slots, legacy, owner, i);
    NumbersGrow(legacy, owner, i);
    var all := Members(slots, OwnerOf, owner) + LegacyNumbers(legacy, owner);
    var there := Members(ContactPass(slots, legacy[..i]), OwnerOf, owner);
    if c.key !in ContactPass(slots, legacy[..i]) {
      assert c.key !in there && c.key in all && there <= all;
      assert c.key !in Members(slots, OwnerOf, owner);
      SubsetSize(there + {c.key}, all);
    }
  }

  lemma RoomForKnown(mine: set<Key>, numbers: set<Key>, k: Key)
    requires HasRoom(mine, numbers) && k in mine + numbers
    ensures HasRoom(mine, numbers + {k})
  {
    assert mine + (numbers + {k}) == mine + numbers;
  }

  lemma RoomForNew(mine: set<Key>, numbers: set<Key>, k: Key, all: set<Key>)
    requires all == mine + numbers && |all| < MAX_PER_EXTENSION
    ensures HasRoom(mine, numbers + {k})
  {
    assert mine + (numbers + {k}) == all + {k};
    OneMore(all, k);
  }

  lemma OneMore(all: set<Key>, k: Key)
    ensures |all + {k}| <= |all| + 1
  {
    if k in all { assert all + {k} == all; }
  }

  lemma RoomAfterSome(mine: set<Key>, some: set<Key>, numbers: set<Key>)
    requires HasRoom(mine, numbers) && some <= numbers
    ensures HasRoom(mine + some, numbers)
  {
    assert mine + some + numbers == mine + numbers;
  }

  lemma AcceptedFits(before: map<Key, Contact>, c: Contact, mine: set<Key>, numbers: set<Key>)
    requires !Refused(before, c) && Members(before, OwnerOf, c.key.owner) == mine + numbers
    requires HasRoom(mine, numbers)
    ensures HasRoom(mine, numbers + {c.key})
  {
    if c.key in before {
      assert c.key in Members(before, OwnerOf, c.key.owner);
      RoomForKnown(mine, numbers, c.key);
    } else {
      RoomForNew(mine, numbers, c.key, Members(before, OwnerOf, c.key.owner));
    }
  }

  lemma {:induction false} NeverRefusedFits(slots: map<Key, Contact>, legacy: seq<Option<Contact>>, owner: string, i: nat)
    requires NeverRefused(slots, legacy) && i <= |legacy|
    ensures HasRoom(Members(slots, OwnerOf, owner), LegacyNumbers(legacy[..i], owner))
  {
    if i > 0 {
      NeverRefusedFits(slots, legacy, owner, i - 1);
      NumbersSnoc(legacy, i, owner);
      if legacy[i - 1].Some? && legacy[i - 1].value.key.owner == owner {
        var mine, numbers := Members(slots, OwnerOf, owner), LegacyNumbers(legacy[..i - 1], owner);
        PassMembers(slots, legacy, owner, i - 1);
        AcceptedFits(ContactPass(slots, legacy[..i - 1]), legacy[i - 1].value, mine, numbers);
      } else {
        assert LegacyNumbers(legacy[..i], owner) == LegacyNumbers(legacy[..i - 1], owner);
      }
    }
  }

  /** A pass meets no refusal exactly when every list has room for what it brings. */
  lemma PassRunsIffItFits(slots: map<Key, Contact>, legacy: seq<Option<Contact>>)
    ensures NeverRefused(slots, legacy) <==> Fits(slots, legacy)
  {
    if Fits(slots, legacy) {
      forall i | 0 <= i < |legacy| && legacy[i].Some? ensures !Refused(ContactPass(slots, legacy[..i]), legacy[i].value) {
        FitsIsEnough(slots, legacy, i);
      }
    }
    if NeverRefused(slots, legacy) {
      forall owner ensures HasRoom(Members(slots, OwnerOf, owner), LegacyNumbers(legacy, owner)) {
        assert legacy[..|legacy|] == legacy;
        NeverRefusedFits(slots, legacy, owner, |legacy|);
      }
    }
  }

  /** What fits at first still fits after a pass that was cut short. */
  lemma StillFits(slots: map<Key, Contact>, legacy: seq<Option<Contact>>, n: nat)
    requires Fits(slots, legacy) && n <= |legacy|
    ensures Fits(ContactPass(slots, legacy[..n]), legacy)
  {
    var part := ContactPass(slots, legacy[..n]);
    forall owner ensures HasRoom(Members(part, OwnerOf, owner), LegacyNumbers(legacy, owner)) {
      assert HasRoom(Members(slots, OwnerOf, owner), LegacyNumbers(legacy, owner));
      PassMembers(slots, legacy, owner, n);
      assert forall j :: 0 <= j < n ==> legacy[..n][j] == legacy[j];
      assert LegacyNumbers(legacy[..n], owner) <= LegacyNumbers(legacy, owner);
      RoomAfterSome(Members(slots, OwnerOf, owner), LegacyNumbers(legacy[..n], owner), LegacyNumbers(legacy, owner));
    }
  }

  // ---- The import ----

  /** Every save of a parsed row meets a working engine. */
  ghost predicate Works<R>(legacy: seq<Option<R>>, broken: set<nat>) {
    forall i: nat :: i < |legacy| && legacy[i].Some? ==> i !in broken
  }

  /** One boot of the contacts import. `broken` are the rows whose save fails in
      the engine; the two flag accesses and the read of the old table may fail too. */
  method ImportContacts(list: ContactList, flag: bool, flagRead: bool, legacy: Option<seq<Option<Contact>>>,
      broken: set<nat>, flagWritten: bool)
    returns (flag': bool, imported: nat, skipped: nat, ghost reached: nat)
    requires list.Valid()
    modifies list
    ensures list.Valid()
    ensures flag || !flagRead || legacy.None? ==> list.slots == old(list.slots) && flag' == flag
    ensures !flag && flagRead && legacy.Some? ==>
      && reached <= |legacy.value| && list.slots == ContactPass(old(list.slots), legacy.value[..reached])
      && flag' == (flagWritten && NeverRefused(old(list.slots), legacy.value) && Works(legacy.value, broken))
      && (flag' ==> reached == |legacy.value| && imported + skipped == |legacy.value|)
  {
    flag', imported, skipped, reached := flag, 0, 0, 0;
    if !flagRead || flag || legacy.None? {
      return;
    }
    var rows := legacy.value;
    ghost var before := list.slots;
    var i := 0;
    assert rows[..0] == [];
    while i < |rows|
      invariant 0 <= i <= |rows| && list.Valid()
      invariant imported + skipped == i && reached == i
      invariant list.slots == ContactPass(before, rows[..i])
      invariant forall j: nat :: j < i && rows[j].Some? ==> !Refused(ContactPass(before, rows[..j]), rows[j].value) && j !in broken
    {
      PassSnoc(before, rows, i);
      if rows[i].None? {
        skipped := skipped + 1;
      } else {
        var saved := list.Save(rows[i].value, i !in broken);
        if !saved.Saved? {
          return;
        }
        imported := imported + 1;
      }
      i := i + 1;
      reached := i;
    }
    assert rows[..i] == rows;
    if !flagWritten {
      return;
    }
    flag' := true;
  }

  /** An import run is a boot of the contacts lane. */
  lemma ImportIsABoot(slots: map<Key, Contact>, slots': map<Key, Contact>, legacy: seq<Option<Contact>>, reached: nat, flag': bool)
    requires reached <= |legacy| && slots' == ContactPass(slots, legacy[..reached]) && (flag' ==> reached == |legacy|)
    ensures Boot(ContactKey, SaveContact, legacy, Imported(slots, false), Imported(slots', flag'))
  {
  }

  /** Contacts, over any number of interrupted boots and with no writes between:
      once the flag is set the slots are those of one full import. */
  lemma ContactsConverge(legacy: seq<Option<Contact>>, states: seq<Imported<Key, Contact>>)
    requires IsBoots(ContactKey, SaveContact, legacy, states) && states[|states| - 1].flag
    ensures states[|states| - 1].slots == ContactPass(states[0].slots, legacy)
  {
    LanesConverge();
    BootsConverge(ContactKey, SaveContact, ContactKept, legacy, states);
  }

  // ---- The snippet and fax lanes ----

  const SNIPPETS_PER_EXTENSION: nat := 100

  function SnippetKey(s: Snippet): string { s.id }

  function FaxKey(f: Fax): string { f.id }

  ghost function SnippetPass(slots: map<string, Snippet>, legacy: seq<Option<Snippet>>): map<string, Snippet> {
    Pass(slots, SnippetKey, SaveSnippet, legacy)
  }

  ghost function FaxPass(rows: map<string, FaxRow>, legacy: seq<Option<Fax>>): map<string, FaxRow> {
    Pass(rows, FaxKey, CreateFax, legacy)
  }

  function SnippetsOf(slots: map<string, Snippet>, owner: string): set<string> {
    set id | id in slots && slots[id].owner == owner
  }

  /** A save is refused exactly when its id is new and the owner's list is full. */
  predicate SnippetRefused(slots: map<string, Snippet>, s: Snippet) {
    s.id !in slots && |SnippetsOf(slots, s.owner)| >= SNIPPETS_PER_EXTENSION
  }

  /** The cap of the snippet list, on the slots themselves. */
  lemma SnippetCap(slots: map<string, Snippet>, s: Snippet)
    ensures SnippetRefused(slots, s) <==> s.id !in slots && |set id | id in slots && slots[id].owner == s.owner| >= 100
  {
    assert SnippetsOf(slots, s.owner) == set id | id in slots && slots[id].owner == s.owner;
  }

  ghost predicate NoSnippetRefused(slots: map<string, Snippet>, legacy: seq<Option<Snippet>>) {
    forall i :: 0 <= i < |legacy| && legacy[i].Some? ==> !SnippetRefused(SnippetPass(slots, legacy[..i]), legacy[i].value)
  }

  class SnippetList {
    var slots: map<string, Snippet>

    constructor ()
      ensures slots == map[]
    {
      slots := map[];
    }

    /** Upserts by id: a taken slot keeps its age, a new id needs room. */
    method Save(s: Snippet, working: bool) returns (r: SaveResult)
      modifies this
      ensures r.EngineFailed? <==> !working
      ensures r.ListFull? <==> working && SnippetRefused(old(slots), s)
      ensures slots == if r.Saved? then old(slots)[s.id := SaveSnippet(Slot(old(slots), s.id), s)] else old(slots)
    {
      if !working {
        return SaveResult.EngineFailed;
      }
      var snippet := s;
      if s.id in slots {
        snippet := snippet.(createdAt := slots[s.id].createdAt);
      } else if |SnippetsOf(slots, s.owner)| >= SNIPPETS_PER_EXTENSION {
        return ListFull;
      }
      slots := slots[s.id := snippet];
      return Saved;
    }
  }

  /** One boot of the snippet import; `broken` are the rows whose save fails in
      the engine. */
  method ImportSnippets(list: SnippetList, flag: bool, flagRead: bool, legacy: Option<seq<Option<Snippet>>>,
      broken: set<nat>, flagWritten: bool)
    returns (flag': bool)
    modifies list
    ensures flag || !flagRead || legacy.None? ==> list.slots == old(list.slots) && flag' == flag
    ensures !flag && flagRead && legacy.Some? ==>
      && Boot(SnippetKey, SaveSnippet, legacy.value, Imported(old(list.slots), flag), Imported(list.slots, flag'))
      && flag' == (flagWritten && NoSnippetRefused(old(list.slots), legacy.value) && Works(legacy.value, broken))
  {
    flag' := flag;
    if !flagRead || flag || legacy.None? {
      return;
    }
    var rows := legacy.value;
    ghost var before := list.slots;
    var i := 0;
    assert rows[..0] == [];
    while i < |rows|
      invariant 0 <= i <= |rows| && list.slots == SnippetPass(before, rows[..i])
      invariant forall j: nat :: j < i && rows[j].Some? ==> !SnippetRefused(SnippetPass(before, rows[..j]), rows[j].value) && j !in broken
    {
      assert rows[..i + 1][..i] == rows[..i];
      if rows[i].Some? {
        var saved := list.Save(rows[i].value, i !in broken);
        if !saved.Saved? {
          return;
        }
      }
      i := i + 1;
    }
    assert rows[..i] == rows;
    flag' := flagWritten;
  }

  /** One boot of the fax import, which no cap refuses. */
  method ImportFaxes(faxes: Faxes, flag: bool, flagRead: bool, legacy: Option<seq<Option<Fax>>>,
      broken: set<nat>, flagWritten: bool)
    returns (flag': bool)
    modifies faxes
    ensures faxes.applied == old(faxes.applied)
    ensures flag || !flagRead || legacy.None? ==> faxes.rows == old(faxes.rows) && flag' == flag
    ensures !flag && flagRead && legacy.Some? ==>
      && Boot(FaxKey, CreateFax, legacy.value, Imported(old(faxes.rows), flag), Imported(faxes.rows, flag'))
      && flag' == (flagWritten && Works(legacy.value, broken))
  {
    flag' := flag;
    if !flagRead || flag || legacy.None? {
      return;
    }
    var rows := legacy.value;
    ghost var before := faxes.rows;
    var i := 0;
    assert rows[..0] == [];
    while i < |rows|
      invariant 0 <= i <= |rows| && faxes.rows == FaxPass(before, rows[..i]) && faxes.applied == old(faxes.applied)
      invariant forall j: nat :: j < i && rows[j].Some? ==> j !in broken
    {
      assert rows[..i + 1][..i] == rows[..i];
      if rows[i].Some? {
        var saved := faxes.Create(rows[i].value.id, rows[i].value.row, i !in broken);
        if !saved.Written? {
          return;
        }
      }
      i := i + 1;
    }
    assert rows[..i] == rows;
    flag' := flagWritten;
  }

  lemma SnippetsConverge(legacy: seq<Option<Snippet>>, states: seq<Imported<string, Snippet>>)
    requires IsBoots(SnippetKey, SaveSnippet, legacy, states) && states[|states| - 1].flag
    ensures states[|states| - 1].slots == SnippetPass(states[0].slots, legacy)
  {
    LanesConverge();
    BootsConverge(SnippetKey, SaveSnippet, SnippetKept, legacy, states);
  }

  lemma FaxesConverge(legacy: seq<Option<Fax>>, states: seq<Imported<string, FaxRow>>)
    requires IsBoots(FaxKey, CreateFax, legacy, states) && states[|states| - 1].flag
    ensures states[|states| - 1].slots == FaxPass(states[0].slots, legacy)
  {
    LanesConverge();
    BootsConverge(FaxKey, CreateFax, FaxKept, legacy, states);
  }
}
