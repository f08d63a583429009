/** The personal contacts: one slot per (owner, phone). Saving into a taken slot
    renames it and keeps its id and age; a new number needs room. */
module Contacts {
  import opened Collections
  import opened MetaEngine

  const MAX_PER_EXTENSION: nat := 500

  datatype Key = Key(owner: string, phone: string)

  /** An id that came with the contact, or one minted for it on the spot: a
      minted id is a fresh one and which one does not matter. */
  datatype ContactId = Given(id: string) | Minted

  datatype Contact = Contact(key: Key, id: ContactId, name: string, createdAt: int)

  datatype SaveResult = Saved | ListFull | EngineFailed

  function OwnerOf(k: Key): string { k.owner }

  function CreatedAt(c: Contact): int { c.createdAt }

  /** What a save leaves in the slot. */
  function Merged(slots: map<Key, Contact>, c: Contact): Contact {
    if c.key in slots then c.(id := slots[c.key].id, createdAt := slots[c.key].createdAt) else c
  }

  function Upserted(slots: map<Key, Contact>, c: Contact): map<Key, Contact> {
    slots[c.key := Merged(slots, c)]
  }

  /** A save is refused exactly when it would add a number to a full list. */
  predicate Refused(slots: map<Key, Contact>, c: Contact) {
    c.key !in slots && |Members(slots, OwnerOf, c.key.owner)| >= MAX_PER_EXTENSION
  }

  ghost predicate ListsFit(slots: map<Key, Contact>) {
    forall owner :: |Members(slots, OwnerOf, owner)| <= MAX_PER_EXTENSION
  }

  lemma UpsertMembers(slots: map<Key, Contact>, c: Contact, owner: string)
    ensures Members(Upserted(slots, c), OwnerOf, owner) ==
      Members(slots, OwnerOf, owner) + if owner == c.key.owner then {c.key} else {}
  {
  }

  /** An accepted save overfills no list. */
  lemma UpsertFits(slots: map<Key, Contact>, c: Contact)
    requires ListsFit(slots) && !Refused(slots, c)
    ensures ListsFit(Upserted(slots, c))
  {
    forall owner ensures |Members(Upserted(slots, c), OwnerOf, owner)| <= MAX_PER_EXTENSION {
      UpsertMembers(slots, c, owner);
      if c.key in slots && owner == c.key.owner {
        assert c.key in Members(slots, OwnerOf, owner);
        assert Members(slots, OwnerOf, owner) + {c.key} == Members(slots, OwnerOf, owner);
      }
    }
  }

  /** A saved slot has the new name; id and age are those of the slot before, if
      there was one. No other slot changes. */
  lemma SaveTells(slots: map<Key, Contact>, c: Contact)
    ensures var after := Upserted(slots, c);
      && after.Keys == slots.Keys + {c.key}
      && after[c.key] == Contact(c.key, if c.key in slots then slots[c.key].id else c.id, c.name,
                                 if c.key in slots then slots[c.key].createdAt else c.createdAt)
      && forall k :: k in slots && k != c.key ==> after[k] == slots[k]
  {
  }

  /** Refused: a new number for an owner who has five hundred. */
  lemma RefusedAtTheCap(slots: map<Key, Contact>, c: Contact)
    ensures Refused(slots, c) <==> c.key !in slots && |set k | k in slots && k.owner == c.key.owner| >= 500
  {
    assert Members(slots, OwnerOf, c.key.owner) == set k | k in slots && k.owner == c.key.owner;
  }

  class ContactList {
    var slots: map<Key, Contact>

    /** No list is over its cap, and every slot knows its key. */
    ghost predicate Valid()
      reads this
    {
      && ListsFit(slots)
      && (forall k :: k in slots ==> slots[k].key == k)
    }

    constructor ()
      ensures Valid() && slots == map[]
    {
      slots := map[];
      new;
      assert forall owner :: Members(slots, OwnerOf, owner) == {};
    }

    /** The owner's slots, newest first; the window is one over the cap. */
    method OwnerViews(owner: string) returns (views: seq<Key>)
      requires Valid()
      ensures Distinct(views) && forall k :: k in views <==> k in slots && k.owner == owner
      ensures |views| == |Members(slots, OwnerOf, owner)|
      ensures forall i, j :: 0 <= i < j < |views| ==>
        views[i] in slots && views[j] in slots && slots[views[i]].createdAt >= slots[views[j]].createdAt
    {
      views := Scan(slots, OwnerOf, owner, CreatedAt, MAX_PER_EXTENSION + 1);
      ghost var mine := Members(slots, OwnerOf, owner);
      assert Elements(views) <= mine;
      DistinctSize(views);
      SubsetSize(Elements(views), mine);
      forall k | k in mine ensures k in views {}
      assert Elements(views) == mine;
      assert forall i, j :: 0 <= i < j < |views| ==> CreatedAt(slots[views[i]]) >= CreatedAt(slots[views[j]]);
    }

    method Save(c: Contact, working: bool) returns (r: SaveResult)
      requires Valid()
      modifies this
      ensures Valid()
      ensures r.EngineFailed? <==> !working
      ensures r.ListFull? <==> working && Refused(old(slots), c)
      ensures slots == if r.Saved? then Upserted(old(slots), c) else old(slots)
    {
      if !working {
        return EngineFailed;
      }
      var contact := c;
      if c.key in slots {
        contact := contact.(id := slots[c.key].id, createdAt := slots[c.key].createdAt);
      } else {
        var views := OwnerViews(c.key.owner);
        if |views| >= MAX_PER_EXTENSION {
          return ListFull;
        }
      }
      UpsertFits(slots, c);
      slots := slots[c.key := contact];
      return Saved;
    }

    /** Removes one of the owner's contacts by id. */
    method Delete(owner: string, id: ContactId, working: bool) returns (found: bool, failed: bool, ghost gone: Key)
      requires Valid()
      modifies this
      ensures Valid() && failed == !working
      ensures found <==> working && exists k :: k in old(slots) && k.owner == owner && old(slots)[k].id == id
      ensures found ==> gone in old(slots) && gone.owner == owner && old(slots)[gone].id == id && slots == old(slots) - {gone}
      ensures !found ==> slots == old(slots)
    {
      if !working {
        return false, true, Key("", "");
      }
      var views := OwnerViews(owner);
      ghost var was := slots;
      for i := 0 to |views|
        invariant slots == was
        invariant forall j :: 0 <= j < i ==> slots[views[j]].id != id
      {
        assert views[i] in views;
        if slots[views[i]].id == id {
          gone := views[i];
          slots := slots - {views[i]};
          forall o ensures Members(slots, OwnerOf, o) == Members(was, OwnerOf, o) - {gone} {}
          forall o ensures |Members(slots, OwnerOf, o)| <= MAX_PER_EXTENSION {
            SubsetSize(Members(slots, OwnerOf, o), Members(was, OwnerOf, o));
          }
          return true, false, gone;
        }
      }
      found, failed, gone := false, false, Key("", "");
      forall k | k in slots && k.owner == owner ensures slots[k].id != id {
        assert k in views;
      }
    }
  }
}
