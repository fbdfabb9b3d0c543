/** The relationship endpoints: create and list contacts, and log an
    interaction, which moves the contact's last-contact date forward. */
module Relationships {
  import opened Wrappers
  import opened Calendar
  import opened Seqs
  import opened Records
  import opened Database

  /** The request body of contact creation. */
  datatype ContactInput = ContactInput(name: string, relationshipType: string, contactFrequencyDays: int)

  /** The request body of interaction logging. */
  datatype InteractionInput = InteractionInput(contactId: int, date: Date, kind: string, notes: Option<string>)

  /** A contact as listed, with its interactions loaded. */
  datatype ContactView = ContactView(contact: Contact, interactions: seq<Interaction>)

  /** Inserts one contact for the current user, never contacted yet. */
  method CreateContact(db: Db, input: ContactInput) returns (contact: Contact)
    requires db.Valid()
    modifies db`contacts, db`nextContactId
    ensures db.Valid()
    ensures contact == Contact(old(db.nextContactId), CurrentUser, input.name, input.relationshipType,
                               None, input.contactFrequencyDays)
    ensures db.contacts == old(db.contacts) + [contact]
    ensures forall c :: c in old(db.contacts) ==> c.id != contact.id
  {
    contact := Contact(db.nextContactId, CurrentUser, input.name, input.relationshipType,
                       None, input.contactFrequencyDays);
    db.contacts := db.contacts + [contact];
    db.nextContactId := db.nextContactId + 1;
  }

  /** The current user's contacts in table order, each with every interaction
      that names it. */
  function GetContacts(db: Db): (r: seq<ContactView>)
    reads db
    ensures forall c :: (exists v :: v in r && v.contact == c) <==> c in db.contacts && c.userId == CurrentUser
    ensures forall v, x :: v in r ==> (x in v.interactions <==> x in db.interactions && x.contactId == v.contact.id)
  {
    var mine := Filter(db.contacts, (c: Contact) => c.userId == CurrentUser);
    var log := db.interactions;
    var r := seq(|mine|, i requires 0 <= i < |mine| =>
                 ContactView(mine[i], Filter(log, (x: Interaction) => x.contactId == mine[i].id)));
    assert forall c :: c in mine ==> exists v :: v in r && v.contact == c by {
      forall c | c in mine ensures exists v :: v in r && v.contact == c {
        var i :| 0 <= i < |mine| && mine[i] == c;
        assert r[i] in r;
      }
    }
    assert forall v :: v in r ==> v.interactions == Filter(log, (x: Interaction) => x.contactId == v.contact.id) by {
      forall v | v in r ensures v.interactions == Filter(log, (x: Interaction) => x.contactId == v.contact.id) {
        var i :| 0 <= i < |r| && r[i] == v;
      }
    }
    r
  }

  /** The last-contact date after an interaction on `date`: the later of the two,
      or `date` when there was none. */
  function LaterContact(last: Option<Date>, date: Date): (d: Date)
    ensures d >= date
    ensures last.Some? ==> d >= last.value
    ensures d == date || (last.Some? && d == last.value)
  {
    if last.None? || date > last.value then date else last.value
  }

  /** The contact table after an interaction with contact `contactId` on `date`. */
  predicate ContactTouched(before: seq<Contact>, after: seq<Contact>, contactId: int, date: Date)
  {
    && |after| == |before|
    && forall i :: 0 <= i < |after| ==>
         after[i] == if before[i].id == contactId
                     then before[i].(lastContactDate := Some(LaterContact(before[i].lastContactDate, date)))
                     else before[i]
  }

  /** Inserts the interaction, even for an unknown contact id, and moves the
      contact's last-contact date forward to the interaction's date when that is
      later. */
  method LogInteraction(db: Db, input: InteractionInput) returns (interaction: Interaction)
    requires db.Valid()
    modifies db`interactions, db`contacts, db`nextInteractionId
    ensures db.Valid()
    ensures interaction == Interaction(old(db.nextInteractionId), input.contactId, input.date, input.kind, input.notes)
    ensures db.interactions == old(db.interactions) + [interaction]
    ensures ContactTouched(old(db.contacts), db.contacts, input.contactId, input.date)
  {
    interaction := Interaction(db.nextInteractionId, input.contactId, input.date, input.kind, input.notes);

    var found := FirstIndex(db.contacts, (c: Contact) => c.id == input.contactId);
    if found.Some? {
      var k := found.value;
      var contact := db.contacts[k];
      if contact.lastContactDate.None? || input.date > contact.lastContactDate.value {
        db.contacts := db.contacts[k := contact.(lastContactDate := Some(input.date))];
      }
    }

    db.interactions := db.interactions + [interaction];
    db.nextInteractionId := db.nextInteractionId + 1;
  }

  /** An interaction never moves a last-contact date back: every contact's date
      after the call is at least its date before, an interaction dated on or
      before the stored date leaves the contact as it was, and only the named
      contact can change. */
  lemma {:induction false} LastContactMonotone(before: seq<Contact>, after: seq<Contact>, contactId: int, date: Date)
    requires ContactTouched(before, after, contactId, date)
    ensures forall i :: 0 <= i < |before| && before[i].lastContactDate.Some? ==>
              after[i].lastContactDate.Some? && after[i].lastContactDate.value >= before[i].lastContactDate.value
    ensures forall i :: 0 <= i < |before| && before[i].lastContactDate.Some? && date <= before[i].lastContactDate.value ==>
              after[i] == before[i]
    ensures forall i :: 0 <= i < |before| && before[i].id != contactId ==> after[i] == before[i]
    ensures forall i :: 0 <= i < |before| && before[i].id == contactId ==>
              after[i].lastContactDate.Some? && after[i].lastContactDate.value >= date
  {
    forall i | 0 <= i < |before| && before[i].lastContactDate.Some? && date <= before[i].lastContactDate.value
      ensures after[i] == before[i]
    {
      if before[i].id == contactId {
        assert LaterContact(before[i].lastContactDate, date) == before[i].lastContactDate.value;
        assert before[i].(lastContactDate := before[i].lastContactDate) == before[i];
      }
    }
  }
}
