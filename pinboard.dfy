/** The pinboard of components/Pinboard.tsx: searching, adding, updating
    and deleting saved answers (pins) and network contacts. Every update
    builds a fresh list; adds and updates hand it over sorted by title
    (pins) or name (contacts). */
module Pinboard {
  import opened Common
  import opened Strings
  import opened Lists
  import opened Types

  function PinTitle(p: Pin): string { p.title }
  function PinId(p: Pin): string { p.id }
  function ContactName(c: NetworkContact): string { c.name }
  function ContactId(c: NetworkContact): string { c.id }

  function PinMatches(query: string): Pin -> bool
  {
    (p: Pin) => Contains(Lower(p.title), query) || Contains(Lower(p.content), query)
  }

  /** filteredPins. */
  function SearchPins(pins: seq<Pin>, query: string): seq<Pin>
  {
    if query == "" then pins else Filter(pins, PinMatches(Lower(query)))
  }

  /** An empty query shows every pin; otherwise exactly the pins whose
      lowercased title or content contains the lowercased query, in their
      original order. */
  lemma SearchPinsSpec(pins: seq<Pin>, query: string)
    ensures query == "" ==> SearchPins(pins, query) == pins
    ensures Subseq(SearchPins(pins, query), pins)
    ensures query != "" ==> forall p :: p in SearchPins(pins, query) <==>
      p in pins && (Contains(Lower(p.title), Lower(query)) || Contains(Lower(p.content), Lower(query)))
  {
    if query == "" {
      SubseqRefl(pins);
    } else {
      FilterSubseq(pins, PinMatches(Lower(query)));
    }
  }

  lemma {:induction false} SubseqRefl<T(!new)>(xs: seq<T>)
    ensures Subseq(xs, xs)
  {
    if xs != [] {
      SubseqRefl(xs[1..]);
    }
  }

  function ContactMatches(query: string): NetworkContact -> bool
  {
    (c: NetworkContact) => Contains(Lower(c.name), query) || Contains(Lower(c.company), query)
                           || Contains(Lower(c.role), query) || Contains(Lower(c.notes), query)
  }

  /** filteredContacts. */
  function SearchContacts(contacts: seq<NetworkContact>, query: string): seq<NetworkContact>
  {
    if query == "" then contacts else Filter(contacts, ContactMatches(Lower(query)))
  }

  /** Contact search: the same rule over name, company, role and notes. */
  lemma SearchContactsSpec(contacts: seq<NetworkContact>, query: string)
    ensures query == "" ==> SearchContacts(contacts, query) == contacts
    ensures Subseq(SearchContacts(contacts, query), contacts)
    ensures query != "" ==> forall c :: c in SearchContacts(contacts, query) <==>
      c in contacts && (Contains(Lower(c.name), Lower(query)) || Contains(Lower(c.company), Lower(query))
                        || Contains(Lower(c.role), Lower(query)) || Contains(Lower(c.notes), Lower(query)))
  {
    if query == "" {
      SubseqRefl(contacts);
    } else {
      FilterSubseq(contacts, ContactMatches(Lower(query)));
    }
  }

  /** handleAddPin at instant `now`: nothing when the title or the content
      is blank; otherwise the old pins and one new pin with a time-based id,
      sorted by title. The title and content are stored untrimmed. */
  function AddPin(pins: seq<Pin>, title: string, content: string, now: nat): (r: Option<seq<Pin>>)
    ensures r.None? <==> IsBlank(title) || IsBlank(content)
    ensures r.Some? ==> SortedBy(r.value, PinTitle)
    ensures r.Some? ==>
      multiset(r.value) == multiset(pins) + multiset{Pin("pin-" + NatToString(now), title, content)}
  {
    TrimProperties(title);
    TrimProperties(content);
    if Trim(title) == "" || Trim(content) == "" then None
    else Some(SortBy(pins + [Pin("pin-" + NatToString(now), title, content)], PinTitle))
  }

  function PinIdIsNot(id: string): Pin -> bool
  {
    (p: Pin) => p.id != id
  }

  /** handleDeletePin. */
  function DeletePin(pins: seq<Pin>, id: string): seq<Pin>
  {
    Filter(pins, PinIdIsNot(id))
  }

  /** Deleting removes exactly the pins with that id and keeps every other
      pin, with its multiplicity, in order. */
  lemma DeletePinSpec(pins: seq<Pin>, id: string)
    ensures Subseq(DeletePin(pins, id), pins)
    ensures forall p: Pin :: p.id == id ==> p !in DeletePin(pins, id)
    ensures forall p: Pin :: p.id != id ==> multiset(DeletePin(pins, id))[p] == multiset(pins)[p]
  {
    FilterSubseq(pins, PinIdIsNot(id));
    FilterCounts(pins, PinIdIsNot(id));
  }

  /** The `map` of handleUpdatePin, before sorting. */
  function EditPins(pins: seq<Pin>, id: string, title: string, content: string): (r: seq<Pin>)
    ensures |r| == |pins|
    ensures forall i :: 0 <= i < |pins| ==> r[i].id == pins[i].id
    ensures forall i :: 0 <= i < |pins| ==>
      r[i] == if pins[i].id == id then Pin(id, title, content) else pins[i]
  {
    Map(pins, (p: Pin) => if p.id == id then p.(title := title, content := content) else p)
  }

  /** handleUpdatePin. */
  function UpdatePin(pins: seq<Pin>, id: string, title: string, content: string): seq<Pin>
  {
    SortBy(EditPins(pins, id, title, content), PinTitle)
  }

  /** Updating keeps the multiset of ids, hands the pins over sorted by
      title, and holds exactly the edited pins: the ones with the id carry
      the new title and content and every other pin is unchanged. */
  lemma UpdatePinSpec(pins: seq<Pin>, id: string, title: string, content: string)
    ensures var r := UpdatePin(pins, id, title, content);
      SortedBy(r, PinTitle) && multiset(Map(r, PinId)) == multiset(Map(pins, PinId))
    ensures multiset(UpdatePin(pins, id, title, content)) == multiset(EditPins(pins, id, title, content))
  {
    var edited := EditPins(pins, id, title, content);
    SortByMap(edited, PinTitle, PinId);
    assert Map(edited, PinId) == Map(pins, PinId);
  }

  /** The contact form: every field but the id. */
  datatype ContactDraft = ContactDraft(name: string, company: string, role: string,
                                       dateContacted: string, notes: string, event: string)

  /** handleAddContact at instant `now`: nothing when the name or company
      is blank; otherwise the old contacts and the new one, sorted by name. */
  function AddContact(contacts: seq<NetworkContact>, draft: ContactDraft, now: nat): (r: Option<seq<NetworkContact>>)
    ensures r.None? <==> IsBlank(draft.name) || IsBlank(draft.company)
    ensures r.Some? ==> SortedBy(r.value, ContactName)
    ensures r.Some? ==> multiset(r.value) == multiset(contacts) + multiset{
      NetworkContact("contact-" + NatToString(now), draft.name, draft.company, draft.role,
                     draft.dateContacted, draft.event, draft.notes)}
  {
    TrimProperties(draft.name);
    TrimProperties(draft.company);
    if Trim(draft.name) == "" || Trim(draft.company) == "" then None
    else
      var added := NetworkContact("contact-" + NatToString(now), draft.name, draft.company, draft.role,
                                  draft.dateContacted, draft.event, draft.notes);
      Some(SortBy(contacts + [added], ContactName))
  }

  /** The `map` of handleUpdateContact, before sorting. */
  function ReplaceContact(contacts: seq<NetworkContact>, updated: NetworkContact): (r: seq<NetworkContact>)
    ensures |r| == |contacts|
    ensures forall i :: 0 <= i < |contacts| ==>
      r[i] == if contacts[i].id == updated.id then updated else contacts[i]
  {
    Map(contacts, (c: NetworkContact) => if c.id == updated.id then updated else c)
  }

  /** handleUpdateContact. */
  function UpdateContact(contacts: seq<NetworkContact>, updated: NetworkContact): seq<NetworkContact>
  {
    SortBy(ReplaceContact(contacts, updated), ContactName)
  }

  /** Updating a contact replaces exactly the entries with its id, keeps
      the multiset of ids and hands the list over sorted by name. */
  lemma UpdateContactSpec(contacts: seq<NetworkContact>, updated: NetworkContact)
    ensures var r := UpdateContact(contacts, updated);
      SortedBy(r, ContactName) && multiset(r) == multiset(ReplaceContact(contacts, updated))
      && multiset(Map(r, ContactId)) == multiset(Map(contacts, ContactId))
  {
    var replaced := ReplaceContact(contacts, updated);
    SortByMap(replaced, ContactName, ContactId);
    assert Map(replaced, ContactId) == Map(contacts, ContactId);
  }

  function ContactIdIsNot(id: string): NetworkContact -> bool
  {
    (c: NetworkContact) => c.id != id
  }

  /** handleDeleteContact. */
  function DeleteContact(contacts: seq<NetworkContact>, id: string): seq<NetworkContact>
  {
    Filter(contacts, ContactIdIsNot(id))
  }

  lemma DeleteContactSpec(contacts: seq<NetworkContact>, id: string)
    ensures Subseq(DeleteContact(contacts, id), contacts)
    ensures forall c: NetworkContact :: c.id == id ==> c !in DeleteContact(contacts, id)
    ensures forall c: NetworkContact :: c.id != id ==> multiset(DeleteContact(contacts, id))[c] == multiset(contacts)[c]
  {
    FilterSubseq(contacts, ContactIdIsNot(id));
    FilterCounts(contacts, ContactIdIsNot(id));
  }
}
