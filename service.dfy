/** internal/service/contact.go: the identity resolver behind
    `POST /identify`. A request (email, phone number) is matched against
    the stored contacts; the resolver then creates a primary contact,
    attaches a secondary one, merges two clusters or only reads, and
    answers with the flattened cluster. */
module Service {
  import opened Wrappers
  import opened Storage
  import Strings
  import Pkg

  const PrimaryContact := "primary"
  const SecondaryContact := "secondary"

  /** The request's fields as a contact; everything else is zero. */
  function ToContact(rq: Pkg.ContactRequest): Contact
  {
    ZeroContact.(phoneNumber := rq.phoneNumber, email := rq.email)
  }

  /** The contact `identify` creates when nothing matches. */
  function NewPrimary(rq: Pkg.ContactRequest): Contact
  {
    ToContact(rq).(linkPrecedence := PrimaryContact)
  }

  /** The contact `helper` attaches when one of the fields is new. */
  function NewSecondary(rq: Pkg.ContactRequest, primaryID: int): Contact
  {
    ToContact(rq).(linkedID := primaryID, linkPrecedence := SecondaryContact)
  }

  /** The first contact's own id when it is labelled primary, else the id
      it links to. */
  function GetPrimaryContactID(contacts: seq<Contact>): int
    requires |contacts| > 0
  {
    if contacts[0].linkPrecedence == PrimaryContact then contacts[0].id else contacts[0].linkedID
  }

  predicate IsPrimary(c: Contact)
  {
    c.linkPrecedence == PrimaryContact
  }

  datatype Field = Email | Phone

  function FieldOf(c: Contact, f: Field): string
  {
    match f
    case Email => c.email
    case Phone => c.phoneNumber
  }

  /** How many contacts carry `v` in field `f` (`helper`'s `e` and `p`). */
  function CountMatches(cs: seq<Contact>, f: Field, v: string): (n: nat)
    ensures n <= |cs|
    ensures n == 0 <==> forall i :: 0 <= i < |cs| ==> FieldOf(cs[i], f) != v
  {
    if cs == [] then 0
    else CountMatches(cs[..|cs| - 1], f, v) + (if FieldOf(cs[|cs| - 1], f) == v then 1 else 0)
  }

  /** The index of the last contact labelled primary that carries `v` in
      field `f`, or -1 when there is none. */
  function LastPrimaryMatch(cs: seq<Contact>, f: Field, v: string): (k: int)
    ensures -1 <= k < |cs|
    ensures k >= 0 ==> IsPrimary(cs[k]) && FieldOf(cs[k], f) == v
    ensures forall j :: k < j < |cs| ==> !(IsPrimary(cs[j]) && FieldOf(cs[j], f) == v)
  {
    if cs == [] then -1
    else if IsPrimary(cs[|cs| - 1]) && FieldOf(cs[|cs| - 1], f) == v then |cs| - 1
    else LastPrimaryMatch(cs[..|cs| - 1], f, v)
  }

  /** `helper`'s `p1` (field Email) and `p2` (field Phone): that contact,
      or the zero contact. */
  function PrimaryMatch(cs: seq<Contact>, f: Field, v: string): Contact
  {
    var k := LastPrimaryMatch(cs, f, v);
    if k < 0 then ZeroContact else cs[k]
  }

  /** What `helper` does with the matched contacts. */
  datatype Decision =
    | ReadCluster(primaryID: int)
    | AttachSecondary(primaryID: int)
    | MergeClusters(older: Contact, newer: Contact)

  /** `helper`'s branches. A request missing a field only reads; a
      request whose email or phone number matches nothing gets a secondary
      contact; when both match and the last primary contacts matched by
      email and by phone differ, the later-created one is linked to the
      earlier one; otherwise the cluster is only read. */
  function Decide(req: Pkg.ContactRequest, contacts: seq<Contact>): (d: Decision)
    requires |contacts| > 0
    ensures req.email == "" || req.phoneNumber == "" ==> d.ReadCluster?
    ensures !d.MergeClusters? ==> d.primaryID == GetPrimaryContactID(contacts)
    ensures d.MergeClusters? ==> d.older.id != d.newer.id && d.older.createdAt <= d.newer.createdAt
  {
    if req.email == "" || req.phoneNumber == "" then ReadCluster(GetPrimaryContactID(contacts))
    else
      var p1 := PrimaryMatch(contacts, Email, req.email);
      var p2 := PrimaryMatch(contacts, Phone, req.phoneNumber);
      if CountMatches(contacts, Email, req.email) > 0 && CountMatches(contacts, Phone, req.phoneNumber) > 0 then
        if p1.id != 0 && p2.id != 0 && p1.id != p2.id then
          if p1.createdAt - p2.createdAt > 0 then MergeClusters(p2, p1) else MergeClusters(p1, p2)
        else ReadCluster(GetPrimaryContactID(contacts))
      else AttachSecondary(GetPrimaryContactID(contacts))
  }

  // ---------------------------------------------------------------------
  // toResponse

  /** The index of the last contact labelled primary, or -1. */
  function LastPrimary(cs: seq<Contact>): (k: int)
    ensures -1 <= k < |cs|
    ensures k >= 0 ==> IsPrimary(cs[k])
    ensures forall j :: k < j < |cs| ==> !IsPrimary(cs[j])
  {
    if cs == [] then -1
    else if IsPrimary(cs[|cs| - 1]) then |cs| - 1
    else LastPrimary(cs[..|cs| - 1])
  }

  /** The contact whose id, email and phone number `toResponse` keeps:
      the last one labelled primary, or the zero contact. */
  function PrimaryOf(cs: seq<Contact>): Contact
  {
    var k := LastPrimary(cs);
    if k < 0 then ZeroContact else cs[k]
  }

  function EmailSet(cs: seq<Contact>): (s: set<string>)
    ensures forall x :: x in s <==> exists i :: 0 <= i < |cs| && cs[i].email == x
  {
    if cs == [] then {} else EmailSet(cs[..|cs| - 1]) + {cs[|cs| - 1].email}
  }

  function PhoneSet(cs: seq<Contact>): (s: set<string>)
    ensures forall x :: x in s <==> exists i :: 0 <= i < |cs| && cs[i].phoneNumber == x
  {
    if cs == [] then {} else PhoneSet(cs[..|cs| - 1]) + {cs[|cs| - 1].phoneNumber}
  }

  /** The positions of the contacts not labelled primary, ascending:
      each such position exactly once. */
  function NonPrimaryIndices(cs: seq<Contact>): (idx: seq<int>)
    ensures |idx| <= |cs|
    ensures forall k :: 0 <= k < |idx| ==> 0 <= idx[k] < |cs| && !IsPrimary(cs[idx[k]])
    ensures forall k, l :: 0 <= k < l < |idx| ==> idx[k] < idx[l]
    ensures forall i :: 0 <= i < |cs| && !IsPrimary(cs[i]) ==> i in idx
  {
    if cs == [] then []
    else NonPrimaryIndices(cs[..|cs| - 1]) + (if IsPrimary(cs[|cs| - 1]) then [] else [|cs| - 1])
  }

  /** The ids of the contacts not labelled primary, in read order
      (`SecondaryIDsInOrder` states which, one per such contact). */
  function SecondaryIDs(cs: seq<Contact>): (ids: seq<int>)
    ensures |ids| <= |cs|
  {
    if cs == [] then []
    else SecondaryIDs(cs[..|cs| - 1]) + (if IsPrimary(cs[|cs| - 1]) then [] else [cs[|cs| - 1].id])
  }

  /** The response for a cluster: the primary's id; its email and phone
      number first (even when empty), then every other distinct value in
      ascending order; the other contacts' ids in read order. */
  ghost function Flatten(cs: seq<Contact>): (r: Pkg.Contact)
    ensures r.primaryContactID == PrimaryOf(cs).id
    ensures |r.emails| == |EmailSet(cs) + {PrimaryOf(cs).email}|
    ensures |r.phoneNumbers| == |PhoneSet(cs) + {PrimaryOf(cs).phoneNumber}|
    ensures |r.secondaryContactIDs| <= |cs|
  {
    var pc := PrimaryOf(cs);
    assert EmailSet(cs) + {pc.email} == (EmailSet(cs) - {pc.email}) + {pc.email};
    assert PhoneSet(cs) + {pc.phoneNumber} == (PhoneSet(cs) - {pc.phoneNumber}) + {pc.phoneNumber};
    Pkg.Contact(pc.id,
                [pc.email] + Strings.SortedSet(EmailSet(cs) - {pc.email}),
                [pc.phoneNumber] + Strings.SortedSet(PhoneSet(cs) - {pc.phoneNumber}),
                SecondaryIDs(cs))
  }

  /** `for k := range m` over a map used as a set: each key once, in an
      order the runtime chooses. */
  method Keys(s: set<string>) returns (ks: seq<string>)
    ensures Strings.NoDuplicates(ks)
    ensures forall x :: x in ks <==> x in s
  {
    ks := [];
    var rest := s;
    while rest != {}
      invariant rest <= s
      invariant Strings.NoDuplicates(ks)
      invariant forall x :: x in ks <==> x in s && x !in rest
      decreases |rest|
    {
      var k :| k in rest;
      ks := ks + [k];
      rest := rest - {k};
    }
  }

  lemma TakeOneMore(cs: seq<Contact>, i: int)
    requires 0 <= i < |cs|
    ensures cs[..i + 1] == cs[..i] + [cs[i]]
  {
  }

  /** What one more contact adds to each part of the response. */
  lemma ResponseSnoc(cs: seq<Contact>, c: Contact)
    ensures PrimaryOf(cs + [c]) == if IsPrimary(c) then c else PrimaryOf(cs)
    ensures SecondaryIDs(cs + [c]) == SecondaryIDs(cs) + (if IsPrimary(c) then [] else [c.id])
    ensures EmailSet(cs + [c]) == EmailSet(cs) + {c.email}
    ensures PhoneSet(cs + [c]) == PhoneSet(cs) + {c.phoneNumber}
  {
    assert (cs + [c])[..|cs|] == cs;
  }

  method ToResponse(contacts: seq<Contact>) returns (r: Pkg.Contact)
    ensures r == Flatten(contacts)
  {
    var primaryID, primaryEmail, primaryPhone := 0, "", "";
    var secondaryIDs: seq<int> := [];
    var emails: set<string> := {};
    var phones: set<string> := {};
    for i := 0 to |contacts|
      invariant primaryID == PrimaryOf(contacts[..i]).id
      invariant primaryEmail == PrimaryOf(contacts[..i]).email
      invariant primaryPhone == PrimaryOf(contacts[..i]).phoneNumber
      invariant secondaryIDs == SecondaryIDs(contacts[..i])
      invariant emails == EmailSet(contacts[..i]) && phones == PhoneSet(contacts[..i])
    {
      var c := contacts[i];
      TakeOneMore(contacts, i);
      ResponseSnoc(contacts[..i], c);
      if c.linkPrecedence == PrimaryContact {
        primaryID, primaryEmail, primaryPhone := c.id, c.email, c.phoneNumber;
      } else {
        secondaryIDs := secondaryIDs + [c.id];
      }
      emails := emails + {c.email};
      phones := phones + {c.phoneNumber};
    }
    assert contacts[..|contacts|] == contacts;
    emails := emails - {primaryEmail};
    phones := phones - {primaryPhone};
    var restEmails := Keys(emails);
    var restPhones := Keys(phones);
    Strings.SortDistinct(restEmails, emails);
    Strings.SortDistinct(restPhones, phones);
    var allEmails := [primaryEmail] + restEmails;
    var allPhones := [primaryPhone] + restPhones;
    assert allEmails[1..] == restEmails && allPhones[1..] == restPhones;
    r := Pkg.Contact(primaryID,
                     [allEmails[0]] + Strings.SortStrings(allEmails[1..]),
                     [allPhones[0]] + Strings.SortStrings(allPhones[1..]),
                     secondaryIDs);
  }

  // ---------------------------------------------------------------------
  // helper and identify over the database value

  /** `ListContactsByID` followed by `toResponse`. */
  ghost function ReadClusterOn(db: Db, primaryID: int): (Db, Result<Pkg.Contact, DbError>)
  {
    var (db1, read) := GetContactsByPrimaryIDOn(db, primaryID);
    if read.Err? then (db1, Err(read.error)) else (db1, Ok(Flatten(read.value)))
  }

  ghost function HelperOn(db: Db, req: Pkg.ContactRequest, contacts: seq<Contact>, now: int)
    : (Db, Result<Pkg.Contact, DbError>)
    requires |contacts| > 0
  {
    match Decide(req, contacts)
    case ReadCluster(pid) => ReadClusterOn(db, pid)
    case AttachSecondary(pid) =>
      var (db1, created) := CreateContactOn(db, NewSecondary(req, pid), now);
      if created.Err? then (db1, Err(created.error)) else ReadClusterOn(db1, pid)
    case MergeClusters(older, newer) =>
      var (db1, err1) := UpdatedContactsWithNewLinkedIDsOn(db, newer.id, older.id);
      if err1.Some? then (db1, Err(err1.value))
      else
        var (db2, err2) := UpdatedContactOn(db1, newer.id, older.id);
        if err2.Some? then (db2, Err(err2.value)) else ReadClusterOn(db2, older.id)
  }

  /** How `identify` fails: a 400 with the validation message, or a 500
      carrying the storage error (none when CreateContact failed for a
      new primary contact). */
  datatype Failure = BadRequest(message: string) | InternalError(cause: Option<DbError>)

  function Status(f: Failure): int
  {
    match f
    case BadRequest(_) => 400
    case InternalError(_) => 500
  }

  /** `identify` after the request is bound: `parses` stands for
      `mail.ParseAddress` succeeding, `now` for the database clock. */
  ghost function IdentifyOn(db: Db, req: Pkg.ContactRequest, parses: string -> bool, now: int)
    : (Db, Result<Pkg.Contact, Failure>)
  {
    var invalid := Pkg.Validate(req, parses);
    if invalid.Some? then (db, Err(BadRequest(Pkg.Message(invalid.value))))
    else
      var (db1, listed) := ListContactsOn(db, req.email, req.phoneNumber);
      if listed.Err? then (db1, Err(InternalError(Some(listed.error))))
      else if listed.value == [] then
        var c := NewPrimary(req);
        var (db2, id) := CreateContactOn(db1, c, now);
        if id.Err? then (db2, Err(InternalError(None)))
        else (db2, Ok(Pkg.Contact(id.value, [c.email], [c.phoneNumber], [])))
      else
        var (db2, resp) := HelperOn(db1, req, listed.value, now);
        if resp.Err? then (db2, Err(InternalError(Some(resp.error)))) else (db2, Ok(resp.value))
  }

  // ---------------------------------------------------------------------
  // The imperative code

  lemma CountMatchesSnoc(cs: seq<Contact>, x: Contact, f: Field, v: string)
    ensures CountMatches(cs + [x], f, v) == CountMatches(cs, f, v) + (if FieldOf(x, f) == v then 1 else 0)
  {
    assert (cs + [x])[..|cs|] == cs;
  }

  lemma PrimaryMatchSnoc(cs: seq<Contact>, x: Contact, f: Field, v: string)
    ensures PrimaryMatch(cs + [x], f, v) == if IsPrimary(x) && FieldOf(x, f) == v then x else PrimaryMatch(cs, f, v)
  {
    assert (cs + [x])[..|cs|] == cs;
  }

  /** `helper`'s `for _, v := range contacts` loop: counts the email and
      phone matches and remembers the last primary contact of each. */
  method Tally(req: Pkg.ContactRequest, contacts: seq<Contact>) returns (e: nat, p: nat, p1: Contact, p2: Contact)
    ensures e == CountMatches(contacts, Email, req.email)
    ensures p == CountMatches(contacts, Phone, req.phoneNumber)
    ensures p1 == PrimaryMatch(contacts, Email, req.email)
    ensures p2 == PrimaryMatch(contacts, Phone, req.phoneNumber)
  {
    e, p := 0, 0;
    p1, p2 := ZeroContact, ZeroContact;
    for i := 0 to |contacts|
      invariant e == CountMatches(contacts[..i], Email, req.email)
      invariant p == CountMatches(contacts[..i], Phone, req.phoneNumber)
      invariant p1 == PrimaryMatch(contacts[..i], Email, req.email)
      invariant p2 == PrimaryMatch(contacts[..i], Phone, req.phoneNumber)
    {
      var v := contacts[i];
      TakeOneMore(contacts, i);
      CountMatchesSnoc(contacts[..i], v, Email, req.email);
      CountMatchesSnoc(contacts[..i], v, Phone, req.phoneNumber);
      PrimaryMatchSnoc(contacts[..i], v, Email, req.email);
      PrimaryMatchSnoc(contacts[..i], v, Phone, req.phoneNumber);
      if req.email == v.email {
        if v.linkPrecedence == PrimaryContact {
          p1 := v;
        }
        e := e + 1;
      }
      if req.phoneNumber == v.phoneNumber {
        if v.linkPrecedence == PrimaryContact {
          p2 := v;
        }
        p := p + 1;
      }
    }
    assert contacts[..|contacts|] == contacts;
  }

  method Helper(s: ContactStorage, req: Pkg.ContactRequest, contacts: seq<Contact>, now: int)
    returns (r: Result<Pkg.Contact, DbError>)
    requires s.Valid() && |contacts| > 0
    modifies s
    ensures s.Valid()
    ensures (s.State(), r) == HelperOn(old(s.State()), req, contacts, now)
  {
    ghost var st0 := s.State();
    ghost var d := Decide(req, contacts);
    var primaryContactID: int;
    if req.email == "" || req.phoneNumber == "" {
      primaryContactID := GetPrimaryContactID(contacts);
    } else {
      var e, p, p1, p2 := Tally(req, contacts);
      if e > 0 && p > 0 {
        if p1.id != 0 && p2.id != 0 && p1.id != p2.id {
          var cc1, cc2;
          if p1.createdAt - p2.createdAt > 0 {
            cc2, cc1 := p1, p2;
          } else {
            cc2, cc1 := p2, p1;
          }
          assert d == MergeClusters(cc1, cc2);
          var err := s.UpdatedContactsWithNewLinkedIDs(cc2.id, cc1.id);
          if err.Some? {
            return Err(err.value);
          }
          ghost var st1 := s.State();
          err := s.UpdatedContact(cc2.id, cc1.id);
          if err.Some? {
            return Err(err.value);
          }
          assert (s.State(), None) == UpdatedContactOn(st1, cc2.id, cc1.id);
          primaryContactID := cc1.id;
        } else {
          primaryContactID := GetPrimaryContactID(contacts);
        }
      } else {
        primaryContactID := GetPrimaryContactID(contacts);
        assert d == AttachSecondary(primaryContactID);
        var c := ToContact(req);
        c := c.(linkedID := primaryContactID, linkPrecedence := SecondaryContact);
        assert c == NewSecondary(req, primaryContactID);
        var created := s.CreateContact(c, now);
        if created.Err? {
          return Err(created.error);
        }
      }
    }
    assert HelperOn(st0, req, contacts, now) == ReadClusterOn(s.State(), primaryContactID);
    var allContacts := s.GetContactsByPrimaryID(primaryContactID);
    if allContacts.Err? {
      return Err(allContacts.error);
    }
    var resp := ToResponse(allContacts.value);
    return Ok(resp);
  }

  method Identify(s: ContactStorage, req: Pkg.ContactRequest, parses: string -> bool, now: int)
    returns (r: Result<Pkg.Contact, Failure>)
    requires s.Valid()
    modifies s
    ensures s.Valid()
    ensures (s.State(), r) == IdentifyOn(old(s.State()), req, parses, now)
  {
    var invalid := Pkg.Validate(req, parses);
    if invalid.Some? {
      return Err(BadRequest(Pkg.Message(invalid.value)));
    }
    var contacts := s.ListContacts(req.email, req.phoneNumber);
    if contacts.Err? {
      return Err(InternalError(Some(contacts.error)));
    }
    if |contacts.value| == 0 {
      var contact := ToContact(req);
      contact := contact.(linkPrecedence := PrimaryContact);
      var id := s.CreateContact(contact, now);
      if id.Err? {
        return Err(InternalError(None));
      }
      return Ok(Pkg.Contact(id.value, [contact.email], [contact.phoneNumber], []));
    }
    var resp := Helper(s, req, contacts.value, now);
    if resp.Err? {
      return Err(InternalError(Some(resp.error)));
    }
    return Ok(resp.value);
  }
}
