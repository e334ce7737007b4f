/** What the resolver in internal/service/contact.go guarantees, and where
    the code as written departs from what it evidently intends (the older
    primary chosen as `primaryContactID` at internal/service/contact.go:114). */
module ServiceProperties {
  import opened Wrappers
  import opened Storage
  import opened Service
  import Strings
  import Pkg

  // ---------------------------------------------------------------------
  // helper's decision

  /** A secondary contact is attached exactly when both fields are given
      and one of them matches no contact. */
  lemma AttachIff(req: Pkg.ContactRequest, contacts: seq<Contact>)
    requires |contacts| > 0
    ensures Decide(req, contacts).AttachSecondary? <==>
      req.email != "" && req.phoneNumber != ""
      && ((forall i :: 0 <= i < |contacts| ==> contacts[i].email != req.email)
          || (forall i :: 0 <= i < |contacts| ==> contacts[i].phoneNumber != req.phoneNumber))
  {
    assert forall i :: 0 <= i < |contacts| ==> FieldOf(contacts[i], Email) == contacts[i].email;
    assert forall i :: 0 <= i < |contacts| ==> FieldOf(contacts[i], Phone) == contacts[i].phoneNumber;
  }

  /** Two clusters are merged exactly when both fields are given, a
      contact labelled primary matches each, and the last such contacts
      differ (ids of stored contacts are never 0). */
  lemma MergeIff(req: Pkg.ContactRequest, contacts: seq<Contact>)
    requires |contacts| > 0
    requires forall i :: 0 <= i < |contacts| ==> contacts[i].id != 0
    ensures Decide(req, contacts).MergeClusters? <==>
      req.email != "" && req.phoneNumber != ""
      && LastPrimaryMatch(contacts, Email, req.email) >= 0
      && LastPrimaryMatch(contacts, Phone, req.phoneNumber) >= 0
      && PrimaryMatch(contacts, Email, req.email).id != PrimaryMatch(contacts, Phone, req.phoneNumber).id
  {
    PrimaryMatchFound(contacts, Email, req.email);
    PrimaryMatchFound(contacts, Phone, req.phoneNumber);
  }

  /** With no contact of id 0, `p1`/`p2` has a non-zero id exactly when a
      matching primary exists, and then the field's count is positive. */
  lemma PrimaryMatchFound(cs: seq<Contact>, f: Field, v: string)
    requires forall i :: 0 <= i < |cs| ==> cs[i].id != 0
    ensures PrimaryMatch(cs, f, v).id != 0 <==> LastPrimaryMatch(cs, f, v) >= 0
    ensures LastPrimaryMatch(cs, f, v) >= 0 ==> CountMatches(cs, f, v) > 0
  {
  }

  /** The merged pair is the last primary matched by email and the last
      primary matched by phone; the one created first survives, and on a
      tie the email match survives. */
  lemma MergeKeepsOlder(req: Pkg.ContactRequest, contacts: seq<Contact>)
    requires |contacts| > 0 && Decide(req, contacts).MergeClusters?
    ensures var d := Decide(req, contacts);
      var p1 := PrimaryMatch(contacts, Email, req.email);
      var p2 := PrimaryMatch(contacts, Phone, req.phoneNumber);
      req.email != "" && req.phoneNumber != ""
      && ((d.older, d.newer) == (p1, p2) || (d.older, d.newer) == (p2, p1))
      && d.older.id != d.newer.id
      && d.older.createdAt <= d.newer.createdAt
      && (d.older.createdAt == d.newer.createdAt ==> d.older == p1)
      && IsPrimary(d.older) && IsPrimary(d.newer)
      && d.older in contacts && d.newer in contacts
  {
  }

  // ---------------------------------------------------------------------
  // identify and helper over the database

  /** An invalid request is answered 400 before any statement is sent. */
  lemma InvalidRequestSendsNothing(db: Db, req: Pkg.ContactRequest, parses: string -> bool, now: int)
    requires Pkg.Validate(req, parses).Some?
    ensures var (db', r) := IdentifyOn(db, req, parses, now);
      db' == db && r.Err? && Status(r.error) == 400
      && r.error.message == Pkg.Message(Pkg.Validate(req, parses).value)
  {
  }

  /** A valid request that matches nothing stores one new primary contact
      and answers with its id, email and phone number. */
  lemma NoMatchCreatesPrimary(db: Db, req: Pkg.ContactRequest, parses: string -> bool, now: int)
    requires db.Valid() && Reliable(db, 2)
    requires Pkg.Validate(req, parses).None?
    requires MatchingRows(db.rows, req.email, req.phoneNumber) == []
    ensures var (db', r) := IdentifyOn(db, req, parses, now);
      r == Ok(Pkg.Contact(db.nextID, [req.email], [req.phoneNumber], []))
      && db'.nextID == db.nextID + 1
      && db'.rows == db.rows + [Row(db.nextID,
                                    if req.phoneNumber == "" then None else Some(req.phoneNumber),
                                    if req.email == "" then None else Some(req.email),
                                    None, Some(PrimaryContact), now)]
  {
    var s := SelectByEmailOrPhone(req.email, req.phoneNumber);
    ReliableSend(db, s, 1);
    ReliableSend(db.Send(s), Insert([], []), 0);
    var c := NewPrimary(req);
    InsertStoresFields(c, db.nextID, now);
    assert Assignments(c) != [] by {
      LookupAssignments(c, "link_precedence");
    }
  }

  /** The INSERT sent for a new primary contact with both fields, and the
      values it binds, in `CreateContact`'s column order. */
  lemma NewPrimaryInsertText(req: Pkg.ContactRequest)
    requires req.email != "" && req.phoneNumber != ""
    ensures var a := Assignments(NewPrimary(req));
      var s := Insert(Clauses(a), Params(a));
      Query(s) == "INSERT INTO contact SET " + Strings.Join(["email = ?", "phone_number = ?", "link_precedence = ?"], ", ")
      && Args(s) == [Text(req.email), Text(req.phoneNumber), Text(PrimaryContact)]
  {
    var a := Assignments(NewPrimary(req));
    assert a == [("email", Text(req.email)), ("phone_number", Text(req.phoneNumber)), ("link_precedence", Text(PrimaryContact))];
    ClausesOf(a, ["email = ?", "phone_number = ?", "link_precedence = ?"]);
  }

  /** The INSERT sent for a new secondary contact: the link comes before
      the label. */
  lemma NewSecondaryInsertText(req: Pkg.ContactRequest, primaryID: int)
    requires req.email != "" && req.phoneNumber != "" && primaryID != 0
    ensures var a := Assignments(NewSecondary(req, primaryID));
      var s := Insert(Clauses(a), Params(a));
      Query(s) == "INSERT INTO contact SET "
                  + Strings.Join(["email = ?", "phone_number = ?", "linked_id = ?", "link_precedence = ?"], ", ")
      && Args(s) == [Text(req.email), Text(req.phoneNumber), Integer(primaryID), Text(SecondaryContact)]
  {
    var a := Assignments(NewSecondary(req, primaryID));
    assert a == [("email", Text(req.email)), ("phone_number", Text(req.phoneNumber)),
                 ("linked_id", Integer(primaryID)), ("link_precedence", Text(SecondaryContact))];
    ClausesOf(a, ["email = ?", "phone_number = ?", "linked_id = ?", "link_precedence = ?"]);
  }

  /** The clauses of known assignments. */
  lemma ClausesOf(a: seq<(string, SqlValue)>, q: seq<string>)
    requires |a| == |q| && forall i :: 0 <= i < |a| ==> a[i].0 + " = ?" == q[i]
    ensures Clauses(a) == q
  {
  }

  /** A request missing a field sends only the cluster read. */
  lemma PartialRequestOnlyReads(db: Db, req: Pkg.ContactRequest, contacts: seq<Contact>, now: int)
    requires |contacts| > 0 && (req.email == "" || req.phoneNumber == "")
    ensures var db' := HelperOn(db, req, contacts, now).0;
      db'.rows == db.rows && db'.nextID == db.nextID
      && db'.log == db.log + [SelectByPrimaryID(GetPrimaryContactID(contacts))]
  {
  }

  /** When both fields match some contact, nothing is inserted. */
  lemma BothMatchedNeverInserts(db: Db, req: Pkg.ContactRequest, contacts: seq<Contact>, now: int)
    requires |contacts| > 0 && req.email != "" && req.phoneNumber != ""
    requires exists i :: 0 <= i < |contacts| && contacts[i].email == req.email
    requires exists i :: 0 <= i < |contacts| && contacts[i].phoneNumber == req.phoneNumber
    ensures var db' := HelperOn(db, req, contacts, now).0;
      |db'.rows| == |db.rows| && db'.nextID == db.nextID
      && forall k :: |db.log| <= k < |db'.log| ==> !db'.log[k].Insert?
  {
    AttachIff(req, contacts);
    var db' := HelperOn(db, req, contacts, now).0;
    match Decide(req, contacts)
    case ReadCluster(pid) =>
      ReadClusterState(db, pid);
      assert db'.log == db.log + [SelectByPrimaryID(pid)];
    case MergeClusters(older, newer) =>
      var o, n := older.id, newer.id;
      var db1 := UpdatedContactsWithNewLinkedIDsOn(db, n, o).0;
      assert db1.log == db.log + [UpdateLinkedWhereLinked(o, n)];
      var db2 := UpdatedContactOn(db1, n, o).0;
      assert db2.log == db1.log + [UpdateLinkedWhereID(o, n)];
      ReadClusterState(db2, o);
  }

  /** The attached secondary carries the request's fields and links to
      the id `getPrimaryContactID` picks (NULL when that id is 0). */
  lemma AttachAppendsSecondary(db: Db, req: Pkg.ContactRequest, contacts: seq<Contact>, now: int)
    requires db.Valid() && Reliable(db, 1) && |contacts| > 0
    requires Decide(req, contacts).AttachSecondary?
    ensures var pid := GetPrimaryContactID(contacts);
      var db' := HelperOn(db, req, contacts, now).0;
      req.email != "" && req.phoneNumber != ""
      && db'.nextID == db.nextID + 1
      && db'.rows == db.rows + [Row(db.nextID, Some(req.phoneNumber), Some(req.email),
                                    if pid == 0 then None else Some(pid), Some(SecondaryContact), now)]
  {
    var pid := GetPrimaryContactID(contacts);
    var c := NewSecondary(req, pid);
    InsertStoresFields(c, db.nextID, now);
    assert Assignments(c) != [] by {
      LookupAssignments(c, "link_precedence");
    }
  }

  /** A merge re-links the newer contact's cluster, then the newer
      contact itself, to the older one: afterwards the older cluster holds
      exactly what both clusters held. No row changes its id or label. */
  lemma MergeJoinsClusters(db: Db, req: Pkg.ContactRequest, contacts: seq<Contact>, now: int)
    requires |contacts| > 0 && Reliable(db, 2)
    requires Decide(req, contacts).MergeClusters?
    ensures var d := Decide(req, contacts);
      var o, n := d.older.id, d.newer.id;
      var db' := HelperOn(db, req, contacts, now).0;
      db'.rows == SetLinkedID(Relinked(db.rows, n, o), n, o)
      && db'.nextID == db.nextID
      && |db'.rows| == |db.rows|
      && forall i :: 0 <= i < |db.rows| ==>
           (InCluster(db'.rows[i], o) <==> InCluster(db.rows[i], o) || InCluster(db.rows[i], n))
           && db'.rows[i].id == db.rows[i].id
           && db'.rows[i].linkPrecedence == db.rows[i].linkPrecedence
  {
    var d := Decide(req, contacts);
    var o, n := d.older.id, d.newer.id;
    MergeRows(db, req, contacts, now);
    MergedCluster(db.rows, n, o);
  }

  /** The newer primary's rows are linked to the older one but keep their
      label: the statement sets `linked_id` only, so the merged cluster
      holds two rows labelled primary whenever both were stored. */
  lemma MergeKeepsNewerLabel(db: Db, req: Pkg.ContactRequest, contacts: seq<Contact>, now: int)
    requires |contacts| > 0 && Reliable(db, 2)
    requires Decide(req, contacts).MergeClusters?
    ensures var d := Decide(req, contacts);
      var db' := HelperOn(db, req, contacts, now).0;
      |db'.rows| == |db.rows|
      && forall i :: 0 <= i < |db.rows| && db.rows[i].id == d.newer.id ==>
        db'.rows[i].linkedID == Some(d.older.id) && db'.rows[i].linkPrecedence == db.rows[i].linkPrecedence
  {
    MergeRows(db, req, contacts, now);
  }

  /** With both statements succeeding, a merge leaves the table re-linked
      twice and the id counter as it was. */
  lemma MergeRows(db: Db, req: Pkg.ContactRequest, contacts: seq<Contact>, now: int)
    requires |contacts| > 0 && Reliable(db, 2)
    requires Decide(req, contacts).MergeClusters?
    ensures var d := Decide(req, contacts);
      var db' := HelperOn(db, req, contacts, now).0;
      db'.rows == SetLinkedID(Relinked(db.rows, d.newer.id, d.older.id), d.newer.id, d.older.id)
      && db'.nextID == db.nextID
  {
    var d := Decide(req, contacts);
    var o, n := d.older.id, d.newer.id;
    var s1 := UpdateLinkedWhereLinked(o, n);
    ReliableSend(db, s1, 1);
    var db1 := db.Send(s1).(rows := Relinked(db.rows, n, o));
    assert UpdatedContactsWithNewLinkedIDsOn(db, n, o) == (db1, None);
    ReliableSend(db.Send(s1), UpdateLinkedWhereID(o, n), 0);
    assert db1.NextFault().None?;
    var db2 := db1.Send(UpdateLinkedWhereID(o, n)).(rows := SetLinkedID(db1.rows, n, o));
    assert UpdatedContactOn(db1, n, o) == (db2, None);
    ReadClusterState(db2, o);
  }

  lemma ReadClusterState(db: Db, pid: int)
    ensures ReadClusterOn(db, pid).0 == db.Send(SelectByPrimaryID(pid))
  {
  }

  /** Re-linking the newer cluster and then the newer contact to the older
      one puts a row in the older cluster exactly when it was in either. */
  lemma MergedCluster(rows: seq<Row>, n: int, o: int)
    ensures var rows' := SetLinkedID(Relinked(rows, n, o), n, o);
      |rows'| == |rows|
      && forall i :: 0 <= i < |rows| ==>
           (InCluster(rows'[i], o) <==> InCluster(rows[i], o) || InCluster(rows[i], n))
           && rows'[i].id == rows[i].id
           && rows'[i].linkPrecedence == rows[i].linkPrecedence
  {
  }

  /** With both updates and the read succeeding, a merge answers the
      joined cluster as read from the re-linked table. */
  lemma MergeAnswer(db: Db, req: Pkg.ContactRequest, contacts: seq<Contact>, now: int)
    requires |contacts| > 0 && Reliable(db, 3)
    requires Decide(req, contacts).MergeClusters?
    ensures var d := Decide(req, contacts);
      var o, n := d.older.id, d.newer.id;
      HelperOn(db, req, contacts, now).1
        == match ScanAll(ClusterRows(SetLinkedID(Relinked(db.rows, n, o), n, o), o))
           case Err(e) => Err(e)
           case Ok(cs) => Ok(Flatten(cs))
  {
    var d := Decide(req, contacts);
    var db2 := ReliableMerge(db, d.newer.id, d.older.id);
    ReliableSend(db2, SelectByPrimaryID(d.older.id), 0);
  }

  /** Both merge statements succeed on a database that lets three
      statements through, leaving one more reliable statement. */
  lemma ReliableMerge(db: Db, n: int, o: int) returns (db2: Db)
    requires Reliable(db, 3)
    ensures var (db1, err1) := UpdatedContactsWithNewLinkedIDsOn(db, n, o);
      err1.None? && UpdatedContactOn(db1, n, o) == (db2, None)
    ensures db2.rows == SetLinkedID(Relinked(db.rows, n, o), n, o) && Reliable(db2, 1)
  {
    var s1 := UpdateLinkedWhereLinked(o, n);
    ReliableSend(db, s1, 2);
    var db1 := db.Send(s1).(rows := Relinked(db.rows, n, o));
    assert UpdatedContactsWithNewLinkedIDsOn(db, n, o) == (db1, None);
    ReliableSend(db.Send(s1), UpdateLinkedWhereID(o, n), 1);
    assert db1.NextFault().None? && Reliable(db1.Send(UpdateLinkedWhereID(o, n)), 1);
    db2 := db1.Send(UpdateLinkedWhereID(o, n)).(rows := SetLinkedID(db1.rows, n, o));
  }

  /** The read of a cluster reports, as its primary, the last row of the
      cluster in table order that is labelled primary. */
  lemma {:induction false} LastPrimaryRowAnswers(rows: seq<Row>, id: int, j: int)
    requires forall i :: 0 <= i < |rows| ==> rows[i].linkPrecedence.Some?
    requires 0 <= j < |rows| && InCluster(rows[j], id) && rows[j].linkPrecedence == Some(PrimaryContact)
    requires forall i :: j < i < |rows| && InCluster(rows[i], id) ==> rows[i].linkPrecedence != Some(PrimaryContact)
    ensures ScanAll(ClusterRows(rows, id)).Ok?
    ensures PrimaryOf(ScanAll(ClusterRows(rows, id)).value).id == rows[j].id
    decreases |rows|
  {
    var init, last := rows[..|rows| - 1], rows[|rows| - 1];
    assert rows == init + [last];
    ClusterPrimarySnoc(init, last, id);
    if j < |rows| - 1 {
      LastPrimaryRowAnswers(init, id, j);
    }
  }

  /** One more row changes the primary a cluster read reports exactly
      when the row is in the cluster and labelled primary. */
  lemma ClusterPrimarySnoc(init: seq<Row>, last: Row, id: int)
    requires forall i :: 0 <= i < |init| ==> init[i].linkPrecedence.Some?
    requires last.linkPrecedence.Some?
    ensures ScanAll(ClusterRows(init, id)).Ok? && ScanAll(ClusterRows(init + [last], id)).Ok?
    ensures PrimaryOf(ScanAll(ClusterRows(init + [last], id)).value)
      == if InCluster(last, id) && last.linkPrecedence == Some(PrimaryContact) then ScanRow(last).value
         else PrimaryOf(ScanAll(ClusterRows(init, id)).value)
  {
    ClusterRowsSnoc(init, last, id);
    var sel := ClusterRows(init, id);
    forall i | 0 <= i < |sel| ensures sel[i].linkPrecedence.Some? {
      assert sel[i] in init;
    }
    assert ScanAll(sel).Ok?;
    var cs0, c := ScanAll(sel).value, ScanRow(last).value;
    if InCluster(last, id) {
      ScanAllSnoc(sel, last);
      ResponseSnoc(cs0, c);
      assert ScanAll(ClusterRows(init + [last], id)) == Ok(cs0 + [c]);
      assert IsPrimary(c) <==> last.linkPrecedence == Some(PrimaryContact);
    } else {
      assert ClusterRows(init + [last], id) == sel;
    }
  }

  /** As written, a merge answers with the NEWER primary: its row keeps the
      primary label, so when it is the last row of the joined cluster
      labelled primary, `toResponse` reports its id as the primary contact
      and does not list it as a secondary. */
  lemma MergeAnswersNewer(db: Db, req: Pkg.ContactRequest, contacts: seq<Contact>, now: int, j: int)
    requires |contacts| > 0 && Reliable(db, 3) && db.Valid() && Linked(db.rows)
    requires Decide(req, contacts).MergeClusters?
    requires var d := Decide(req, contacts);
      0 <= j < |db.rows| && db.rows[j].id == d.newer.id && db.rows[j].linkPrecedence == Some(PrimaryContact)
      && forall i :: j < i < |db.rows| && (InCluster(db.rows[i], d.older.id) || InCluster(db.rows[i], d.newer.id))
           ==> db.rows[i].linkPrecedence != Some(PrimaryContact)
    ensures var d := Decide(req, contacts);
      var r := HelperOn(db, req, contacts, now).1;
      r.Ok? && r.value.primaryContactID == d.newer.id && d.newer.id !in r.value.secondaryContactIDs
  {
    var d := Decide(req, contacts);
    var o, n := d.older.id, d.newer.id;
    MergeAnswer(db, req, contacts, now);
    MergedReadAnswersNewer(db.rows, n, o, j);
    FlattenShape(ScanAll(ClusterRows(SetLinkedID(Relinked(db.rows, n, o), n, o), o)).value);
  }

  /** The table-level half of `MergeAnswersNewer`. */
  lemma MergedReadAnswersNewer(rows: seq<Row>, n: int, o: int, j: int)
    requires forall i :: 0 <= i < |rows| ==> rows[i].linkPrecedence.Some?
    requires forall i, k :: 0 <= i < k < |rows| ==> rows[i].id < rows[k].id
    requires 0 <= j < |rows| && rows[j].id == n && rows[j].linkPrecedence == Some(PrimaryContact)
    requires forall i :: j < i < |rows| && (InCluster(rows[i], o) || InCluster(rows[i], n))
               ==> rows[i].linkPrecedence != Some(PrimaryContact)
    ensures var r := ScanAll(ClusterRows(SetLinkedID(Relinked(rows, n, o), n, o), o));
      r.Ok? && PrimaryOf(r.value).id == n && n !in SecondaryIDs(r.value)
  {
    var rows' := SetLinkedID(Relinked(rows, n, o), n, o);
    MergedRows(rows, n, o, j);
    ClusterReadAnswers(rows', o, j);
  }

  /** When row `j` is the last row of a cluster labelled primary, the read
      of the cluster reports it as the primary and not as a secondary. */
  lemma ClusterReadAnswers(rows: seq<Row>, id: int, j: int)
    requires forall i :: 0 <= i < |rows| ==> rows[i].linkPrecedence.Some?
    requires forall i, k :: 0 <= i < k < |rows| ==> rows[i].id < rows[k].id
    requires 0 <= j < |rows| && InCluster(rows[j], id) && rows[j].linkPrecedence == Some(PrimaryContact)
    requires forall i :: j < i < |rows| && InCluster(rows[i], id) ==> rows[i].linkPrecedence != Some(PrimaryContact)
    ensures var r := ScanAll(ClusterRows(rows, id));
      r.Ok? && PrimaryOf(r.value).id == rows[j].id && rows[j].id !in SecondaryIDs(r.value)
  {
    LastPrimaryRowAnswers(rows, id, j);
    PrimaryRowNotSecondary(rows, ClusterRows(rows, id), j);
  }

  /** After the merge, row `j` is in the older cluster and keeps its id
      and label, and no later row of that cluster is labelled primary. */
  lemma MergedRows(rows: seq<Row>, n: int, o: int, j: int)
    requires forall i :: 0 <= i < |rows| ==> rows[i].linkPrecedence.Some?
    requires forall i, k :: 0 <= i < k < |rows| ==> rows[i].id < rows[k].id
    requires 0 <= j < |rows| && rows[j].id == n && rows[j].linkPrecedence == Some(PrimaryContact)
    requires forall i :: j < i < |rows| && (InCluster(rows[i], o) || InCluster(rows[i], n))
               ==> rows[i].linkPrecedence != Some(PrimaryContact)
    ensures var rows' := SetLinkedID(Relinked(rows, n, o), n, o);
      |rows'| == |rows|
      && (forall i :: 0 <= i < |rows'| ==> rows'[i].linkPrecedence.Some?)
      && (forall i, k :: 0 <= i < k < |rows'| ==> rows'[i].id < rows'[k].id)
      && InCluster(rows'[j], o) && rows'[j].linkPrecedence == Some(PrimaryContact) && rows'[j].id == n
      && (forall i :: j < i < |rows'| && InCluster(rows'[i], o) ==> rows'[i].linkPrecedence != Some(PrimaryContact))
  {
    var rows' := SetLinkedID(Relinked(rows, n, o), n, o);
    MergedCluster(rows, n, o);
    assert SameLabels(rows, rows');
    forall i, k | 0 <= i < k < |rows'| ensures rows'[i].id < rows'[k].id {
      assert rows'[i].id == rows[i].id && rows'[k].id == rows[k].id;
    }
    assert InCluster(rows[j], n);
    forall i | j < i < |rows'| && InCluster(rows'[i], o)
      ensures rows'[i].linkPrecedence != Some(PrimaryContact)
    {
      assert InCluster(rows[i], o) || InCluster(rows[i], n);
      assert rows'[i].linkPrecedence == rows[i].linkPrecedence;
    }
  }

  /** A row labelled primary is not listed as a secondary by any read of
      the table, ids being unique. */
  lemma PrimaryRowNotSecondary(rows: seq<Row>, sel: seq<Row>, j: int)
    requires forall i, k :: 0 <= i < k < |rows| ==> rows[i].id < rows[k].id
    requires 0 <= j < |rows| && rows[j].linkPrecedence == Some(PrimaryContact)
    requires forall r :: r in sel ==> r in rows
    requires ScanAll(sel).Ok?
    ensures rows[j].id !in SecondaryIDs(ScanAll(sel).value)
  {
    var cs := ScanAll(sel).value;
    SecondaryIDsAreNonPrimaries(cs);
    forall i | 0 <= i < |cs| && cs[i].id == rows[j].id ensures IsPrimary(cs[i]) {
      assert sel[i] in rows;
      var k :| 0 <= k < |rows| && rows[k] == sel[i];
      assert rows[k].id == rows[j].id;
    }
  }

  // ---------------------------------------------------------------------
  // A merge of two primaries, 1 (a@x.com/100, older) and 2 (b@x.com/200),
  // by the request (a@x.com, 200), as the code runs it

  /** Two primaries, a@x.com/100 created first and b@x.com/200 created
      later; the later one links to `link`. */
  function ScenarioRows(link: Option<int>): seq<Row>
  {
    [Row(1, Some("100"), Some("a@x.com"), None, Some(PrimaryContact), 1),
     Row(2, Some("200"), Some("b@x.com"), link, Some(PrimaryContact), 2)]
  }

  /** The contacts those rows read as. */
  function ScenarioContacts(link: Option<int>): seq<Contact>
  {
    [Contact(1, "100", "a@x.com", 0, PrimaryContact, 1),
     Contact(2, "200", "b@x.com", OrZero(link), PrimaryContact, 2)]
  }

  /** Reading those rows, whichever statement selected both of them. */
  lemma ScenarioScan(link: Option<int>)
    ensures ScanAll(ScenarioRows(link)) == Ok(ScenarioContacts(link))
  {
    var rows, cs := ScenarioRows(link), ScenarioContacts(link);
    var noRows: seq<Row>, noContacts: seq<Contact> := [], [];
    assert noRows + [rows[0]] == [rows[0]] && noContacts + [cs[0]] == [cs[0]];
    assert [rows[0]] + [rows[1]] == rows && [cs[0]] + [cs[1]] == cs;
    ScanAllSnoc(noRows, rows[0]);
    ScanAllSnoc([rows[0]], rows[1]);
  }

  /** (a@x.com, 200) selects both rows. */
  lemma ScenarioMatches(link: Option<int>)
    ensures MatchingRows(ScenarioRows(link), "a@x.com", "200") == ScenarioRows(link)
  {
    var rows := ScenarioRows(link);
    var noRows: seq<Row> := [];
    assert noRows + [rows[0]] == [rows[0]] && [rows[0]] + [rows[1]] == rows;
    MatchingRowsSnoc(noRows, rows[0], "a@x.com", "200");
    MatchingRowsSnoc([rows[0]], rows[1], "a@x.com", "200");
  }

  /** The cluster of 1, once 2 links to it, is both rows. */
  lemma ScenarioCluster()
    ensures ClusterRows(ScenarioRows(Some(1)), 1) == ScenarioRows(Some(1))
  {
    var rows := ScenarioRows(Some(1));
    var noRows: seq<Row> := [];
    assert noRows + [rows[0]] == [rows[0]] && [rows[0]] + [rows[1]] == rows;
    ClusterRowsSnoc(noRows, rows[0], 1);
    ClusterRowsSnoc([rows[0]], rows[1], 1);
  }

  /** p1 is contact 1 and p2 is contact 2, and 1 is the older. */
  lemma ScenarioDecide(link: Option<int>)
    ensures var cs := ScenarioContacts(link);
      Decide(Pkg.ContactRequest("a@x.com", "200"), cs) == MergeClusters(cs[0], cs[1])
  {
    var cs := ScenarioContacts(link);
    assert "a@x.com"[0] != "b@x.com"[0] && "100"[0] != "200"[0];
    var noContacts: seq<Contact> := [];
    assert noContacts + [cs[0]] == [cs[0]] && [cs[0]] + [cs[1]] == cs;
    PrimaryMatchSnoc(noContacts, cs[0], Email, "a@x.com");
    PrimaryMatchSnoc([cs[0]], cs[1], Email, "a@x.com");
    PrimaryMatchSnoc(noContacts, cs[0], Phone, "200");
    PrimaryMatchSnoc([cs[0]], cs[1], Phone, "200");
    assert FieldOf(cs[0], Email) == "a@x.com" && FieldOf(cs[1], Phone) == "200";
  }

  /** Neither update finds anything but row 2 to change. */
  lemma ScenarioUpdates(link: Option<int>)
    requires link == None || link == Some(1)
    ensures SetLinkedID(Relinked(ScenarioRows(link), 2, 1), 2, 1) == ScenarioRows(Some(1))
  {
    assert Relinked(ScenarioRows(link), 2, 1) == ScenarioRows(link);
  }

  /** The flattened cluster: 2 is the last row labelled primary. */
  lemma ScenarioFlatten(cs: seq<Contact>)
    requires cs == ScenarioContacts(Some(1))
    ensures Flatten(cs) == Pkg.Contact(2, ["b@x.com", "a@x.com"], ["200", "100"], [])
  {
    ScenarioSets();
    var a, b, ph1, ph2 := "a@x.com", "b@x.com", "100", "200";
    Strings.SortedSetSingleton(a);
    Strings.SortedSetSingleton(ph1);
    assert PrimaryOf(cs) == cs[1];
    assert EmailSet(cs) - {cs[1].email} == {a};
    assert PhoneSet(cs) - {cs[1].phoneNumber} == {ph1};
    FlattenOf(cs, cs[1], {a}, {ph1});
    assert SecondaryIDs(cs) == [];
    assert Flatten(cs) == Pkg.Contact(2, [b] + [a], [ph2] + [ph1], []);
    Prepend(b, a, a, ph2, ph1);
    Prepend(ph2, ph1, ph1, b, a);
  }

  lemma ScenarioSets()
    ensures var cs := ScenarioContacts(Some(1));
      PrimaryOf(cs) == cs[1] && SecondaryIDs(cs) == []
      && EmailSet(cs) - {"b@x.com"} == {"a@x.com"} && PhoneSet(cs) - {"200"} == {"100"}
  {
    var cs := ScenarioContacts(Some(1));
    assert "a@x.com"[0] != "b@x.com"[0] && "100"[0] != "200"[0];
    var noContacts: seq<Contact> := [];
    assert noContacts + [cs[0]] == [cs[0]] && [cs[0]] + [cs[1]] == cs;
    ResponseSnoc(noContacts, cs[0]);
    ResponseSnoc([cs[0]], cs[1]);
  }

  /** One `identify` of (a@x.com, 200) on those rows, whether or not the
      later primary is already linked to the earlier one: both UPDATEs are
      sent, the later primary ends up linked to 1 and still labelled
      primary, and the answer names 2 as the primary with no secondaries. */
  lemma ScenarioStep(db: Db, req: Pkg.ContactRequest, link: Option<int>, parses: string -> bool, now: int)
    requires link == None || link == Some(1)
    requires db.rows == ScenarioRows(link) && db.faults == []
    requires req == Pkg.ContactRequest("a@x.com", "200") && parses(req.email)
    ensures IdentifyOn(db, req, parses, now)
      == (db.(rows := ScenarioRows(Some(1)),
              log := db.log + [SelectByEmailOrPhone("a@x.com", "200"), UpdateLinkedWhereLinked(1, 2),
                               UpdateLinkedWhereID(1, 2), SelectByPrimaryID(1)]),
          Ok(Pkg.Contact(2, ["b@x.com", "a@x.com"], ["200", "100"], [])))
  {
    assert Pkg.Validate(req, parses).None?;
    var cs := ScenarioContacts(link);
    ScenarioMatches(link);
    ScenarioScan(link);
    var db1 := db.Send(SelectByEmailOrPhone(req.email, req.phoneNumber));
    assert ListContactsOn(db, req.email, req.phoneNumber) == (db1, Ok(cs));
    ScenarioHelper(db1, req, link, now);
    AppendFour(db.log, SelectByEmailOrPhone("a@x.com", "200"), UpdateLinkedWhereLinked(1, 2),
               UpdateLinkedWhereID(1, 2), SelectByPrimaryID(1));
  }

  /** `helper` on the contacts of those rows: two UPDATEs, then the read. */
  lemma ScenarioHelper(db: Db, req: Pkg.ContactRequest, link: Option<int>, now: int)
    requires link == None || link == Some(1)
    requires db.rows == ScenarioRows(link) && db.faults == []
    requires req == Pkg.ContactRequest("a@x.com", "200")
    ensures HelperOn(db, req, ScenarioContacts(link), now)
      == (db.(rows := ScenarioRows(Some(1)),
              log := db.log + [UpdateLinkedWhereLinked(1, 2)] + [UpdateLinkedWhereID(1, 2)] + [SelectByPrimaryID(1)]),
          Ok(Pkg.Contact(2, ["b@x.com", "a@x.com"], ["200", "100"], [])))
  {
    var cs := ScenarioContacts(link);
    ScenarioDecide(link);
    ScenarioUpdates(link);
    var db1 := db.Send(UpdateLinkedWhereLinked(1, 2)).(rows := Relinked(db.rows, 2, 1));
    assert UpdatedContactsWithNewLinkedIDsOn(db, 2, 1) == (db1, None);
    var db2 := db1.Send(UpdateLinkedWhereID(1, 2)).(rows := ScenarioRows(Some(1)));
    assert UpdatedContactOn(db1, 2, 1) == (db2, None);
    ScenarioCluster();
    ScenarioScan(Some(1));
    ScenarioFlatten(ScenarioContacts(Some(1)));
    assert ReadClusterOn(db2, 1) == (db2.Send(SelectByPrimaryID(1)), Ok(Pkg.Contact(2, ["b@x.com", "a@x.com"], ["200", "100"], [])));
  }

  lemma AppendFour(log: seq<Stmt>, s1: Stmt, s2: Stmt, s3: Stmt, s4: Stmt)
    ensures log + [s1] + [s2] + [s3] + [s4] == log + [s1, s2, s3, s4]
  {
  }

  /** The merge of primaries 1 and 2 by (a@x.com, 200) run twice. The code
      evidently intends the earlier primary 1 to survive and be answered as
      the primary (`primaryContactID = cc1.ID`), with 2 as its secondary,
      and a repeated request to find one cluster and change nothing. As
      written, `UpdatedContact` leaves row 2 labelled primary and
      `toResponse` keeps the last primary it sees: both requests answer 2
      as the primary with no secondaries, and the repeated request sends
      both UPDATEs again. */
  lemma MergeScenarioAsWritten(db0: Db, req: Pkg.ContactRequest, parses: string -> bool, now: int)
    requires db0 == Db(ScenarioRows(None), 3, [], [])
    requires req == Pkg.ContactRequest("a@x.com", "200") && parses("a@x.com")
    ensures var (db1, first) := IdentifyOn(db0, req, parses, now);
      var (db2, second) := IdentifyOn(db1, req, parses, now);
      first == Ok(Pkg.Contact(2, ["b@x.com", "a@x.com"], ["200", "100"], []))
      && second == first
      && db2.rows == db1.rows == ScenarioRows(Some(1))
      && var sent := [SelectByEmailOrPhone("a@x.com", "200"), UpdateLinkedWhereLinked(1, 2),
                      UpdateLinkedWhereID(1, 2), SelectByPrimaryID(1)];
         db1.log == sent && db2.log == sent + sent
  {
    var sent := [SelectByEmailOrPhone("a@x.com", "200"), UpdateLinkedWhereLinked(1, 2),
                 UpdateLinkedWhereID(1, 2), SelectByPrimaryID(1)];
    var noLog: seq<Stmt> := [];
    assert noLog + sent == sent;
    ScenarioStep(db0, req, None, parses, now);
    var db1 := IdentifyOn(db0, req, parses, now).0;
    ScenarioStep(db1, req, Some(1), parses, now);
  }

  /** A failing update stops the merge: the first leaves the table as it
      was, the second leaves only the cluster re-linked. */
  lemma MergeStopsAtFailure(db: Db, req: Pkg.ContactRequest, contacts: seq<Contact>, now: int)
    requires |contacts| > 0 && Decide(req, contacts).MergeClusters?
    ensures var d := Decide(req, contacts);
      var o, n := d.older.id, d.newer.id;
      var (db', r) := HelperOn(db, req, contacts, now);
      var db1 := db.Send(UpdateLinkedWhereLinked(o, n));
      (db.NextFault().Some? ==> db' == db1 && r == Err(db.NextFault().value))
      && (db.NextFault().None? && db1.NextFault().Some? ==>
            db'.rows == Relinked(db.rows, n, o) && r == Err(db1.NextFault().value))
  {
  }

  // ---------------------------------------------------------------------
  // The link invariant: every row has a label and every row not labelled
  // primary links to a row labelled primary. `identify` keeps it.

  ghost predicate PrimaryRow(rows: seq<Row>, id: int)
  {
    exists j :: 0 <= j < |rows| && rows[j].id == id && rows[j].linkPrecedence == Some(PrimaryContact)
  }

  ghost predicate Linked(rows: seq<Row>)
  {
    forall i :: 0 <= i < |rows| ==>
      rows[i].linkPrecedence.Some?
      && (rows[i].linkPrecedence != Some(PrimaryContact) ==>
            rows[i].linkedID.Some? && PrimaryRow(rows, rows[i].linkedID.value))
  }

  /** Contacts read from `rows`: each one's primary (its own id when it is
      labelled primary, else the id it links to) is a primary row. */
  ghost predicate Describes(rows: seq<Row>, cs: seq<Contact>)
  {
    forall c :: c in cs ==> PrimaryRow(rows, if IsPrimary(c) then c.id else c.linkedID)
  }

  ghost predicate SameLabels(rows: seq<Row>, rows': seq<Row>)
  {
    |rows'| == |rows|
    && forall i :: 0 <= i < |rows| ==> rows'[i].id == rows[i].id && rows'[i].linkPrecedence == rows[i].linkPrecedence
  }

  lemma PrimaryRowTransfer(rows: seq<Row>, rows': seq<Row>, id: int)
    requires SameLabels(rows, rows') && PrimaryRow(rows, id)
    ensures PrimaryRow(rows', id)
  {
    var j :| 0 <= j < |rows| && rows[j].id == id && rows[j].linkPrecedence == Some(PrimaryContact);
    assert rows'[j].id == id && rows'[j].linkPrecedence == Some(PrimaryContact);
  }

  /** Re-pointing links at a primary row keeps the invariant. */
  lemma LinkedRelink(rows: seq<Row>, rows': seq<Row>, target: int)
    requires Linked(rows) && SameLabels(rows, rows') && PrimaryRow(rows, target)
    requires forall i :: 0 <= i < |rows| ==> rows'[i].linkedID == rows[i].linkedID || rows'[i].linkedID == Some(target)
    ensures Linked(rows')
  {
    forall i | 0 <= i < |rows'|
      ensures rows'[i].linkPrecedence.Some?
      ensures rows'[i].linkPrecedence != Some(PrimaryContact) ==>
                rows'[i].linkedID.Some? && PrimaryRow(rows', rows'[i].linkedID.value)
    {
      if rows'[i].linkPrecedence != Some(PrimaryContact) {
        if rows'[i].linkedID == Some(target) {
          PrimaryRowTransfer(rows, rows', target);
        } else {
          PrimaryRowTransfer(rows, rows', rows[i].linkedID.value);
        }
      }
    }
  }

  /** Appending a primary row, or a row linked to a primary row, keeps the
      invariant. */
  lemma LinkedSnoc(rows: seq<Row>, r: Row)
    requires Linked(rows) && r.linkPrecedence.Some?
    requires r.linkPrecedence != Some(PrimaryContact) ==> r.linkedID.Some? && PrimaryRow(rows, r.linkedID.value)
    ensures Linked(rows + [r])
  {
    var rows' := rows + [r];
    forall id | PrimaryRow(rows, id)
      ensures PrimaryRow(rows', id)
    {
      var j :| 0 <= j < |rows| && rows[j].id == id && rows[j].linkPrecedence == Some(PrimaryContact);
      assert rows'[j] == rows[j];
    }
    forall i | 0 <= i < |rows'|
      ensures rows'[i].linkPrecedence.Some?
      ensures rows'[i].linkPrecedence != Some(PrimaryContact) ==>
                rows'[i].linkedID.Some? && PrimaryRow(rows', rows'[i].linkedID.value)
    {
      if i < |rows| {
        assert rows'[i] == rows[i];
      }
    }
  }

  /** What a read of a linked table returns describes that table. */
  lemma ScannedDescribes(rows: seq<Row>, sel: seq<Row>, cs: seq<Contact>)
    requires Linked(rows) && (forall r :: r in sel ==> r in rows) && ScanAll(sel) == Ok(cs)
    ensures Describes(rows, cs)
  {
    forall c | c in cs
      ensures PrimaryRow(rows, if IsPrimary(c) then c.id else c.linkedID)
    {
      var k :| 0 <= k < |cs| && cs[k] == c;
      assert ScanRow(sel[k]) == Ok(c);
      assert sel[k] in rows;
      var j :| 0 <= j < |rows| && rows[j] == sel[k];
      if !IsPrimary(c) {
        assert rows[j].linkPrecedence != Some(PrimaryContact);
      }
    }
  }

  /** On contacts that describe a valid table, `getPrimaryContactID`
      returns the id of a row labelled primary, never 0. */
  lemma PrimaryIDIsPrimaryRow(db: Db, cs: seq<Contact>)
    requires db.Valid() && |cs| > 0 && Describes(db.rows, cs)
    ensures PrimaryRow(db.rows, GetPrimaryContactID(cs)) && GetPrimaryContactID(cs) != 0
  {
    assert cs[0] in cs;
    var j :| 0 <= j < |db.rows| && db.rows[j].id == GetPrimaryContactID(cs)
             && db.rows[j].linkPrecedence == Some(PrimaryContact);
  }

  /** Creating a primary contact, or one linked to a primary row, keeps
      the invariant. */
  lemma CreateKeepsLinked(db: Db, c: Contact, now: int)
    requires db.Valid() && Linked(db.rows)
    requires c.linkPrecedence == PrimaryContact
             || (c.linkPrecedence != "" && c.linkedID != 0 && PrimaryRow(db.rows, c.linkedID))
    ensures Linked(CreateContactOn(db, c, now).0.rows)
  {
    InsertStoresFields(c, db.nextID, now);
    if db.NextFault().None? {
      var a := Assignments(c);
      assert a != [] by {
        LookupAssignments(c, "link_precedence");
      }
      LinkedSnoc(db.rows, InsertedRow(Clauses(a), Params(a), db.nextID, now));
    }
  }

  /** Both merge statements point links at a primary row. */
  lemma MergeKeepsLinked(db: Db, newer: int, older: int)
    requires Linked(db.rows) && PrimaryRow(db.rows, older)
    ensures var db1 := UpdatedContactsWithNewLinkedIDsOn(db, newer, older).0;
      Linked(db1.rows) && PrimaryRow(db1.rows, older)
      && Linked(UpdatedContactOn(db1, newer, older).0.rows)
  {
    var db1 := UpdatedContactsWithNewLinkedIDsOn(db, newer, older).0;
    if db.NextFault().None? {
      RelinkedKeepsLinked(db.rows, newer, older);
    }
    assert Linked(db1.rows) && PrimaryRow(db1.rows, older);
    if db1.NextFault().None? {
      SetLinkedKeepsLinked(db1.rows, newer, older);
    }
  }

  lemma RelinkedKeepsLinked(rows: seq<Row>, newer: int, older: int)
    requires Linked(rows) && PrimaryRow(rows, older)
    ensures Linked(Relinked(rows, newer, older)) && PrimaryRow(Relinked(rows, newer, older), older)
  {
    var rows1 := Relinked(rows, newer, older);
    LinkedRelink(rows, rows1, older);
    PrimaryRowTransfer(rows, rows1, older);
  }

  lemma SetLinkedKeepsLinked(rows: seq<Row>, newer: int, older: int)
    requires Linked(rows) && PrimaryRow(rows, older)
    ensures Linked(SetLinkedID(rows, newer, older))
  {
    LinkedRelink(rows, SetLinkedID(rows, newer, older), older);
  }

  /** The rows `helper` leaves behind, step by step. */
  lemma HelperRows(db: Db, req: Pkg.ContactRequest, contacts: seq<Contact>, now: int)
    requires |contacts| > 0
    ensures HelperOn(db, req, contacts, now).0.rows ==
      match Decide(req, contacts)
      case ReadCluster(_) => db.rows
      case AttachSecondary(pid) => CreateContactOn(db, NewSecondary(req, pid), now).0.rows
      case MergeClusters(older, newer) =>
        var db1 := UpdatedContactsWithNewLinkedIDsOn(db, newer.id, older.id).0;
        if db.NextFault().Some? then db1.rows else UpdatedContactOn(db1, newer.id, older.id).0.rows
  {
  }

  lemma HelperKeepsLinked(db: Db, req: Pkg.ContactRequest, contacts: seq<Contact>, now: int)
    requires db.Valid() && Linked(db.rows) && |contacts| > 0 && Describes(db.rows, contacts)
    ensures Linked(HelperOn(db, req, contacts, now).0.rows)
  {
    HelperRows(db, req, contacts, now);
    match Decide(req, contacts)
    case ReadCluster(_) =>
    case AttachSecondary(pid) =>
      PrimaryIDIsPrimaryRow(db, contacts);
      CreateKeepsLinked(db, NewSecondary(req, pid), now);
    case MergeClusters(older, newer) =>
      MergeKeepsOlder(req, contacts);
      assert PrimaryRow(db.rows, older.id);
      MergeKeepsLinked(db, newer.id, older.id);
  }

  /** Every request, answered or not, leaves the link invariant in place. */
  lemma IdentifyKeepsLinked(db: Db, req: Pkg.ContactRequest, parses: string -> bool, now: int)
    requires db.Valid() && Linked(db.rows)
    ensures Linked(IdentifyOn(db, req, parses, now).0.rows)
  {
    if Pkg.Validate(req, parses).None? {
      var (db1, listed) := ListContactsOn(db, req.email, req.phoneNumber);
      if listed.Ok? {
        if listed.value == [] {
          CreateKeepsLinked(db1, NewPrimary(req), now);
        } else {
          ScannedDescribes(db.rows, MatchingRows(db.rows, req.email, req.phoneNumber), listed.value);
          HelperKeepsLinked(db1, req, listed.value, now);
        }
      }
    }
  }

  // ---------------------------------------------------------------------
  // toResponse

  lemma {:induction false} SecondaryIDsAreNonPrimaries(cs: seq<Contact>)
    ensures forall x :: x in SecondaryIDs(cs) <==> exists i :: 0 <= i < |cs| && !IsPrimary(cs[i]) && cs[i].id == x
  {
    if cs != [] {
      var init := cs[..|cs| - 1];
      SecondaryIDsAreNonPrimaries(init);
      assert forall i :: 0 <= i < |init| ==> init[i] == cs[i];
    }
  }

  /** The secondary ids are the ids of the non-primary contacts, one per
      contact, in the order the contacts were read. */
  lemma {:induction false} SecondaryIDsInOrder(cs: seq<Contact>)
    ensures var ids, idx := SecondaryIDs(cs), NonPrimaryIndices(cs);
      |ids| == |idx| && forall k :: 0 <= k < |ids| ==> ids[k] == cs[idx[k]].id
  {
    if cs != [] {
      var init := cs[..|cs| - 1];
      SecondaryIDsInOrder(init);
      assert forall i :: 0 <= i < |init| ==> init[i] == cs[i];
    }
  }

  /** `[h]` followed by the other values of `s` in ascending order:
      `h` first, each value once, exactly `h` and the values of `s`. */
  lemma HeadThenSorted(h: string, s: set<string>)
    ensures var r := [h] + Strings.SortedSet(s - {h});
      |r| >= 1 && r[0] == h && Strings.StrictlySorted(r[1..]) && Strings.NoDuplicates(r)
      && forall x :: x in r <==> x == h || x in s
  {
    var rest := Strings.SortedSet(s - {h});
    assert ([h] + rest)[1..] == rest;
    HeadThenSortedDistinct(h, rest, s - {h});
    HeadThenSortedMembers(h, rest, s);
  }

  lemma HeadThenSortedDistinct(h: string, rest: seq<string>, s: set<string>)
    requires Strings.StrictlySorted(rest) && h !in s
    requires forall x :: x in rest <==> x in s
    ensures Strings.NoDuplicates([h] + rest)
  {
    var r := [h] + rest;
    forall i, j | 0 <= i < j < |r|
      ensures r[i] != r[j]
    {
      if i == 0 {
        assert r[j] == rest[j - 1] && rest[j - 1] in s;
      } else {
        assert Strings.Less(rest[i - 1], rest[j - 1]);
        Strings.LessIrreflexive(rest[i - 1]);
      }
    }
  }

  lemma HeadThenSortedMembers(h: string, rest: seq<string>, s: set<string>)
    requires forall x :: x in rest <==> x in s - {h}
    ensures forall x :: x in [h] + rest <==> x == h || x in s
  {
  }

  /** The response lists the primary's email and phone number first, then
      every other value the cluster holds once, in ascending order; it
      lists exactly the contacts not labelled primary as secondaries. */
  lemma FlattenShape(cs: seq<Contact>)
    ensures var r := Flatten(cs);
      var pc := PrimaryOf(cs);
      r.primaryContactID == pc.id
      && |r.emails| >= 1 && r.emails[0] == pc.email
      && Strings.StrictlySorted(r.emails[1..]) && Strings.NoDuplicates(r.emails)
      && (forall x :: x in r.emails <==> x == pc.email || exists i :: 0 <= i < |cs| && cs[i].email == x)
      && |r.phoneNumbers| >= 1 && r.phoneNumbers[0] == pc.phoneNumber
      && Strings.StrictlySorted(r.phoneNumbers[1..]) && Strings.NoDuplicates(r.phoneNumbers)
      && (forall x :: x in r.phoneNumbers <==> x == pc.phoneNumber || exists i :: 0 <= i < |cs| && cs[i].phoneNumber == x)
      && (forall x :: x in r.secondaryContactIDs <==> exists i :: 0 <= i < |cs| && !IsPrimary(cs[i]) && cs[i].id == x)
      && |r.secondaryContactIDs| == |NonPrimaryIndices(cs)|
      && (forall k :: 0 <= k < |r.secondaryContactIDs| ==> r.secondaryContactIDs[k] == cs[NonPrimaryIndices(cs)[k]].id)
  {
    var pc := PrimaryOf(cs);
    HeadThenSorted(pc.email, EmailSet(cs));
    HeadThenSorted(pc.phoneNumber, PhoneSet(cs));
    SecondaryIDsAreNonPrimaries(cs);
    SecondaryIDsInOrder(cs);
  }

  /** The shape of the "primary contact doesn't have an email" case of the
      service tests, for any emails a < b and two phone numbers. */
  function NoEmailPrimaryCluster(a: string, b: string, ph1: string, ph2: string): seq<Contact>
  {
    [Contact(1, ph1, "", 0, PrimaryContact, 0),
     Contact(2, ph1, a, 0, SecondaryContact, 0),
     Contact(3, ph2, a, 0, SecondaryContact, 0),
     Contact(4, ph2, b, 0, SecondaryContact, 0)]
  }

  lemma NoEmailPrimaryClusterPrimary(a: string, b: string, ph1: string, ph2: string)
    ensures var cs := NoEmailPrimaryCluster(a, b, ph1, ph2); PrimaryOf(cs) == cs[0]
  {
  }

  lemma NoEmailPrimaryClusterSecondaries(a: string, b: string, ph1: string, ph2: string)
    ensures SecondaryIDs(NoEmailPrimaryCluster(a, b, ph1, ph2)) == [2, 3, 4]
  {
    var cs := NoEmailPrimaryCluster(a, b, ph1, ph2);
    assert cs[..3][..2][..1][..0] == [];
    assert SecondaryIDs(cs[..3][..2][..1]) == [];
    assert SecondaryIDs(cs[..3][..2]) == [2];
    assert SecondaryIDs(cs[..3]) == [2, 3];
  }

  lemma NoEmailPrimaryClusterEmails(a: string, b: string, ph1: string, ph2: string)
    ensures EmailSet(NoEmailPrimaryCluster(a, b, ph1, ph2)) == {"", a, b}
  {
    var cs := NoEmailPrimaryCluster(a, b, ph1, ph2);
    assert cs[..3][..2][..1][..0] == [];
    assert EmailSet(cs[..3][..2][..1]) == {""};
    assert EmailSet(cs[..3][..2]) == {"", a};
    assert EmailSet(cs[..3]) == {"", a};
  }

  lemma NoEmailPrimaryClusterPhones(a: string, b: string, ph1: string, ph2: string)
    ensures PhoneSet(NoEmailPrimaryCluster(a, b, ph1, ph2)) == {ph1, ph2}
  {
    var cs := NoEmailPrimaryCluster(a, b, ph1, ph2);
    assert cs[..3][..2][..1][..0] == [];
    assert PhoneSet(cs[..3][..2][..1]) == {ph1};
    assert PhoneSet(cs[..3][..2]) == {ph1};
    assert PhoneSet(cs[..3]) == {ph1, ph2};
  }

  lemma FlattenOf(cs: seq<Contact>, pc: Contact, emails: set<string>, phones: set<string>)
    requires PrimaryOf(cs) == pc
    requires EmailSet(cs) - {pc.email} == emails && PhoneSet(cs) - {pc.phoneNumber} == phones
    ensures Flatten(cs) == Pkg.Contact(pc.id, [pc.email] + Strings.SortedSet(emails),
                                       [pc.phoneNumber] + Strings.SortedSet(phones), SecondaryIDs(cs))
  {
  }

  lemma Prepend(x: string, y: string, z: string, u: string, v: string)
    ensures [x] + [y, z] == [x, y, z] && [u] + [v] == [u, v]
  {
  }

  /** As written, a primary without an email still contributes "" as the
      first email, where the test for this cluster expects only a and b. */
  lemma EmptyPrimaryEmailIsListed(cs: seq<Contact>, a: string, b: string, ph1: string, ph2: string)
    requires cs == NoEmailPrimaryCluster(a, b, ph1, ph2)
    requires a != "" && Strings.Less(a, b) && ph1 != ph2
    ensures Flatten(cs) == Pkg.Contact(1, ["", a, b], [ph1, ph2], [2, 3, 4])
  {
    assert b != "";
    NoEmailPrimaryClusterSecondaries(a, b, ph1, ph2);
    NoEmailPrimaryClusterEmails(a, b, ph1, ph2);
    NoEmailPrimaryClusterPhones(a, b, ph1, ph2);
    assert EmailSet(cs) - {""} == {a, b};
    assert PhoneSet(cs) - {ph1} == {ph2};
    Strings.SortedSetPair(a, b);
    Strings.SortedSetSingleton(ph2);
    NoEmailPrimaryClusterPrimary(a, b, ph1, ph2);
    var pc := cs[0];
    assert pc.id == 1 && pc.email == "" && pc.phoneNumber == ph1;
    FlattenOf(cs, pc, {a, b}, {ph2});
    Prepend(pc.email, a, b, pc.phoneNumber, ph2);
  }
}
