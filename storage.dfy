/** internal/storage/contact.go: the `contact` table and the six
    statements the resolver sends it, over an in-memory table. */
module Storage {
  import opened Wrappers
  import Strings

  /** A contact as the code holds it after a read (`storage.Contact`):
      NULL columns come back as "" or 0. `createdAt` stands for the
      timestamp; only its order matters. */
  datatype Contact = Contact(
    id: int,
    phoneNumber: string,
    email: string,
    linkedID: int,
    linkPrecedence: string,
    createdAt: int)

  /** Go's zero value of `storage.Contact`. */
  const ZeroContact := Contact(0, "", "", 0, "", 0)

  /** One row of the `contact` table; `None` is SQL NULL. */
  datatype Row = Row(
    id: int,
    phoneNumber: Option<string>,
    email: Option<string>,
    linkedID: Option<int>,
    linkPrecedence: Option<string>,
    createdAt: int)

  /** A value bound to a `?` placeholder. */
  datatype SqlValue = Text(text: string) | Integer(number: int)

  datatype DbError =
    | StatementFailed(message: string)  // the driver or the server refused the statement
    | NullPrecedence(id: int)           // Scan of a NULL link_precedence into a Go string
    | EmptyInsert                       // `INSERT INTO contact SET ` with nothing after SET
    | ScanArity(columns: int, destinations: int)  // Scan given more destinations than columns

  /** The statements the storage layer sends, with their bound values. */
  datatype Stmt =
    | SelectByEmailOrPhone(email: string, phoneNumber: string)
    | SelectByPrimaryID(id: int)
    | SelectByID(id: int)
    | SelectByIDCorrected(id: int)
    | Insert(clauses: seq<string>, params: seq<SqlValue>)
    | UpdateLinkedWhereLinked(setTo: int, whereLinked: int)
    | UpdateLinkedWhereID(setTo: int, whereID: int)

  /** The SQL text of a statement. */
  function Query(s: Stmt): string
  {
    match s
    case SelectByEmailOrPhone(_, _) =>
      "SELECT id, phone_number, email, linked_id, link_precedence, created_at FROM contact WHERE email = ? OR phone_number = ?"
    case SelectByPrimaryID(_) =>
      "SELECT id, phone_number, email, linked_id, link_precedence, created_at FROM contact WHERE linked_id = ? OR id = ?"
    case SelectByID(_) =>
      "SELECT phone_number, email, linked_id, link_precedence FROM contact WHERE id = ?"
    case SelectByIDCorrected(_) =>
      "SELECT id, phone_number, email, linked_id, link_precedence FROM contact WHERE id = ?"
    case Insert(clauses, _) => "INSERT INTO contact SET " + Strings.Join(clauses, ", ")
    case UpdateLinkedWhereLinked(_, _) => "UPDATE contact SET linked_id = ? WHERE linked_id = ?"
    case UpdateLinkedWhereID(_, _) => "UPDATE contact SET linked_id = ? WHERE id = ?"
  }

  /** The values bound to the statement's placeholders, in order. */
  function Args(s: Stmt): seq<SqlValue>
  {
    match s
    case SelectByEmailOrPhone(e, p) => [Text(e), Text(p)]
    case SelectByPrimaryID(id) => [Integer(id), Integer(id)]
    case SelectByID(id) => [Integer(id)]
    case SelectByIDCorrected(id) => [Integer(id)]
    case Insert(_, params) => params
    case UpdateLinkedWhereLinked(setTo, whereLinked) => [Integer(setTo), Integer(whereLinked)]
    case UpdateLinkedWhereID(setTo, whereID) => [Integer(setTo), Integer(whereID)]
  }

  // ---------------------------------------------------------------------
  // Row-level meaning of the WHERE and SET clauses. SQL's `col = ?` is
  // never true of a NULL column.

  predicate MatchesEmailOrPhone(r: Row, email: string, phoneNumber: string)
  {
    r.email == Some(email) || r.phoneNumber == Some(phoneNumber)
  }

  predicate InCluster(r: Row, id: int)
  {
    r.linkedID == Some(id) || r.id == id
  }

  /** The rows `WHERE email = ? OR phone_number = ?` selects, in table order. */
  function MatchingRows(rows: seq<Row>, email: string, phoneNumber: string): (sel: seq<Row>)
    ensures forall r :: r in sel <==> r in rows && MatchesEmailOrPhone(r, email, phoneNumber)
    ensures |sel| <= |rows|
  {
    if rows == [] then []
    else
      var last := rows[|rows| - 1];
      assert rows == rows[..|rows| - 1] + [last];
      MatchingRows(rows[..|rows| - 1], email, phoneNumber)
        + (if MatchesEmailOrPhone(last, email, phoneNumber) then [last] else [])
  }

  /** The rows `WHERE linked_id = ? OR id = ?` selects, in table order. */
  function ClusterRows(rows: seq<Row>, id: int): (sel: seq<Row>)
    ensures forall r :: r in sel <==> r in rows && InCluster(r, id)
    ensures |sel| <= |rows|
  {
    if rows == [] then []
    else
      var last := rows[|rows| - 1];
      assert rows == rows[..|rows| - 1] + [last];
      ClusterRows(rows[..|rows| - 1], id) + (if InCluster(last, id) then [last] else [])
  }

  function OrEmpty(o: Option<string>): string
  {
    if o.Some? then o.value else ""
  }

  function OrZero(o: Option<int>): int
  {
    if o.Some? then o.value else 0
  }

  /** `rows.Scan` of one row into a `Contact` (`sql.NullString` and
      `sql.NullInt64` turn NULL into "" and 0; a NULL link_precedence
      cannot be scanned into a string). */
  function ScanRow(r: Row): (c: Result<Contact, DbError>)
    ensures c.Ok? <==> r.linkPrecedence.Some?
    ensures c.Ok? ==> c.value.id == r.id && c.value.createdAt == r.createdAt
                      && Some(c.value.linkPrecedence) == r.linkPrecedence
                      && (r.email.Some? <==> c.value.email != "" || r.email == Some(""))
                      && (r.email.Some? ==> c.value.email == r.email.value)
                      && (r.phoneNumber.Some? ==> c.value.phoneNumber == r.phoneNumber.value)
                      && (r.phoneNumber.None? ==> c.value.phoneNumber == "")
                      && (r.linkedID.Some? ==> c.value.linkedID == r.linkedID.value)
                      && (r.linkedID.None? ==> c.value.linkedID == 0)
  {
    match r.linkPrecedence
    case None => Err(NullPrecedence(r.id))
    case Some(lp) =>
      Ok(Contact(r.id, OrEmpty(r.phoneNumber), OrEmpty(r.email), OrZero(r.linkedID), lp, r.createdAt))
  }

  /** The read loop of `ListContacts` and `GetContactsByPrimaryID`: scans
      the selected rows in order and stops at the first failing scan. */
  function ScanAll(rows: seq<Row>): (r: Result<seq<Contact>, DbError>)
    ensures r.Ok? <==> forall i :: 0 <= i < |rows| ==> rows[i].linkPrecedence.Some?
    ensures r.Ok? ==> |r.value| == |rows|
                      && forall i :: 0 <= i < |rows| ==> ScanRow(rows[i]) == Ok(r.value[i])
  {
    if rows == [] then Ok([])
    else
      match ScanAll(rows[..|rows| - 1])
      case Err(e) => Err(e)
      case Ok(cs) =>
        match ScanRow(rows[|rows| - 1])
        case Err(e) => Err(e)
        case Ok(c) => Ok(cs + [c])
  }

  /** Once a prefix fails to scan, the whole read fails with that error. */
  lemma {:induction false} ScanAllStopsAtError(rows: seq<Row>, k: nat, e: DbError)
    requires k <= |rows| && ScanAll(rows[..k]) == Err(e)
    ensures ScanAll(rows) == Err(e)
  {
    if k < |rows| {
      var prefix := rows[..|rows| - 1];
      assert prefix[..k] == rows[..k];
      ScanAllStopsAtError(prefix, k, e);
    } else {
      assert rows[..k] == rows;
    }
  }

  /** `UPDATE contact SET linked_id = to WHERE linked_id = from`. */
  function Relinked(rows: seq<Row>, from: int, to: int): (r: seq<Row>)
    ensures |r| == |rows|
    ensures forall i :: 0 <= i < |rows| ==>
              if rows[i].linkedID == Some(from) then r[i] == rows[i].(linkedID := Some(to))
              else r[i] == rows[i]
  {
    if rows == [] then []
    else
      var head := if rows[0].linkedID == Some(from) then rows[0].(linkedID := Some(to)) else rows[0];
      [head] + Relinked(rows[1..], from, to)
  }

  /** `UPDATE contact SET linked_id = to WHERE id = id`. */
  function SetLinkedID(rows: seq<Row>, id: int, to: int): (r: seq<Row>)
    ensures |r| == |rows|
    ensures forall i :: 0 <= i < |rows| ==>
              if rows[i].id == id then r[i] == rows[i].(linkedID := Some(to))
              else r[i] == rows[i]
  {
    if rows == [] then []
    else
      var head := if rows[0].id == id then rows[0].(linkedID := Some(to)) else rows[0];
      [head] + SetLinkedID(rows[1..], id, to)
  }

  /** `QueryRow(... WHERE id = ?)`: the first row with that id, if any. */
  function FindByID(rows: seq<Row>, id: int): (r: Option<Row>)
    ensures r.None? <==> forall i :: 0 <= i < |rows| ==> rows[i].id != id
    ensures r.Some? ==> r.value in rows && r.value.id == id
  {
    if rows == [] then None
    else if rows[0].id == id then Some(rows[0])
    else FindByID(rows[1..], id)
  }

  // ---------------------------------------------------------------------
  // INSERT

  /** The `col = ?` assignments `CreateContact` puts after SET, with their
      values: email, phone_number, linked_id, link_precedence, each only
      when the field is not its zero value. */
  function Assignments(c: Contact): seq<(string, SqlValue)>
  {
    (if c.email != "" then [("email", Text(c.email))] else [])
    + (if c.phoneNumber != "" then [("phone_number", Text(c.phoneNumber))] else [])
    + (if c.linkedID != 0 then [("linked_id", Integer(c.linkedID))] else [])
    + (if c.linkPrecedence != "" then [("link_precedence", Text(c.linkPrecedence))] else [])
  }

  function Clauses(a: seq<(string, SqlValue)>): (q: seq<string>)
  {
    seq(|a|, i requires 0 <= i < |a| => a[i].0 + " = ?")
  }

  function Params(a: seq<(string, SqlValue)>): (qp: seq<SqlValue>)
  {
    seq(|a|, i requires 0 <= i < |a| => a[i].1)
  }

  /** Where a column sits in `CreateContact`'s order. */
  function ColumnRank(column: string): int
  {
    if column == "email" then 0
    else if column == "phone_number" then 1
    else if column == "linked_id" then 2
    else if column == "link_precedence" then 3
    else 4
  }

  /** The value the database binds to `column` from an INSERT's
      assignments: the one after the first `column = ?`. */
  function Assigned(clauses: seq<string>, params: seq<SqlValue>, column: string): Option<SqlValue>
  {
    if clauses == [] || params == [] then None
    else if clauses[0] == column + " = ?" then Some(params[0])
    else Assigned(clauses[1..], params[1..], column)
  }

  /** A text column: NULL unless a string was assigned. */
  function TextColumn(v: Option<SqlValue>): Option<string>
  {
    match v
    case Some(Text(s)) => Some(s)
    case _ => None
  }

  /** An integer column: NULL unless a number was assigned. */
  function IntColumn(v: Option<SqlValue>): Option<int>
  {
    match v
    case Some(Integer(n)) => Some(n)
    case _ => None
  }

  /** The row an INSERT stores: the assigned columns, NULL elsewhere, the
      next AUTO_INCREMENT id and the database's clock for created_at. */
  function InsertedRow(clauses: seq<string>, params: seq<SqlValue>, id: int, now: int): Row
  {
    Row(id,
        TextColumn(Assigned(clauses, params, "phone_number")),
        TextColumn(Assigned(clauses, params, "email")),
        IntColumn(Assigned(clauses, params, "linked_id")),
        TextColumn(Assigned(clauses, params, "link_precedence")),
        now)
  }

  // ---------------------------------------------------------------------
  // The database as a value: its rows, the AUTO_INCREMENT counter, a
  // script of failures for the statements still to come (the environment
  // decides which statement fails), and the log of statements sent.

  datatype Db = Db(rows: seq<Row>, nextID: int, faults: seq<Option<DbError>>, log: seq<Stmt>)
  {
    /** What the database answers the next statement: nil or an error. */
    function NextFault(): Option<DbError>
    {
      if faults == [] then None else faults[0]
    }

    /** Sends one statement: it is logged and consumes one scripted outcome. */
    function Send(s: Stmt): Db
    {
      this.(faults := if faults == [] then [] else faults[1..], log := log + [s])
    }

    /** Ids are positive, below the counter and ascending in table order;
        no stored email or phone number is the empty string. */
    ghost predicate Valid()
    {
      nextID >= 1
      && (forall i :: 0 <= i < |rows| ==> 1 <= rows[i].id < nextID)
      && (forall i, j :: 0 <= i < j < |rows| ==> rows[i].id < rows[j].id)
      && (forall i :: 0 <= i < |rows| ==> rows[i].email != Some("") && rows[i].phoneNumber != Some(""))
    }
  }

  function ListContactsOn(db: Db, email: string, phoneNumber: string): (Db, Result<seq<Contact>, DbError>)
  {
    var db' := db.Send(SelectByEmailOrPhone(email, phoneNumber));
    if db.NextFault().Some? then (db', Err(db.NextFault().value))
    else (db', ScanAll(MatchingRows(db.rows, email, phoneNumber)))
  }

  function GetContactsByPrimaryIDOn(db: Db, id: int): (Db, Result<seq<Contact>, DbError>)
  {
    var db' := db.Send(SelectByPrimaryID(id));
    if db.NextFault().Some? then (db', Err(db.NextFault().value))
    else (db', ScanAll(ClusterRows(db.rows, id)))
  }

  /** `GetContactByID` as written: its query selects four columns and
      its `Scan` is given five destinations, so `database/sql` refuses
      every row the query finds; only "no such row" comes back clean. */
  function GetContactByIDOn(db: Db, id: int): (Db, Result<Option<Contact>, DbError>)
  {
    var db' := db.Send(SelectByID(id));
    if db.NextFault().Some? then (db', Err(db.NextFault().value))
    else
      match FindByID(db.rows, id)
      case None => (db', Ok(None))
      case Some(_) => (db', Err(ScanArity(4, 5)))
  }

  /** `GetContactByID` as evidently intended: the query also selects `id`
      and the NULL-able columns are copied into the result, as the other
      reads do. */
  function GetContactByIDCorrectedOn(db: Db, id: int): (Db, Result<Option<Contact>, DbError>)
  {
    var db' := db.Send(SelectByIDCorrected(id));
    if db.NextFault().Some? then (db', Err(db.NextFault().value))
    else
      match FindByID(db.rows, id)
      case None => (db', Ok(None))
      case Some(r) =>
        match r.linkPrecedence
        case None => (db', Err(NullPrecedence(r.id)))
        case Some(lp) =>
          (db', Ok(Some(Contact(r.id, OrEmpty(r.phoneNumber), OrEmpty(r.email), OrZero(r.linkedID), lp, 0))))
  }

  function CreateContactOn(db: Db, c: Contact, now: int): (Db, Result<int, DbError>)
  {
    var a := Assignments(c);
    var db' := db.Send(Insert(Clauses(a), Params(a)));
    if db.NextFault().Some? then (db', Err(db.NextFault().value))
    else if a == [] then (db', Err(EmptyInsert))
    else
      (db'.(rows := db.rows + [InsertedRow(Clauses(a), Params(a), db.nextID, now)],
            nextID := db.nextID + 1),
       Ok(db.nextID))
  }

  /** Note the argument order: the rows linked to `newLinkedID` are
      re-linked to `oldLinkedID`. */
  function UpdatedContactsWithNewLinkedIDsOn(db: Db, newLinkedID: int, oldLinkedID: int): (Db, Option<DbError>)
  {
    var db' := db.Send(UpdateLinkedWhereLinked(oldLinkedID, newLinkedID));
    if db.NextFault().Some? then (db', db.NextFault())
    else (db'.(rows := Relinked(db.rows, newLinkedID, oldLinkedID)), None)
  }

  function UpdatedContactOn(db: Db, id: int, linkedID: int): (Db, Option<DbError>)
  {
    var db' := db.Send(UpdateLinkedWhereID(linkedID, id));
    if db.NextFault().Some? then (db', db.NextFault())
    else (db'.(rows := SetLinkedID(db.rows, id, linkedID)), None)
  }

  // ---------------------------------------------------------------------
  // The table object (`contactStorage`): each method sends its statement
  // and updates the rows as the database would.

  class ContactStorage {
    var rows: seq<Row>
    var nextID: int
    var faults: seq<Option<DbError>>
    ghost var log: seq<Stmt>

    ghost function State(): Db
      reads this
    {
      Db(rows, nextID, faults, log)
    }

    ghost predicate Valid()
      reads this
    {
      State().Valid()
    }

    /** An empty table whose statements fail as `faults` says. */
    constructor (faults: seq<Option<DbError>>)
      ensures State() == Db([], 1, faults, [])
      ensures Valid()
    {
      rows := [];
      nextID := 1;
      this.faults := faults;
      log := [];
    }

    method Send(s: Stmt) returns (fault: Option<DbError>)
      modifies this
      ensures State() == old(State()).Send(s)
      ensures fault == old(State()).NextFault()
    {
      fault := if faults == [] then None else faults[0];
      faults := if faults == [] then [] else faults[1..];
      log := log + [s];
    }

    method ListContacts(email: string, phoneNumber: string) returns (r: Result<seq<Contact>, DbError>)
      requires Valid()
      modifies this
      ensures Valid()
      ensures (State(), r) == ListContactsOn(old(State()), email, phoneNumber)
    {
      var fault := Send(SelectByEmailOrPhone(email, phoneNumber));
      if fault.Some? {
        return Err(fault.value);
      }
      var selected := MatchingRows(rows, email, phoneNumber);
      r := ReadAll(selected);
    }

    method GetContactsByPrimaryID(id: int) returns (r: Result<seq<Contact>, DbError>)
      requires Valid()
      modifies this
      ensures Valid()
      ensures (State(), r) == GetContactsByPrimaryIDOn(old(State()), id)
    {
      var fault := Send(SelectByPrimaryID(id));
      if fault.Some? {
        return Err(fault.value);
      }
      var selected := ClusterRows(rows, id);
      r := ReadAll(selected);
    }

    /** The `for rows.Next()` loop: scan each returned row, append it. */
    static method ReadAll(selected: seq<Row>) returns (r: Result<seq<Contact>, DbError>)
      ensures r == ScanAll(selected)
    {
      var result: seq<Contact> := [];
      var i := 0;
      while i < |selected|
        invariant 0 <= i <= |selected|
        invariant ScanAll(selected[..i]) == Ok(result)
      {
        var c := ScanRow(selected[i]);
        assert selected[..i + 1][..i] == selected[..i];
        if c.Err? {
          ScanAllStopsAtError(selected, i + 1, c.error);
          return Err(c.error);
        }
        result := result + [c.value];
        i := i + 1;
      }
      assert selected[..i] == selected;
      return Ok(result);
    }

    /** `GetContactByID` with its query and scan corrected (see
        `GetContactByIDOn` for the code as written). */
    method GetContactByID(id: int) returns (r: Result<Option<Contact>, DbError>)
      requires Valid()
      modifies this
      ensures Valid()
      ensures (State(), r) == GetContactByIDCorrectedOn(old(State()), id)
    {
      var fault := Send(SelectByIDCorrected(id));
      if fault.Some? {
        return Err(fault.value);
      }
      var found := FindByID(rows, id);
      if found.None? {
        return Ok(None);
      }
      var row := found.value;
      if row.linkPrecedence.None? {
        return Err(NullPrecedence(row.id));
      }
      var res := Contact(row.id, OrEmpty(row.phoneNumber), OrEmpty(row.email), OrZero(row.linkedID),
                         row.linkPrecedence.value, 0);
      return Ok(Some(res));
    }

    method CreateContact(contact: Contact, now: int) returns (r: Result<int, DbError>)
      requires Valid()
      modifies this
      ensures Valid()
      ensures (State(), r) == CreateContactOn(old(State()), contact, now)
    {
      var q, qp := BuildAssignments(contact);
      var fault := Send(Insert(q, qp));
      if fault.Some? {
        return Err(fault.value);
      }
      if q == [] {
        return Err(EmptyInsert);
      }
      InsertStoresFields(contact, nextID, now);
      rows := rows + [InsertedRow(q, qp, nextID, now)];
      r := Ok(nextID);
      nextID := nextID + 1;
    }

    /** The successive appends to `q` and `qp` in `CreateContact`. */
    static method BuildAssignments(contact: Contact) returns (q: seq<string>, qp: seq<SqlValue>)
      ensures q == Clauses(Assignments(contact)) && qp == Params(Assignments(contact))
    {
      q, qp := [], [];
      ghost var a: seq<(string, SqlValue)> := [];
      if contact.email != "" {
        q := q + ["email = ?"];
        qp := qp + [Text(contact.email)];
        ClausesSnoc(a, ("email", Text(contact.email)));
        assert "email" + " = ?" == "email = ?";
        a := a + [("email", Text(contact.email))];
      }
      assert q == Clauses(a) && qp == Params(a);
      if contact.phoneNumber != "" {
        q := q + ["phone_number = ?"];
        qp := qp + [Text(contact.phoneNumber)];
        ClausesSnoc(a, ("phone_number", Text(contact.phoneNumber)));
        assert "phone_number" + " = ?" == "phone_number = ?";
        a := a + [("phone_number", Text(contact.phoneNumber))];
      }
      assert q == Clauses(a) && qp == Params(a);
      if contact.linkedID != 0 {
        q := q + ["linked_id = ?"];
        qp := qp + [Integer(contact.linkedID)];
        ClausesSnoc(a, ("linked_id", Integer(contact.linkedID)));
        assert "linked_id" + " = ?" == "linked_id = ?";
        a := a + [("linked_id", Integer(contact.linkedID))];
      }
      assert q == Clauses(a) && qp == Params(a);
      if contact.linkPrecedence != "" {
        q := q + ["link_precedence = ?"];
        qp := qp + [Text(contact.linkPrecedence)];
        ClausesSnoc(a, ("link_precedence", Text(contact.linkPrecedence)));
        assert "link_precedence" + " = ?" == "link_precedence = ?";
        a := a + [("link_precedence", Text(contact.linkPrecedence))];
      }
      assert q == Clauses(a) && qp == Params(a);
      assert a == Assignments(contact);
    }

    method UpdatedContactsWithNewLinkedIDs(newLinkedID: int, oldLinkedID: int) returns (err: Option<DbError>)
      requires Valid()
      modifies this
      ensures Valid()
      ensures (State(), err) == UpdatedContactsWithNewLinkedIDsOn(old(State()), newLinkedID, oldLinkedID)
    {
      err := Send(UpdateLinkedWhereLinked(oldLinkedID, newLinkedID));
      if err.None? {
        rows := Relinked(rows, newLinkedID, oldLinkedID);
      }
    }

    method UpdatedContact(id: int, linkedID: int) returns (err: Option<DbError>)
      requires Valid()
      modifies this
      ensures Valid()
      ensures (State(), err) == UpdatedContactOn(old(State()), id, linkedID)
    {
      err := Send(UpdateLinkedWhereID(linkedID, id));
      if err.None? {
        rows := SetLinkedID(rows, id, linkedID);
      }
    }
  }

  // ---------------------------------------------------------------------
  // Properties of the statements.

  lemma ClausesSnoc(a: seq<(string, SqlValue)>, x: (string, SqlValue))
    ensures Clauses(a + [x]) == Clauses(a) + [x.0 + " = ?"]
    ensures Params(a + [x]) == Params(a) + [x.1]
  {
  }

  /** The first assignment to `column`, if any. */
  function Lookup(a: seq<(string, SqlValue)>, column: string): Option<SqlValue>
  {
    if a == [] then None
    else if a[0].0 == column then Some(a[0].1)
    else Lookup(a[1..], column)
  }

  /** The database finds in the rendered clauses what the assignments say. */
  lemma {:induction false} AssignedIsLookup(a: seq<(string, SqlValue)>, column: string)
    ensures Assigned(Clauses(a), Params(a), column) == Lookup(a, column)
  {
    if a != [] {
      if a[0].0 + " = ?" == column + " = ?" {
        assert a[0].0 == (a[0].0 + " = ?")[..|a[0].0|];
        assert column == (column + " = ?")[..|column|];
      }
      assert Clauses(a)[1..] == Clauses(a[1..]) && Params(a)[1..] == Params(a[1..]);
      AssignedIsLookup(a[1..], column);
    }
  }

  lemma {:induction false} LookupAppend(x: seq<(string, SqlValue)>, y: seq<(string, SqlValue)>, column: string)
    ensures Lookup(x + y, column) == if Lookup(x, column).Some? then Lookup(x, column) else Lookup(y, column)
  {
    if x != [] {
      assert (x + y)[1..] == x[1..] + y;
      LookupAppend(x[1..], y, column);
    } else {
      assert x + y == y;
    }
  }

  /** Each column's assignment in `Assignments(c)`. */
  lemma LookupAssignments(c: Contact, column: string)
    ensures Lookup(Assignments(c), column) ==
      if column == "email" && c.email != "" then Some(Text(c.email))
      else if column == "phone_number" && c.phoneNumber != "" then Some(Text(c.phoneNumber))
      else if column == "linked_id" && c.linkedID != 0 then Some(Integer(c.linkedID))
      else if column == "link_precedence" && c.linkPrecedence != "" then Some(Text(c.linkPrecedence))
      else None
  {
    var e := if c.email != "" then [("email", Text(c.email))] else [];
    var p := if c.phoneNumber != "" then [("phone_number", Text(c.phoneNumber))] else [];
    var l := if c.linkedID != 0 then [("linked_id", Integer(c.linkedID))] else [];
    var lp := if c.linkPrecedence != "" then [("link_precedence", Text(c.linkPrecedence))] else [];
    assert Assignments(c) == e + p + l + lp;
    LookupAppend(e + p + l, lp, column);
    LookupAppend(e + p, l, column);
    LookupAppend(e, p, column);
  }

  /** One assignment per set field, and the assignments keep the column
      order email, phone_number, linked_id, link_precedence (which value
      each carries is `LookupAssignments`). */
  lemma AssignmentsShape(c: Contact)
    ensures var a := Assignments(c);
      |a| == (if c.email != "" then 1 else 0) + (if c.phoneNumber != "" then 1 else 0)
             + (if c.linkedID != 0 then 1 else 0) + (if c.linkPrecedence != "" then 1 else 0)
      && (forall k, l :: 0 <= k < l < |a| ==> ColumnRank(a[k].0) < ColumnRank(a[l].0))
  {
    var a := Assignments(c);
    var e := if c.email != "" then [("email", Text(c.email))] else [];
    var p := if c.phoneNumber != "" then [("phone_number", Text(c.phoneNumber))] else [];
    var l := if c.linkedID != 0 then [("linked_id", Integer(c.linkedID))] else [];
    var lp := if c.linkPrecedence != "" then [("link_precedence", Text(c.linkPrecedence))] else [];
    assert a == e + p + l + lp;
    forall k | 0 <= k < |a|
      ensures ColumnRank(a[k].0) == (if k < |e| then 0 else if k < |e| + |p| then 1
                                     else if k < |e| + |p| + |l| then 2 else 3)
    {
    }
  }

  /** The row an INSERT from `CreateContact` stores holds exactly the set
      fields of the contact, NULL for the rest. */
  lemma InsertStoresFields(c: Contact, id: int, now: int)
    ensures var a := Assignments(c);
      var row := InsertedRow(Clauses(a), Params(a), id, now);
      row.id == id && row.createdAt == now
      && row.email == (if c.email == "" then None else Some(c.email))
      && row.phoneNumber == (if c.phoneNumber == "" then None else Some(c.phoneNumber))
      && row.linkedID == (if c.linkedID == 0 then None else Some(c.linkedID))
      && row.linkPrecedence == (if c.linkPrecedence == "" then None else Some(c.linkPrecedence))
  {
    var a := Assignments(c);
    AssignedIsLookup(a, "email");
    AssignedIsLookup(a, "phone_number");
    AssignedIsLookup(a, "linked_id");
    AssignedIsLookup(a, "link_precedence");
    LookupAssignments(c, "email");
    LookupAssignments(c, "phone_number");
    LookupAssignments(c, "linked_id");
    LookupAssignments(c, "link_precedence");
  }

  /** The next `n` statements sent to `db` succeed. */
  predicate Reliable(db: Db, n: nat)
  {
    forall k :: 0 <= k < n && k < |db.faults| ==> db.faults[k].None?
  }

  /** One reliable statement uses up one entry of the script. */
  lemma ReliableSend(db: Db, s: Stmt, n: nat)
    requires Reliable(db, n + 1)
    ensures db.NextFault().None? && Reliable(db.Send(s), n)
  {
    forall k | 0 <= k < n && k < |db.Send(s).faults|
      ensures db.Send(s).faults[k].None?
    {
      assert db.Send(s).faults[k] == db.faults[k + 1];
    }
  }

  lemma MatchingRowsSnoc(rows: seq<Row>, r: Row, email: string, phoneNumber: string)
    ensures MatchingRows(rows + [r], email, phoneNumber)
            == MatchingRows(rows, email, phoneNumber) + (if MatchesEmailOrPhone(r, email, phoneNumber) then [r] else [])
  {
    assert (rows + [r])[..|rows|] == rows;
  }

  lemma ClusterRowsSnoc(rows: seq<Row>, r: Row, id: int)
    ensures ClusterRows(rows + [r], id) == ClusterRows(rows, id) + (if InCluster(r, id) then [r] else [])
  {
    assert (rows + [r])[..|rows|] == rows;
  }

  lemma ScanAllSnoc(rows: seq<Row>, r: Row)
    requires r.linkPrecedence.Some?
    ensures ScanAll(rows + [r]) == match ScanAll(rows)
                                   case Err(e) => Err(e)
                                   case Ok(cs) => Ok(cs + [ScanRow(r).value])
  {
    assert (rows + [r])[..|rows|] == rows;
  }

  /** CreateContact then ListContacts with the contact's own email and
      phone number: the read returns what it returned before, followed by
      the new contact carrying the id CreateContact returned and the
      database's timestamp. */
  lemma CreateThenList(db: Db, c: Contact, now: int)
    requires db.Valid() && Reliable(db, 2)
    requires c.linkPrecedence != "" && (c.email != "" || c.phoneNumber != "")
    ensures var (db1, id) := CreateContactOn(db, c, now);
      var (_, listed) := ListContactsOn(db1, c.email, c.phoneNumber);
      id == Ok(db.nextID)
      && listed == match ScanAll(MatchingRows(db.rows, c.email, c.phoneNumber))
                   case Err(e) => Err(e)
                   case Ok(cs) => Ok(cs + [c.(id := db.nextID, createdAt := now)])
  {
    var a := Assignments(c);
    InsertStoresFields(c, db.nextID, now);
    var row := InsertedRow(Clauses(a), Params(a), db.nextID, now);
    assert a != [] by {
      LookupAssignments(c, "link_precedence");
    }
    var db1 := CreateContactOn(db, c, now).0;
    assert db1.rows == db.rows + [row];
    assert db.Send(Insert(Clauses(a), Params(a))).NextFault().None? by {
      assert |db.faults| >= 2 ==> db.faults[1].None?;
    }
    MatchingRowsSnoc(db.rows, row, c.email, c.phoneNumber);
    ScanAllSnoc(MatchingRows(db.rows, c.email, c.phoneNumber), row);
  }

  /** With no row carrying `id`, a new row is the only one found for it. */
  lemma {:induction false} FindByIDSnoc(rows: seq<Row>, r: Row, id: int)
    requires forall i :: 0 <= i < |rows| ==> rows[i].id != id
    ensures FindByID(rows + [r], id) == if r.id == id then Some(r) else None
  {
    if rows == [] {
      assert rows + [r] == [r];
    } else {
      assert (rows + [r])[1..] == rows[1..] + [r];
      FindByIDSnoc(rows[1..], r, id);
    }
  }

  /** A reliable lookup of an id no row has yields "no contact" and no
      error, as written and corrected alike; any other answer of the
      corrected lookup is the contact with that id. */
  lemma GetContactByIDMissing(db: Db, id: int)
    requires Reliable(db, 1)
    ensures (forall i :: 0 <= i < |db.rows| ==> db.rows[i].id != id) <==> GetContactByIDOn(db, id).1 == Ok(None)
    ensures (forall i :: 0 <= i < |db.rows| ==> db.rows[i].id != id) <==> GetContactByIDCorrectedOn(db, id).1 == Ok(None)
    ensures var r := GetContactByIDCorrectedOn(db, id).1;
      r.Ok? && r.value.Some? ==> r.value.value.id == id && exists i :: 0 <= i < |db.rows| && db.rows[i].id == id
  {
    ReliableSend(db, SelectByID(id), 0);
  }

  /** As written, `GetContactByID` of the id CreateContact has just
      returned fails instead of returning the contact. */
  lemma CreateThenGetAsWritten(db: Db, c: Contact, now: int)
    requires db.Valid() && Reliable(db, 2)
    requires c.linkPrecedence != "" && (c.email != "" || c.phoneNumber != "")
    ensures var (db1, id) := CreateContactOn(db, c, now);
      id == Ok(db.nextID) && GetContactByIDOn(db1, db.nextID).1 == Err(ScanArity(4, 5))
  {
    var a := Assignments(c);
    InsertStoresFields(c, db.nextID, now);
    assert a != [] by {
      LookupAssignments(c, "link_precedence");
    }
    var row := InsertedRow(Clauses(a), Params(a), db.nextID, now);
    assert db.Send(Insert(Clauses(a), Params(a))).NextFault().None? by {
      assert |db.faults| >= 2 ==> db.faults[1].None?;
    }
    FindByIDSnoc(db.rows, row, db.nextID);
  }

  /** The corrected `GetContactByID` returns the stored contact (its
      timestamp is not selected, so it stays zero). */
  lemma CreateThenGetCorrected(db: Db, c: Contact, now: int)
    requires db.Valid() && Reliable(db, 2)
    requires c.linkPrecedence != "" && (c.email != "" || c.phoneNumber != "")
    ensures var (db1, id) := CreateContactOn(db, c, now);
      id == Ok(db.nextID)
      && GetContactByIDCorrectedOn(db1, db.nextID).1 == Ok(Some(c.(id := db.nextID, createdAt := 0)))
  {
    var a := Assignments(c);
    InsertStoresFields(c, db.nextID, now);
    assert a != [] by {
      LookupAssignments(c, "link_precedence");
    }
    var row := InsertedRow(Clauses(a), Params(a), db.nextID, now);
    assert db.Send(Insert(Clauses(a), Params(a))).NextFault().None? by {
      assert |db.faults| >= 2 ==> db.faults[1].None?;
    }
    FindByIDSnoc(db.rows, row, db.nextID);
  }

  /** An empty request field matches nothing: no stored email or phone
      number is "" and a NULL column never equals a value. */
  lemma EmptyEmailMatchesPhoneOnly(db: Db, phoneNumber: string)
    requires db.Valid()
    ensures forall r :: r in MatchingRows(db.rows, "", phoneNumber) <==> r in db.rows && r.phoneNumber == Some(phoneNumber)
  {
    forall r | r in db.rows
      ensures r.email != Some("")
    {
      var i :| 0 <= i < |db.rows| && db.rows[i] == r;
    }
  }

  lemma EmptyPhoneMatchesEmailOnly(db: Db, email: string)
    requires db.Valid()
    ensures forall r :: r in MatchingRows(db.rows, email, "") <==> r in db.rows && r.email == Some(email)
  {
    forall r | r in db.rows
      ensures r.phoneNumber != Some("")
    {
      var i :| 0 <= i < |db.rows| && db.rows[i] == r;
    }
  }

  /** Each statement that writes keeps the table's invariant. */
  lemma CreateKeepsValid(db: Db, c: Contact, now: int)
    requires db.Valid()
    ensures CreateContactOn(db, c, now).0.Valid()
  {
    InsertStoresFields(c, db.nextID, now);
  }

  lemma RelinkKeepsValid(db: Db, newLinkedID: int, oldLinkedID: int)
    requires db.Valid()
    ensures UpdatedContactsWithNewLinkedIDsOn(db, newLinkedID, oldLinkedID).0.Valid()
  {
  }

  lemma SetLinkedKeepsValid(db: Db, id: int, linkedID: int)
    requires db.Valid()
    ensures UpdatedContactOn(db, id, linkedID).0.Valid()
  {
  }
}
