# bitespeed identity resolver in Dafny

This is a model of the identity-reconciliation service `bitespeed`, with
proofs about it. A client posts an email address and/or a phone number to
`POST /identify`. The service keeps a `contact` table in which every row is
labelled either `primary` or `secondary`, and a secondary row points
(`linked_id`) at the primary of its cluster.

For each request the resolver does one of four things:

- creates a new primary contact, when nothing matches;
- attaches a new secondary contact, when one of the two fields is new;
- merges two clusters, when both fields match different primaries: the
  later-created primary and its cluster are re-linked to the earlier one;
- only reads the cluster.

It then reads the cluster back and flattens it into one response: the
primary id, the emails, the phone numbers and the secondary ids.

The modules follow the repository's packages:

| file | module | models |
|---|---|---|
| `wrappers.dfy` | `Wrappers` | `Option`, `Result` |
| `strings.dfy` | `Strings` | Go's string order, `sort.Strings`, `strings.Join`, the `%d` verb |
| `util.dfy` | `Util` | `internal/util/util.go`: `KeyExists`, the `QueryParams` builder |
| `pkg.dfy` | `Pkg` | `pkg/types.go`: request validation, the response record and its constructors |
| `storage.dfy` | `Storage` | `internal/storage/contact.go`: the `contact` table and its six statements |
| `service.dfy` | `Service` | `internal/service/contact.go`: `identify`, `helper`, `getPrimaryContactID`, `toContact`, `toResponse` |
| `service_properties.dfy` | `ServiceProperties` | what the resolver guarantees over the table |

The table is an object, `Storage.ContactStorage`. It holds:

- the rows, whose NULL columns are kept explicitly as `Option`;
- the AUTO_INCREMENT counter, `nextID`;
- a script saying which of the coming statements the database refuses, `faults`;
- a ghost log of the statements sent.

Each method sends its statement and changes the rows as the SQL text says.
Each is proved equal to a pure function over a `Db` value, such as
`ListContactsOn` or `CreateContactOn`. The lemmas reason over those
functions. `Service.Helper` and `Service.Identify` are proved equal in the
same way to `HelperOn` and `IdentifyOn`.

The loops of the Go code are Dafny loops with invariants:

- the matching loop of `helper` is `Service.Tally`;
- the map-filling loop of `toResponse` is `Service.ToResponse`, together with `Service.Keys`;
- the `rows.Next()` loops are `Storage.ContactStorage.ReadAll`;
- the successive appends of `CreateContact` are `Storage.ContactStorage.BuildAssignments`.

`toResponse` is modelled by `Service.ToResponse`. There, Go's random map
order is a nondeterministic choice (`Service.Keys`). `sort.Strings` is an
insertion sort, `Strings.SortStrings`, proved to return an ascending
permutation. `ToResponse` is proved equal to `Service.Flatten`, a
deterministic description of the response that lists the other values
with `Strings.SortedSet`.

Where the code departs from its tests or from what it evidently intends, the model follows the code:

- A merge changes only `linked_id`. The newer primary keeps the label
  `primary` (`internal/storage/contact.go:183`), so a merged cluster holds
  two rows labelled primary. `ServiceProperties.MergeKeepsNewerLabel` states
  this. The storage test expects an update that also sets `link_precedence`.
- So a merge need not answer with the older primary. The code evidently
  intends the older primary to survive and be answered as the primary: it
  sets `primaryContactID = cc1.ID` after the merge
  (`internal/service/contact.go:114`). `toResponse` reports the last row labelled primary
  (`internal/service/contact.go:154-157`). When the newer primary is the last
  row of the joined cluster labelled primary, the answer names the newer id
  as the primary and leaves it out of the secondary ids
  (`ServiceProperties.MergeAnswersNewer`). The same request sent again
  finds both rows still labelled primary and merges again.
  `ServiceProperties.MergeScenarioAsWritten` runs one merge
  twice. Two primaries exist, 1 (`a@x.com`, `100`, older) and 2 (`b@x.com`,
  `200`). Both runs of the request (`a@x.com`, `200`) answer primary 2 with
  no secondaries, and both send the two UPDATEs.
- `toResponse` always emits the primary's email and phone number first,
  even when they are empty. The service tests expect an empty primary email
  to be left out, but those tests call `generateContactResponseFromContacts`,
  which is not part of this model. `ServiceProperties.EmptyPrimaryEmailIsListed`
  states what the code does for the cluster of that test.
- The service calls the storage under other names:

  | service calls | storage method |
  |---|---|
  | `ListContactsByEmailAndPhoneNumber` | `ListContacts` |
  | `ListContactsByID` | `GetContactsByPrimaryID` |
  | `UpdateContactsWithNewLinkedIDs` | `UpdatedContactsWithNewLinkedIDs` |
  | `UpdateContact(id, Contact{LinkedID})` | `UpdatedContact(id, linkedID)` |

  The model links the service to those storage methods.
- The service sets `PrimaryContactId` and `SecondaryContactIds`, while
  `pkg/types.go` declares `PrimaryContactID` and `SecondaryContactIDs`. The
  model has one response record, `Pkg.Contact`.

## Model

| member | source | states |
|---|---|---|
| Util.KeyExists | internal/util/util.go:9-12 | true exactly when the key is in the map's domain |
| Util.QueryParams.constructor | internal/util/util.go:21-28 | column number 1, three empty lists, and the builder invariant holds |
| Util.QueryParams.AddParam | internal/util/util.go:30-35 | appends exactly one column, one value and the placeholder `$` + decimal of the old column number; the column number grows by one; earlier entries unchanged; keeps the invariant (lists aligned, length = column number - 1, i-th placeholder is `$(i+1)`) |
| Util.PlaceHoldersDistinct | internal/util/util.go:30-35 | in a well-formed builder no two placeholders are equal |
| Util.PlaceHolderNumber | internal/util/util.go:33 | the placeholder of n is `$` followed by digits that read back as n |
| Util.PlaceHolderInjective | internal/util/util.go:33 | different column numbers give different placeholders |
| Strings.SortStrings | internal/service/contact.go:181-182 | `sort.Strings` returns an ascending permutation of its input |
| Strings.SortDistinct | internal/service/contact.go:172-182 | sorting distinct keys in any order gives the unique strictly ascending listing of the set |
| Strings.StrictlySortedUnique | internal/service/contact.go:181-182 | two strictly ascending listings of the same values are equal, so the sorted result does not depend on map order |
| Strings.ParseFormat | internal/util/util.go:33 | the decimal digits `%d` prints for n read back as n |
| Strings.FormatNatInjective | internal/util/util.go:33 | distinct numbers print differently |
| Pkg.ValidateEmail | pkg/types.go:24-32 | no error exactly when the email is empty or parses; otherwise the incorrect-email error naming that address |
| Pkg.Validate | pkg/types.go:14-22 | the inadequate-input error exactly when both fields are empty; no error exactly when a field is present and the email is empty or parses; any other error is the email error |
| Pkg.ValidateIgnoresPhoneFormat | pkg/types.go:14-22 | the result does not depend on which non-empty phone number is given |
| Pkg.PhoneOnlyIsValid | pkg/types.go:14-27 | a phone number without an email is always accepted |
| Pkg.ContactResponse.constructor | pkg/types.go:51-59 | `NewContactResponse`: id 0 and empty email, phone and secondary-id lists |
| Pkg.ContactResponse.WithID | pkg/types.go:61-64 | sets only the primary id, leaves the lists unchanged and returns the receiver itself |
| Storage.MatchingRows | internal/storage/contact.go:104 | a row is selected exactly when it is in the table and its email or phone number equals the bound value (NULL never matches) |
| Storage.ClusterRows | internal/storage/contact.go:63 | a row is selected exactly when its `linked_id` or its `id` equals the bound id |
| Storage.ScanRow | internal/storage/contact.go:84-96 | a row scans exactly when its link_precedence is not NULL; the contact has the row's id, label and timestamp; NULL phone, email and linked_id read as "" and 0; other values are copied |
| Storage.ScanAll | internal/storage/contact.go:76-99 | the read succeeds exactly when every selected row scans; then it returns one contact per row, in order, each the scan of its row |
| Storage.ScanAllStopsAtError | internal/storage/contact.go:84-86 | the first failing scan aborts the whole read with its error |
| Storage.Relinked | internal/storage/contact.go:177-180 | exactly the rows whose `linked_id` equals the first id get the second id as `linked_id`; no other row or column changes |
| Storage.SetLinkedID | internal/storage/contact.go:182-185 | only the row with that id changes, and only its `linked_id` |
| Storage.FindByID | internal/storage/contact.go:38-59 | nothing is found exactly when no row carries the id; a found row is in the table and has the id |
| Storage.ContactStorage.constructor | internal/storage/contact.go:34-36 | an empty, valid table with counter 1; the Go wraps an existing database, the model starts from an empty table |
| Storage.ContactStorage.ListContacts | internal/storage/contact.go:102-140 | sends the email-or-phone select; new state and result are `ListContactsOn` of the old state; keeps the table invariant |
| Storage.ContactStorage.GetContactsByPrimaryID | internal/storage/contact.go:61-100 | sends the cluster select; new state and result are `GetContactsByPrimaryIDOn`; keeps the invariant |
| Storage.ContactStorage.ReadAll | internal/storage/contact.go:76-99 | the scan loop returns `ScanAll` of the selected rows |
| Storage.ContactStorage.GetContactByID | internal/storage/contact.go:38-59 | the corrected read: (nil, nil) for a missing id, otherwise the row's id, label and columns read with NULL as "" and 0 |
| Storage.ContactStorage.CreateContact | internal/storage/contact.go:142-175 | sends the INSERT; new state and result are `CreateContactOn`: a refused statement or an empty SET clause is an error, otherwise the row is appended and the AUTO_INCREMENT value returned |
| Storage.ContactStorage.BuildAssignments | internal/storage/contact.go:143-166 | builds the clause and parameter lists of `Assignments`, aligned one to one |
| Storage.ContactStorage.UpdatedContactsWithNewLinkedIDs | internal/storage/contact.go:177-180 | binds (old, new) as its SQL text orders them; on success the rows are `Relinked(new, old)`, on error unchanged |
| Storage.ContactStorage.UpdatedContact | internal/storage/contact.go:182-185 | on success only that row's `linked_id` changes; on error the rows are unchanged |
| Storage.ClausesSnoc | internal/storage/contact.go:148-166 | one more assignment appends one `col = ?` clause and its value |
| Storage.AssignedIsLookup | internal/storage/contact.go:168-170 | the value the database binds to a column of the rendered INSERT is the first assignment to that column |
| Storage.LookupAssignments | internal/storage/contact.go:148-166 | each of email, phone_number, linked_id, link_precedence is assigned its field's value exactly when that field is non-empty or non-zero |
| Storage.AssignmentsShape | internal/storage/contact.go:148-166 | one clause per set field, in the order email, phone_number, linked_id, link_precedence |
| Storage.InsertStoresFields | internal/storage/contact.go:142-175 | the inserted row holds each set field and NULL for each empty one, the new id and the database clock |
| Storage.ReliableSend | internal/storage/contact.go:170 | a statement the script lets through succeeds and uses up one entry |
| Storage.CreateThenList | internal/storage/contact.go:102-175 | CreateContact then ListContacts on the same fields returns the earlier result plus the new contact, with the same email, phone number, linked id and label, the returned id and the clock value |
| Storage.GetContactByIDMissing | internal/storage/contact.go:54-55 | as written and corrected, a lookup gives (nil, nil) exactly when no row has the id; a contact found by the corrected lookup has that id and comes from the table |
| Storage.CreateThenGetAsWritten | internal/storage/contact.go:40-52 | as written, reading back the row just inserted is a scan error (four columns, five destinations) |
| Storage.CreateThenGetCorrected | internal/storage/contact.go:38-59 | corrected, reading back the row just inserted returns the stored contact with the new id |
| Storage.EmptyEmailMatchesPhoneOnly | internal/storage/contact.go:104 | in a valid table an empty email matches nothing, so only the phone number selects |
| Storage.EmptyPhoneMatchesEmailOnly | internal/storage/contact.go:104 | in a valid table an empty phone number matches nothing, so only the email selects |
| Storage.CreateKeepsValid | internal/storage/contact.go:142-175 | an insert keeps ids positive, ascending and below the counter, and keeps empty strings out of the table |
| Storage.RelinkKeepsValid | internal/storage/contact.go:177-180 | the bulk re-link keeps the table invariant |
| Storage.SetLinkedKeepsValid | internal/storage/contact.go:182-185 | the single-row update keeps the table invariant |
| Service.CountMatches | internal/service/contact.go:77-91 | `e` and `p`: at most the number of contacts, and zero exactly when no contact carries the value |
| Service.LastPrimaryMatch | internal/service/contact.go:77-91 | the last contact labelled primary carrying the value, or -1 when there is none |
| Service.Tally | internal/service/contact.go:71-91 | the loop leaves `e`, `p`, `p1` and `p2` as the match counts and the last matching primaries (the zero contact when there is none) |
| Service.CountMatchesSnoc | internal/service/contact.go:79-89 | one more contact adds one to the count exactly when it matches |
| Service.PrimaryMatchSnoc | internal/service/contact.go:79-88 | one more contact replaces `p1`/`p2` exactly when it is a matching primary |
| Service.LastPrimary | internal/service/contact.go:152-160 | the last contact labelled primary, or -1 |
| Service.EmailSet | internal/service/contact.go:162 | the emails of the contacts, each value once |
| Service.PhoneSet | internal/service/contact.go:163 | the phone numbers of the contacts, each value once |
| Service.SecondaryIDs | internal/service/contact.go:158-160 | its own contract is only the bound of at most one id per contact; which ids and in what order is stated by `ServiceProperties.SecondaryIDsInOrder` |
| Service.NonPrimaryIndices | internal/service/contact.go:152-160 | the positions of the contacts not labelled primary: each such position once, ascending, and no other position |
| Service.Flatten | internal/service/contact.go:144-185 | the response's primary id is the last primary contact's id; the email and phone lists are as long as the distinct values together with the primary's value; at most one secondary id per contact (`ServiceProperties.FlattenShape` gives the whole shape) |
| Service.ResponseSnoc | internal/service/contact.go:152-164 | what one more contact adds to the primary, the secondary ids and both value sets |
| Service.Decide | internal/service/contact.go:64-127 | a request missing a field only reads; except for a merge, the cluster id is `getPrimaryContactID`; a merge joins two different contacts, the earlier-created one surviving |
| Service.Keys | internal/service/contact.go:172-178 | map iteration yields each key exactly once, in some order |
| Service.ToResponse | internal/service/contact.go:144-185 | the response is `Flatten` of the contacts, whatever order the maps are iterated in |
| Service.Helper | internal/service/contact.go:62-135 | new table state and result are `HelperOn` of the old state; keeps the table invariant |
| Service.Identify | internal/service/contact.go:24-53 | new table state and result are `IdentifyOn` of the old state; keeps the table invariant |
| ServiceProperties.AttachIff | internal/service/contact.go:93-127 | a secondary is attached exactly when both fields are given and one of them matches no contact |
| ServiceProperties.MergeIff | internal/service/contact.go:93-105 | a merge happens exactly when both fields are given, each is matched by a contact labelled primary, and those last primary matches differ |
| ServiceProperties.MergeKeepsOlder | internal/service/contact.go:93-105 | the merged pair is `p1` and `p2`; they differ and both are primary contacts from the list; the earlier-created one survives; on a tie `p1` survives |
| ServiceProperties.NewPrimaryInsertText | internal/storage/contact.go:148-170 | the INSERT for a new primary with both fields sets email, phone_number and link_precedence, in that order, and binds the email, the phone number and "primary" |
| ServiceProperties.NewSecondaryInsertText | internal/storage/contact.go:148-170 | the INSERT for a new secondary sets email, phone_number, linked_id and link_precedence, in that order, and binds the fields, the primary id and "secondary" |
| ServiceProperties.InvalidRequestSendsNothing | internal/service/contact.go:24-26 | an invalid request gets a 400 with the validation message and the database is untouched |
| ServiceProperties.NoMatchCreatesPrimary | internal/service/contact.go:33-45 | with no match, exactly one row is appended: a primary with the request's fields and no link. The answer is its id, `[email]`, `[phone]` and no secondaries |
| ServiceProperties.PartialRequestOnlyReads | internal/service/contact.go:64-134 | a request missing a field changes no row and sends only the cluster read for `getPrimaryContactID` |
| ServiceProperties.BothMatchedNeverInserts | internal/service/contact.go:93-118 | when both fields match some contact, no INSERT is sent and the table keeps its size and counter |
| ServiceProperties.AttachAppendsSecondary | internal/service/contact.go:119-127 | the attached row is a secondary with both request fields. It links to `getPrimaryContactID` (NULL when that is 0) and takes the next id |
| ServiceProperties.MergeJoinsClusters | internal/service/contact.go:107-114 | after both updates succeed, a row is in the older primary's cluster exactly when it was in either cluster. No id or label changes and nothing is inserted |
| ServiceProperties.MergeKeepsNewerLabel | internal/storage/contact.go:182-185 | the newer primary now links to the older one but keeps its label |
| ServiceProperties.MergeRows | internal/service/contact.go:107-114 | the bulk re-link comes first, then the newer primary's own link |
| ServiceProperties.MergedCluster | internal/storage/contact.go:177-185 | re-linking the newer cluster and then the newer primary puts a row in the older cluster exactly when it was in either |
| ServiceProperties.MergeAnswer | internal/service/contact.go:107-134 | with both updates and the read succeeding, the answer is the flattened older cluster read from the twice re-linked table |
| ServiceProperties.ReliableMerge | internal/service/contact.go:107-112 | when the database lets the statements through, both updates succeed and the rows are the bulk re-link followed by the single-row update |
| ServiceProperties.LastPrimaryRowAnswers | internal/service/contact.go:152-157 | a cluster read reports as its primary the last row of the cluster, in table order, that is labelled primary |
| ServiceProperties.ClusterPrimarySnoc | internal/service/contact.go:152-157 | one more row changes the reported primary exactly when it is in the cluster and labelled primary |
| ServiceProperties.MergeAnswersNewer | internal/service/contact.go:107-134 | when the newer primary is the last row of the joined cluster labelled primary, the merge answers the newer id as the primary and does not list it as a secondary |
| ServiceProperties.MergedReadAnswersNewer | internal/storage/contact.go:177-185 | the same, over the rows: the read of the older cluster after both updates reports the newer id as primary and not as a secondary |
| ServiceProperties.ClusterReadAnswers | internal/service/contact.go:152-160 | the last row of a cluster labelled primary is reported as the primary and not as a secondary |
| ServiceProperties.MergedRows | internal/storage/contact.go:177-185 | after both updates, the newer primary's row is in the older cluster with its id and label, and no later row of that cluster is labelled primary |
| ServiceProperties.PrimaryRowNotSecondary | internal/service/contact.go:154-160 | with unique ids, a row labelled primary is never listed as a secondary by a read of the table |
| ServiceProperties.ScenarioScan | internal/storage/contact.go:76-99 | the two rows of the example read as their two contacts |
| ServiceProperties.ScenarioMatches | internal/storage/contact.go:104 | (a@x.com, 200) selects both rows of the example |
| ServiceProperties.ScenarioCluster | internal/storage/contact.go:63 | once 2 links to 1, the cluster of 1 is both rows |
| ServiceProperties.ScenarioDecide | internal/service/contact.go:77-105 | `p1` is contact 1, `p2` is contact 2, and 1, being older, survives the merge |
| ServiceProperties.ScenarioUpdates | internal/storage/contact.go:177-185 | the two updates only link row 2 to 1 |
| ServiceProperties.ScenarioSets | internal/service/contact.go:152-164 | in the merged example, row 2 is the last primary, there are no secondaries, and the other values are a@x.com and 100 |
| ServiceProperties.ScenarioFlatten | internal/service/contact.go:144-185 | the merged example flattens to primary 2, emails [b@x.com, a@x.com], phones [200, 100] and no secondaries |
| ServiceProperties.ScenarioHelper | internal/service/contact.go:93-134 | `helper` on the example sends both UPDATEs and the cluster read, links 2 to 1, and answers primary 2 |
| ServiceProperties.ScenarioStep | internal/service/contact.go:28-53 | one `identify` of (a@x.com, 200) on the example, whether 2 is already linked or not: the select, both UPDATEs, the read, and the answer primary 2 with no secondaries |
| ServiceProperties.MergeScenarioAsWritten | internal/service/contact.go:93-134 | the two-primary merge of 1 (a@x.com, 100, older) and 2 (b@x.com, 200) by the request (a@x.com, 200), run twice: both answers name 2 as the primary with no secondaries, and the second run sends both UPDATEs again |
| ServiceProperties.MergeStopsAtFailure | internal/service/contact.go:107-112 | a failing first update aborts with its error and leaves the rows unchanged; a failing second update leaves only the cluster re-linked |
| ServiceProperties.PrimaryIDIsPrimaryRow | internal/service/contact.go:137-142 | on contacts read from a linked table, `getPrimaryContactID` is the id of a row labelled primary, never 0 |
| ServiceProperties.CreateKeepsLinked | internal/service/contact.go:33-127 | inserting a primary, or a contact linked to a primary row, keeps every non-primary row linked to a primary row |
| ServiceProperties.MergeKeepsLinked | internal/service/contact.go:107-112 | both merge updates keep the link invariant |
| ServiceProperties.HelperKeepsLinked | internal/service/contact.go:62-135 | `helper` keeps the link invariant |
| ServiceProperties.IdentifyKeepsLinked | internal/service/contact.go:24-53 | every request, answered or refused, keeps the link invariant |
| ServiceProperties.ScannedDescribes | internal/storage/contact.go:102-140 | the contacts read from a linked table name primary rows as their primaries |
| ServiceProperties.SecondaryIDsAreNonPrimaries | internal/service/contact.go:154-160 | the secondary ids are exactly the ids of contacts not labelled primary |
| ServiceProperties.FlattenShape | internal/service/contact.go:144-185 | the response has the last primary's id; its email and phone first; every other value of the cluster once, in ascending order; as secondaries, the ids of the contacts not labelled primary, one per contact, in read order |
| ServiceProperties.SecondaryIDsInOrder | internal/service/contact.go:158-160 | the k-th secondary id is the id of the k-th contact not labelled primary, one per such contact, in read order |
| ServiceProperties.HeadThenSorted | internal/service/contact.go:166-182 | the primary's value first, then the others ascending, each value once, nothing else |
| ServiceProperties.EmptyPrimaryEmailIsListed | internal/service/contact.go:166-170 | for a primary without an email, "" is listed as the first email |

## Findings

| source | as written | input that shows it | evidently intended | confidence | as-written member | corrected member |
|---|---|---|---|---|---|---|
| internal/storage/contact.go:40-59 | the query selects 4 columns but `Scan` gets 5 destinations, and the scanned phone, email and linked_id are never copied into the result | any id that exists, e.g. the one `CreateContact` just returned | select `id` too, and copy the NULL-able columns as the other reads do | not executed | Storage.CreateThenGetAsWritten (on Storage.GetContactByIDOn) | Storage.CreateThenGetCorrected (on Storage.GetContactByIDCorrectedOn, used by Storage.ContactStorage.GetContactByID) |

## Left out

- HTTP plumbing of `identify`: echo `Bind`, the HTTP error values and JSON encoding. A result is `Ok(response)` or a `Failure` with status 400 or 500.
- The transaction middleware, the database connection and configuration loading. Each request runs alone against the table.
- Rollback is not modelled. `transactionMiddleWare` rolls back whenever `identify` returns an error (`internal/service/service.go:74-80`). The table a failing `IdentifyOn`, `HelperOn` or `ServiceProperties.MergeStopsAtFailure` leaves behind is the state inside the transaction, which the rollback discards before any other request sees it.
- `mail.ParseAddress` is the caller-supplied predicate `parses`.
- `validatePhoneNumber` is never called and is not modelled.
- `time.Time`: `created_at` is an integer given by the caller (`now`), as the database's clock. `CreatedAt.Sub(...).Seconds() > 0` is the sign of the difference. A NULL `created_at` would make Go dereference nil; this is not modelled.
- `UpdatedAt` and `DeletedAt` are never read or written by the logic.
- Ids are unbounded integers. int64 overflow of `AUTO_INCREMENT` is not modelled.
- A read returns rows in table order. The SQL has no `ORDER BY`, so a database may return another order. `toResponse` does not depend on the order of values, but its primary (the last row labelled primary) and its secondary-id order do. So do `getPrimaryContactID`, which takes the first row read (`internal/service/contact.go:137-142`), and `helper`'s choice of `p1` and `p2` as the last matching primaries (`internal/service/contact.go:77-91`).
- Storage.MatchingRows: `email = ? OR phone_number = ?` is taken as exact, character-for-character equality. MySQL compares VARCHAR columns under the column's collation, and the default collations ignore case and trailing spaces; collation-dependent matching is not modelled, since the schema is not part of this model. Under such a collation a request (`A@x.com`, `999`) would select a stored (`a@x.com`, `100`) that `helper`'s exact counts then do not match.
- `rows.Err()` and `rows.Close()` are not modelled; a read fails only when its statement is refused or a row does not scan.
- Go's nil versus empty slice is not modelled. A response built by `identify` for a new primary has a nil secondary-id slice, which JSON marshals as `null`.
- Database failures are a script of per-statement outcomes, not causes.
- Service.GetPrimaryContactID: its contract is its requirement of a non-empty list; what it returns is stated by `ServiceProperties.PrimaryIDIsPrimaryRow` and the lemmas on `helper`.
- Service.ToContact: stated through `NewPrimary` and `NewSecondary` in `ServiceProperties.NoMatchCreatesPrimary` and `ServiceProperties.AttachAppendsSecondary`.
