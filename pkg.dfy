/** pkg/types.go: the request the resolver receives, its validation, and
    the consolidated contact it answers with. */
module Pkg {
  import opened Wrappers

  datatype ContactRequest = ContactRequest(email: string, phoneNumber: string)

  /** The two ways `Validate` refuses a request. */
  datatype ValidationError =
    | InadequateInput
    | IncorrectEmail(email: string)

  function Message(e: ValidationError): string
  {
    match e
    case InadequateInput =>
      "inadequate input parameters. Required either email or phone number or both"
    case IncorrectEmail(email) => "incorrect email address: " + email
  }

  /** `validateEmail`. Whether an address parses (`mail.ParseAddress`) is
      the caller-supplied predicate `parses`. */
  function ValidateEmail(email: string, parses: string -> bool): (err: Option<ValidationError>)
    ensures err.None? <==> email == "" || parses(email)
    ensures err.Some? ==> err.value == IncorrectEmail(email)
  {
    if email == "" then None
    else if !parses(email) then Some(IncorrectEmail(email))
    else None
  }

  /** `ContactRequest.Validate`: `None` is Go's nil error. */
  function Validate(req: ContactRequest, parses: string -> bool): (err: Option<ValidationError>)
    ensures err == Some(InadequateInput) <==> req.email == "" && req.phoneNumber == ""
    ensures err.None? <==>
              (req.email != "" || req.phoneNumber != "") && (req.email == "" || parses(req.email))
    ensures err.Some? && err.value != InadequateInput ==> err.value == IncorrectEmail(req.email)
  {
    if req.email == "" && req.phoneNumber == "" then Some(InadequateInput)
    else ValidateEmail(req.email, parses)
  }

  /** The phone number is only checked for presence, never for its format. */
  lemma ValidateIgnoresPhoneFormat(email: string, phone1: string, phone2: string, parses: string -> bool)
    requires phone1 != "" && phone2 != ""
    ensures Validate(ContactRequest(email, phone1), parses) == Validate(ContactRequest(email, phone2), parses)
  {
  }

  /** A request with a phone number and no email is always accepted. */
  lemma PhoneOnlyIsValid(phone: string, parses: string -> bool)
    requires phone != ""
    ensures Validate(ContactRequest("", phone), parses) == None
  {
  }

  /** The consolidated view of one identity (`pkg.Contact`). */
  datatype Contact = Contact(
    primaryContactID: int,
    emails: seq<string>,
    phoneNumbers: seq<string>,
    secondaryContactIDs: seq<int>)

  /** `ContactResponse`, handed around by pointer. */
  class ContactResponse {
    var contact: Contact

    /** `NewContactResponse`: id 0 and three empty lists. */
    constructor ()
      ensures contact.primaryContactID == 0
      ensures contact.emails == [] && contact.phoneNumbers == [] && contact.secondaryContactIDs == []
    {
      contact := Contact(0, [], [], []);
    }

    /** `WithID`: sets the primary id in place and returns the receiver. */
    method WithID(id: int) returns (self: ContactResponse)
      modifies this
      ensures self == this
      ensures contact.primaryContactID == id
      ensures contact.emails == old(contact.emails)
      ensures contact.phoneNumbers == old(contact.phoneNumbers)
      ensures contact.secondaryContactIDs == old(contact.secondaryContactIDs)
    {
      contact := contact.(primaryContactID := id);
      self := this;
    }
  }
}
