/** The support request document: its fields, the setters and validators of its schema, and
    the defaults a new request takes. */
module SupportModel {
  import opened Js
  import opened UserModel

  /** The values the `status` enumeration admits. */
  datatype Status = Pending | InProgress | Resolved | Closed

  const StatusNames: seq<string> := ["pending", "in-progress", "resolved", "closed"]

  function StatusName(s: Status): (name: string)
    ensures name in StatusNames
  {
    match s
    case Pending => "pending"
    case InProgress => "in-progress"
    case Resolved => "resolved"
    case Closed => "closed"
  }

  /** The stored form of a status is its name, and no two statuses share one. */
  lemma StatusNamesDistinct(a: Status, b: Status)
    ensures StatusName(a) == StatusName(b) <==> a == b
  {
  }

  /** A stored support request; its ObjectId is modelled by a number. */
  datatype Ticket = Ticket(
    id: nat,
    userId: string,
    email: string,
    subject: string,
    description: string,
    screenshot: JsStr,
    contactNumber: string,
    status: Status,
    createdAt: nat,
    updatedAt: nat)

  /** The keys `SupportRequest.create` receives; a key the request did not send is `Absent`. */
  datatype Draft = Draft(
    userId: Field<JsStr>,
    email: Field<JsStr>,
    subject: Field<JsStr>,
    description: Field<JsStr>,
    screenshot: Field<JsStr>,
    contactNumber: Field<JsStr>)

  /** The `trim` setter: a string is trimmed, anything else is left alone. */
  function TrimSetter(v: Field<JsStr>): (r: Field<JsStr>)
    ensures r.Present? <==> v.Present?
    ensures r.Present? && r.value.Str? ==> v.value.Str? && r.value.text == Trim(v.value.text)
    ensures r.Present? && r.value.Null? ==> v.value.Null?
  {
    if v.Present? && v.value.Str? then Present(Str(Trim(v.value.text))) else v
  }

  /** The setters as they run on assignment: email, subject and contact number are trimmed;
      the description is not. */
  function Cast(d: Draft): Draft {
    d.(email := TrimSetter(d.email), subject := TrimSetter(d.subject), contactNumber := TrimSetter(d.contactNumber))
  }

  /** The setters are idempotent: assigning the cast values again changes nothing. */
  lemma CastIdempotent(d: Draft)
    ensures Cast(Cast(d)) == Cast(d)
  {
    if d.email.Present? && d.email.value.Str? { TrimIdempotent(d.email.value.text); }
    if d.subject.Present? && d.subject.value.Str? { TrimIdempotent(d.subject.value.text); }
    if d.contactNumber.Present? && d.contactNumber.value.Str? { TrimIdempotent(d.contactNumber.value.text); }
  }

  /** What Mongoose's `required` validator accepts for a string path: a string that is not ''. */
  predicate Supplied(v: Field<JsStr>) {
    v.Present? && v.value.Str? && v.value.text != ""
  }

  /** The first failing validator of one path, as its message: `required` runs first, and the
      others only on a value that got past it. */
  function PathError(v: Field<JsStr>, required: string, ok: string -> bool, message: string): (r: seq<string>)
    ensures r == [] <==> Supplied(v) && ok(v.value.text)
    ensures |r| <= 1
  {
    if !Supplied(v) then [required]
    else if !ok(v.value.text) then [message]
    else []
  }

  predicate AtLeast(s: string, n: nat) {
    |s| >= n
  }

  /** The messages of the schema's validators on a cast draft, one per failing path, in the
      order of the schema's paths. */
  function TicketErrors(d: Draft): (errors: seq<string>)
    ensures errors == [] <==>
      Supplied(d.userId) && Supplied(d.email) && EmailPattern(d.email.value.text)
      && Supplied(d.subject) && |d.subject.value.text| >= 5
      && Supplied(d.description) && |d.description.value.text| >= 10
      && Supplied(d.contactNumber)
    ensures |errors| <= 5
  {
    PathError(d.userId, "User ID is required", _ => true, "")
    + PathError(d.email, "Email is required", EmailPattern, "Please provide a valid email address")
    + PathError(d.subject, "Subject is required", s => AtLeast(s, 5), "Subject must be at least 5 characters long")
    + PathError(d.description, "Description is required", s => AtLeast(s, 10),
                "Description must be at least 10 characters long")
    + PathError(d.contactNumber, "Contact number is required", _ => true, "")
  }

  /** The request `SupportRequest.create` stores for a cast draft that passed the validators:
      no screenshot sent means the default null, the status is always the default `pending`, and
      both timestamps are `now`. */
  function NewTicket(d: Draft, id: nat, now: nat): (t: Ticket)
    requires TicketErrors(d) == []
    ensures t.status == Pending && t.createdAt == now && t.updatedAt == now
    ensures d.screenshot.Absent? ==> t.screenshot == Null
  {
    Ticket(id, d.userId.value.text, d.email.value.text, d.subject.value.text, d.description.value.text,
           IfDefined(d.screenshot, Null), d.contactNumber.value.text, Pending, now, now)
  }

  /** What every stored request satisfies: the required strings are there, the trimmed paths
      are trimmed, the e-mail matches the pattern, the subject has at least 5 characters and
      the description at least 10. */
  predicate Stored(t: Ticket) {
    t.userId != "" && t.email != "" && EmailPattern(t.email) && t.email == Trim(t.email)
    && |t.subject| >= 5 && t.subject == Trim(t.subject)
    && |t.description| >= 10
    && t.contactNumber != "" && t.contactNumber == Trim(t.contactNumber)
  }

  /** Whatever a create stores satisfies the schema: validation runs on the cast draft. */
  lemma NewTicketIsStored(d: Draft, id: nat, now: nat)
    requires TicketErrors(Cast(d)) == []
    ensures Stored(NewTicket(Cast(d), id, now))
  {
    TrimIdempotent(d.email.value.text);
    TrimIdempotent(d.subject.value.text);
    TrimIdempotent(d.contactNumber.value.text);
  }

  /** A draft with nothing in it fails every required path, in order. */
  lemma EmptyDraftErrors()
    ensures TicketErrors(Cast(Draft(Absent, Absent, Absent, Absent, Absent, Absent)))
         == ["User ID is required", "Email is required", "Subject is required", "Description is required",
             "Contact number is required"]
  {
  }
}
