/** The support-request handlers: creating a request for a registered user, listing all
    requests, fetching one by its ObjectId and listing one user's requests. */
module SupportController {
  import opened Js
  import opened Http
  import opened UserModel
  import opened SupportModel
  import opened Validation
  import ObjectId

  /** The `{ count, data }` body of a listing. */
  datatype TicketListing = TicketListing(count: nat, data: seq<Ticket>)

  /** A request's ObjectId is its position in insertion order. */
  ghost predicate AtPositions(ts: seq<Ticket>) {
    forall i :: 0 <= i < |ts| ==> ts[i].id == i
  }

  ghost predicate AllStored(ts: seq<Ticket>) {
    forall i :: 0 <= i < |ts| ==> Stored(ts[i])
  }

  /** Requests are inserted in creation order, each stamped with an earlier clock reading. */
  ghost predicate Chronological(ts: seq<Ticket>, clock: nat) {
    (forall i :: 0 <= i < |ts| ==> ts[i].createdAt < clock)
    && (forall i, j :: 0 <= i < j < |ts| ==> ts[i].createdAt < ts[j].createdAt)
  }

  /** The order of `sort({ createdAt: -1 })`. */
  predicate NewestFirst(ts: seq<Ticket>) {
    forall i, j :: 0 <= i < j < |ts| ==> ts[i].createdAt > ts[j].createdAt
  }

  function Reverse(ts: seq<Ticket>): (r: seq<Ticket>)
    ensures |r| == |ts|
    ensures forall i :: 0 <= i < |ts| ==> r[i] == ts[|ts| - 1 - i]
  {
    if ts == [] then [] else Reverse(ts[1..]) + [ts[0]]
  }

  /** Reversing keeps every request exactly once. */
  lemma {:induction false} ReversePermutes(ts: seq<Ticket>)
    ensures multiset(Reverse(ts)) == multiset(ts)
  {
    if ts != [] {
      ReversePermutes(ts[1..]);
      assert ts == [ts[0]] + ts[1..];
    }
  }

  /** The requests of `ts` whose `user_id` is `userId`, in the order of `ts`. */
  function Owned(ts: seq<Ticket>, userId: string): (r: seq<Ticket>)
    ensures |r| <= |ts|
    ensures forall t :: t in r <==> t in ts && t.userId == userId
  {
    if ts == [] then []
    else if ts[0].userId == userId then [ts[0]] + Owned(ts[1..], userId)
    else Owned(ts[1..], userId)
  }

  /** Filtering keeps the newest-first order. */
  lemma {:induction false} OwnedNewestFirst(ts: seq<Ticket>, userId: string)
    requires NewestFirst(ts)
    ensures NewestFirst(Owned(ts, userId))
  {
    if ts != [] {
      OwnedNewestFirst(ts[1..], userId);
      var rest := Owned(ts[1..], userId);
      if ts[0].userId == userId {
        forall j | 0 < j < |[ts[0]] + rest|
          ensures ts[0].createdAt > ([ts[0]] + rest)[j].createdAt
        {
          assert rest[j - 1] in ts[1..];
        }
      }
    }
  }

  /** The requester `User.findOne({ user_id })` finds; only a string `user_id` can match one. */
  function Requester(users: UserStore, body: map<string, JsStr>): (r: Option<User>)
    reads users
    ensures r.Some? ==> Lookup(body, "user_id") == Present(Str(r.value.userId)) && r.value in users.users
  {
    match Lookup(body, "user_id")
    case Present(Str(s)) => users.FindByUserId(s)
    case _ => None
  }

  /** The fields `SupportRequest.create` receives: the sent e-mail, or the requester's when the
      sent one is falsy. */
  function DraftOf(body: map<string, JsStr>, userEmail: string): (d: Draft)
    ensures d.email == Present(Or(Lookup(body, "email"), Str(userEmail)))
    ensures d.userId == Lookup(body, "user_id") && d.subject == Lookup(body, "subject")
    ensures d.description == Lookup(body, "description") && d.screenshot == Lookup(body, "screenshot")
    ensures d.contactNumber == Lookup(body, "contactNumber")
  {
    Draft(Lookup(body, "user_id"), Present(Or(Lookup(body, "email"), Str(userEmail))), Lookup(body, "subject"),
          Lookup(body, "description"), Lookup(body, "screenshot"), Lookup(body, "contactNumber"))
  }

  /** A request that leaves the e-mail out passes the e-mail path: the requester's address is
      already trimmed and well formed. */
  lemma FallbackEmailPasses(users: UserStore, body: map<string, JsStr>)
    requires users.Valid() && Requester(users, body).Some? && !TruthyField(Lookup(body, "email"))
    ensures Cast(DraftOf(body, Requester(users, body).value.email)).email == Present(Str(Requester(users, body).value.email))
    ensures Supplied(Cast(DraftOf(body, Requester(users, body).value.email)).email)
    ensures EmailPattern(Requester(users, body).value.email)
  {
    var s := Lookup(body, "user_id").value.text;
    users.FoundIsRegistered(s);
    ValidEmailTrimmed(Requester(users, body).value.email);
  }

  /** The support requests, in insertion order, and the clock their timestamps read. */
  class TicketStore {
    var tickets: seq<Ticket>
    var clock: nat

    ghost predicate Valid()
      reads this
    {
      AtPositions(tickets) && AllStored(tickets) && Chronological(tickets, clock)
    }

    constructor()
      ensures Valid() && tickets == [] && clock == 0
    {
      tickets, clock := [], 0;
    }

    /** The write of one stored request at the next position, stamped with the clock. */
    method Append(t: Ticket)
      requires Valid() && Stored(t) && t.id == |tickets| && t.createdAt == clock
      modifies this
      ensures Valid()
      ensures tickets == old(tickets) + [t] && clock == old(clock) + 1
    {
      tickets, clock := tickets + [t], clock + 1;
    }

    /** `createSupportRequest`: an unknown requester is a 404; otherwise the schema validates
        the cast fields and a failure is thrown on, and a request that passes is stored as
        pending and echoed with 201. */
    method Create(users: UserStore, body: map<string, JsStr>) returns (r: Reply<Ticket>)
      requires Valid() && users.Valid()
      modifies this
      ensures Valid()
      ensures Requester(users, body).None? ==>
        r == Failure(NotFound("User not found")) && tickets == old(tickets) && clock == old(clock)
      ensures Requester(users, body).Some? ==>
        var d := Cast(DraftOf(body, Requester(users, body).value.email));
        (TicketErrors(d) != [] ==>
          r == Thrown(ValidationFailure(TicketErrors(d))) && tickets == old(tickets) && clock == old(clock))
        && (TicketErrors(d) == [] ==>
          r == Success(201, "Support request submitted successfully", NewTicket(d, |old(tickets)|, old(clock)))
          && tickets == old(tickets) + [r.data] && clock == old(clock) + 1)
      ensures r.Success? ==> tickets == old(tickets) + [r.data]
      ensures !r.Success? ==> tickets == old(tickets)
      ensures r.Success? ==> Lookup(body, "user_id") == Present(Str(r.data.userId)) && r.data.status == Pending
      ensures r.Success? ==> r.data.subject == Trim(TextAt(body, "subject"))
      ensures r.Success? ==> r.data.description == TextAt(body, "description")
      ensures r.Success? ==> r.data.contactNumber == Trim(TextAt(body, "contactNumber"))
      ensures r.Success? && TruthyField(Lookup(body, "email")) ==> r.data.email == Trim(TextOf(Lookup(body, "email")))
      ensures r.Success? && !TruthyField(Lookup(body, "email")) ==> r.data.email == Requester(users, body).value.email
    {
      var owner := Requester(users, body);
      if owner.None? {
        return Failure(NotFound("User not found"));
      }
      var d := Cast(DraftOf(body, owner.value.email));
      var errors := TicketErrors(d);
      if errors != [] {
        return Thrown(ValidationFailure(errors));
      }
      if !TruthyField(Lookup(body, "email")) {
        FallbackEmailPasses(users, body);
      }
      NewTicketIsStored(DraftOf(body, owner.value.email), |tickets|, clock);
      var t := NewTicket(d, |tickets|, clock);
      Append(t);
      r := Success(201, "Support request submitted successfully", t);
    }

    /** `getAllSupportRequests`: every request, newest first, with their number. */
    function ListAll(): (r: TicketListing)
      requires Valid()
      reads this
      ensures r.count == |r.data| == |tickets|
      ensures multiset(r.data) == multiset(tickets)
      ensures NewestFirst(r.data)
    {
      ReversePermutes(tickets);
      TicketListing(|tickets|, Reverse(tickets))
    }

    /** `getSupportRequestById`: a text that is not an ObjectId is thrown as a `CastError`, an
        unknown one is a 404, and a known one is the request with that ObjectId. */
    function GetById(idText: string): (r: Reply<Ticket>)
      requires Valid()
      reads this
      ensures !ObjectId.IsObjectIdText(idText) ==> r == Thrown(CastFailure())
      ensures r.Success? <==> ObjectId.IsObjectIdText(idText) && exists i :: 0 <= i < |tickets| && tickets[i].id == ObjectId.ParseHex(idText)
      ensures r.Success? ==> r.status == 200 && r.data in tickets && r.data.id == ObjectId.ParseHex(idText)
      ensures ObjectId.IsObjectIdText(idText) && !r.Success? ==> r == Failure(NotFound("Support request not found"))
    {
      if !ObjectId.IsObjectIdText(idText) then Thrown(CastFailure())
      else
        var n := ObjectId.ParseHex(idText);
        if n < |tickets| then Success(200, "", tickets[n])
        else Failure(NotFound("Support request not found"))
    }

    /** `getSupportRequestsByUserId`: an unknown user is a 404; otherwise exactly that user's
        requests, newest first. */
    function ListByOwner(users: UserStore, userId: string): (r: Reply<TicketListing>)
      requires Valid()
      reads this, users
      ensures r.Success? <==> users.FindByUserId(userId).Some?
      ensures !r.Success? ==> r == Failure(NotFound("User not found"))
      ensures r.Success? ==> r.status == 200 && r.data.count == |r.data.data|
      ensures r.Success? ==> forall t :: t in r.data.data <==> t in tickets && t.userId == userId
      ensures r.Success? ==> NewestFirst(r.data.data)
    {
      if users.FindByUserId(userId).None? then Failure(NotFound("User not found"))
      else
        var all := ListAll().data;
        OwnedNewestFirst(all, userId);
        var mine := Owned(all, userId);
        assert forall t :: t in all <==> t in tickets by {
          assert multiset(all) == multiset(tickets);
          forall t ensures t in all <==> t in tickets {
            assert t in all <==> t in multiset(all);
          }
        }
        Success(200, "", TicketListing(|mine|, mine))
    }
  }

  /** Every stored request is found by the text form of its ObjectId. */
  lemma GetByIdFindsEveryTicket(store: TicketStore, i: nat)
    requires store.Valid() && i < |store.tickets| && i < ObjectId.Pow16(ObjectId.TextLength)
    ensures store.GetById(ObjectId.Text(i)) == Success(200, "", store.tickets[i])
  {
    ObjectId.TextRoundTrip(i);
  }
}
