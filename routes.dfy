/** The validated routes: each runs its rule list first and hands the sanitized body to its
    controller only when no chain failed. */
module Routes {
  import opened Js
  import opened Http
  import opened Decimal
  import opened Validation
  import opened UserModel
  import opened SupportModel
  import opened AuthController
  import SC = SupportController
  import PM = ProfileModel
  import PC = ProfileController

  // ---------------------------------------------------------------- accounts

  /** What a sign-up body must hold to get through. */
  predicate SignupAcceptable(body: map<string, JsStr>, lib: Library) {
    EmailOk(body, lib) && StringAt(body, "password") && |TextAt(body, "password")| >= 6
  }

  /** What a login body must hold to get through. */
  predicate LoginAcceptable(body: map<string, JsStr>, lib: Library) {
    EmailOk(body, lib) && NonEmptyString(body, "password")
  }

  /** Neither account rule list has a sanitizer: the controller sees the body as it arrived. */
  lemma AccountRulesKeepBody(body: map<string, JsStr>, lib: Library)
    ensures RunRules(SignupRules(), body, lib).body == body
    ensures RunRules(LoginRules(), body, lib).body == body
  {
    var afterEmail := RunChain(EmailChain(), body, lib).body;
    assert afterEmail == body;
    assert RunChain(SignupPasswordChain(), afterEmail, lib).body == body;
    assert RunChain(LoginPasswordChain(), afterEmail, lib).body == body;
  }

  /** `signupValidation` followed by `handleValidationErrors`. */
  function SignupGate(body: map<string, JsStr>, lib: Library): (g: Gate)
    ensures g.Passed? <==> SignupAcceptable(body, lib)
    ensures g.Passed? ==> g.body == body
    ensures g.Refused? ==> g.reply.statusCode == 400
  {
    SignupPasses(body, lib);
    AccountRulesKeepBody(body, lib);
    Validated(SignupRules(), body, lib)
  }

  /** `loginValidation` followed by `handleValidationErrors`. */
  function LoginGate(body: map<string, JsStr>, lib: Library): (g: Gate)
    ensures g.Passed? <==> LoginAcceptable(body, lib)
    ensures g.Passed? ==> g.body == body
    ensures g.Refused? ==> g.reply.statusCode == 400
  {
    LoginPasses(body, lib);
    AccountRulesKeepBody(body, lib);
    Validated(LoginRules(), body, lib)
  }

  /** `POST /auth/login`: a body the login rules refuse is a 400 listing the errors; any other is
      answered by `login` with the sent e-mail and password, which never answers 400. */
  function LoginRoute(users: UserStore, body: map<string, JsStr>, lib: Library): (r: Reply<PublicUser>)
    reads users
    ensures (r.Failure? && r.body.statusCode == 400) <==> !LoginAcceptable(body, lib)
    ensures LoginAcceptable(body, lib) ==> r == Login(users, TextAt(body, "email"), TextAt(body, "password"))
  {
    match LoginGate(body, lib)
    case Refused(reply) => Failure(reply)
    case Passed(out) => Login(users, TextAt(out, "email"), TextAt(out, "password"))
  }

  /** `POST /auth/signup`: a refused body is a 400 that registers nothing; every account the
      route registers has a password of at least 6 characters and logs in with it. */
  method SignupRoute(users: UserStore, body: map<string, JsStr>, lib: Library, salt: nat, counterUp: bool)
    returns (r: Reply<PublicUser>)
    requires users.Valid()
    modifies users
    ensures users.Valid()
    ensures !SignupAcceptable(body, lib) ==>
      r.Failure? && r.body.statusCode == 400 && users.users == old(users.users) && users.counter == old(users.counter)
    ensures r.Success? ==>
      SignupAcceptable(body, lib)
      && |users.users| == |old(users.users)| + 1 && users.users[..|old(users.users)|] == old(users.users)
      && Login(users, TextAt(body, "email"), TextAt(body, "password")) == Success(200, "Login successful!", r.data)
  {
    var gate := SignupGate(body, lib);
    if gate.Refused? {
      return Failure(gate.reply);
    }
    r := SignUp(users, TextAt(gate.body, "email"), TextAt(gate.body, "password"), salt, counterUp);
  }

  // ---------------------------------------------------------------- support requests

  /** Ten decimal digits carry no white space to trim. */
  lemma DigitsTrimmed(s: string)
    requires |s| == 10 && AllDigits(s)
    ensures Trim(s) == s
  {
    TrimOfTrimmed(s);
  }

  /** What a body looks like after the support rules let it through: `user_id` a non-empty
      string, the e-mail the library's normalisation `normalized`, subject and description
      trimmed and within their bounds, and a contact number of ten digits. */
  predicate SupportSanitized(out: map<string, JsStr>, normalized: string) {
    NonEmptyString(out, "user_id") && Lookup(out, "email") == Present(Str(normalized))
    && StringAt(out, "subject") && Trim(TextAt(out, "subject")) == TextAt(out, "subject")
    && 5 <= |TextAt(out, "subject")| <= 100
    && StringAt(out, "description") && Trim(TextAt(out, "description")) == TextAt(out, "description")
    && 10 <= |TextAt(out, "description")| <= 1000
    && TenDigitsAt(out, "contactNumber")
  }

  /** `createSupportRequestValidation` followed by `handleValidationErrors`. */
  function SupportGate(body: map<string, JsStr>, lib: Library): (g: Gate)
    ensures g.Passed? <==> SupportAcceptable(body, lib)
    ensures g.Refused? ==> g.reply.statusCode == 400
    ensures g.Passed? ==>
      SupportSanitized(g.body, lib.normalizeEmail(TextAt(body, "email"))) && Lookup(g.body, "user_id") == Lookup(body, "user_id")
  {
    SupportPasses(body, lib);
    SupportSanitizes(body, lib);
    if SupportAcceptable(body, lib) then
      SanitizedFromRules(body, RunRules(SupportRules(), body, lib).body, lib);
      Validated(SupportRules(), body, lib)
    else Validated(SupportRules(), body, lib)
  }

  /** What the support rules write into an acceptable body makes it `SupportSanitized`. */
  lemma SanitizedFromRules(body: map<string, JsStr>, out: map<string, JsStr>, lib: Library)
    requires SupportAcceptable(body, lib)
    requires Lookup(out, "email") == Present(Str(lib.normalizeEmail(TextAt(body, "email"))))
    requires Lookup(out, "subject") == Present(Str(Trim(TextAt(body, "subject"))))
    requires Lookup(out, "description") == Present(Str(Trim(TextAt(body, "description"))))
    requires Lookup(out, "user_id") == Lookup(body, "user_id")
    requires Lookup(out, "contactNumber") == Lookup(body, "contactNumber")
    ensures SupportSanitized(out, lib.normalizeEmail(TextAt(body, "email")))
  {
    TrimIdempotent(TextAt(body, "subject"));
    TrimIdempotent(TextAt(body, "description"));
  }

  /** The schema's view of a body the support rules let through: it passes, except for an
      e-mail the library normalised into one the schema's pattern refuses, which is then the
      only error; an e-mail normalised to '' is replaced by the requester's. */
  lemma SanitizedMeetsSchema(out: map<string, JsStr>, normalized: string, userEmail: string)
    requires SupportSanitized(out, normalized)
    ensures var d := Cast(SC.DraftOf(out, userEmail));
      (normalized != "" ==> d.email == Present(Str(Trim(normalized))))
      && (normalized == "" ==> d.email == Present(Str(Trim(userEmail))))
      && (normalized != "" && EmailPattern(Trim(normalized)) ==> TicketErrors(d) == [])
      && (Trim(normalized) != "" && !EmailPattern(Trim(normalized)) ==>
            TicketErrors(d) == ["Please provide a valid email address"])
  {
    var d := Cast(SC.DraftOf(out, userEmail));
    assert d.subject == Present(Str(TextAt(out, "subject")));
    assert d.description == Lookup(out, "description");
    DigitsTrimmed(TextAt(out, "contactNumber"));
    assert d.contactNumber == Lookup(out, "contactNumber");
  }

  /** `POST /support`: a refused body is a 400 that stores nothing; every request the route
      stores is within the bounds of the rules, tighter than the schema's. */
  method SupportRoute(store: SC.TicketStore, users: UserStore, body: map<string, JsStr>, lib: Library)
    returns (r: Reply<Ticket>)
    requires store.Valid() && users.Valid()
    modifies store
    ensures store.Valid()
    ensures SupportGate(body, lib).Refused? ==>
      r == Failure(SupportGate(body, lib).reply) && store.tickets == old(store.tickets)
    ensures r.Success? ==> store.tickets == old(store.tickets) + [r.data]
    ensures r.Success? ==> 5 <= |r.data.subject| <= 100 && 10 <= |r.data.description| <= 1000 && |r.data.contactNumber| == 10
  {
    var gate := SupportGate(body, lib);
    if gate.Refused? {
      return Failure(gate.reply);
    }
    r := CreateSanitized(store, users, gate.body, lib.normalizeEmail(TextAt(body, "email")));
  }

  /** `createSupportRequest` on a body the support rules let through. */
  method CreateSanitized(store: SC.TicketStore, users: UserStore, out: map<string, JsStr>, normalized: string)
    returns (r: Reply<Ticket>)
    requires store.Valid() && users.Valid() && SupportSanitized(out, normalized)
    modifies store
    ensures store.Valid()
    ensures r.Success? ==> store.tickets == old(store.tickets) + [r.data]
    ensures !r.Success? ==> store.tickets == old(store.tickets)
    ensures r.Success? ==> 5 <= |r.data.subject| <= 100 && 10 <= |r.data.description| <= 1000 && |r.data.contactNumber| == 10
  {
    r := store.Create(users, out);
    if r.Success? {
      DigitsTrimmed(TextAt(out, "contactNumber"));
    }
  }

  // ---------------------------------------------------------------- profiles

  /** The payload `createOrUpdateProfile` destructures from a body; the links are read from
      their dotted keys, and `socialMedia` counts as sent when any of them is. */
  function PayloadOf(body: map<string, JsStr>): (q: PC.ProfilePayload)
    ensures q.name == Lookup(body, "name") && q.about == Lookup(body, "about")
  {
    var links := [SocialPath(LinkedIn), SocialPath(Website), SocialPath(Instagram),
                  SocialPath(YouTube), SocialPath(GitHub), SocialPath(Twitter)];
    var social :=
      if exists i :: 0 <= i < 6 && links[i] in body then
        Some(PC.SocialPayload(Lookup(body, links[0]), Lookup(body, links[1]), Lookup(body, links[2]),
                              Lookup(body, links[3]), Lookup(body, links[4]), Lookup(body, links[5])))
      else None;
    PC.ProfilePayload(Lookup(body, "name"), Lookup(body, "email"), Lookup(body, "profilePhoto"),
                      Lookup(body, "dateOfBirth"), Lookup(body, "gender"), Lookup(body, "phoneNumber"),
                      Lookup(body, "countryCode"), Lookup(body, "about"), social, Absent)
  }

  /** Behind the profile rules the controller's clearing assignments cannot clear the about
      text: it is always 1 to 500 trimmed characters. A name of white space alone gets through
      the rules, is trimmed to '' and so keeps the stored name, or on creation falls back to the
      local part of the account's e-mail. */
  lemma ProfileRouteNarrowsUpdate(body: map<string, JsStr>, lib: Library, p: PM.Profile,
                                  userId: string, userEmail: string, now: nat)
    requires Validated(ProfileRules(), body, lib).Passed?
    ensures var q := PayloadOf(Validated(ProfileRules(), body, lib).body);
      var about := Trim(TextAt(body, "about"));
      var name := Trim(TextAt(body, "name"));
      1 <= |about| <= 500
      && PC.Update(p, q).about == Str(about) && PC.CreateDocument(userId, userEmail, q, now).about == Str(about)
      && PC.Update(p, q).name == (if name != "" then name else p.name)
      && PC.CreateDocument(userId, userEmail, q, now).name == (if name != "" then name else LocalPart(userEmail))
  {
    ProfilePasses(body, lib);
    ProfileSanitizes(body, lib);
  }
}
