/** The account endpoints: sign-up, login and the lookup of a user by its ObjectId. */
module AuthController {
  import opened Js
  import opened Http
  import opened UserModel
  import ObjectId

  /** The user as sign-up and login return it: no password, no activation flag. */
  datatype PublicUser = PublicUser(id: nat, userId: string, email: string, createdAt: nat)

  /** The user as `GET /auth/me/:userId` returns it: no password. */
  datatype UserView = UserView(id: nat, userId: string, email: string, createdAt: nat, updatedAt: nat)

  function Public(u: User): PublicUser {
    PublicUser(u.id, u.userId, u.email, u.createdAt)
  }

  function View(u: User): UserView {
    UserView(u.id, u.userId, u.email, u.createdAt, u.updatedAt)
  }

  /** Two users that differ only in their passwords and activation flags are returned alike:
      neither reply form carries anything of the password digest. */
  lemma RepliesHidePassword(u: User, d: Digest, active: bool)
    ensures Public(u.(password := d, isActive := active)) == Public(u)
    ensures View(u.(password := d, isActive := active)) == View(u)
  {
  }

  function AlreadyRegistered(): ErrorBody {
    ErrorBody(409, Text("Email already registered. Please login."), "Conflict")
  }

  function InvalidCredentials(): ErrorBody {
    ErrorBody(401, Text("Invalid email or password"), "Unauthorized")
  }

  function Deactivated(): ErrorBody {
    ErrorBody(401, Text("Account is deactivated. Please contact support."), "Unauthorized")
  }

  /** `login`: the account is looked up by its normalised e-mail, must be active, and the
      password must match its digest. An unknown e-mail and a wrong password get the same
      reply, so the only failure that tells accounts apart is a deactivated one. */
  function Login(users: UserStore, email: string, password: string): (r: Reply<PublicUser>)
    reads users
    ensures r.Success? <==>
      users.FindByEmail(email).Some? && users.FindByEmail(email).value.isActive
      && Verify(password, users.FindByEmail(email).value.password)
    ensures r.Success? ==> r == Success(200, "Login successful!", Public(users.FindByEmail(email).value))
    ensures !r.Success? ==> r.Failure? && r.body.statusCode == 401
    ensures r.Failure? && r.body != InvalidCredentials() ==>
      r.body == Deactivated() && users.FindByEmail(email).Some? && !users.FindByEmail(email).value.isActive
    ensures users.FindByEmail(email).Some? && !users.FindByEmail(email).value.isActive ==> r == Failure(Deactivated())
  {
    var found := users.FindByEmail(email);
    if found.None? then Failure(InvalidCredentials())
    else if !found.value.isActive then Failure(Deactivated())
    else if !Verify(password, found.value.password) then Failure(InvalidCredentials())
    else Success(200, "Login successful!", Public(found.value))
  }

  /** `signUp`: an e-mail that is already registered is refused with 409 before any hashing;
      otherwise the password is hashed with a fresh `salt` and the user created. A user created
      here can log in with that password, and with no password that differs from it in its first
      72 characters (bcrypt reads no further); signing up again is refused. */
  method SignUp(users: UserStore, email: string, password: string, salt: nat, counterUp: bool)
    returns (r: Reply<PublicUser>)
    requires users.Valid()
    modifies users
    ensures users.Valid()
    ensures old(users.FindByEmail(email)).Some? ==>
      r == Failure(AlreadyRegistered()) && users.users == old(users.users) && users.counter == old(users.counter)
    ensures r.Success? <==>
      old(users.FindByEmail(email)).None? && UserSchemaErrors(NormalizeEmail(email)) == [] && counterUp
    ensures old(users.FindByEmail(email)).None? && UserSchemaErrors(NormalizeEmail(email)) != [] ==>
      r == Thrown(ValidationFailure(UserSchemaErrors(NormalizeEmail(email))))
    ensures old(users.FindByEmail(email)).None? && UserSchemaErrors(NormalizeEmail(email)) == [] && !counterUp ==>
      r == Thrown(StoreUnavailable())
    ensures !r.Success? ==> users.users == old(users.users)
    ensures r.Success? ==>
      var u := User(|old(users.users)|, FormatUserId(users.counter), NormalizeEmail(email), Hash(password, salt),
                    true, old(users.clock), old(users.clock));
      users.users == old(users.users) + [u]
      && r == Success(201, "Registration successful! Please login.", Public(u))
    ensures r.Success? ==>
      Login(users, email, password) == Success(200, "Login successful!", r.data)
      && (forall other :: Sealed(other) != Sealed(password) ==> Login(users, email, other) == Failure(InvalidCredentials()))
      && users.FindByEmail(email).Some?
  {
    if users.FindByEmail(email).Some? {
      return Failure(AlreadyRegistered());
    }
    var digest := Hash(password, salt);
    var created := users.Create(email, digest, counterUp);
    if created.Thrown? {
      return Thrown(created.err);
    }
    var u := created.data;
    assert users.users[|users.users| - 1] == u;
    assert users.FindByEmail(email) == Some(u);
    forall other | Sealed(other) != Sealed(password)
      ensures Login(users, email, other) == Failure(InvalidCredentials())
    {
      VerifyHash(password, other, salt);
    }
    r := Success(201, "Registration successful! Please login.", Public(u));
  }

  /** `getProfile` of the accounts: `findById` casts the path segment to an ObjectId, and a
      text that is not one is thrown as a `CastError`; an unknown ObjectId is a 404. */
  function GetUserById(users: UserStore, userId: string): (r: Reply<UserView>)
    requires users.Valid()
    reads users
    ensures !ObjectId.IsObjectIdText(userId) ==> r == Thrown(CastFailure())
    ensures r.Success? <==>
      ObjectId.IsObjectIdText(userId) && users.FindById(ObjectId.ParseHex(userId)).Some?
    ensures r.Success? ==> r.data == View(users.FindById(ObjectId.ParseHex(userId)).value)
    ensures ObjectId.IsObjectIdText(userId) && !r.Success? ==> r == Failure(NotFound("User not found"))
  {
    if !ObjectId.IsObjectIdText(userId) then Thrown(CastFailure())
    else
      var found := users.FindById(ObjectId.ParseHex(userId));
      if found.None? then Failure(NotFound("User not found"))
      else Success(200, "", View(found.value))
  }

  /** Every registered user is found by the text form of its ObjectId. */
  lemma GetUserByIdFindsEveryUser(users: UserStore, i: nat)
    requires users.Valid() && i < |users.users| && i < ObjectId.Pow16(ObjectId.TextLength)
    ensures GetUserById(users, ObjectId.Text(i)) == Success(200, "", View(users.users[i]))
  {
    ObjectId.TextRoundTrip(i);
  }
}
