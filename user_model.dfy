/** Accounts: the user document, its schema, the `user_id` minted from a shared counter by the
    pre-save hook, and the JSON form that leaves the password out. */
module UserModel {
  import opened Js
  import opened Decimal
  import opened Http

  // ---------------------------------------------------------------- credentials

  /** A bcrypt digest, kept symbolic: the salt it was made with and the secret it seals.
      Nothing outside `Verify` looks inside it. */
  datatype Digest = Digest(salt: nat, secret: string)

  /** Every bcrypt digest is a 60-character string. */
  const DigestLength := 60

  /** bcrypt reads at most 72 bytes of a password and ignores the rest. */
  const BcryptMaxLength := 72

  /** The part of a password bcrypt reads: its first 72 characters. */
  function Sealed(password: string): (r: string)
    ensures |r| <= BcryptMaxLength
    ensures r <= password
    ensures |password| <= BcryptMaxLength ==> r == password
  {
    if |password| <= BcryptMaxLength then password else password[..BcryptMaxLength]
  }

  /** `bcrypt.hash(password, 10)` with the random salt made explicit. */
  function Hash(password: string, salt: nat): Digest {
    Digest(salt, Sealed(password))
  }

  /** `bcrypt.compare(password, digest)`: the digest of the password read the same way. */
  predicate Verify(password: string, d: Digest) {
    Sealed(password) == d.secret
  }

  /** A digest verifies exactly the passwords that agree with the one it was made from on their
      first 72 characters: among passwords of at most 72 characters, that one alone. */
  lemma VerifyHash(password: string, attempt: string, salt: nat)
    ensures Verify(attempt, Hash(password, salt)) <==> Sealed(attempt) == Sealed(password)
    ensures |password| <= BcryptMaxLength && |attempt| <= BcryptMaxLength ==>
      (Verify(attempt, Hash(password, salt)) <==> attempt == password)
  {
  }

  /** Past 72 characters nothing counts: a password of 72 characters or more verifies against
      its digest with anything appended. */
  lemma VerifyIgnoresTail(password: string, tail: string, salt: nat)
    requires |password| >= BcryptMaxLength
    ensures Verify(password + tail, Hash(password, salt))
  {
    assert (password + tail)[..BcryptMaxLength] == password[..BcryptMaxLength];
  }

  // ---------------------------------------------------------------- the e-mail pattern

  predicate IsSeparator(c: char) {
    c == '.' || c == '-'
  }

  /** `\w+([\.-]?\w+)*`: word characters, with single '.' or '-' between them. */
  predicate DottedWord(s: string) {
    |s| > 0 && IsWordChar(s[0])
    && forall i :: 0 <= i < |s| ==> IsWordChar(s[i]) || (IsSeparator(s[i]) && WordFollows(s, i))
  }

  /** A word character comes right after position `i`. */
  predicate WordFollows(s: string, i: int) {
    0 <= i && i + 1 < |s| && IsWordChar(s[i + 1])
  }

  predicate AllWord(s: string) {
    forall i :: 0 <= i < |s| ==> IsWordChar(s[i])
  }

  /** The domain `d` splits at `j` into a dotted word, a '.', and a last label of 2 or 3 word characters. */
  predicate DomainSplit(d: string, j: int) {
    0 <= j < |d| && d[j] == '.' && DottedWord(d[..j]) && 2 <= |d| - j - 1 <= 3 && AllWord(d[j + 1..])
  }

  /** Some position below `n` splits the domain `d` before its last label. */
  predicate DomainSplitBelow(d: string, n: nat)
    requires n <= |d|
  {
    n > 0 && (DomainSplit(d, n - 1) || DomainSplitBelow(d, n - 1))
  }

  /** `\w+([\.-]?\w+)*(\.\w{2,3})+`, the domain after the '@'. It is the same language as a dotted
      word followed by '.' and 2 or 3 word characters, because each `\.\w{2,3}` but the last is
      itself a `[\.-]?\w+`. */
  predicate Domain(d: string) {
    DomainSplitBelow(d, |d|)
  }

  /** The address `s` splits at `a` into a local part and a domain around its '@'. */
  predicate EmailSplit(s: string, a: int) {
    0 <= a < |s| && s[a] == '@' && DottedWord(s[..a]) && Domain(s[a + 1..])
  }

  /** Some position below `n` splits the address `s` around an '@'. */
  predicate EmailSplitBelow(s: string, n: nat)
    requires n <= |s|
  {
    n > 0 && (EmailSplit(s, n - 1) || EmailSplitBelow(s, n - 1))
  }

  /** The schema's pattern `^\w+([\.-]?\w+)*@\w+([\.-]?\w+)*(\.\w{2,3})+$`. */
  predicate EmailPattern(s: string) {
    EmailSplitBelow(s, |s|)
  }

  /** The search finds a split exactly when there is one. */
  lemma {:induction false} EmailSplitBelowWitness(s: string, n: nat)
    requires n <= |s|
    ensures EmailSplitBelow(s, n) <==> exists a | 0 <= a < n :: EmailSplit(s, a)
  {
    if n > 0 {
      EmailSplitBelowWitness(s, n - 1);
    }
  }

  lemma DottedWordHasNoAt(w: string)
    requires DottedWord(w)
    ensures forall k :: 0 <= k < |w| ==> w[k] != '@'
  {
    forall k | 0 <= k < |w|
      ensures w[k] != '@'
    {
      assert IsWordChar(w[k]) || IsSeparator(w[k]);
    }
  }

  /** An address that matches the pattern has a non-empty local part made of word characters,
      '.' and '-', so `email.split('@')[0]` is never empty. */
  lemma LocalPartOfValidEmail(s: string)
    requires EmailPattern(s)
    ensures DottedWord(LocalPart(s))
    ensures LocalPart(s) != ""
  {
    EmailSplitBelowWitness(s, |s|);
    var a :| 0 <= a < |s| && EmailSplit(s, a);
    var r := LocalPart(s);
    DottedWordHasNoAt(s[..a]);
    assert |r| <= a by {
      assert s[a] == '@';
      assert forall k :: 0 <= k < |r| ==> r[k] == s[k] && r[k] != '@';
    }
    assert |r| >= a by {
      assert forall k :: 0 <= k < a ==> s[k] == s[..a][k] && s[k] != '@';
    }
    assert r == s[..a];
  }

  lemma {:induction false} DomainSplitBelowWitness(d: string, n: nat)
    requires n <= |d|
    ensures DomainSplitBelow(d, n) <==> exists j | 0 <= j < n :: DomainSplit(d, j)
  {
    if n > 0 {
      DomainSplitBelowWitness(d, n - 1);
    }
  }

  lemma WordCharIsNotSpace(c: char)
    requires IsWordChar(c)
    ensures !IsSpace(c)
  {
  }

  /** A dotted word begins and ends with a word character, so trimming leaves it as it is. */
  lemma DottedWordTrimmed(w: string)
    requires DottedWord(w)
    ensures Trim(w) == w
  {
    assert IsWordChar(w[|w| - 1]);
    WordCharIsNotSpace(w[0]);
    WordCharIsNotSpace(w[|w| - 1]);
    TrimOfTrimmed(w);
  }

  /** An address that matches the pattern is not empty, has no white space at its ends, and
      neither has its local part: the trim setters leave both as they are. */
  lemma ValidEmailTrimmed(s: string)
    requires EmailPattern(s)
    ensures s != "" && Trim(s) == s
    ensures LocalPart(s) != "" && Trim(LocalPart(s)) == LocalPart(s)
  {
    EmailSplitBelowWitness(s, |s|);
    var a :| 0 <= a < |s| && EmailSplit(s, a);
    var d := s[a + 1..];
    DomainSplitBelowWitness(d, |d|);
    var j :| 0 <= j < |d| && DomainSplit(d, j);
    assert s[|s| - 1] == d[|d| - 1] == d[j + 1..][|d| - j - 2];
    assert s[0] == s[..a][0];
    WordCharIsNotSpace(s[0]);
    WordCharIsNotSpace(s[|s| - 1]);
    TrimOfTrimmed(s);
    LocalPartOfValidEmail(s);
    DottedWordTrimmed(LocalPart(s));
  }

  // ---------------------------------------------------------------- users

  /** A user document. `id` is its ObjectId, here its position in the store. */
  datatype User = User(
    id: nat,
    userId: string,
    email: string,
    password: Digest,
    isActive: bool,
    createdAt: nat,
    updatedAt: nat)

  /** The e-mail setters in the order the schema declares them, `lowercase` then `trim`; the
      two commute, so the result is also the trimmed address lower-cased. */
  function NormalizeEmail(email: string): (r: string)
    ensures r == Trim(Lower(email))
  {
    LowerTrimCommute(email);
    Lower(Trim(email))
  }

  /** The messages of the user schema's validators on a new document with e-mail `email`
      (after its setters) and a password digest: the e-mail is required and must match the
      pattern (Mongoose's match validator lets '' through, so '' fails only as missing); the
      digest, 60 characters, always passes the password's required and minlength checks. */
  function UserSchemaErrors(email: string): (errors: seq<string>)
    ensures errors == [] <==> email != "" && EmailPattern(email)
  {
    (if email == "" then ["Email is required"] else [])
    + (if email != "" && !EmailPattern(email) then ["Please provide a valid email address"] else [])
  }

  /** `"USER" + String(n).padStart(6, '0')`. */
  function FormatUserId(n: nat): string {
    "USER" + PadStart(Digits(n), 6, '0')
  }

  /** A user id is "USER" followed by at least six digits. */
  lemma UserIdShape(n: nat)
    ensures |FormatUserId(n)| >= 10 && FormatUserId(n)[..4] == "USER" && AllDigits(FormatUserId(n)[4..])
  {
    ParsePadded(n, 6);
    assert FormatUserId(n)[4..] == PadStart(Digits(n), 6, '0');
  }

  /** Reads the sequence number back from a user id. */
  function ParseUserId(id: string): nat
    requires |id| >= 4 && AllDigits(id[4..])
  {
    Parse(id[4..])
  }

  /** A user id gives back the number it was minted from. */
  lemma UserIdRoundTrip(n: nat)
    ensures |FormatUserId(n)| >= 4 && AllDigits(FormatUserId(n)[4..])
    ensures ParseUserId(FormatUserId(n)) == n
  {
    UserIdShape(n);
    ParsePadded(n, 6);
    assert FormatUserId(n)[4..] == PadStart(Digits(n), 6, '0');
  }

  /** Distinct numbers give distinct user ids. */
  lemma UserIdInjective(m: nat, n: nat)
    requires FormatUserId(m) == FormatUserId(n)
    ensures m == n
  {
    UserIdRoundTrip(m);
    UserIdRoundTrip(n);
  }

  function Pow10(k: nat): (r: nat)
    ensures r >= 1
  {
    if k == 0 then 1 else 10 * Pow10(k - 1)
  }

  /** A number below 10^k has at most k digits. */
  lemma {:induction false} DigitsShort(n: nat, k: nat)
    requires 1 <= k && n < Pow10(k)
    ensures |Digits(n)| <= k
    decreases n
  {
    if n >= 10 {
      DigitsShort(n / 10, k - 1);
    }
  }

  /** Below a million, every user id is "USER" and exactly six digits. */
  lemma UserIdWidth(n: nat)
    requires n < 1000000
    ensures |FormatUserId(n)| == 10
  {
    DigitsShort(n, 6);
  }

  /** The first user gets USER000001. */
  lemma FirstUserId()
    ensures FormatUserId(1) == "USER000001"
  {
    assert Digits(1) == "1";
    assert Repeat('0', 5) == "00000";
  }

  // ---------------------------------------------------------------- JSON form

  /** `toJSON()`: the user document without its password. */
  datatype UserJson = UserJson(id: nat, userId: string, email: string, isActive: bool, createdAt: nat, updatedAt: nat)

  function ToJson(u: User): UserJson {
    UserJson(u.id, u.userId, u.email, u.isActive, u.createdAt, u.updatedAt)
  }

  /** The JSON form keeps every field but the password: the document is the JSON form plus the password. */
  lemma ToJsonKeepsAllButPassword(u: User)
    ensures var j := ToJson(u);
      User(j.id, j.userId, j.email, u.password, j.isActive, j.createdAt, j.updatedAt) == u
  {
  }

  /** Nothing of the password reaches the JSON form: two users that differ only in their
      password digests serialise identically. */
  lemma ToJsonHidesPassword(u: User, d: Digest)
    ensures ToJson(u.(password := d)) == ToJson(u)
  {
  }

  // ---------------------------------------------------------------- the store

  /** The users collection together with the `user_id` counter document. */
  class UserStore {
    /** The users in insertion order; a user's ObjectId is its position. */
    var users: seq<User>
    /** `seq` of the counter document `user_id`; 0 while that document does not exist yet. */
    var counter: nat
    /** A logical clock read for the timestamps. */
    var clock: nat
    /** The counter value each user's id was minted from. */
    ghost var minted: seq<nat>

    ghost predicate Valid()
      reads this
    {
      Consistent(users, minted, counter)
    }

    constructor ()
      ensures Valid() && users == [] && counter == 0
    {
      users, counter, clock, minted := [], 0, 0, [];
    }

    /** `User.findOne({ email })`, the filter passed through the same setters. */
    function FindByEmail(email: string): (r: Option<User>)
      reads this
      ensures r.Some? ==> r.value in users && r.value.email == NormalizeEmail(email)
      ensures r.None? ==> forall i :: 0 <= i < |users| ==> users[i].email != NormalizeEmail(email)
    {
      FirstWithEmail(users, NormalizeEmail(email))
    }

    /** `User.findOne({ user_id })`. */
    function FindByUserId(userId: string): (r: Option<User>)
      reads this
      ensures r.Some? ==> r.value in users && r.value.userId == userId
      ensures r.None? ==> forall i :: 0 <= i < |users| ==> users[i].userId != userId
    {
      FirstWithUserId(users, userId)
    }

    /** `User.findById(id)`, once the id has been cast to an ObjectId. */
    function FindById(id: nat): (r: Option<User>)
      requires Valid()
      reads this
      ensures r.Some? ==> r.value in users && r.value.id == id
      ensures r.None? ==> forall i :: 0 <= i < |users| ==> users[i].id != id
    {
      if id < |users| then Some(users[id]) else None
    }

    /** Every user has a different user id. */
    lemma UserIdsUnique()
      requires Valid()
      ensures forall i, j :: 0 <= i < j < |users| ==> users[i].userId != users[j].userId
    {
      forall i, j | 0 <= i < j < |users|
        ensures users[i].userId != users[j].userId
      {
        if users[i].userId == users[j].userId {
          UserIdInjective(minted[i], minted[j]);
        }
      }
    }

    /** A user found by its user id is registered: its e-mail passed the schema and its user id is not empty. */
    lemma FoundIsRegistered(userId: string)
      requires Valid() && FindByUserId(userId).Some?
      ensures FindByUserId(userId).value.email != "" && EmailPattern(FindByUserId(userId).value.email)
      ensures userId != ""
    {
      var u := FindByUserId(userId).value;
      var i :| 0 <= i < |users| && users[i] == u;
      assert users[i].userId == FormatUserId(minted[i]);
      assert |FormatUserId(minted[i])| >= 4;
    }

    /** `User.create({ email, password })`: the setters normalise the e-mail, the validators run,
        and only a document that passes them goes on to `Insert`. */
    method Create(email: string, password: Digest, counterUp: bool) returns (r: Reply<User>)
      requires Valid()
      modifies this
      ensures Valid()
      ensures UserSchemaErrors(NormalizeEmail(email)) != [] ==>
        r == Thrown(ValidationFailure(UserSchemaErrors(NormalizeEmail(email))))
        && users == old(users) && counter == old(counter)
      ensures UserSchemaErrors(NormalizeEmail(email)) == [] ==> counterUp ==> counter == old(counter) + 1
      ensures UserSchemaErrors(NormalizeEmail(email)) == [] && !counterUp ==>
        r == Thrown(StoreUnavailable()) && counter == old(counter)
      ensures !r.Success? ==> r.Thrown?
      ensures r.Success? <==>
        UserSchemaErrors(NormalizeEmail(email)) == [] && counterUp
        && forall i :: 0 <= i < |old(users)| ==> old(users)[i].email != NormalizeEmail(email)
      ensures r.Success? ==>
        r == Success(201, "", User(|old(users)|, FormatUserId(counter), NormalizeEmail(email), password, true, old(clock), old(clock)))
        && users == old(users) + [r.data]
      ensures !r.Success? ==> users == old(users)
    {
      var normalized := NormalizeEmail(email);
      var errors := UserSchemaErrors(normalized);
      if errors != [] {
        return Thrown(ValidationFailure(errors));
      }
      r := Insert(normalized, password, counterUp);
    }

    /** The pre-save hook and the insert, for a document whose e-mail passed the validators:
        the hook bumps the counter (`findByIdAndUpdate` with `$inc` and `upsert`, which fails when
        `counterUp` is false) and sets `user_id`, then the insert meets the unique index on
        `email`. A duplicate e-mail is refused after the counter moved, so its number is lost. */
    method Insert(email: string, password: Digest, counterUp: bool) returns (r: Reply<User>)
      requires Valid()
      requires email != "" && EmailPattern(email)
      modifies this
      ensures Valid()
      ensures !counterUp ==> r == Thrown(StoreUnavailable()) && users == old(users) && counter == old(counter)
      ensures counterUp ==> counter == old(counter) + 1
      ensures r.Success? <==> counterUp && forall i :: 0 <= i < |old(users)| ==> old(users)[i].email != email
      ensures counterUp && !r.Success? ==> r == Thrown(DuplicateKey("email")) && users == old(users)
      ensures r.Success? ==>
        r == Success(201, "", User(|old(users)|, FormatUserId(counter), email, password, true, old(clock), old(clock)))
        && users == old(users) + [r.data]
        && forall i :: 0 <= i < |old(users)| ==> old(users)[i].userId != r.data.userId
    {
      if !counterUp {
        return Thrown(StoreUnavailable());
      }
      var previous := counter;
      counter := counter + 1;
      var userId := FormatUserId(counter);
      MintedUpToGrows(minted, previous);
      if FirstWithEmail(users, email).Some? {
        return Thrown(DuplicateKey("email"));
      }
      var user := User(|users|, userId, email, password, true, clock, clock);
      AppendRegistered(users, minted, previous, user);
      Record(user);
      r := Success(201, "", user);
    }

    /** The write of one user whose number is the counter's current value. */
    method Record(user: User)
      requires Consistent(users + [user], minted + [counter], counter)
      modifies this
      ensures Valid()
      ensures users == old(users) + [user] && counter == old(counter) && clock == old(clock) + 1
    {
      users, minted, clock := users + [user], minted + [counter], clock + 1;
    }

    /** `save()` of a user that is not new, after its activation flag was set: the pre-save hook
        passes it through, so neither the counter nor its `user_id` changes, and the timestamps
        hook moves `updatedAt` only when the flag actually changed. */
    method SaveExisting(id: nat, isActive: bool) returns (saved: User)
      requires Valid()
      requires id < |users|
      modifies this
      ensures Valid()
      ensures counter == old(counter)
      ensures isActive != old(users)[id].isActive ==> saved == old(users)[id].(isActive := isActive, updatedAt := old(clock))
      ensures isActive == old(users)[id].isActive ==> saved == old(users)[id]
      ensures saved.userId == old(users)[id].userId
      ensures users == old(users)[id := saved]
    {
      ghost var before := users;
      saved := if isActive == users[id].isActive then users[id]
               else users[id].(isActive := isActive, updatedAt := clock);
      users := users[id := saved];
      clock := clock + 1;
      assert forall i :: 0 <= i < |users| ==>
        users[i].id == before[i].id && users[i].userId == before[i].userId && users[i].email == before[i].email;
    }
  }

  /** Each user sits at its ObjectId, carries the user id minted from its number, and has an
      e-mail address that passed the schema. */
  ghost predicate Registered(users: seq<User>, minted: seq<nat>) {
    Positioned(users) && MintedIds(users, minted) && ValidEmails(users)
  }

  ghost predicate Positioned(users: seq<User>) {
    forall i :: 0 <= i < |users| ==> users[i].id == i
  }

  ghost predicate MintedIds(users: seq<User>, minted: seq<nat>) {
    forall i {:trigger minted[i]} :: 0 <= i < |users| && i < |minted| ==> users[i].userId == FormatUserId(minted[i])
  }

  ghost predicate ValidEmails(users: seq<User>) {
    forall i :: 0 <= i < |users| ==> users[i].email != "" && EmailPattern(users[i].email)
  }

  /** The store's invariant: every user registered under the number minted for it, numbers
      handed out in increasing order up to the counter, and no e-mail twice. */
  ghost predicate Consistent(users: seq<User>, minted: seq<nat>, counter: nat) {
    |minted| == |users| && Registered(users, minted) && MintedUpTo(minted, counter)
    && Increasing(minted) && DistinctEmails(users)
  }

  /** Every number was handed out by the counter, which starts from 1. */
  ghost predicate MintedUpTo(minted: seq<nat>, counter: nat) {
    forall i :: 0 <= i < |minted| ==> 1 <= minted[i] <= counter
  }

  ghost predicate Increasing(minted: seq<nat>) {
    forall i, j :: 0 <= i < j < |minted| ==> minted[i] < minted[j]
  }

  /** The unique index on `email`. */
  ghost predicate DistinctEmails(users: seq<User>) {
    forall i, j :: 0 <= i < j < |users| ==> users[i].email != users[j].email
  }

  lemma MintedUpToGrows(minted: seq<nat>, counter: nat)
    requires MintedUpTo(minted, counter)
    ensures MintedUpTo(minted, counter + 1)
  {
  }

  /** Appending a user with a fresh number and a new, valid e-mail keeps the store's invariant,
      and its user id differs from every other. */
  lemma AppendRegistered(users: seq<User>, minted: seq<nat>, previous: nat, user: User)
    requires |minted| == |users| && Registered(users, minted) && MintedUpTo(minted, previous)
    requires Increasing(minted) && DistinctEmails(users)
    requires user.id == |users| && user.userId == FormatUserId(previous + 1)
    requires user.email != "" && EmailPattern(user.email)
    requires forall i :: 0 <= i < |users| ==> users[i].email != user.email
    ensures Consistent(users + [user], minted + [previous + 1], previous + 1)
    ensures forall i :: 0 <= i < |users| ==> users[i].userId != user.userId
  {
    AppendRegisteredSeq(users, minted, previous, user);
    AppendMinted(minted, previous);
    AppendDistinctEmails(users, user);
    forall i | 0 <= i < |users|
      ensures users[i].userId != user.userId
    {
      if users[i].userId == user.userId {
        UserIdInjective(minted[i], previous + 1);
      }
    }
  }

  lemma AppendRegisteredSeq(users: seq<User>, minted: seq<nat>, previous: nat, user: User)
    requires |minted| == |users| && Registered(users, minted)
    requires user.id == |users| && user.userId == FormatUserId(previous + 1)
    requires user.email != "" && EmailPattern(user.email)
    ensures Registered(users + [user], minted + [previous + 1])
  {
    var us, ms := users + [user], minted + [previous + 1];
    forall i | 0 <= i < |us|
      ensures us[i].id == i && us[i].email != "" && EmailPattern(us[i].email)
    {
      if i < |users| {
        assert us[i] == users[i];
      }
    }
    forall i | 0 <= i < |us| && i < |ms|
      ensures us[i].userId == FormatUserId(ms[i])
    {
      if i < |users| {
        assert us[i] == users[i] && ms[i] == minted[i];
      }
    }
  }

  lemma AppendMinted(minted: seq<nat>, previous: nat)
    requires MintedUpTo(minted, previous) && Increasing(minted)
    ensures MintedUpTo(minted + [previous + 1], previous + 1) && Increasing(minted + [previous + 1])
  {
  }

  lemma AppendDistinctEmails(users: seq<User>, user: User)
    requires DistinctEmails(users)
    requires forall i :: 0 <= i < |users| ==> users[i].email != user.email
    ensures DistinctEmails(users + [user])
  {
    var us := users + [user];
    forall i, j | 0 <= i < j < |us|
      ensures us[i].email != us[j].email
    {
      assert us[i] == users[i];
    }
  }

  /** The first user in `users` with e-mail `email`. */
  function FirstWithEmail(users: seq<User>, email: string): (r: Option<User>)
    ensures r.Some? ==> r.value in users && r.value.email == email
    ensures r.None? ==> forall i :: 0 <= i < |users| ==> users[i].email != email
  {
    if users == [] then None
    else if users[0].email == email then Some(users[0])
    else FirstWithEmail(users[1..], email)
  }

  /** The first user in `users` with user id `userId`. */
  function FirstWithUserId(users: seq<User>, userId: string): (r: Option<User>)
    ensures r.Some? ==> r.value in users && r.value.userId == userId
    ensures r.None? ==> forall i :: 0 <= i < |users| ==> users[i].userId != userId
  {
    if users == [] then None
    else if users[0].userId == userId then Some(users[0])
    else FirstWithUserId(users[1..], userId)
  }
}
