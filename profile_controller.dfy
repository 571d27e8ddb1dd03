/** The profile endpoints: lazy get-or-create, the create-or-update merge, setting and clearing
    the photo, the share gate and the public listing, over a store of profiles keyed by user id. */
module ProfileController {
  import opened Js
  import opened Http
  import opened ProfileModel
  import opened UserModel

  // ---------------------------------------------------------------- request bodies

  /** The `socialMedia` object of a request body, one key per link. */
  datatype SocialPayload = SocialPayload(
    linkedin: Field<JsStr>, website: Field<JsStr>, instagram: Field<JsStr>,
    youtube: Field<JsStr>, github: Field<JsStr>, twitter: Field<JsStr>)

  /** The body of a create-or-update request. `socialMedia` is `None` when the key is missing
      or null; both are falsy, and the controller treats them alike. */
  datatype ProfilePayload = ProfilePayload(
    name: Field<JsStr>,
    email: Field<JsStr>,
    profilePhoto: Field<JsStr>,
    dateOfBirth: Field<JsStr>,
    gender: Field<JsStr>,
    phoneNumber: Field<JsStr>,
    countryCode: Field<JsStr>,
    about: Field<JsStr>,
    socialMedia: Option<SocialPayload>,
    isPublic: Field<bool>)

  /** A body that sends no key at all. */
  const EmptyPayload := ProfilePayload(Absent, Absent, Absent, Absent, Absent, Absent, Absent, Absent, None, Absent)

  // ---------------------------------------------------------------- the merge

  /** The links after an update that sent `s`: each link is replaced when its key was sent. */
  function MergeSocial(current: Social, s: SocialPayload): Social {
    Social(IfDefined(s.linkedin, current.linkedin), IfDefined(s.website, current.website),
           IfDefined(s.instagram, current.instagram), IfDefined(s.youtube, current.youtube),
           IfDefined(s.github, current.github), IfDefined(s.twitter, current.twitter))
  }

  /** The assignments of an update to the loaded profile `p`: name, email, date of birth and
      country code are replaced only by a truthy value; photo, gender, phone number, about and
      the visibility by any value that was sent; the links one by one when `socialMedia` was sent. */
  function Update(p: Profile, q: ProfilePayload): Profile {
    p.(name := OrString(q.name, p.name),
       email := OrString(q.email, p.email),
       profilePhoto := IfDefined(q.profilePhoto, p.profilePhoto),
       dateOfBirth := Or(q.dateOfBirth, p.dateOfBirth),
       gender := IfDefined(q.gender, p.gender),
       phoneNumber := IfDefined(q.phoneNumber, p.phoneNumber),
       countryCode := OrString(q.countryCode, p.countryCode),
       about := IfDefined(q.about, p.about),
       socialMedia := if q.socialMedia.Some? then MergeSocial(p.socialMedia, q.socialMedia.value) else p.socialMedia,
       isPublic := IfDefined(q.isPublic, p.isPublic))
  }

  /** The document `Profile.create` receives when there is no profile yet: name and email fall
      back to the user's, the country code to "+91", missing links to '' and the visibility to
      public; every key that was not sent takes the schema default. */
  function CreateDocument(userId: string, userEmail: string, q: ProfilePayload, now: nat): Profile {
    var base := NewProfile(userId, OrString(q.name, LocalPart(userEmail)), OrString(q.email, userEmail), now);
    base.(profilePhoto := IfDefined(q.profilePhoto, Null),
          dateOfBirth := IfDefined(q.dateOfBirth, Null),
          gender := IfDefined(q.gender, Str("")),
          phoneNumber := IfDefined(q.phoneNumber, Str("")),
          countryCode := OrString(q.countryCode, DefaultCountryCode),
          about := IfDefined(q.about, Str("")),
          socialMedia := if q.socialMedia.Some? then MergeSocial(EmptySocial, q.socialMedia.value) else EmptySocial,
          isPublic := IfDefined(q.isPublic, true))
  }

  /** The update rules field by field: a falsy name, email, date of birth or country code keeps
      the old value and a truthy one replaces it; photo, gender, phone number, about and
      visibility take any value that was sent, '' and null included, and keep theirs otherwise;
      identity, score and timestamps are not touched. */
  lemma UpdateRules(p: Profile, q: ProfilePayload)
    ensures Update(p, q).name == (if TruthyField(q.name) then q.name.value.text else p.name)
    ensures Update(p, q).email == (if TruthyField(q.email) then q.email.value.text else p.email)
    ensures Update(p, q).dateOfBirth == (if TruthyField(q.dateOfBirth) then q.dateOfBirth.value else p.dateOfBirth)
    ensures Update(p, q).countryCode == (if TruthyField(q.countryCode) then q.countryCode.value.text else p.countryCode)
    ensures q.profilePhoto.Present? ==> Update(p, q).profilePhoto == q.profilePhoto.value
    ensures q.gender.Present? ==> Update(p, q).gender == q.gender.value
    ensures q.phoneNumber.Present? ==> Update(p, q).phoneNumber == q.phoneNumber.value
    ensures q.about.Present? ==> Update(p, q).about == q.about.value
    ensures q.isPublic.Present? ==> Update(p, q).isPublic == q.isPublic.value
    ensures q.profilePhoto.Absent? ==> Update(p, q).profilePhoto == p.profilePhoto
    ensures q.gender.Absent? ==> Update(p, q).gender == p.gender
    ensures q.phoneNumber.Absent? ==> Update(p, q).phoneNumber == p.phoneNumber
    ensures q.about.Absent? ==> Update(p, q).about == p.about
    ensures q.isPublic.Absent? ==> Update(p, q).isPublic == p.isPublic
    ensures Update(p, q).userId == p.userId && Update(p, q).createdAt == p.createdAt
    ensures Update(p, q).profileCompleteness == p.profileCompleteness && Update(p, q).updatedAt == p.updatedAt
  {
  }

  /** The links: without `socialMedia` all six stay; with it, each link whose key was sent is
      replaced and every other stays. */
  lemma SocialRules(p: Profile, q: ProfilePayload)
    ensures q.socialMedia.None? ==> Update(p, q).socialMedia == p.socialMedia
    ensures q.socialMedia.Some? ==>
      var s := q.socialMedia.value;
      var m := Update(p, q).socialMedia;
      (s.linkedin.Present? ==> m.linkedin == s.linkedin.value) && (s.linkedin.Absent? ==> m.linkedin == p.socialMedia.linkedin)
      && (s.website.Present? ==> m.website == s.website.value) && (s.website.Absent? ==> m.website == p.socialMedia.website)
      && (s.instagram.Present? ==> m.instagram == s.instagram.value) && (s.instagram.Absent? ==> m.instagram == p.socialMedia.instagram)
      && (s.youtube.Present? ==> m.youtube == s.youtube.value) && (s.youtube.Absent? ==> m.youtube == p.socialMedia.youtube)
      && (s.github.Present? ==> m.github == s.github.value) && (s.github.Absent? ==> m.github == p.socialMedia.github)
      && (s.twitter.Present? ==> m.twitter == s.twitter.value) && (s.twitter.Absent? ==> m.twitter == p.socialMedia.twitter)
  {
  }

  /** A body that sends nothing changes nothing. */
  lemma UpdateEmpty(p: Profile)
    ensures Update(p, EmptyPayload) == p
  {
  }

  /** The merge is idempotent: applying the same body twice assigns what applying it once does. */
  lemma UpdateIdempotent(p: Profile, q: ProfilePayload)
    ensures Update(Update(p, q), q) == Update(p, q)
  {
  }

  lemma CastDateIdempotent(v: JsStr)
    ensures CastDate(CastDate(v)) == CastDate(v)
  {
  }

  lemma TrimValueOfSent(f: Field<JsStr>, v: JsStr)
    ensures TrimValue(IfDefined(f, TrimValue(v))) == TrimValue(IfDefined(f, v))
  {
    TrimValueIdempotent(v);
  }

  lemma CastSocialOfMerge(s: Social, m: SocialPayload)
    ensures CastSocial(MergeSocial(CastSocial(s), m)) == CastSocial(MergeSocial(s, m))
  {
    TrimValueOfSent(m.linkedin, s.linkedin);
    TrimValueOfSent(m.website, s.website);
    TrimValueOfSent(m.instagram, s.instagram);
    TrimValueOfSent(m.youtube, s.youtube);
    TrimValueOfSent(m.github, s.github);
    TrimValueOfSent(m.twitter, s.twitter);
  }

  lemma CastNameOfUpdate(f: Field<JsStr>, current: string)
    ensures Trim(OrString(f, Trim(current))) == Trim(OrString(f, current))
  {
    TrimIdempotent(current);
  }

  lemma CastEmailOfUpdate(f: Field<JsStr>, current: string)
    ensures Lower(Trim(OrString(f, Lower(Trim(current))))) == Lower(Trim(OrString(f, current)))
  {
    TrimLower(current);
    LowerIdempotent(Trim(current));
  }

  /** Updating a cast document stores what updating the uncast one would: the setters that ran
      when the loaded profile was saved do not change what the next save stores. */
  lemma {:induction false} CastOfUpdate(d: Profile, q: ProfilePayload)
    ensures Cast(Update(Cast(d), q)) == Cast(Update(d, q))
  {
    CastNameOfUpdate(q.name, d.name);
    CastEmailOfUpdate(q.email, d.email);
    CastDateIdempotent(d.dateOfBirth);
    TrimValueOfSent(q.phoneNumber, d.phoneNumber);
    if q.socialMedia.Some? {
      CastSocialOfMerge(d.socialMedia, q.socialMedia.value);
    } else {
      CastSocialIdempotent(d.socialMedia);
    }
  }

  /** Sending the same body twice stores the same profile as sending it once: the second save
      finds nothing modified, so not even `updatedAt` moves. */
  lemma ResendStoresSame(p: Profile, q: ProfilePayload, now: nat, later: nat)
    requires SaveDocument(Some(p), Update(p, q), now).Saved?
    ensures var s := SaveDocument(Some(p), Update(p, q), now).doc;
      SaveDocument(Some(s), Update(s, q), later) == Saved(s)
  {
    var d := Update(p, q);
    var s := SaveDocument(Some(p), d, now).doc;
    assert s == Cast(d).(profileCompleteness := s.profileCompleteness, updatedAt := s.updatedAt);
    assert Update(s, q) == Update(Cast(d), q).(profileCompleteness := s.profileCompleteness, updatedAt := s.updatedAt);
    CastOfUpdate(d, q);
    UpdateIdempotent(p, q);
    SavedIsStored(Some(p), d, now);
    assert Cast(Update(s, q)) == Cast(Update(Cast(d), q)).(profileCompleteness := s.profileCompleteness, updatedAt := s.updatedAt);
    assert Cast(Update(s, q)) == s;
    ResaveStored(s, later);
  }

  /** Creating a profile from a body stores what updating the schema-default profile with the
      same body would store: the create path applies the update rules to the defaults. */
  lemma CreateIsUpdateOfDefault(userId: string, userEmail: string, q: ProfilePayload, now: nat)
    ensures Cast(CreateDocument(userId, userEmail, q, now))
         == Cast(Update(NewProfile(userId, LocalPart(userEmail), userEmail, now), q))
  {
  }

  // ---------------------------------------------------------------- replies

  /** `{ user_id, name, profilePhoto, about, socialMedia, profileCompleteness }`. */
  datatype SharedProfile = SharedProfile(
    userId: string, name: string, profilePhoto: JsStr, about: JsStr,
    socialMedia: Social, profileCompleteness: int)

  /** The body of a share reply: the projection and the link to the public page. */
  datatype Share = Share(profile: SharedProfile, shareUrl: string)

  /** `{ count, data }` of the listing. */
  datatype Listing = Listing(count: nat, data: seq<Profile>)

  const DefaultFrontendUrl := "http://localhost:3000"

  function Project(p: Profile): (s: SharedProfile)
    ensures s.userId == p.userId && s.name == p.name && s.profilePhoto == p.profilePhoto
    ensures s.about == p.about && s.socialMedia == p.socialMedia && s.profileCompleteness == p.profileCompleteness
  {
    SharedProfile(p.userId, p.name, p.profilePhoto, p.about, p.socialMedia, p.profileCompleteness)
  }

  /** Two profiles that agree on the shared fields share identically: e-mail, date of birth,
      gender, phone number, country code and timestamps never reach a share reply. */
  lemma ProjectHidesPrivateFields(p: Profile, q: Profile)
    requires p.userId == q.userId && p.name == q.name && p.profilePhoto == q.profilePhoto
    requires p.about == q.about && p.socialMedia == q.socialMedia && p.profileCompleteness == q.profileCompleteness
    ensures Project(p) == Project(q)
  {
  }

  /** The stored profile `p` once its photo was set to `photo` and saved at `now`: the score
      recomputed, `updatedAt` moved only when the photo changed. */
  function PhotoSaved(p: Profile, photo: JsStr, now: nat): Profile {
    var d := p.(profilePhoto := photo);
    d.(profileCompleteness := Completeness(d), updatedAt := if photo == p.profilePhoto then p.updatedAt else now)
  }

  /** A save of a stored profile with another photo leaves every other field as it was, the
      score recomputed and `updatedAt` moved only if the photo differs from the stored one. */
  lemma SetPhotoSaves(p: Profile, photo: JsStr, now: nat)
    requires Stored(p)
    ensures SaveDocument(Some(p), p.(profilePhoto := photo), now) == Saved(PhotoSaved(p, photo, now))
  {
    var d := p.(profilePhoto := photo);
    assert Cast(d) == Cast(p).(profilePhoto := photo);
    assert Stamped(Some(p), Cast(d)) <==> photo != p.profilePhoto;
    assert SchemaErrors(d) == SchemaErrors(p);
  }

  /** The profile a registered user gets by default passes the schema: its name is the e-mail's
      non-empty local part and its e-mail the user's own. */
  lemma DefaultProfileSaves(userId: string, email: string, photo: JsStr, now: nat)
    requires userId != "" && EmailPattern(email)
    ensures SaveDocument(None, NewProfile(userId, LocalPart(email), email, now).(profilePhoto := photo), now).Saved?
    ensures var d := SaveDocument(None, NewProfile(userId, LocalPart(email), email, now).(profilePhoto := photo), now).doc;
      d.name == LocalPart(email) && d.email == Lower(email) && d.profilePhoto == photo && d.userId == userId
  {
    ValidEmailTrimmed(email);
    var p := NewProfile(userId, LocalPart(email), email, now).(profilePhoto := photo);
    assert Cast(p).name == LocalPart(email);
    assert Cast(p).email == Lower(email);
    assert SchemaErrors(Cast(p)) == [];
  }

  // ---------------------------------------------------------------- the store

  /** Every key holds the profile of that user. */
  ghost predicate Keyed(profiles: map<string, Profile>) {
    forall u :: u in profiles ==> profiles[u].userId == u
  }

  ghost predicate AllStored(profiles: map<string, Profile>) {
    forall u :: u in profiles ==> Stored(profiles[u])
  }

  /** `order` lists every stored profile once, oldest first, and every creation time is before `clock`. */
  ghost predicate Chronological(profiles: map<string, Profile>, order: seq<string>, clock: nat) {
    (forall i :: 0 <= i < |order| ==> order[i] in profiles && profiles[order[i]].createdAt < clock)
    && (forall u :: u in profiles ==> u in order)
    && (forall i, j :: 0 <= i < j < |order| ==> profiles[order[i]].createdAt < profiles[order[j]].createdAt)
  }

  /** The public profiles of `order`, newest first. */
  function PublicNewestFirst(profiles: map<string, Profile>, order: seq<string>): seq<Profile>
    requires forall i :: 0 <= i < |order| ==> order[i] in profiles
  {
    if order == [] then []
    else
      var last := profiles[order[|order| - 1]];
      (if last.isPublic then [last] else []) + PublicNewestFirst(profiles, order[..|order| - 1])
  }

  /** The listing holds exactly the public profiles of `order`. */
  lemma {:induction false} PublicNewestFirstMembers(profiles: map<string, Profile>, order: seq<string>)
    requires forall i :: 0 <= i < |order| ==> order[i] in profiles
    ensures forall p :: p in PublicNewestFirst(profiles, order) <==>
      p.isPublic && exists i :: 0 <= i < |order| && profiles[order[i]] == p
  {
    if order != [] {
      var init := order[..|order| - 1];
      PublicNewestFirstMembers(profiles, init);
      assert forall i :: 0 <= i < |init| ==> init[i] == order[i];
    }
  }

  /** Strictly decreasing creation times. */
  predicate NewestFirst(r: seq<Profile>) {
    forall i, j :: 0 <= i < j < |r| ==> r[i].createdAt > r[j].createdAt
  }

  /** The listing is ordered by creation time, newest first. */
  lemma {:induction false} PublicNewestFirstSorted(profiles: map<string, Profile>, order: seq<string>)
    requires forall i :: 0 <= i < |order| ==> order[i] in profiles
    requires forall i, j :: 0 <= i < j < |order| ==> profiles[order[i]].createdAt < profiles[order[j]].createdAt
    ensures NewestFirst(PublicNewestFirst(profiles, order))
  {
    if order != [] {
      var init := order[..|order| - 1];
      var last := profiles[order[|order| - 1]];
      PublicNewestFirstSorted(profiles, init);
      PublicNewestFirstMembers(profiles, init);
      var rest := PublicNewestFirst(profiles, init);
      forall k | 0 <= k < |rest|
        ensures rest[k].createdAt < last.createdAt
      {
        assert rest[k] in rest;
        var i :| 0 <= i < |init| && profiles[init[i]] == rest[k];
        assert init[i] == order[i];
      }
      if last.isPublic {
        var r := [last] + rest;
        forall i, j | 0 <= i < j < |r|
          ensures r[i].createdAt > r[j].createdAt
        {
          assert r[j] == rest[j - 1];
          if i > 0 {
            assert r[i] == rest[i - 1];
          }
        }
      } else {
        assert PublicNewestFirst(profiles, order) == [] + rest;
      }
    }
  }

  /** Writing a stored profile under its user id keeps every key holding a stored profile of that user. */
  lemma PutKeyedStored(profiles: map<string, Profile>, p: Profile)
    requires Keyed(profiles) && AllStored(profiles) && Stored(p)
    ensures Keyed(profiles[p.userId := p]) && AllStored(profiles[p.userId := p])
  {
  }

  /** Writing a profile under its user id keeps the creation order: a new key goes to the end
      with the newest creation time, an existing one keeps its creation time. */
  lemma PutChronological(profiles: map<string, Profile>, order: seq<string>, clock: nat, p: Profile)
    requires Chronological(profiles, order, clock)
    requires p.userId in profiles ==> p.createdAt == profiles[p.userId].createdAt
    requires p.userId !in profiles ==> p.createdAt == clock
    ensures Chronological(profiles[p.userId := p], if p.userId in profiles then order else order + [p.userId], clock + 1)
  {
    var key := p.userId;
    var after := profiles[key := p];
    var newOrder := if key in profiles then order else order + [key];
    forall i | 0 <= i < |newOrder|
      ensures newOrder[i] in after && after[newOrder[i]].createdAt <= clock
    {
      if i < |order| {
        assert newOrder[i] == order[i];
      }
    }
    forall i, j | 0 <= i < j < |newOrder|
      ensures after[newOrder[i]].createdAt < after[newOrder[j]].createdAt
    {
      if j < |order| {
        assert newOrder[i] == order[i] && newOrder[j] == order[j];
      } else {
        assert newOrder[i] == order[i];
      }
    }
  }

  /** The creation order after writing under `key`: a new key goes to the end. */
  function OrderAfterPut(profiles: map<string, Profile>, order: seq<string>, key: string): (r: seq<string>)
    ensures key in profiles ==> r == order
    ensures key !in profiles ==> r == order + [key]
  {
    if key in profiles then order else order + [key]
  }

  /** Writing a stored document under its user id, with the creation time the store expects,
      keeps the store's invariant. */
  lemma PutKeepsInvariant(profiles: map<string, Profile>, order: seq<string>, clock: nat, p: Profile)
    requires StoreInvariant(profiles, order, clock) && Stored(p)
    requires p.userId in profiles ==> p.createdAt == profiles[p.userId].createdAt
    requires p.userId !in profiles ==> p.createdAt == clock
    ensures StoreInvariant(profiles[p.userId := p], OrderAfterPut(profiles, order, p.userId), clock + 1)
  {
    PutKeyedStored(profiles, p);
    PutChronological(profiles, order, clock, p);
  }

  /** The profiles after a photo was set for `userId` at time `now`: the stored profile with the
      new photo, its score recomputed and `updatedAt` moved if the photo changed; or, for a user without one, a new
      default profile for the account's e-mail carrying the photo. Nothing else changes. */
  ghost predicate PhotoWritten(before: map<string, Profile>, after: map<string, Profile>,
                               userId: string, email: string, photo: JsStr, now: nat) {
    userId in after && after == before[userId := after[userId]]
    && (userId in before ==> after[userId] == PhotoSaved(before[userId], photo, now))
    && (userId !in before ==>
          after[userId] == NewProfile(userId, LocalPart(email), Lower(email), now)
            .(profilePhoto := photo, profileCompleteness := Completeness(after[userId]), updatedAt := now))
  }

  /** The document `save()` compares against: the stored profile of `key`, none for a new one. */
  function LoadedProfile(profiles: map<string, Profile>, key: string): Option<Profile> {
    if key in profiles then Some(profiles[key]) else None
  }

  /** One profile per user id, every one stored, in creation order. */
  ghost predicate StoreInvariant(profiles: map<string, Profile>, order: seq<string>, clock: nat) {
    Keyed(profiles) && AllStored(profiles) && Chronological(profiles, order, clock)
  }

  /** The profiles collection: one profile per user id (the unique index on `user_id`). */
  class ProfileStore {
    var profiles: map<string, Profile>
    /** The user ids in the order their profiles were created. */
    var order: seq<string>
    /** A logical clock read for the timestamps. */
    var clock: nat

    ghost predicate Valid()
      reads this
    {
      StoreInvariant(profiles, order, clock)
    }

    constructor ()
      ensures Valid() && profiles == map[]
    {
      profiles, order, clock := map[], [], 0;
    }

    /** `save()` of a loaded document, or `Profile.create` of a new one: the setters, validators
        and pre-save hook run, and a document that passes is written under its user id. */
    method Save(doc: Profile) returns (out: SaveOutcome)
      requires Valid()
      requires doc.userId in profiles ==> doc.createdAt == profiles[doc.userId].createdAt
      requires doc.userId !in profiles ==> doc.createdAt == clock
      modifies this
      ensures Valid()
      ensures out == SaveDocument(LoadedProfile(old(profiles), doc.userId), doc, old(clock))
      ensures out.Saved? ==> out.doc.userId == doc.userId && profiles == old(profiles)[doc.userId := out.doc]
      ensures out.Rejected? ==> profiles == old(profiles)
    {
      out := SaveDocument(LoadedProfile(profiles, doc.userId), doc, clock);
      if out.Saved? {
        SavedIsStored(LoadedProfile(profiles, doc.userId), doc, clock);
        assert out.doc.userId == doc.userId && out.doc.createdAt == doc.createdAt;
        PutKeepsInvariant(profiles, order, clock, out.doc);
        Put(out.doc);
      } else {
        Tick();
      }
    }

    /** The write of a document that passed validation, under its user id. */
    method Put(d: Profile)
      modifies this
      ensures profiles == old(profiles)[d.userId := d]
      ensures order == OrderAfterPut(old(profiles), old(order), d.userId) && clock == old(clock) + 1
    {
      profiles, order, clock := profiles[d.userId := d], OrderAfterPut(profiles, order, d.userId), clock + 1;
    }

    /** A refused save still reads the clock. */
    method Tick()
      requires Valid()
      modifies this
      ensures Valid()
      ensures profiles == old(profiles) && clock == old(clock) + 1
    {
      clock := clock + 1;
    }

    /** `Profile.create({ user_id, name: email.split('@')[0], email, profilePhoto })` for a
        registered user that has no profile yet; the photo is null unless one is being set. */
    method CreateDefault(userId: string, email: string, photo: JsStr) returns (d: Profile)
      requires Valid() && userId !in profiles
      requires userId != "" && EmailPattern(email)
      modifies this
      ensures Valid()
      ensures profiles == old(profiles)[userId := d]
      ensures d.userId == userId && d.name == LocalPart(email) && d.email == Lower(email) && d.profilePhoto == photo
      ensures d == NewProfile(userId, LocalPart(email), Lower(email), old(clock))
                     .(profilePhoto := photo, profileCompleteness := Completeness(d), updatedAt := old(clock))
    {
      var doc := NewProfile(userId, LocalPart(email), email, clock).(profilePhoto := photo);
      DefaultProfileSaves(userId, email, photo, clock);
      var out := Save(doc);
      d := out.doc;
    }

    /** `getProfile`: 404 for an unknown user; a user without a profile gets the default one,
        named after the local part of the user's e-mail, and later calls find that one. */
    method GetProfile(users: UserStore, userId: string) returns (r: Reply<Profile>)
      requires Valid() && users.Valid()
      modifies this
      ensures Valid()
      ensures users.FindByUserId(userId).None? ==>
        r == Failure(NotFound("User not found")) && profiles == old(profiles)
      ensures users.FindByUserId(userId).Some? && userId in old(profiles) ==>
        r == Success(200, "Profile retrieved successfully", old(profiles)[userId]) && profiles == old(profiles)
      ensures users.FindByUserId(userId).Some? && userId !in old(profiles) ==>
        var email := users.FindByUserId(userId).value.email;
        r.Success? && r.status == 200 && profiles == old(profiles)[userId := r.data]
        && r.data == NewProfile(userId, LocalPart(email), Lower(email), old(clock))
                       .(profileCompleteness := Completeness(r.data), updatedAt := old(clock))
    {
      var found := users.FindByUserId(userId);
      if found.None? {
        return Failure(NotFound("User not found"));
      }
      if userId in profiles {
        return Success(200, "Profile retrieved successfully", profiles[userId]);
      }
      users.FoundIsRegistered(userId);
      var d := CreateDefault(userId, found.value.email, Null);
      r := Success(200, "Profile retrieved successfully", d);
    }

    /** `createOrUpdateProfile`: 404 for an unknown user; an existing profile is updated by the
        merge rules and saved (200); otherwise a profile is created from the body (201). A
        document the schema refuses is passed on as a validation error and nothing is stored. */
    method CreateOrUpdate(users: UserStore, userId: string, q: ProfilePayload) returns (r: Reply<Profile>)
      requires Valid()
      modifies this
      ensures Valid()
      ensures users.FindByUserId(userId).None? ==>
        r == Failure(NotFound("User not found")) && profiles == old(profiles)
      ensures users.FindByUserId(userId).Some? ==>
        var created := userId !in old(profiles);
        var doc := if created then CreateDocument(userId, users.FindByUserId(userId).value.email, q, old(clock))
                   else Update(old(profiles)[userId], q);
        var out := SaveDocument(if created then None else Some(old(profiles)[userId]), doc, old(clock));
        (out.Rejected? ==> r == Thrown(ValidationFailure(out.messages)) && profiles == old(profiles))
        && (out.Saved? && created ==>
              r == Success(201, "Profile created successfully", out.doc) && profiles == old(profiles)[userId := out.doc])
        && (out.Saved? && !created ==>
              r == Success(200, "Profile updated successfully", out.doc) && profiles == old(profiles)[userId := out.doc])
    {
      var found := users.FindByUserId(userId);
      if found.None? {
        return Failure(NotFound("User not found"));
      }
      if userId in profiles {
        var doc := Update(profiles[userId], q);
        var out := Save(doc);
        if out.Rejected? {
          return Thrown(ValidationFailure(out.messages));
        }
        r := Success(200, "Profile updated successfully", out.doc);
      } else {
        var doc := CreateDocument(userId, found.value.email, q, clock);
        var out := Save(doc);
        if out.Rejected? {
          return Thrown(ValidationFailure(out.messages));
        }
        r := Success(201, "Profile created successfully", out.doc);
      }
    }

    /** `uploadProfilePhoto`: a falsy `photoUrl` is a 400 and a missing user a 404; otherwise the
        photo is set (creating the default profile first if there is none) and every other
        field of the profile stays as it was, apart from the score and, when the photo changed,
        `updatedAt`. */
    method UploadProfilePhoto(users: UserStore, userId: string, photoUrl: Field<JsStr>) returns (r: Reply<JsStr>)
      requires Valid() && users.Valid()
      modifies this
      ensures Valid()
      ensures !TruthyField(photoUrl) ==>
        r == Failure(BadRequest("Photo URL is required")) && profiles == old(profiles)
      ensures TruthyField(photoUrl) && users.FindByUserId(userId).None? ==>
        r == Failure(NotFound("User not found")) && profiles == old(profiles)
      ensures TruthyField(photoUrl) && users.FindByUserId(userId).Some? ==>
        r == Success(200, "Profile photo updated successfully", photoUrl.value)
      ensures TruthyField(photoUrl) && users.FindByUserId(userId).Some? ==>
        PhotoWritten(old(profiles), profiles, userId, users.FindByUserId(userId).value.email, photoUrl.value, old(clock))
    {
      if !TruthyField(photoUrl) {
        return Failure(BadRequest("Photo URL is required"));
      }
      var found := users.FindByUserId(userId);
      if found.None? {
        return Failure(NotFound("User not found"));
      }
      users.FoundIsRegistered(userId);
      SetPhoto(userId, found.value.email, photoUrl.value);
      r := Success(200, "Profile photo updated successfully", photoUrl.value);
    }

    /** The photo written into the profile of a known user: the stored profile when there is
        one, otherwise a new default profile for the account's e-mail. */
    method SetPhoto(userId: string, email: string, photo: JsStr)
      requires Valid() && userId != "" && EmailPattern(email)
      modifies this
      ensures Valid()
      ensures PhotoWritten(old(profiles), profiles, userId, email, photo, old(clock))
    {
      if userId !in profiles {
        var d := CreateDefault(userId, email, photo);
      } else {
        SetPhotoSaves(profiles[userId], photo, clock);
        var out := Save(profiles[userId].(profilePhoto := photo));
      }
    }

    /** `deleteProfilePhoto`: 404 without a profile; otherwise the photo becomes null and every
        other field stays as it was, apart from the score and, when there was a photo, `updatedAt`. */
    method DeleteProfilePhoto(userId: string) returns (r: Reply<()>)
      requires Valid()
      modifies this
      ensures Valid()
      ensures userId !in old(profiles) ==>
        r == Failure(NotFound("Profile not found")) && profiles == old(profiles)
      ensures userId in old(profiles) ==>
        r == Success(200, "Profile photo deleted successfully", ())
        && profiles == old(profiles)[userId := PhotoSaved(old(profiles)[userId], Null, old(clock))]
    {
      if userId !in profiles {
        return Failure(NotFound("Profile not found"));
      }
      SetPhotoSaves(profiles[userId], Null, clock);
      var out := Save(profiles[userId].(profilePhoto := Null));
      r := Success(200, "Profile photo deleted successfully", ());
    }

    /** `shareProfile`: 404 without a profile, 403 for a private one; a public profile is shared
        as its projection with the link `<frontend>/profile/<user id>`. */
    function ShareProfile(userId: string, frontendUrl: Option<string>): (r: Reply<Share>)
      reads this
      ensures r.Success? <==> userId in profiles && profiles[userId].isPublic
      ensures userId !in profiles ==> r == Failure(NotFound("Profile not found"))
      ensures userId in profiles && !profiles[userId].isPublic ==> r.Failure? && r.body.statusCode == 403
      ensures r.Success? ==> r.data.profile == Project(profiles[userId])
      ensures r.Success? && frontendUrl.Some? && frontendUrl.value != "" ==>
        r.data.shareUrl == frontendUrl.value + "/profile/" + userId
      ensures r.Success? && (frontendUrl.None? || frontendUrl.value == "") ==>
        r.data.shareUrl == DefaultFrontendUrl + "/profile/" + userId
    {
      if userId !in profiles then Failure(NotFound("Profile not found"))
      else
        var p := profiles[userId];
        if !p.isPublic then Failure(ErrorBody(403, Text("This profile is private and cannot be shared"), "Forbidden"))
        else
          var base := if frontendUrl.Some? && frontendUrl.value != "" then frontendUrl.value else DefaultFrontendUrl;
          Success(200, "Profile ready to share", Share.Share(Project(p), base + "/profile/" + userId))
    }

    /** `getAllProfiles`: the public profiles, newest first, with their count. */
    function ListPublic(): (r: Listing)
      requires Valid()
      reads this
      ensures r.count == |r.data|
      ensures forall p :: p in r.data ==> p in profiles.Values && p.isPublic
      ensures forall u :: u in profiles && profiles[u].isPublic ==> profiles[u] in r.data
      ensures NewestFirst(r.data)
    {
      PublicNewestFirstMembers(profiles, order);
      PublicNewestFirstSorted(profiles, order);
      var data := PublicNewestFirst(profiles, order);
      assert forall u :: u in profiles ==> exists i :: 0 <= i < |order| && order[i] == u;
      Listing(|data|, data)
    }
  }
}
