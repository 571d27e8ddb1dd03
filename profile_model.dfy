/** The profile document: its fields and defaults, the setters and validators of its schema,
    the completeness score and the pre-save hook that keeps the score current. */
module ProfileModel {
  import opened Js
  import opened Decimal

  /** The six social-media links. */
  datatype Social = Social(
    linkedin: JsStr, website: JsStr, instagram: JsStr,
    youtube: JsStr, github: JsStr, twitter: JsStr)

  /** A profile document. `dateOfBirth` keeps the text of the date it was cast from
      (see CastDate); `createdAt` and `updatedAt` are readings of a logical clock. */
  datatype Profile = Profile(
    userId: string,
    name: string,
    email: string,
    profilePhoto: JsStr,
    dateOfBirth: JsStr,
    gender: JsStr,
    phoneNumber: JsStr,
    countryCode: string,
    about: JsStr,
    socialMedia: Social,
    profileCompleteness: int,
    isPublic: bool,
    createdAt: nat,
    updatedAt: nat)

  const GenderValues: seq<string> := ["Male", "Female", "Other", ""]
  const AboutMaxLength := 500
  const DefaultCountryCode := "+91"

  /** Every social link empty, as the schema's defaults leave them. */
  const EmptySocial := Social(Str(""), Str(""), Str(""), Str(""), Str(""), Str(""))

  /** A new document before the pre-save hook: the given identity fields, every other field at
      its schema default (photo and date of birth null, gender, phone number and about empty,
      country code "+91", every social link empty, score 0, public). */
  function NewProfile(userId: string, name: string, email: string, now: nat): (p: Profile)
    ensures p.userId == userId && p.name == name && p.email == email
    ensures p.profilePhoto == Null && p.dateOfBirth == Null
    ensures p.gender == Str("") && p.phoneNumber == Str("") && p.about == Str("")
    ensures p.countryCode == "+91" && p.socialMedia == EmptySocial
    ensures p.profileCompleteness == 0 && p.isPublic
    ensures p.createdAt == now && p.updatedAt == now
  {
    Profile(userId, name, email, Null, Null, Str(""), Str(""), DefaultCountryCode, Str(""),
            EmptySocial, 0, true, now, now)
  }

  // ---------------------------------------------------------------- completeness

  /** The nine fields the score counts, in the order `calculateCompleteness` lists them. */
  function CountedFields(p: Profile): (fields: seq<JsStr>)
    ensures |fields| == 9
  {
    [Str(p.name), Str(p.email), p.profilePhoto, p.dateOfBirth, p.gender, p.phoneNumber,
     p.about, p.socialMedia.linkedin, p.socialMedia.website]
  }

  /** How many of `fields` are filled: not null, not undefined and not ''. */
  function FilledCount(fields: seq<JsStr>): (k: nat)
    ensures k <= |fields|
  {
    if fields == [] then 0
    else (if Truthy(fields[0]) then 1 else 0) + FilledCount(fields[1..])
  }

  /** The count is zero exactly when no field is filled, and full exactly when every field is. */
  lemma {:induction false} FilledCountExtremes(fields: seq<JsStr>)
    ensures FilledCount(fields) == 0 <==> forall i :: 0 <= i < |fields| ==> !Truthy(fields[i])
    ensures FilledCount(fields) == |fields| <==> forall i :: 0 <= i < |fields| ==> Truthy(fields[i])
  {
    if fields != [] {
      FilledCountExtremes(fields[1..]);
      assert forall i :: 1 <= i < |fields| ==> fields[i] == fields[1..][i - 1];
    }
  }

  /** `Math.round(k / 9 * 100)` in exact arithmetic: floor(100k/9 + 1/2). */
  function RoundedPercent(k: nat): (r: nat)
    ensures 18 * r <= 200 * k + 9 < 18 * r + 18
  {
    (200 * k + 9) / 18
  }

  /** `calculateCompleteness()`: the rounded percentage of the nine counted fields that are filled. */
  function Completeness(p: Profile): (score: nat)
    ensures score <= 100
  {
    var k := FilledCount(CountedFields(p));
    assert k <= 9;
    RoundedPercent(k)
  }

  /** All nine filled gives 100, none filled gives 0, and only those. */
  lemma CompletenessExtremes(p: Profile)
    ensures Completeness(p) == 100 <==> forall i :: 0 <= i < 9 ==> Truthy(CountedFields(p)[i])
    ensures Completeness(p) == 0 <==> forall i :: 0 <= i < 9 ==> !Truthy(CountedFields(p)[i])
  {
    FilledCountExtremes(CountedFields(p));
  }

  /** The score is the integer nearest to 100k/9, never a tie (so no floating point is needed),
      and equals (100k + 4) / 9. */
  lemma {:induction false} CompletenessExact(k: nat)
    requires k <= 9
    ensures -9 < 18 * RoundedPercent(k) - 200 * k < 9
    ensures RoundedPercent(k) == (100 * k + 4) / 9
  {
    var r := RoundedPercent(k);
    assert 18 * r - 200 * k != 9 && 18 * r - 200 * k != -9 by {
      // 18r - 200k is even
      assert 18 * r - 200 * k == 2 * (9 * r - 100 * k);
    }
    assert 9 * r <= 100 * k + 4 < 9 * r + 9;
  }

  /** More filled fields never give a lower count. */
  lemma {:induction false} FilledCountMonotone(s: seq<JsStr>, t: seq<JsStr>)
    requires |s| == |t|
    requires forall i :: 0 <= i < |s| && Truthy(s[i]) ==> Truthy(t[i])
    ensures FilledCount(s) <= FilledCount(t)
  {
    if s != [] {
      FilledCountMonotone(s[1..], t[1..]);
    }
  }

  lemma RoundedPercentMonotone(a: nat, b: nat)
    requires a <= b
    ensures RoundedPercent(a) <= RoundedPercent(b)
  {
  }

  /** Filling fields never lowers the score: if every counted field filled in `p` is filled
      in `q`, `q` scores at least as high. */
  lemma CompletenessMonotone(p: Profile, q: Profile)
    requires forall i :: 0 <= i < 9 && Truthy(CountedFields(p)[i]) ==> Truthy(CountedFields(q)[i])
    ensures Completeness(p) <= Completeness(q)
  {
    FilledCountMonotone(CountedFields(p), CountedFields(q));
    RoundedPercentMonotone(FilledCount(CountedFields(p)), FilledCount(CountedFields(q)));
  }

  /** Only linkedin and website count: instagram, youtube, github and twitter never change the score. */
  lemma UncountedSocialLinks(p: Profile, instagram: JsStr, youtube: JsStr, github: JsStr, twitter: JsStr)
    ensures Completeness(p.(socialMedia := p.socialMedia.(instagram := instagram, youtube := youtube,
                                                          github := github, twitter := twitter)))
         == Completeness(p)
  {
    var q := p.(socialMedia := p.socialMedia.(instagram := instagram, youtube := youtube,
                                             github := github, twitter := twitter));
    assert CountedFields(q) == CountedFields(p);
  }

  // ---------------------------------------------------------------- schema setters and validators

  /** Casting a date: '' becomes null, any other text is kept as the date it denotes. */
  function CastDate(v: JsStr): (r: JsStr)
    ensures r != Str("")
    ensures Truthy(r) <==> Truthy(v)
  {
    if v == Str("") then Null else v
  }

  function TrimValue(v: JsStr): JsStr {
    if v.Str? then Str(Trim(v.text)) else Null
  }

  function CastSocial(s: Social): Social {
    Social(TrimValue(s.linkedin), TrimValue(s.website), TrimValue(s.instagram),
           TrimValue(s.youtube), TrimValue(s.github), TrimValue(s.twitter))
  }

  /** The schema's setters as they apply on assignment: name, phone number and the social links
      are trimmed, email is trimmed and lower-cased, the date of birth is cast. */
  function Cast(p: Profile): Profile {
    p.(name := Trim(p.name),
       email := Lower(Trim(p.email)),
       dateOfBirth := CastDate(p.dateOfBirth),
       phoneNumber := TrimValue(p.phoneNumber),
       socialMedia := CastSocial(p.socialMedia))
  }

  lemma TrimValueIdempotent(v: JsStr)
    ensures TrimValue(TrimValue(v)) == TrimValue(v)
  {
    if v.Str? { TrimIdempotent(v.text); }
  }

  lemma CastSocialIdempotent(s: Social)
    ensures CastSocial(CastSocial(s)) == CastSocial(s)
  {
    TrimValueIdempotent(s.linkedin);
    TrimValueIdempotent(s.website);
    TrimValueIdempotent(s.instagram);
    TrimValueIdempotent(s.youtube);
    TrimValueIdempotent(s.github);
    TrimValueIdempotent(s.twitter);
  }

  /** The setters are idempotent: a stored (already cast) document is not changed by casting it again. */
  lemma CastIdempotent(p: Profile)
    ensures Cast(Cast(p)) == Cast(p)
  {
    TrimIdempotent(p.name);
    TrimLower(p.email);
    LowerIdempotent(Trim(p.email));
    TrimValueIdempotent(p.phoneNumber);
    CastSocialIdempotent(p.socialMedia);
  }

  function Check(ok: bool, message: string): (r: seq<string>)
    ensures r == [] <==> ok
  {
    if ok then [] else [message]
  }

  predicate GenderAllowed(g: JsStr) {
    g.Null? || g.text in GenderValues
  }

  predicate AboutAllowed(a: JsStr) {
    a.Null? || |a.text| <= AboutMaxLength
  }

  const CompletenessMin := 0
  const CompletenessMax := 100

  /** `String(v)` of an integral number: its decimal digits, after a minus sign when negative. */
  function IntText(v: int): (s: string)
    ensures |s| >= 1
    ensures v < 0 <==> s[0] == '-'
    ensures v >= 0 ==> AllDigits(s)
  {
    if v < 0 then "-" + Digits(-v) else Digits(v)
  }

  /** The messages of the score's `min: 0` and `max: 100` validators, with Mongoose's default
      texts: at most one of them fails. */
  function ScoreErrors(score: int): (errors: seq<string>)
    ensures errors == [] <==> CompletenessMin <= score <= CompletenessMax
    ensures |errors| <= 1
  {
    if score < CompletenessMin then
      ["Path `profileCompleteness` (" + IntText(score) + ") is less than minimum allowed value (0)."]
    else if score > CompletenessMax then
      ["Path `profileCompleteness` (" + IntText(score) + ") is more than maximum allowed value (100)."]
    else []
  }

  /** The messages of the schema's validators that fail on `p`, in the order of the schema's paths:
      user_id, name and email are required, gender is one of the enumeration, about is at most
      500 characters (Mongoose's enum and maxlength validators let null through), and the score
      lies between 0 and 100. */
  function SchemaErrors(p: Profile): (errors: seq<string>)
    ensures errors == [] <==> p.userId != "" && p.name != "" && p.email != ""
                              && GenderAllowed(p.gender) && AboutAllowed(p.about)
                              && CompletenessMin <= p.profileCompleteness <= CompletenessMax
  {
    Check(p.userId != "", "User ID is required")
    + Check(p.name != "", "Name is required")
    + Check(p.email != "", "Email is required")
    + (if GenderAllowed(p.gender) then []
       else ["`" + p.gender.text + "` is not a valid enum value for path `gender`."])
    + Check(AboutAllowed(p.about), "About section cannot exceed 500 characters")
    + ScoreErrors(p.profileCompleteness)
  }

  /** What every stored profile satisfies: it is its own cast, it passes the schema's
      validators, and its score is the one computed from its fields. */
  predicate Stored(p: Profile) {
    Cast(p) == p && SchemaErrors(p) == [] && p.profileCompleteness == Completeness(p)
  }

  datatype SaveOutcome = Saved(doc: Profile) | Rejected(messages: seq<string>)

  /** The timestamps plug-in's test, `isNew || $isModified()`: the document is new (nothing was
      loaded), or some path holds a value other than the loaded document's. */
  predicate Stamped(loaded: Option<Profile>, doc: Profile) {
    loaded.None? || doc != loaded.value
  }

  /** What `save()` does with a document whose setters have run, `loaded` being the document as
      it was read (none for a new one): the validators first; then the timestamps hook, which
      sets `updatedAt` to `now` only for a new or modified document; then the pre-save hook,
      which overwrites the score with `calculateCompleteness()`. */
  function ValidateAndHook(loaded: Option<Profile>, doc: Profile, now: nat): (r: SaveOutcome)
    ensures r.Rejected? <==> SchemaErrors(doc) != []
    ensures r.Rejected? ==> r.messages == SchemaErrors(doc)
    ensures r.Saved? ==> r.doc.profileCompleteness == Completeness(r.doc)
    ensures r.Saved? && Stamped(loaded, doc) ==> r.doc.updatedAt == now
    ensures r.Saved? && !Stamped(loaded, doc) ==> r.doc.updatedAt == loaded.value.updatedAt
    ensures r.Saved? ==> r.doc == doc.(profileCompleteness := r.doc.profileCompleteness, updatedAt := r.doc.updatedAt)
  {
    var errors := SchemaErrors(doc);
    if errors != [] then Rejected(errors)
    else
      var stamped := doc.(updatedAt := if Stamped(loaded, doc) then now else doc.updatedAt);
      var saved := stamped.(profileCompleteness := Completeness(stamped));
      assert CountedFields(saved) == CountedFields(doc);
      Saved(saved)
  }

  /** `save()` of a document whose fields were assigned the values of `p`, `loaded` being the
      document as it was read: the setters run on assignment, then validation and the hooks. */
  function SaveDocument(loaded: Option<Profile>, p: Profile, now: nat): (r: SaveOutcome)
    ensures r.Rejected? <==> SchemaErrors(Cast(p)) != []
    ensures r.Saved? ==> r.doc.profileCompleteness == Completeness(r.doc)
    ensures r.Saved? && Stamped(loaded, Cast(p)) ==> r.doc.updatedAt == now
    ensures r.Saved? && !Stamped(loaded, Cast(p)) ==> r.doc.updatedAt == p.updatedAt
    ensures r.Saved? ==> r.doc == Cast(p).(profileCompleteness := r.doc.profileCompleteness, updatedAt := r.doc.updatedAt)
  {
    ValidateAndHook(loaded, Cast(p), now)
  }

  /** Whatever a save stores satisfies the stored-profile invariant. */
  lemma SavedIsStored(loaded: Option<Profile>, p: Profile, now: nat)
    ensures SaveDocument(loaded, p, now).Saved? ==> Stored(SaveDocument(loaded, p, now).doc)
  {
    CastIdempotent(p);
    var r := SaveDocument(loaded, p, now);
    if r.Saved? {
      assert CountedFields(r.doc) == CountedFields(Cast(p));
      assert SchemaErrors(r.doc) == SchemaErrors(Cast(p).(profileCompleteness := r.doc.profileCompleteness));
    }
  }

  /** A score supplied with a document does not survive a save: two scores the validators accept
      give the same outcome and, once saved, the same document but for `updatedAt` (which of
      them counts as a modification depends on the loaded score); a new document is saved
      identically. */
  lemma SaveIgnoresScore(loaded: Option<Profile>, p: Profile, score: int, now: nat)
    requires CompletenessMin <= score <= CompletenessMax
    requires CompletenessMin <= p.profileCompleteness <= CompletenessMax
    ensures SaveDocument(loaded, p.(profileCompleteness := score), now).Rejected?
        == SaveDocument(loaded, p, now).Rejected?
    ensures SaveDocument(loaded, p.(profileCompleteness := score), now).Saved? ==>
      SaveDocument(loaded, p.(profileCompleteness := score), now).doc.(updatedAt := 0)
        == SaveDocument(loaded, p, now).doc.(updatedAt := 0)
    ensures loaded.None? ==> SaveDocument(loaded, p.(profileCompleteness := score), now) == SaveDocument(loaded, p, now)
  {
    var d := Cast(p);
    var e := Cast(p.(profileCompleteness := score));
    CastIgnoresScore(p, score);
    assert CountedFields(e) == CountedFields(d);
    assert SchemaErrors(e) == SchemaErrors(d);
  }

  lemma CastIgnoresScore(p: Profile, score: int)
    ensures Cast(p.(profileCompleteness := score)) == Cast(p).(profileCompleteness := score)
  {
  }

  /** A document carrying a score outside 0..100 is refused, whatever its other fields hold:
      validation runs before the pre-save hook that would have corrected the score, and the last
      message is the `min` or `max` validator's. */
  lemma ScoreOutOfRangeRejected(loaded: Option<Profile>, p: Profile, now: nat)
    requires !(CompletenessMin <= p.profileCompleteness <= CompletenessMax)
    ensures SaveDocument(loaded, p, now).Rejected?
    ensures var m := SaveDocument(loaded, p, now).messages;
      |m| >= 1 && m[|m| - 1] == ScoreErrors(p.profileCompleteness)[0]
  {
    var d := Cast(p);
    assert d.profileCompleteness == p.profileCompleteness;
    var m := SchemaErrors(d);
    assert |ScoreErrors(d.profileCompleteness)| == 1;
    assert m[|m| - 1] == ScoreErrors(d.profileCompleteness)[0];
  }

  /** Saving a stored document again with nothing assigned changes nothing: the document is not
      modified, so `updatedAt` stays, and the hook recomputes the score it already holds. */
  lemma ResaveStored(p: Profile, now: nat)
    requires Stored(p)
    ensures SaveDocument(Some(p), p, now) == Saved(p)
  {
  }
}
