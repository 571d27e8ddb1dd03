/** Request validation: express-validator chains over the request body, the rule lists of the
    four validated routes, the six social-media validators, and the middleware that turns
    collected failures into a 400 reply. */
module Validation {
  import opened Js
  import opened Decimal
  import opened Http

  // ---------------------------------------------------------------- library checks

  /** The validator.js functions the chains call: `isEmail`, `isISO8601` and `normalizeEmail`.
      Their definitions are outside this model; only the facts the rules rely on are assumed
      of them (see `Plausible`). */
  datatype Library = Library(isEmail: string -> bool, isISO8601: string -> bool, normalizeEmail: string -> string)

  /** The empty text is neither an e-mail address nor an ISO 8601 date. */
  predicate Plausible(lib: Library) {
    !lib.isEmail("") && !lib.isISO8601("")
  }

  // ---------------------------------------------------------------- regular expressions

  datatype CharClass =
    | Word          // [\w]
    | WordDash      // [\w-]
    | WordDotDash   // [\w.-]
    | Host          // [-a-zA-Z0-9@:%._\+~#=]
    | Tld           // [a-zA-Z0-9()]
    | Tail          // [-a-zA-Z0-9()@:%_\+.~#?&//=]

  predicate IsAlnum(c: char) {
    ('a' <= c <= 'z') || ('A' <= c <= 'Z') || ('0' <= c <= '9')
  }

  predicate InClass(c: char, k: CharClass) {
    match k
    case Word => IsWordChar(c)
    case WordDash => IsWordChar(c) || c == '-'
    case WordDotDash => IsWordChar(c) || c == '.' || c == '-'
    case Host => IsAlnum(c) || c in "-@:%._+~#="
    case Tld => IsAlnum(c) || c == '(' || c == ')'
    case Tail => IsAlnum(c) || c in "-()@:%_+.~#?&/="
  }

  predicate AllIn(s: string, k: CharClass) {
    forall i :: 0 <= i < |s| ==> InClass(s[i], k)
  }

  /** `^[k]+$` */
  predicate Many(s: string, k: CharClass) {
    |s| >= 1 && AllIn(s, k)
  }

  /** `^[k]+\/?$` */
  predicate ManySlash(s: string, k: CharClass) {
    Many(s, k) || (|s| >= 2 && s[|s| - 1] == '/' && Many(s[..|s| - 1], k))
  }

  /** The text after `^https?:\/\/`, when there is one. */
  function AfterScheme(s: string): (r: Option<string>)
    ensures r.Some? ==> |r.value| < |s| && r.value == s[|s| - |r.value|..]
  {
    if StartsWith(s, "https://") then Some(s[8..])
    else if StartsWith(s, "http://") then Some(s[7..])
    else None
  }

  /** `t` is `<site>[k]+\/?` */
  predicate SitePath(t: string, site: string, k: CharClass) {
    StartsWith(t, site) && ManySlash(t[|site|..], k)
  }

  /** `^https?:\/\/(www\.)?(<site>|…)[k]+\/?$`, where each site ends with its '/'. */
  predicate SiteUrl(s: string, sites: seq<string>, k: CharClass) {
    var r := AfterScheme(s);
    r.Some? && exists site | site in sites ::
      SitePath(r.value, site, k) || (StartsWith(r.value, "www.") && SitePath(r.value[4..], site, k))
  }

  /** `\b` between positions `j - 1` and `j` of `t`. */
  predicate Boundary(t: string, j: int)
    requires 0 < j <= |t|
  {
    IsWordChar(t[j - 1]) != (j < |t| && IsWordChar(t[j]))
  }

  /** `t` is a host of 1 to 256 characters ending before `i`, a '.', a top-level label
      ending at `j` of 1 to 6 characters, a word boundary, and a tail. */
  predicate WebsiteSplit(t: string, i: int, j: int) {
    0 < i < j <= |t| && i <= 256 && 1 <= j - i - 1 <= 6 && t[i] == '.'
    && AllIn(t[..i], Host) && AllIn(t[i + 1..j], Tld) && Boundary(t, j) && AllIn(t[j..], Tail)
  }

  predicate WebsiteRest(t: string) {
    exists i, j | 0 <= i <= |t| && 0 <= j <= |t| :: WebsiteSplit(t, i, j)
  }

  /** `^https?:\/\/(www\.)?[host]{1,256}\.[tld]{1,6}\b([tail]*)$` */
  predicate WebsiteUrl(s: string) {
    var r := AfterScheme(s);
    r.Some? && (WebsiteRest(r.value) || (StartsWith(r.value, "www.") && WebsiteRest(r.value[4..])))
  }

  // ---------------------------------------------------------------- social-media validators

  datatype Social = LinkedIn | Website | Instagram | YouTube | GitHub | Twitter

  /** The body path each social-media chain validates. */
  function SocialPath(k: Social): string {
    match k
    case LinkedIn => "socialMedia.linkedin"
    case Website => "socialMedia.website"
    case Instagram => "socialMedia.instagram"
    case YouTube => "socialMedia.youtube"
    case GitHub => "socialMedia.github"
    case Twitter => "socialMedia.twitter"
  }

  /** The YouTube channel address pattern as written: after the site, `c/`, `channel/` or `@/`. */
  const YouTubeSitesAsWritten: seq<string> := ["youtube.com/c/", "youtube.com/channel/", "youtube.com/@/"]

  /** The channel address pattern with the handle form `youtube.com/@name`. */
  const YouTubeSites: seq<string> := ["youtube.com/c/", "youtube.com/channel/", "youtube.com/@"]

  /** The custom validator of a social-media key, with the YouTube address patterns `sites`:
      `None` when it returns true, `Some(message)` for the error it throws. A falsy value passes. */
  function CheckSocialWith(k: Social, v: Field<JsStr>, youTubeSites: seq<string>): (r: Option<string>)
    ensures !TruthyField(v) ==> r.None?
  {
    if !TruthyField(v) then None
    else
      var s := v.value.text;
      match k
      case LinkedIn => CheckLinkedIn(s)
      case Website => CheckWebsite(s)
      case Instagram => CheckInstagram(s)
      case YouTube => CheckYouTube(s, youTubeSites)
      case GitHub => CheckGitHub(s)
      case Twitter => CheckTwitter(s)
  }

  /** LinkedIn: an address of the site must name a person or a company page. */
  function CheckLinkedIn(s: string): Option<string> {
    if Contains(s, "linkedin.com") && !SiteUrl(s, ["linkedin.com/in/", "linkedin.com/company/"], WordDash)
    then Some("Invalid LinkedIn URL format") else None
  }

  function CheckWebsite(s: string): Option<string> {
    if !WebsiteUrl(s) then Some("Invalid website URL format") else None
  }

  /** Instagram: an address of the site, or a user name. */
  function CheckInstagram(s: string): Option<string> {
    if Contains(s, "instagram.com") then
      if !SiteUrl(s, ["instagram.com/"], WordDotDash) then Some("Invalid Instagram URL format") else None
    else if !Many(s, WordDotDash) then Some("Invalid Instagram username format") else None
  }

  /** YouTube: an address of the site, a handle `@name`, or anything else unchecked. */
  function CheckYouTube(s: string, sites: seq<string>): Option<string> {
    if Contains(s, "youtube.com") then
      if !SiteUrl(s, sites, WordDash) then Some("Invalid YouTube URL format") else None
    else if StartsWith(s, "@") then
      if !(|s| >= 2 && Many(s[1..], WordDash)) then Some("Invalid YouTube handle format") else None
    else None
  }

  /** GitHub: an address of the site, or a user name. */
  function CheckGitHub(s: string): Option<string> {
    if Contains(s, "github.com") then
      if !SiteUrl(s, ["github.com/"], WordDash) then Some("Invalid GitHub URL format") else None
    else if !Many(s, WordDash) then Some("Invalid GitHub username format") else None
  }

  /** Twitter/X: an address of either site, or a user name with an optional '@'. */
  function CheckTwitter(s: string): Option<string> {
    if Contains(s, "twitter.com") || Contains(s, "x.com") then
      if !SiteUrl(s, ["twitter.com/", "x.com/"], Word) then Some("Invalid Twitter/X URL format") else None
    else if !(Many(s, Word) || (|s| >= 2 && s[0] == '@' && Many(s[1..], Word))) then
      Some("Invalid Twitter/X username format")
    else None
  }

  /** `http://` or `https://`, an optional `www.`, then `rest`. */
  function UrlOf(secure: bool, www: bool, rest: string): string {
    (if secure then "https://" else "http://") + (if www then "www." else "") + rest
  }

  lemma AfterSchemeOfUrl(secure: bool, www: bool, rest: string)
    ensures AfterScheme(UrlOf(secure, www, rest)) == Some((if www then "www." else "") + rest)
  {
    var scheme := if secure then "https://" else "http://";
    var w := if www then "www." else "";
    var s := UrlOf(secure, www, rest);
    assert s == scheme + (w + rest);
    assert s[..|scheme|] == scheme;
    if !secure {
      assert s[4] == ':';
    }
  }

  /** An address whose path after the site is `[k]+\/?` matches the site pattern. */
  lemma SiteUrlOf(secure: bool, www: bool, site: string, seg: string, sites: seq<string>, k: CharClass)
    requires site in sites && ManySlash(seg, k)
    ensures SiteUrl(UrlOf(secure, www, site + seg), sites, k)
  {
    AfterSchemeOfUrl(secure, www, site + seg);
    var t := site + seg;
    assert t[|site|..] == seg;
    assert SitePath(t, site, k);
    if www {
      assert ("www." + t)[4..] == t;
    }
  }

  /** An address names every text its site starts with. */
  lemma UrlContainsSite(secure: bool, www: bool, site: string, seg: string, name: string)
    requires StartsWith(site, name)
    ensures Contains(UrlOf(secure, www, site + seg), name)
  {
    var scheme := if secure then "https://" else "http://";
    var w := if www then "www." else "";
    var s := UrlOf(secure, www, site + seg);
    var at := |scheme| + |w|;
    assert s == (scheme + w) + (site + seg);
    assert s[at..] == site + seg;
    assert s[at..at + |name|] == s[at..][..|name|] == (site + seg)[..|name|] == site[..|name|];
    assert OccursAt(s, name, at);
  }

  /** The validators as written, with the YouTube pattern that refuses `youtube.com/@name`;
      the rule lists use these. */
  function CheckSocialAsWritten(k: Social, v: Field<JsStr>): Option<string> {
    CheckSocialWith(k, v, YouTubeSitesAsWritten)
  }

  /** The validators with the YouTube pattern corrected so that it accepts the handle address
      `youtube.com/@name`. */
  function CheckSocial(k: Social, v: Field<JsStr>): Option<string> {
    CheckSocialWith(k, v, YouTubeSites)
  }

  /** The two differ on YouTube addresses only. */
  lemma CheckSocialDiffersOnYouTubeOnly(k: Social, v: Field<JsStr>)
    requires k != YouTube
    ensures CheckSocial(k, v) == CheckSocialAsWritten(k, v)
  {
  }

  /** No channel pattern as written starts the path of a handle address `youtube.com/@name`. */
  lemma HandlePathNotInSitesAsWritten(t: string, name: string)
    requires t == "youtube.com/@" + name && Many(name, WordDash)
    ensures forall site | site in YouTubeSitesAsWritten :: !StartsWith(t, site)
  {
    assert t[12] == '@' && t[13] == name[0] && name[0] != '/';
    forall site | site in YouTubeSitesAsWritten
      ensures !StartsWith(t, site)
    {
      assert |site| >= 14;
      if site == "youtube.com/@/" {
        assert site[13] == '/';
      } else {
        assert site[12] == 'c';
      }
    }
  }

  /** As written, a handle address `http(s)://(www.)youtube.com/@name` matches no channel pattern. */
  lemma HandleUrlNotSiteUrlAsWritten(secure: bool, www: bool, name: string)
    requires Many(name, WordDash)
    ensures !SiteUrl(UrlOf(secure, www, "youtube.com/@" + name), YouTubeSitesAsWritten, WordDash)
  {
    var t := "youtube.com/@" + name;
    var w := if www then "www." else "";
    AfterSchemeOfUrl(secure, www, t);
    HandlePathNotInSitesAsWritten(t, name);
    var r := w + t;
    assert AfterScheme(UrlOf(secure, www, t)) == Some(r);
    assert www ==> r[4..] == t;
    assert t[0] == 'y';
    assert !www ==> r == t && r[0] != "www."[0];
    forall site | site in YouTubeSitesAsWritten
      ensures !SitePath(r, site, WordDash)
      ensures !(StartsWith(r, "www.") && SitePath(r[4..], site, WordDash))
    {
      if www {
        assert r[0] == 'w' && site[0] == 'y';
      }
    }
  }

  /** As written, no YouTube handle address `http(s)://(www.)youtube.com/@name` is accepted:
      the pattern demands a '/' right after the '@'. */
  lemma YouTubeHandleUrlRefusedAsWritten(secure: bool, www: bool, name: string)
    requires Many(name, WordDash)
    ensures CheckSocialAsWritten(YouTube, Present(Str(UrlOf(secure, www, "youtube.com/@" + name))))
         == Some("Invalid YouTube URL format")
  {
    var t := "youtube.com/@" + name;
    UrlContainsSite(secure, www, t, "", "youtube.com");
    assert t + "" == t;
    HandleUrlNotSiteUrlAsWritten(secure, www, name);
  }

  /** With the handle form, every YouTube handle address `http(s)://(www.)youtube.com/@name(/)`
      is accepted. */
  lemma YouTubeHandleUrlAccepted(secure: bool, www: bool, seg: string)
    requires ManySlash(seg, WordDash)
    ensures CheckSocial(YouTube, Present(Str(UrlOf(secure, www, "youtube.com/@" + seg)))) == None
  {
    UrlContainsSite(secure, www, "youtube.com/@", seg, "youtube.com");
    SiteUrlOf(secure, www, "youtube.com/@", seg, YouTubeSites, WordDash);
  }

  /** A bare GitHub user name `[\w-]+` is accepted: it cannot contain `github.com`. */
  lemma GitHubNameAccepted(name: string)
    requires Many(name, WordDash)
    ensures CheckSocialAsWritten(GitHub, Present(Str(name))) == None
  {
    NotContainsForeign(name, "github.com", 6);
  }

  /** A bare GitHub value is accepted exactly when it is `[\w-]+`. */
  lemma GitHubBareValue(s: string)
    requires s != "" && !Contains(s, "github.com")
    ensures CheckSocialAsWritten(GitHub, Present(Str(s))).None? <==> Many(s, WordDash)
  {
  }

  /** A bare Instagram value is accepted exactly when it is `[\w.-]+`. */
  lemma InstagramBareValue(s: string)
    requires s != "" && !Contains(s, "instagram.com")
    ensures CheckSocialAsWritten(Instagram, Present(Str(s))).None? <==> Many(s, WordDotDash)
  {
  }

  /** A bare Twitter/X value, one that names neither site, is accepted exactly when it is `@?\w+`;
      any other is refused as an invalid user name. */
  lemma TwitterBareValue(s: string)
    requires s != "" && !Contains(s, "twitter.com") && !Contains(s, "x.com")
    ensures CheckSocialAsWritten(Twitter, Present(Str(s))).None? <==>
      Many(s, Word) || (|s| >= 2 && s[0] == '@' && Many(s[1..], Word))
    ensures CheckSocialAsWritten(Twitter, Present(Str(s))).Some? ==>
      CheckSocialAsWritten(Twitter, Present(Str(s))) == Some("Invalid Twitter/X username format")
  {
  }

  /** A Twitter/X user name `@?\w+` is accepted: it cannot contain `twitter.com` or `x.com`. */
  lemma TwitterNameAccepted(name: string, at: bool)
    requires Many(name, Word)
    ensures CheckSocialAsWritten(Twitter, Present(Str((if at then "@" else "") + name))) == None
  {
    var s := (if at then "@" else "") + name;
    forall i | 0 <= i < |s|
      ensures s[i] != '.'
    {
      if at && i > 0 {
        assert s[i] == name[i - 1];
      }
    }
    NotContainsForeign(s, "twitter.com", 7);
    NotContainsForeign(s, "x.com", 1);
    if at {
      assert s[1..] == name;
    }
  }

  /** LinkedIn values that do not name the site, and YouTube values that neither name the
      site nor start with '@', are accepted unchecked. */
  lemma UncheckedBareValues(s: string)
    requires s != ""
    ensures !Contains(s, "linkedin.com") ==> CheckSocialAsWritten(LinkedIn, Present(Str(s))) == None
    ensures !Contains(s, "youtube.com") && s[0] != '@' ==> CheckSocialAsWritten(YouTube, Present(Str(s))) == None
  {
  }

  /** A YouTube value starting with '@' that does not name the site is accepted exactly when
      it is `@[\w-]+`. */
  lemma YouTubeHandle(s: string)
    requires s != "" && s[0] == '@' && !Contains(s, "youtube.com")
    ensures CheckSocialAsWritten(YouTube, Present(Str(s))).None? <==> Many(s[1..], WordDash)
  {
  }

  /** A GitHub profile address `http(s)://(www.)github.com/<name>(/)` is accepted. */
  lemma GitHubUrlAccepted(secure: bool, www: bool, seg: string)
    requires ManySlash(seg, WordDash)
    ensures CheckSocialAsWritten(GitHub, Present(Str(UrlOf(secure, www, "github.com/" + seg)))) == None
  {
    UrlContainsSite(secure, www, "github.com/", seg, "github.com");
    SiteUrlOf(secure, www, "github.com/", seg, ["github.com/"], WordDash);
  }

  /** A website address `https://<host>.<tld>`, host of 1 to 256 characters and a letters-and-digits
      label of 1 to 6, is accepted. */
  lemma WebsiteAccepted(host: string, tld: string)
    requires 1 <= |host| <= 256 && AllIn(host, Host)
    requires 1 <= |tld| <= 6 && forall i :: 0 <= i < |tld| ==> IsAlnum(tld[i])
    ensures CheckSocialAsWritten(Website, Present(Str("https://" + host + "." + tld))) == None
  {
    var t := host + "." + tld;
    var s := "https://" + host + "." + tld;
    assert s == "https://" + t;
    assert AfterScheme(s) == Some(t);
    var i, j := |host|, |t|;
    assert t[..i] == host;
    assert t[i + 1..j] == tld;
    assert t[j - 1] == tld[|tld| - 1];
    assert t[j..] == [];
    assert WebsiteSplit(t, i, j);
  }

  // ---------------------------------------------------------------- chains

  /** A standard validator of a chain; each reads the value converted to text as
      express-validator does (`undefined` and `null` read as ''), except `IsString`. */
  datatype Check =
    | NotEmpty
    | IsString
    | IsEmail
    | IsISO8601
    | IsLength(min: nat, max: Option<nat>)
    | TenDigits
    | IsIn(options: seq<string>)

  /** One link of a chain: a validator with its `withMessage`, a custom social-media validator
      (its thrown message is the error), or a sanitizer that rewrites the value. */
  datatype Step = Validate(check: Check, message: string) | Custom(social: Social) | TrimValue | NormalizeEmailValue

  /** `body(path)` followed by its links; `optional` skips the chain for an absent key. */
  datatype Chain = Chain(path: string, optional: bool, steps: seq<Step>)

  function Holds(c: Check, v: Field<JsStr>, lib: Library): bool {
    var s := TextOf(v);
    match c
    case NotEmpty => s != ""
    case IsString => v.Present? && v.value.Str?
    case IsEmail => lib.isEmail(s)
    case IsISO8601 => lib.isISO8601(s)
    case IsLength(min, max) => min <= |s| && (max.None? || |s| <= max.value)
    case TenDigits => |s| == 10 && AllDigits(s)
    case IsIn(options) => s in options
  }

  /** The errors a chain collected, in order, and the value it leaves in the body. */
  datatype Outcome = Outcome(errors: seq<string>, value: Field<JsStr>)

  function RunStep(step: Step, v: Field<JsStr>, lib: Library): Outcome {
    match step
    case Validate(c, m) => Outcome(if Holds(c, v, lib) then [] else [m], v)
    case Custom(k) => Outcome(match CheckSocialAsWritten(k, v) case None => [] case Some(m) => [m], v)
    case TrimValue => Outcome([], Present(Str(Trim(TextOf(v)))))
    case NormalizeEmailValue => Outcome([], Present(Str(lib.normalizeEmail(TextOf(v)))))
  }

  /** Every link runs, failed or not (no `bail`): the errors of all of them are collected. */
  function RunSteps(steps: seq<Step>, v: Field<JsStr>, lib: Library): Outcome
    decreases |steps|
  {
    if steps == [] then Outcome([], v)
    else
      var first := RunStep(steps[0], v, lib);
      var rest := RunSteps(steps[1..], first.value, lib);
      Outcome(first.errors + rest.errors, rest.value)
  }

  /** The value of a body key: absent keys are `undefined`. */
  function Lookup(body: map<string, JsStr>, path: string): (f: Field<JsStr>)
    ensures f.Present? <==> path in body
  {
    if path in body then Present(body[path]) else Absent
  }

  /** The errors and the new body after a chain. */
  datatype Report = Report(errors: seq<string>, body: map<string, JsStr>)

  function RunChain(c: Chain, body: map<string, JsStr>, lib: Library): (r: Report)
    ensures forall p :: p != c.path ==> (p in r.body <==> p in body)
    ensures forall p :: p != c.path && p in body ==> r.body[p] == body[p]
  {
    if c.optional && c.path !in body then Report([], body)
    else
      var o := RunSteps(c.steps, Lookup(body, c.path), lib);
      Report(o.errors, if o.value.Present? then body[c.path := o.value.value] else body)
  }

  /** The chains of a route run one after the other over the body, each seeing what the
      sanitizers before it wrote. */
  function RunRules(rules: seq<Chain>, body: map<string, JsStr>, lib: Library): Report
    decreases |rules|
  {
    if rules == [] then Report([], body)
    else
      var first := RunChain(rules[0], body, lib);
      var rest := RunRules(rules[1..], first.body, lib);
      Report(first.errors + rest.errors, rest.body)
  }

  predicate DistinctPaths(rules: seq<Chain>) {
    forall i, j :: 0 <= i < j < |rules| ==> rules[i].path != rules[j].path
  }

  /** With one chain per key, a rule list passes exactly when each of its chains passes on the
      body as it arrived: no chain sees another's sanitizing. */
  lemma {:induction false} RunRulesPasses(rules: seq<Chain>, body: map<string, JsStr>, lib: Library)
    requires DistinctPaths(rules)
    ensures RunRules(rules, body, lib).errors == [] <==>
      forall i :: 0 <= i < |rules| ==> RunChain(rules[i], body, lib).errors == []
    decreases |rules|
  {
    if rules != [] {
      var first := RunChain(rules[0], body, lib);
      var tail := rules[1..];
      assert DistinctPaths(tail) by {
        forall i, j | 0 <= i < j < |tail|
          ensures tail[i].path != tail[j].path
        {
          assert tail[i] == rules[i + 1] && tail[j] == rules[j + 1];
        }
      }
      RunRulesPasses(tail, first.body, lib);
      forall i | 0 <= i < |tail|
        ensures RunChain(tail[i], first.body, lib) .errors == RunChain(tail[i], body, lib).errors
      {
        assert tail[i] == rules[i + 1];
        ChainSeesOwnKey(tail[i], body, first.body, lib);
      }
      if RunRules(rules, body, lib).errors == [] {
        forall i | 0 <= i < |rules|
          ensures RunChain(rules[i], body, lib).errors == []
        {
          if i > 0 {
            assert rules[i] == tail[i - 1];
          }
        }
      } else if first.errors == [] {
        var i :| 0 <= i < |tail| && RunChain(tail[i], first.body, lib).errors != [];
        assert rules[i + 1] == tail[i];
      }
    }
  }

  /** A chain's errors depend only on the value under its own key. */
  lemma ChainSeesOwnKey(c: Chain, a: map<string, JsStr>, b: map<string, JsStr>, lib: Library)
    requires Lookup(a, c.path) == Lookup(b, c.path)
    ensures RunChain(c, a, lib).errors == RunChain(c, b, lib).errors
  {
  }

  /** The last chain that names `path` decides nothing about other keys; after the rules,
      a key no chain names is as it arrived. */
  lemma {:induction false} RunRulesKeepsOtherKeys(rules: seq<Chain>, body: map<string, JsStr>, lib: Library, p: string)
    requires forall i :: 0 <= i < |rules| ==> rules[i].path != p
    ensures Lookup(RunRules(rules, body, lib).body, p) == Lookup(body, p)
    decreases |rules|
  {
    if rules != [] {
      var first := RunChain(rules[0], body, lib);
      RunRulesKeepsOtherKeys(rules[1..], first.body, lib, p);
    }
  }

  // ---------------------------------------------------------------- the middleware

  /** `handleValidationErrors`: no errors lets the request through; otherwise a 400 whose
      message lists every error, in the order the chains found them. */
  function HandleValidationErrors(errors: seq<string>): (r: Option<ErrorBody>)
    ensures r.None? <==> errors == []
    ensures r.Some? ==> r.value.statusCode == 400 && r.value.message == Lines(errors)
  {
    if errors == [] then None else Some(ErrorBody(400, Lines(errors), "Bad Request"))
  }

  /** What a validated route does with a body: refuses it, or passes the sanitized body on. */
  datatype Gate = Refused(reply: ErrorBody) | Passed(body: map<string, JsStr>)

  function Validated(rules: seq<Chain>, body: map<string, JsStr>, lib: Library): (g: Gate)
    ensures g.Passed? <==> RunRules(rules, body, lib).errors == []
    ensures g.Refused? ==> g.reply == ErrorBody(400, Lines(RunRules(rules, body, lib).errors), "Bad Request")
    ensures g.Passed? ==> g.body == RunRules(rules, body, lib).body
  {
    var report := RunRules(rules, body, lib);
    match HandleValidationErrors(report.errors)
    case None => Passed(report.body)
    case Some(reply) => Refused(reply)
  }

  // ---------------------------------------------------------------- the rule lists

  function EmailChain(): Chain {
    Chain("email", false, [Validate(NotEmpty, "Email is required"), Validate(IsEmail, "Please provide a valid email")])
  }

  function SignupRules(): seq<Chain> {
    [EmailChain(), SignupPasswordChain()]
  }

  function LoginRules(): seq<Chain> {
    [EmailChain(), LoginPasswordChain()]
  }

  /** `body(path).notEmpty().withMessage(m1).<check>().withMessage(m2)` */
  function Required(path: string, m1: string, check: Check, m2: string): Chain {
    Chain(path, false, [Validate(NotEmpty, m1), Validate(check, m2)])
  }

  /** `body(path).optional().<check>().withMessage(m)` */
  function Optional(path: string, check: Check, m: string): Chain {
    Chain(path, true, [Validate(check, m)])
  }

  /** A required string, trimmed, whose trimmed length lies in `min..max`. */
  function TrimmedText(path: string, m1: string, m2: string, min: nat, max: nat, m3: string): Chain {
    Chain(path, false, [Validate(NotEmpty, m1), Validate(IsString, m2), TrimValue, Validate(IsLength(min, Some(max)), m3)])
  }

  function SupportEmailChain(): Chain {
    Chain("email", false, [Validate(NotEmpty, "Email is required"), Validate(IsEmail, "Please provide a valid email"),
                           NormalizeEmailValue])
  }

  function UserIdChain(): Chain {
    Required("user_id", "User ID is required", IsString, "User ID must be a string")
  }

  function SubjectChain(): Chain {
    TrimmedText("subject", "Subject is required", "Subject must be a string", 5, 100,
                "Subject must be between 5 and 100 characters long")
  }

  function DescriptionChain(): Chain {
    TrimmedText("description", "Description is required", "Description must be a string", 10, 1000,
                "Description must be between 10 and 1000 characters long")
  }

  function ContactChain(): Chain {
    Required("contactNumber", "Contact number is required", TenDigits, "Contact number must be exactly 10 digits")
  }

  function ScreenshotChain(): Chain {
    Optional("screenshot", IsString, "Screenshot must be a string")
  }

  function SupportRules(): seq<Chain> {
    [UserIdChain(), SupportEmailChain(), SubjectChain(), DescriptionChain(), ContactChain(), ScreenshotChain()]
  }

  function NameChain(): Chain {
    Chain("name", false, [Validate(NotEmpty, "Name is required"), Validate(IsString, "Name must be a string"), TrimValue])
  }

  const Genders: seq<string> := ["Male", "Female", "Other"]

  /** The profile rules: the personal fields, then the country code and the about text, then
      the six social links. */
  function ProfileRules(): seq<Chain> {
    PersonalChains() + AboutChains() + SocialChains()
  }

  function PersonalChains(): seq<Chain> {
    [NameChain(), EmailChain(), PhotoChain(), BirthDateChain(), GenderChain(), PhoneChain()]
  }

  function AboutChains(): seq<Chain> {
    [CountryCodeChain(), AboutChain()]
  }

  function PhotoChain(): Chain {
    Optional("profilePhoto", IsString, "Profile photo must be a valid URL string")
  }

  function BirthDateChain(): Chain {
    Optional("dateOfBirth", IsISO8601, "Date of birth must be a valid date")
  }

  function GenderChain(): Chain {
    Required("gender", "Gender is required", IsIn(Genders), "Gender must be Male, Female, or Other")
  }

  function PhoneChain(): Chain {
    Required("phoneNumber", "Phone number is required", TenDigits, "Phone number must be exactly 10 digits")
  }

  function CountryCodeChain(): Chain {
    Optional("countryCode", IsString, "Country code must be a string")
  }

  function AboutChain(): Chain {
    TrimmedText("about", "About section is required", "About must be a string", 1, 500,
                "About section must be between 1 and 500 characters")
  }

  function SocialChains(): seq<Chain> {
    [SocialChain(LinkedIn), SocialChain(Website), SocialChain(Instagram),
     SocialChain(YouTube), SocialChain(GitHub), SocialChain(Twitter)]
  }

  function SocialChain(k: Social): Chain {
    Chain(SocialPath(k), true, [Custom(k)])
  }

  // ---------------------------------------------------------------- what each route lets through

  /** The text of a body key, as the standard validators read it. */
  function TextAt(body: map<string, JsStr>, path: string): string {
    TextOf(Lookup(body, path))
  }

  /** The key holds a string (`isString`). */
  predicate StringAt(body: map<string, JsStr>, path: string) {
    path in body && body[path].Str?
  }

  lemma EmailChainPasses(body: map<string, JsStr>, lib: Library)
    ensures RunChain(EmailChain(), body, lib).errors == [] <==>
      TextAt(body, "email") != "" && lib.isEmail(TextAt(body, "email"))
  {
  }

  function SignupPasswordChain(): Chain {
    Chain("password", false, [Validate(NotEmpty, "Password is required"),
                              Validate(IsString, "Password must be a string"),
                              Validate(IsLength(6, None), "Password must be at least 6 characters long")])
  }

  function LoginPasswordChain(): Chain {
    Chain("password", false, [Validate(NotEmpty, "Password is required"), Validate(IsString, "Password must be a string")])
  }

  lemma SignupPasswordChainPasses(body: map<string, JsStr>, lib: Library)
    ensures RunChain(SignupPasswordChain(), body, lib).errors == [] <==>
      StringAt(body, "password") && |body["password"].text| >= 6
  {
  }

  lemma LoginPasswordChainPasses(body: map<string, JsStr>, lib: Library)
    ensures RunChain(LoginPasswordChain(), body, lib).errors == [] <==>
      StringAt(body, "password") && body["password"].text != ""
  {
  }

  /** A list of two chains on different keys passes exactly when both do. */
  lemma TwoChainsPass(a: Chain, b: Chain, body: map<string, JsStr>, lib: Library)
    requires a.path != b.path
    ensures RunRules([a, b], body, lib).errors == [] <==>
      RunChain(a, body, lib).errors == [] && RunChain(b, body, lib).errors == []
  {
    RunRulesPasses([a, b], body, lib);
    assert [a, b][1] == b;
  }

  /** Sign-up lets a body through exactly when the e-mail is a non-empty address and the
      password a string of at least 6 characters. */
  lemma SignupPasses(body: map<string, JsStr>, lib: Library)
    ensures Validated(SignupRules(), body, lib).Passed? <==>
      TextAt(body, "email") != "" && lib.isEmail(TextAt(body, "email"))
      && StringAt(body, "password") && |body["password"].text| >= 6
  {
    TwoChainsPass(EmailChain(), SignupPasswordChain(), body, lib);
    EmailChainPasses(body, lib);
    SignupPasswordChainPasses(body, lib);
  }

  /** Login lets a body through exactly when the e-mail is a non-empty address and the
      password a non-empty string; its length is not checked. */
  lemma LoginPasses(body: map<string, JsStr>, lib: Library)
    ensures Validated(LoginRules(), body, lib).Passed? <==>
      TextAt(body, "email") != "" && lib.isEmail(TextAt(body, "email"))
      && StringAt(body, "password") && body["password"].text != ""
  {
    TwoChainsPass(EmailChain(), LoginPasswordChain(), body, lib);
    EmailChainPasses(body, lib);
    LoginPasswordChainPasses(body, lib);
  }

  /** No chain stops at its first failure: an empty sign-up body is refused with every message
      of both chains, in order. */
  lemma SignupEmptyBody(lib: Library)
    requires Plausible(lib)
    ensures Validated(SignupRules(), map[], lib) == Refused(ErrorBody(400, Lines(
      ["Email is required", "Please provide a valid email",
       "Password is required", "Password must be a string", "Password must be at least 6 characters long"]),
      "Bad Request"))
  {
    var rules := SignupRules();
    var first := RunChain(rules[0], map[], lib);
    assert first.errors == ["Email is required", "Please provide a valid email"];
    var second := RunChain(rules[1], first.body, lib);
    assert second.errors == ["Password is required", "Password must be a string", "Password must be at least 6 characters long"];
    assert rules[2..] == [];
  }

  // ---------------------------------------------------------------- single chains

  /** Running a chain's first link, then the rest on the value it left. */
  lemma RunStepsCons(step: Step, rest: seq<Step>, v: Field<JsStr>, lib: Library)
    ensures var first := RunStep(step, v, lib);
      var tail := RunSteps(rest, first.value, lib);
      RunSteps([step] + rest, v, lib) == Outcome(first.errors + tail.errors, tail.value)
  {
    assert ([step] + rest)[1..] == rest;
  }

  /** The errors of one validator. */
  function Failed(c: Check, m: string, v: Field<JsStr>, lib: Library): seq<string> {
    if Holds(c, v, lib) then [] else [m]
  }

  lemma RequiredRuns(path: string, m1: string, check: Check, m2: string, body: map<string, JsStr>, lib: Library)
    ensures var r := RunChain(Required(path, m1, check, m2), body, lib);
      (r.errors == [] <==> TextAt(body, path) != "" && Holds(check, Lookup(body, path), lib))
      && r.body == body
  {
    var v := Lookup(body, path);
    var a, b := Validate(NotEmpty, m1), Validate(check, m2);
    assert Required(path, m1, check, m2).steps == [a] + ([b] + []);
    RunStepsCons(b, [], v, lib);
    RunStepsCons(a, [b] + [], v, lib);
    assert RunSteps([a] + ([b] + []), v, lib) == Outcome(Failed(NotEmpty, m1, v, lib) + (Failed(check, m2, v, lib) + []), v);
    if path in body {
      assert body[path := body[path]] == body;
    }
  }

  lemma OptionalRuns(path: string, check: Check, m: string, body: map<string, JsStr>, lib: Library)
    ensures var r := RunChain(Optional(path, check, m), body, lib);
      (r.errors == [] <==> path !in body || Holds(check, Present(body[path]), lib))
      && r.body == body
  {
    var v := Lookup(body, path);
    var a := Validate(check, m);
    assert Optional(path, check, m).steps == [a] + [];
    RunStepsCons(a, [], v, lib);
    if path in body {
      assert body[path := body[path]] == body;
    }
  }

  lemma TrimmedTextRuns(path: string, m1: string, m2: string, min: nat, max: nat, m3: string,
                        body: map<string, JsStr>, lib: Library)
    ensures var r := RunChain(TrimmedText(path, m1, m2, min, max, m3), body, lib);
      (r.errors == [] <==> StringAt(body, path) && TextAt(body, path) != "" && min <= |Trim(TextAt(body, path))| <= max)
      && r.body == body[path := Str(Trim(TextAt(body, path)))]
  {
    var v := Lookup(body, path);
    var t := Present(Str(Trim(TextOf(v))));
    var a, b, c, d := Validate(NotEmpty, m1), Validate(IsString, m2), TrimValue, Validate(IsLength(min, Some(max)), m3);
    assert TrimmedText(path, m1, m2, min, max, m3).steps == [a] + ([b] + ([c] + ([d] + [])));
    RunStepsCons(d, [], t, lib);
    RunStepsCons(c, [d] + [], v, lib);
    RunStepsCons(b, [c] + ([d] + []), v, lib);
    RunStepsCons(a, [b] + ([c] + ([d] + [])), v, lib);
    assert RunSteps([a] + ([b] + ([c] + ([d] + []))), v, lib)
        == Outcome(Failed(NotEmpty, m1, v, lib) + (Failed(IsString, m2, v, lib) + ([] + (Failed(IsLength(min, Some(max)), m3, t, lib) + []))), t);
  }

  lemma SupportEmailChainRuns(body: map<string, JsStr>, lib: Library)
    ensures var r := RunChain(SupportEmailChain(), body, lib);
      (r.errors == [] <==> TextAt(body, "email") != "" && lib.isEmail(TextAt(body, "email")))
      && r.body == body["email" := Str(lib.normalizeEmail(TextAt(body, "email")))]
  {
  }

  lemma NameChainRuns(body: map<string, JsStr>, lib: Library)
    ensures var r := RunChain(NameChain(), body, lib);
      (r.errors == [] <==> StringAt(body, "name") && body["name"].text != "")
      && r.body == body["name" := Str(Trim(TextAt(body, "name")))]
  {
  }

  lemma SocialChainRuns(k: Social, body: map<string, JsStr>, lib: Library)
    ensures var r := RunChain(SocialChain(k), body, lib);
      (r.errors == [] <==> SocialPath(k) !in body || CheckSocialAsWritten(k, Present(body[SocialPath(k)])).None?)
      && r.body == body
  {
  }

  /** After a rule list with one chain per key, a chain's key holds what that chain alone
      would have left there. */
  lemma {:induction false} RunRulesAt(rules: seq<Chain>, body: map<string, JsStr>, lib: Library, k: nat)
    requires DistinctPaths(rules) && k < |rules|
    ensures Lookup(RunRules(rules, body, lib).body, rules[k].path)
         == Lookup(RunChain(rules[k], body, lib).body, rules[k].path)
    decreases |rules|
  {
    var first := RunChain(rules[0], body, lib);
    var tail := rules[1..];
    var p := rules[k].path;
    if k == 0 {
      forall i | 0 <= i < |tail|
        ensures tail[i].path != p
      {
        assert tail[i] == rules[i + 1];
      }
      RunRulesKeepsOtherKeys(tail, first.body, lib, p);
    } else {
      assert DistinctPaths(tail) by {
        forall i, j | 0 <= i < j < |tail|
          ensures tail[i].path != tail[j].path
        {
          assert tail[i] == rules[i + 1] && tail[j] == rules[j + 1];
        }
      }
      assert tail[k - 1] == rules[k];
      RunRulesAt(tail, first.body, lib, k - 1);
      assert Lookup(first.body, p) == Lookup(body, p);
      ChainBodyAt(rules[k], first.body, body, lib);
    }
  }

  /** What a chain leaves under its key depends only on what was there. */
  lemma ChainBodyAt(c: Chain, a: map<string, JsStr>, b: map<string, JsStr>, lib: Library)
    requires Lookup(a, c.path) == Lookup(b, c.path)
    ensures Lookup(RunChain(c, a, lib).body, c.path) == Lookup(RunChain(c, b, lib).body, c.path)
  {
  }

  // ---------------------------------------------------------------- support requests and profiles

  /** What one key must hold to get through its chain. */
  predicate NonEmptyString(body: map<string, JsStr>, path: string) {
    StringAt(body, path) && body[path].text != ""
  }

  predicate EmailOk(body: map<string, JsStr>, lib: Library) {
    TextAt(body, "email") != "" && lib.isEmail(TextAt(body, "email"))
  }

  predicate TrimmedTextOk(body: map<string, JsStr>, path: string, min: nat, max: nat) {
    StringAt(body, path) && TextAt(body, path) != "" && min <= |Trim(TextAt(body, path))| <= max
  }

  predicate TenDigitsAt(body: map<string, JsStr>, path: string) {
    |TextAt(body, path)| == 10 && AllDigits(TextAt(body, path))
  }

  predicate OptionalString(body: map<string, JsStr>, path: string) {
    path in body ==> body[path].Str?
  }

  /** What a support request body must hold to get through. */
  predicate SupportAcceptable(body: map<string, JsStr>, lib: Library) {
    NonEmptyString(body, "user_id") && EmailOk(body, lib)
    && TrimmedTextOk(body, "subject", 5, 100) && TrimmedTextOk(body, "description", 10, 1000)
    && TenDigitsAt(body, "contactNumber") && OptionalString(body, "screenshot")
  }

  /** No chain of `rules` names `p`. */
  predicate NotNamed(rules: seq<Chain>, p: string) {
    forall i :: 0 <= i < |rules| ==> rules[i].path != p
  }

  /** Two bodies that agree on every key but `p`. */
  ghost predicate AgreeExcept(a: map<string, JsStr>, b: map<string, JsStr>, p: string) {
    forall q :: q != p ==> Lookup(a, q) == Lookup(b, q)
  }

  /** Rules that do not name `p` do not notice what `p` holds. */
  lemma {:induction false} RunRulesIgnores(rules: seq<Chain>, x: map<string, JsStr>, y: map<string, JsStr>, p: string, lib: Library)
    requires NotNamed(rules, p) && AgreeExcept(x, y, p)
    ensures RunRules(rules, x, lib).errors == RunRules(rules, y, lib).errors
    ensures AgreeExcept(RunRules(rules, x, lib).body, RunRules(rules, y, lib).body, p)
    decreases |rules|
  {
    if rules != [] {
      var c := rules[0];
      assert c.path != p;
      ChainSeesOwnKey(c, x, y, lib);
      ChainBodyAt(c, x, y, lib);
      var x1, y1 := RunChain(c, x, lib).body, RunChain(c, y, lib).body;
      assert AgreeExcept(x1, y1, p) by {
        forall q | q != p
          ensures Lookup(x1, q) == Lookup(y1, q)
        {
          if q != c.path {
            assert Lookup(x1, q) == Lookup(x, q);
            assert Lookup(y1, q) == Lookup(y, q);
          }
        }
      }
      assert NotNamed(rules[1..], p) by {
        forall i | 0 <= i < |rules| - 1
          ensures rules[1..][i].path != p
        {
          assert rules[1..][i] == rules[i + 1];
        }
      }
      RunRulesIgnores(rules[1..], x1, y1, p, lib);
    }
  }

  /** The first chain of a list that does not name its key again contributes its own errors,
      followed by those the rest would give on the body as it arrived. */
  lemma RunRulesCons(c: Chain, rest: seq<Chain>, body: map<string, JsStr>, lib: Library)
    requires NotNamed(rest, c.path)
    ensures RunRules([c] + rest, body, lib).errors == RunChain(c, body, lib).errors + RunRules(rest, body, lib).errors
  {
    var first := RunChain(c, body, lib);
    assert ([c] + rest)[1..] == rest;
    ChainAgreesElsewhere(c, body, lib);
    RunRulesIgnores(rest, first.body, body, c.path, lib);
  }

  /** Six chains on six different keys pass together exactly when each of them passes. */
  lemma SixChainsPass(c0: Chain, c1: Chain, c2: Chain, c3: Chain, c4: Chain, c5: Chain,
                      body: map<string, JsStr>, lib: Library)
    requires DistinctPaths([c0, c1, c2, c3, c4, c5])
    ensures RunRules([c0, c1, c2, c3, c4, c5], body, lib).errors == [] <==>
      RunChain(c0, body, lib).errors == [] && RunChain(c1, body, lib).errors == []
      && RunChain(c2, body, lib).errors == [] && RunChain(c3, body, lib).errors == []
      && RunChain(c4, body, lib).errors == [] && RunChain(c5, body, lib).errors == []
  {
    var rules := [c0, c1, c2, c3, c4, c5];
    RunRulesPasses(rules, body, lib);
    assert rules[0] == c0 && rules[1] == c1 && rules[2] == c2;
    assert rules[3] == c3 && rules[4] == c4 && rules[5] == c5;
  }

  lemma UserIdChainPasses(body: map<string, JsStr>, lib: Library)
    ensures RunChain(UserIdChain(), body, lib).errors == [] <==> NonEmptyString(body, "user_id")
  {
    RequiredRuns("user_id", "User ID is required", IsString, "User ID must be a string", body, lib);
  }

  lemma SubjectChainPasses(body: map<string, JsStr>, lib: Library)
    ensures RunChain(SubjectChain(), body, lib).errors == [] <==> TrimmedTextOk(body, "subject", 5, 100)
  {
    TrimmedTextRuns("subject", "Subject is required", "Subject must be a string", 5, 100,
                    "Subject must be between 5 and 100 characters long", body, lib);
  }

  lemma DescriptionChainPasses(body: map<string, JsStr>, lib: Library)
    ensures RunChain(DescriptionChain(), body, lib).errors == [] <==> TrimmedTextOk(body, "description", 10, 1000)
  {
    TrimmedTextRuns("description", "Description is required", "Description must be a string", 10, 1000,
                    "Description must be between 10 and 1000 characters long", body, lib);
  }

  lemma ContactChainPasses(body: map<string, JsStr>, lib: Library)
    ensures RunChain(ContactChain(), body, lib).errors == [] <==> TenDigitsAt(body, "contactNumber")
  {
    RequiredRuns("contactNumber", "Contact number is required", TenDigits, "Contact number must be exactly 10 digits", body, lib);
  }

  lemma ScreenshotChainPasses(body: map<string, JsStr>, lib: Library)
    ensures RunChain(ScreenshotChain(), body, lib).errors == [] <==> OptionalString(body, "screenshot")
  {
    OptionalRuns("screenshot", IsString, "Screenshot must be a string", body, lib);
  }

  /** A support request gets through exactly when it is acceptable. */
  lemma SupportPasses(body: map<string, JsStr>, lib: Library)
    ensures Validated(SupportRules(), body, lib).Passed? <==> SupportAcceptable(body, lib)
  {
    SixChainsPass(UserIdChain(), SupportEmailChain(), SubjectChain(), DescriptionChain(), ContactChain(), ScreenshotChain(),
                  body, lib);
    UserIdChainPasses(body, lib);
    SupportEmailChainRuns(body, lib);
    SubjectChainPasses(body, lib);
    DescriptionChainPasses(body, lib);
    ContactChainPasses(body, lib);
    ScreenshotChainPasses(body, lib);
  }

  /** After six chains on six different keys, each key holds what its own chain left there. */
  lemma SixChainsBodies(c0: Chain, c1: Chain, c2: Chain, c3: Chain, c4: Chain, c5: Chain,
                        body: map<string, JsStr>, lib: Library)
    requires DistinctPaths([c0, c1, c2, c3, c4, c5])
    ensures var out := RunRules([c0, c1, c2, c3, c4, c5], body, lib).body;
      Lookup(out, c0.path) == Lookup(RunChain(c0, body, lib).body, c0.path)
      && Lookup(out, c1.path) == Lookup(RunChain(c1, body, lib).body, c1.path)
      && Lookup(out, c2.path) == Lookup(RunChain(c2, body, lib).body, c2.path)
      && Lookup(out, c3.path) == Lookup(RunChain(c3, body, lib).body, c3.path)
      && Lookup(out, c4.path) == Lookup(RunChain(c4, body, lib).body, c4.path)
      && Lookup(out, c5.path) == Lookup(RunChain(c5, body, lib).body, c5.path)
  {
    var rules := [c0, c1, c2, c3, c4, c5];
    RunRulesAt(rules, body, lib, 0);
    RunRulesAt(rules, body, lib, 1);
    RunRulesAt(rules, body, lib, 2);
    RunRulesAt(rules, body, lib, 3);
    RunRulesAt(rules, body, lib, 4);
    RunRulesAt(rules, body, lib, 5);
  }

  /** A support request that gets through reaches the controller with its e-mail normalised and
      its subject and description trimmed; its other keys are as sent. */
  lemma SupportSanitizes(body: map<string, JsStr>, lib: Library)
    ensures var out := RunRules(SupportRules(), body, lib).body;
      Lookup(out, "email") == Present(Str(lib.normalizeEmail(TextAt(body, "email"))))
      && Lookup(out, "subject") == Present(Str(Trim(TextAt(body, "subject"))))
      && Lookup(out, "description") == Present(Str(Trim(TextAt(body, "description"))))
      && Lookup(out, "user_id") == Lookup(body, "user_id")
      && Lookup(out, "contactNumber") == Lookup(body, "contactNumber")
      && Lookup(out, "screenshot") == Lookup(body, "screenshot")
  {
    SixChainsBodies(UserIdChain(), SupportEmailChain(), SubjectChain(), DescriptionChain(), ContactChain(), ScreenshotChain(),
                    body, lib);
    RequiredRuns("user_id", "User ID is required", IsString, "User ID must be a string", body, lib);
    SupportEmailChainRuns(body, lib);
    TrimmedTextRuns("subject", "Subject is required", "Subject must be a string", 5, 100,
                    "Subject must be between 5 and 100 characters long", body, lib);
    TrimmedTextRuns("description", "Description is required", "Description must be a string", 10, 1000,
                    "Description must be between 10 and 1000 characters long", body, lib);
    RequiredRuns("contactNumber", "Contact number is required", TenDigits, "Contact number must be exactly 10 digits", body, lib);
    OptionalRuns("screenshot", IsString, "Screenshot must be a string", body, lib);
  }

  /** No chain of `a` names a key a chain of `b` names. */
  predicate Disjoint(a: seq<Chain>, b: seq<Chain>) {
    forall i, j :: 0 <= i < |a| && 0 <= j < |b| ==> a[i].path != b[j].path
  }

  /** Two rule lists on different keys, run one after the other, report the errors each
      reports on the body as it arrived. */
  lemma {:induction false} RunRulesAppend(a: seq<Chain>, b: seq<Chain>, body: map<string, JsStr>, lib: Library)
    requires Disjoint(a, b)
    ensures RunRules(a + b, body, lib).errors == RunRules(a, body, lib).errors + RunRules(b, body, lib).errors
    decreases |a|
  {
    if a == [] {
      assert a + b == b;
    } else {
      var c := a[0];
      var first := RunChain(c, body, lib);
      assert (a + b)[0] == c && (a + b)[1..] == a[1..] + b;
      DisjointTail(a, b);
      RunRulesAppend(a[1..], b, first.body, lib);
      ChainAgreesElsewhere(c, body, lib);
      RunRulesIgnores(b, first.body, body, c.path, lib);
    }
  }

  lemma DisjointTail(a: seq<Chain>, b: seq<Chain>)
    requires Disjoint(a, b) && a != []
    ensures Disjoint(a[1..], b) && NotNamed(b, a[0].path)
  {
    forall i, j | 0 <= i < |a| - 1 && 0 <= j < |b|
      ensures a[1..][i].path != b[j].path
    {
      assert a[1..][i] == a[i + 1];
    }
  }

  /** A chain leaves every key but its own as it was. */
  lemma ChainAgreesElsewhere(c: Chain, body: map<string, JsStr>, lib: Library)
    ensures AgreeExcept(RunChain(c, body, lib).body, body, c.path)
  {
    var out := RunChain(c, body, lib).body;
    forall q | q != c.path
      ensures Lookup(out, q) == Lookup(body, q)
    {
    }
  }

  /** What a profile body must hold, key by key, to get through. */
  predicate DateOfBirthOk(body: map<string, JsStr>, lib: Library) {
    "dateOfBirth" in body ==> lib.isISO8601(TextAt(body, "dateOfBirth"))
  }

  predicate SocialOk(body: map<string, JsStr>, k: Social) {
    SocialPath(k) in body ==> CheckSocialAsWritten(k, Present(body[SocialPath(k)])).None?
  }

  predicate PersonalAcceptable(body: map<string, JsStr>, lib: Library) {
    NonEmptyString(body, "name") && EmailOk(body, lib)
    && OptionalString(body, "profilePhoto") && DateOfBirthOk(body, lib)
    && TextAt(body, "gender") in Genders && TenDigitsAt(body, "phoneNumber")
  }

  predicate SocialAcceptable(body: map<string, JsStr>) {
    SocialOk(body, LinkedIn) && SocialOk(body, Website) && SocialOk(body, Instagram)
    && SocialOk(body, YouTube) && SocialOk(body, GitHub) && SocialOk(body, Twitter)
  }

  predicate ProfileAcceptable(body: map<string, JsStr>, lib: Library) {
    PersonalAcceptable(body, lib)
    && OptionalString(body, "countryCode") && TrimmedTextOk(body, "about", 1, 500)
    && SocialAcceptable(body)
  }

  lemma PhotoChainPasses(body: map<string, JsStr>, lib: Library)
    ensures RunChain(PhotoChain(), body, lib).errors == [] <==> OptionalString(body, "profilePhoto")
  {
    OptionalRuns("profilePhoto", IsString, "Profile photo must be a valid URL string", body, lib);
  }

  lemma BirthDateChainPasses(body: map<string, JsStr>, lib: Library)
    ensures RunChain(BirthDateChain(), body, lib).errors == [] <==> DateOfBirthOk(body, lib)
  {
    OptionalRuns("dateOfBirth", IsISO8601, "Date of birth must be a valid date", body, lib);
  }

  lemma GenderChainPasses(body: map<string, JsStr>, lib: Library)
    ensures RunChain(GenderChain(), body, lib).errors == [] <==> TextAt(body, "gender") in Genders
  {
    RequiredRuns("gender", "Gender is required", IsIn(Genders), "Gender must be Male, Female, or Other", body, lib);
  }

  lemma PhoneChainPasses(body: map<string, JsStr>, lib: Library)
    ensures RunChain(PhoneChain(), body, lib).errors == [] <==> TenDigitsAt(body, "phoneNumber")
  {
    RequiredRuns("phoneNumber", "Phone number is required", TenDigits, "Phone number must be exactly 10 digits", body, lib);
  }

  lemma CountryCodeChainPasses(body: map<string, JsStr>, lib: Library)
    ensures RunChain(CountryCodeChain(), body, lib).errors == [] <==> OptionalString(body, "countryCode")
  {
    OptionalRuns("countryCode", IsString, "Country code must be a string", body, lib);
  }

  lemma AboutChainPasses(body: map<string, JsStr>, lib: Library)
    ensures RunChain(AboutChain(), body, lib).errors == [] <==> TrimmedTextOk(body, "about", 1, 500)
  {
    TrimmedTextRuns("about", "About section is required", "About must be a string", 1, 500,
                    "About section must be between 1 and 500 characters", body, lib);
  }

  lemma PersonalPasses(body: map<string, JsStr>, lib: Library)
    ensures RunRules(PersonalChains(), body, lib).errors == [] <==> PersonalAcceptable(body, lib)
  {
    SixChainsPass(NameChain(), EmailChain(), PhotoChain(), BirthDateChain(), GenderChain(), PhoneChain(), body, lib);
    NameChainRuns(body, lib);
    EmailChainPasses(body, lib);
    PhotoChainPasses(body, lib);
    BirthDateChainPasses(body, lib);
    GenderChainPasses(body, lib);
    PhoneChainPasses(body, lib);
  }

  lemma AboutPasses(body: map<string, JsStr>, lib: Library)
    ensures RunRules(AboutChains(), body, lib).errors == [] <==>
      OptionalString(body, "countryCode") && TrimmedTextOk(body, "about", 1, 500)
  {
    TwoChainsPass(CountryCodeChain(), AboutChain(), body, lib);
    CountryCodeChainPasses(body, lib);
    AboutChainPasses(body, lib);
  }

  lemma SocialPasses(body: map<string, JsStr>, lib: Library)
    ensures RunRules(SocialChains(), body, lib).errors == [] <==> SocialAcceptable(body)
  {
    SixChainsPass(SocialChain(LinkedIn), SocialChain(Website), SocialChain(Instagram),
                  SocialChain(YouTube), SocialChain(GitHub), SocialChain(Twitter), body, lib);
    SocialChainRuns(LinkedIn, body, lib);
    SocialChainRuns(Website, body, lib);
    SocialChainRuns(Instagram, body, lib);
    SocialChainRuns(YouTube, body, lib);
    SocialChainRuns(GitHub, body, lib);
    SocialChainRuns(Twitter, body, lib);
  }

  /** Three rule lists on pairwise different keys report, run in a row, the errors each reports
      alone. */
  lemma ThreeGroups(p: seq<Chain>, a: seq<Chain>, s: seq<Chain>, body: map<string, JsStr>, lib: Library)
    requires Disjoint(p, a) && Disjoint(p, s) && Disjoint(a, s)
    ensures RunRules(p + a + s, body, lib).errors
         == RunRules(p, body, lib).errors + RunRules(a, body, lib).errors + RunRules(s, body, lib).errors
  {
    assert Disjoint(p + a, s) by {
      forall i, j | 0 <= i < |p + a| && 0 <= j < |s|
        ensures (p + a)[i].path != s[j].path
      {
        if i >= |p| {
          assert (p + a)[i] == a[i - |p|];
        }
      }
    }
    RunRulesAppend(p + a, s, body, lib);
    RunRulesAppend(p, a, body, lib);
  }

  lemma PersonalAboutDisjoint()
    ensures Disjoint(PersonalChains(), AboutChains())
  {
  }

  lemma PersonalSocialDisjoint()
    ensures Disjoint(PersonalChains(), SocialChains())
  {
  }

  lemma AboutSocialDisjoint()
    ensures Disjoint(AboutChains(), SocialChains())
  {
  }

  /** A profile gets through exactly when every field is acceptable: a non-empty name, an
      e-mail address, a gender of the list, ten phone digits, an about text of 1 to 500
      characters once trimmed, and optional fields and social links that are either absent
      or well formed. */
  lemma ProfileErrors(body: map<string, JsStr>, lib: Library)
    ensures RunRules(ProfileRules(), body, lib).errors
         == RunRules(PersonalChains(), body, lib).errors + RunRules(AboutChains(), body, lib).errors
          + RunRules(SocialChains(), body, lib).errors
  {
    PersonalAboutDisjoint();
    PersonalSocialDisjoint();
    AboutSocialDisjoint();
    ThreeGroups(PersonalChains(), AboutChains(), SocialChains(), body, lib);
  }

  lemma ProfilePasses(body: map<string, JsStr>, lib: Library)
    ensures Validated(ProfileRules(), body, lib).Passed? <==> ProfileAcceptable(body, lib)
  {
    ProfileErrors(body, lib);
    PersonalPasses(body, lib);
    AboutPasses(body, lib);
    SocialPasses(body, lib);
  }

  /** The profile route refuses every body whose YouTube link is a handle address
      `http(s)://(www.)youtube.com/@name`, whatever its other keys hold. */
  lemma ProfileRefusesYouTubeHandleUrl(body: map<string, JsStr>, lib: Library, secure: bool, www: bool, name: string)
    requires Many(name, WordDash)
    requires Lookup(body, SocialPath(YouTube)) == Present(Str(UrlOf(secure, www, "youtube.com/@" + name)))
    ensures Validated(ProfileRules(), body, lib).Refused?
  {
    ProfilePasses(body, lib);
    YouTubeHandleUrlRefusedAsWritten(secure, www, name);
    assert !SocialOk(body, YouTube);
  }

  /** Running two rule lists in a row is running the first, then the second on what it left. */
  lemma {:induction false} RunRulesThen(a: seq<Chain>, b: seq<Chain>, body: map<string, JsStr>, lib: Library)
    ensures RunRules(a + b, body, lib).body == RunRules(b, RunRules(a, body, lib).body, lib).body
    decreases |a|
  {
    if a == [] {
      assert a + b == b;
    } else {
      assert (a + b)[0] == a[0] && (a + b)[1..] == a[1..] + b;
      RunRulesThen(a[1..], b, RunChain(a[0], body, lib).body, lib);
    }
  }

  /** Six chains none of which names `p` leave it as it arrived. */
  lemma SixChainsKeep(c0: Chain, c1: Chain, c2: Chain, c3: Chain, c4: Chain, c5: Chain,
                      body: map<string, JsStr>, lib: Library, p: string)
    requires c0.path != p && c1.path != p && c2.path != p && c3.path != p && c4.path != p && c5.path != p
    ensures Lookup(RunRules([c0, c1, c2, c3, c4, c5], body, lib).body, p) == Lookup(body, p)
  {
    RunRulesKeepsOtherKeys([c0, c1, c2, c3, c4, c5], body, lib, p);
  }

  /** The chains before `c`'s key is read again leave, at that key, what `c` left. */
  lemma FirstOfSixBody(c0: Chain, c1: Chain, c2: Chain, c3: Chain, c4: Chain, c5: Chain,
                       body: map<string, JsStr>, lib: Library)
    requires c1.path != c0.path && c2.path != c0.path && c3.path != c0.path && c4.path != c0.path && c5.path != c0.path
    ensures Lookup(RunRules([c0, c1, c2, c3, c4, c5], body, lib).body, c0.path)
         == Lookup(RunChain(c0, body, lib).body, c0.path)
  {
    var rest := [c1, c2, c3, c4, c5];
    assert [c0, c1, c2, c3, c4, c5] == [c0] + rest && ([c0] + rest)[1..] == rest;
    RunRulesKeepsOtherKeys(rest, RunChain(c0, body, lib).body, lib, c0.path);
  }

  lemma PersonalSanitizes(body: map<string, JsStr>, lib: Library)
    ensures var out := RunRules(PersonalChains(), body, lib).body;
      Lookup(out, "name") == Present(Str(Trim(TextAt(body, "name")))) && Lookup(out, "about") == Lookup(body, "about")
  {
    FirstOfSixBody(NameChain(), EmailChain(), PhotoChain(), BirthDateChain(), GenderChain(), PhoneChain(), body, lib);
    NameChainRuns(body, lib);
    SixChainsKeep(NameChain(), EmailChain(), PhotoChain(), BirthDateChain(), GenderChain(), PhoneChain(), body, lib, "about");
  }

  lemma AboutSanitizes(body: map<string, JsStr>, lib: Library)
    ensures var out := RunRules(AboutChains(), body, lib).body;
      Lookup(out, "about") == Present(Str(Trim(TextAt(body, "about")))) && Lookup(out, "name") == Lookup(body, "name")
  {
    var a := AboutChains();
    assert DistinctPaths(a);
    RunRulesAt(a, body, lib, 1);
    TrimmedTextRuns("about", "About section is required", "About must be a string", 1, 500,
                    "About section must be between 1 and 500 characters", body, lib);
    RunRulesKeepsOtherKeys(a, body, lib, "name");
  }

  lemma SocialKeeps(body: map<string, JsStr>, lib: Library)
    ensures var out := RunRules(SocialChains(), body, lib).body;
      Lookup(out, "about") == Lookup(body, "about") && Lookup(out, "name") == Lookup(body, "name")
  {
    SixChainsKeep(SocialChain(LinkedIn), SocialChain(Website), SocialChain(Instagram),
                  SocialChain(YouTube), SocialChain(GitHub), SocialChain(Twitter), body, lib, "name");
    SixChainsKeep(SocialChain(LinkedIn), SocialChain(Website), SocialChain(Instagram),
                  SocialChain(YouTube), SocialChain(GitHub), SocialChain(Twitter), body, lib, "about");
  }

  /** A profile that gets through reaches the controller with its name and about text trimmed. */
  lemma ProfileSanitizes(body: map<string, JsStr>, lib: Library)
    ensures var out := RunRules(ProfileRules(), body, lib).body;
      Lookup(out, "name") == Present(Str(Trim(TextAt(body, "name"))))
      && Lookup(out, "about") == Present(Str(Trim(TextAt(body, "about"))))
  {
    var p, a, s := PersonalChains(), AboutChains(), SocialChains();
    var afterP := RunRules(p, body, lib).body;
    var afterA := RunRules(a, afterP, lib).body;
    RunRulesThen(p + a, s, body, lib);
    RunRulesThen(p, a, body, lib);
    PersonalSanitizes(body, lib);
    AboutSanitizes(afterP, lib);
    SocialKeeps(afterA, lib);
  }
}
