# User profile and support back end, modelled in Dafny

This project models the core of a small Express/Mongoose back end. The back end does four things:

- **Accounts.** It registers and logs in users, each with a `USER000001`-style id.
- **Profiles.** It keeps one profile per user and computes how complete it is.
- **Tickets.** It accepts support tickets.
- **Files.** It stores uploaded screenshots and profile photos.

Each request goes through the same pipeline:

1. An express-validator rule list checks and sanitizes the body.
2. A controller does the work.
3. The Mongoose model applies setters, checks the schema, runs the pre-save hooks and stores the document.
4. Anything thrown goes to a global error handler, which turns it into a JSON error body.

One Dafny module stands for each source file:

| module | models |
|---|---|
| `Js` | JavaScript values a handler sees (absent vs. supplied, `null`, truthiness), `String.prototype.trim`, `toLowerCase` on ASCII letters, `includes` |
| `Decimal`, `ObjectId` | decimal digits and zero padding of the user id; 24-digit hexadecimal document ids |
| `Http` | error records handed to `next(err)`, JSON error bodies, replies |
| `ErrorHandler` | the global error middleware |
| `UserModel` | the `User` schema, its pre-save counter hook and `toJSON`; the users collection as the class `UserStore` |
| `AuthController` | sign-up, login, `GET /auth/me/:userId` |
| `ProfileModel` | the `Profile` schema: defaults, setters, schema checks, `calculateCompleteness` and the pre-save hook |
| `ProfileController` | the profile handlers over the profiles collection, the class `ProfileStore` |
| `Validation` | express-validator chains (no bail, sanitizers write back into the body, `optional()` skips an absent key) and the rule lists |
| `SupportModel` | the `SupportRequest` schema |
| `SupportController` | the ticket handlers over the ticket collection, the class `TicketStore` |
| `UploadController` | the file upload and delete handlers over a set of stored paths, the class `Disk` |
| `Routes` | composition of a rule list, `handleValidationErrors` and a controller |

Collections that the source mutates are classes whose methods change fields (`users`, `profiles`, `order`, `tickets`, `files`) and keep a stated invariant. Everything that only computes is a function.

## Model

| member | source | states |
|---|---|---|
| ErrorHandler.Handle | middleware/errorHandler.js:5-43 | The four branches in source order. A `ValidationError` gives 400 "Validation Error" carrying the list of messages. Otherwise code 11000 gives 409 "Duplicate Entry" with the first key capitalised, followed by " already exists"; with no key, no reply is produced. Otherwise a `CastError` gives 400 "Invalid ID format". Anything else gives `statusCode` or 500, `message` or "Internal Server Error", and `name` or "Error". The reply's status always equals the body's `statusCode`. |
| ErrorHandler.DuplicateEmailMessage | middleware/errorHandler.js:19-26 | A duplicate e-mail key yields exactly 409 "Email already exists" / "Duplicate Entry". |
| ErrorHandler.Capitalize | middleware/errorHandler.js:23 | Upper-cases the first character and keeps the rest and the length. |
| Js.Or | controllers/support.controller.js:25 | `a \|\| b`: a truthy value is kept, any falsy or absent one is replaced by `b`. |
| Js.OrString | controllers/profile.controller.js:79-80 | `a \|\| b` on strings, as in the profile merge. |
| Js.IfDefined | controllers/profile.controller.js:81-86 | `a !== undefined ? a : b`: `null` and `""` are kept, only an absent key falls back. |
| Js.TrimIdempotent | models/Profile.js:16 | Trimming twice is trimming once. |
| Js.TrimEnds | models/Profile.js:16 | A trimmed string is empty or starts and ends with a non-space. |
| Js.TrimLower | models/Profile.js:21-22 | Lower-casing a trimmed string keeps it trimmed. |
| Js.LowerTrimCommute | models/User.js:21-22 | Trimming and lower-casing commute: `lowercase` then `trim` gives the trimmed string lower-cased. |
| Js.LowerIdempotent | models/User.js:21 | Lower-casing twice is lower-casing once. |
| Js.LocalPart | controllers/profile.controller.js:29 | `email.split('@')[0]`: the longest prefix with no `@`, followed in the input by `@` when shorter. |
| Decimal.ParseDigits | models/User.js:52 | Reading back `String(n)` gives `n`. |
| Decimal.ParsePadded | models/User.js:52 | Reading back `String(n).padStart(w, '0')` gives `n` for every width. |
| Decimal.PadStart | models/User.js:52 | The result has the larger of the two lengths and is the fill repeated in front of the input. |
| ObjectId.ParseHexOfHex | controllers/auth.controller.js:110 | Reading back a fixed-width hexadecimal rendering gives the number. |
| ObjectId.TextRoundTrip | controllers/support.controller.js:69 | Every document number has a 24-digit id text that casts back to it. |
| UserModel.VerifyHash | controllers/auth.controller.js:24-83 | `bcrypt.compare` against `bcrypt.hash(p, salt)` succeeds exactly for attempts that agree with `p` on their first 72 characters. Among passwords of at most 72 characters, it succeeds for `p` alone. |
| UserModel.Sealed | controllers/auth.controller.js:24 | The part of a password bcrypt reads: a prefix of it, at most 72 characters long, and the whole password when it is no longer than that. |
| UserModel.VerifyIgnoresTail | controllers/auth.controller.js:76 | A password of 72 characters or more verifies against its digest with anything appended. |
| UserModel.LocalPartOfValidEmail | models/User.js:24 | An address that matches the e-mail pattern has a non-empty local part, made of word characters with single dots or dashes between them. |
| UserModel.EmailPattern | models/User.js:24 | Specified by `UserModel.LocalPartOfValidEmail` and `UserModel.ValidEmailTrimmed`: a match has a non-empty local part and no white space at its ends. |
| UserModel.ValidEmailTrimmed | models/User.js:22-24 | An address that matches the pattern is non-empty and unchanged by `trim`, and so is its local part. |
| UserModel.UserSchemaErrors | models/User.js:17-27 | No schema error exactly when the stored e-mail is non-empty and matches the pattern. |
| UserModel.NormalizeEmail | models/User.js:21-22 | The `lowercase` then `trim` setters, in schema order; the result equals the trimmed address lower-cased. |
| UserModel.UserIdShape | models/User.js:52 | A minted id is `USER` followed by at least six digits. |
| UserModel.UserIdRoundTrip | models/User.js:52 | The counter value can be read back from the id. |
| UserModel.FormatUserId | models/User.js:52 | Specified by `UserModel.UserIdShape`, `UserModel.UserIdRoundTrip` and `UserModel.UserIdInjective`: `USER` and at least six digits that read back as the counter value. |
| UserModel.UserIdInjective | models/User.js:47-52 | Different counter values give different ids. |
| UserModel.UserIdWidth | models/User.js:52 | Below one million the id is exactly ten characters. |
| UserModel.FirstUserId | models/User.js:47-52 | The first id minted is `USER000001`. |
| UserModel.ToJsonKeepsAllButPassword | models/User.js:63-67 | `toJSON` keeps every field except the password: the user is rebuilt from it plus the password. |
| UserModel.ToJsonHidesPassword | models/User.js:63-67 | `toJSON` does not depend on the password. |
| UserModel.ToJson | models/User.js:63-67 | Specified by `UserModel.ToJsonKeepsAllButPassword` and `UserModel.ToJsonHidesPassword`: everything but the password. |
| UserModel.FirstWithEmail | models/User.js:17-27 | Finds a user with that e-mail, or reports that none has it. |
| UserModel.AppendRegistered | models/User.js:44-56 | Appending a user with the next minted id and a fresh valid e-mail keeps the collection consistent, and the new id differs from every earlier one. |
| UserModel.UserStore.constructor | models/User.js:4-9 | An empty collection with the counter at 0. |
| UserModel.UserStore.FindByEmail | controllers/auth.controller.js:13 | `findOne({email})` with the filter lower-cased and trimmed by the schema: the found user has that normalised e-mail, and None means no user has it. |
| UserModel.UserStore.FindByUserId | controllers/profile.controller.js:13 | `findOne({user_id})`: the found user has that id, and None means no user has it. |
| UserModel.UserStore.FindById | controllers/auth.controller.js:110 | `findById`: the found user has that document id, and None means none has it. |
| UserModel.UserStore.UserIdsUnique | models/User.js:13-16 | No two stored users share a `user_id`. |
| UserModel.UserStore.FoundIsRegistered | models/User.js:17-27 | A stored user has a non-empty id and a valid e-mail. |
| UserModel.UserStore.Create | controllers/auth.controller.js:27-30 | `User.create`, in Mongoose order. A schema error throws a `ValidationError` and leaves the counter alone. Otherwise the counter always advances; a failed increment throws and stores nothing. A duplicate e-mail throws. Otherwise the user is appended with the next id, the normalised e-mail, `isActive` true and both timestamps equal to now. |
| UserModel.UserStore.Insert | models/User.js:44-56 | The pre-save hook and insert for a valid e-mail. The counter advances whenever the increment succeeds, even when the insert then fails on a duplicate key, which leaves a gap in the ids. A successful insert gets an id no earlier user has. |
| UserModel.UserStore.SaveExisting | models/User.js:44-59 | Saving an existing user does not run the counter, so the id is kept. `isActive` is set. The timestamps hook moves `updatedAt` only when the flag actually changes; otherwise the user is stored as it was. |
| AuthController.RepliesHidePassword | controllers/auth.controller.js:33-41 | The sign-up and login replies and the `/me` view do not depend on the password hash, and the sign-up/login replies not on `isActive`. |
| AuthController.Login | controllers/auth.controller.js:52-99 | Success exactly when a user with that e-mail exists, is active and the password matches. Success returns 200 "Login successful!" and the public user. Every failure is 401. An existing inactive user gets "Account is deactivated" whatever the password, and that reply goes to no one else. |
| AuthController.SignUp | controllers/auth.controller.js:8-46 | A known e-mail gives 409 and stores nothing. Otherwise schema errors and a failed counter are thrown. Success appends exactly one user with the hashed password and replies 201. After a success, logging in with the same password succeeds with the same data. Any password that differs from it in its first 72 characters gets 401 "Invalid email or password". |
| AuthController.GetUserById | controllers/auth.controller.js:105-133 | An id that is not 24 hexadecimal digits throws a `CastError`. A well-formed id of no user gives 404 "User not found". Otherwise 200 with the user's fields except the password. |
| AuthController.GetUserByIdFindsEveryUser | controllers/auth.controller.js:110-128 | Every stored user is returned under the text of its document id. |
| ProfileModel.NewProfile | models/Profile.js:5-95 | The schema defaults: null photo and birth date, empty gender, phone and about, "+91", empty social links, completeness 0, public, both timestamps now. |
| ProfileModel.FilledCountExtremes | models/Profile.js:117 | The count of truthy fields is 0 exactly when none is truthy, and all exactly when all are. |
| ProfileModel.Completeness | models/Profile.js:103-121 | The score is at most 100. |
| ProfileModel.RoundedPercent | models/Profile.js:118 | `Math.round(k / 9 * 100)`: within half a unit of the exact percentage. |
| ProfileModel.CompletenessExtremes | models/Profile.js:103-121 | The score is 100 exactly when all nine counted fields are truthy and 0 exactly when none is. |
| ProfileModel.CompletenessExact | models/Profile.js:117-118 | The rounded score equals `(100k + 4) div 9` and is within half a point of `100k / 9`. |
| ProfileModel.CompletenessMonotone | models/Profile.js:103-121 | Filling more of the counted fields never lowers the score. |
| ProfileModel.FilledCountMonotone | models/Profile.js:117 | A pointwise more-filled field list has at least as many filled fields. |
| ProfileModel.RoundedPercentMonotone | models/Profile.js:118 | Rounding keeps order. |
| ProfileModel.UncountedSocialLinks | models/Profile.js:105-115 | Instagram, YouTube, GitHub and Twitter do not affect the score. |
| ProfileModel.CastDate | models/Profile.js:28-31 | Casting a date keeps truthiness and turns `""` into `null`. |
| ProfileModel.CastIdempotent | models/Profile.js:13-83 | Applying the schema setters twice (trim, lower-case, date cast) is applying them once. |
| ProfileModel.Cast | models/Profile.js:13-44 | Specified by `ProfileModel.CastIdempotent`: the trim, lower-case and date setters applied once are applied for good. |
| ProfileModel.Check | models/Profile.js:32-50 | One schema check yields no error exactly when it holds. |
| ProfileModel.SchemaErrors | models/Profile.js:5-90 | No schema error exactly when `user_id`, name and e-mail are non-empty, the gender is one of the list, the about text is at most 500 characters and the score is between 0 and 100. Messages come in schema path order. |
| ProfileModel.IntText | models/Profile.js:88-89 | `String(v)` of an integer: a leading minus sign exactly for a negative number, and digits only otherwise. |
| ProfileModel.ScoreErrors | models/Profile.js:85-90 | The `min: 0` and `max: 100` validators with Mongoose's default messages: none exactly when the score is within range, never more than one. |
| ProfileModel.ScoreOutOfRangeRejected | models/Profile.js:85-127 | A document carrying a score outside 0..100 is refused before the hook could correct it, and the last message is that of the `min` or `max` validator. |
| ProfileModel.ValidateAndHook | models/Profile.js:97-127 | Schema errors reject the save and are reported. Otherwise the timestamps hook sets `updatedAt` to now only for a new document or one that differs from the loaded one, and keeps the loaded `updatedAt` otherwise. Then the hook sets the score to the completeness of the document. Nothing else changes. |
| ProfileModel.SaveDocument | models/Profile.js:13-127 | `save()`: setters first, then validation, then the hooks. The saved document is the cast one with a fresh score. `updatedAt` moves only when the cast document is new or modified. |
| ProfileModel.SavedIsStored | models/Profile.js:85-127 | A saved profile is a fixed point of the setters, passes the schema and carries its own completeness. |
| ProfileModel.SaveIgnoresScore | models/Profile.js:85-127 | Two scores the validators accept give the same outcome, and the same saved document apart from `updatedAt`. A new document saves identically either way. |
| ProfileModel.ResaveStored | models/Profile.js:97-127 | Saving a stored profile again with nothing assigned changes nothing, not even `updatedAt`. |
| ProfileController.UpdateRules | controllers/profile.controller.js:77-106 | The field-by-field merge of an update. Name, e-mail, birth date and country code are replaced only by a truthy value. Photo, gender, phone, about and `isPublic` are replaced by any supplied value. `user_id`, creation time, score and `updatedAt` are kept. |
| ProfileController.Update | controllers/profile.controller.js:77-97 | Specified by `ProfileController.UpdateRules`, `ProfileController.UpdateEmpty` and `ProfileController.UpdateIdempotent`. |
| ProfileController.SocialRules | controllers/profile.controller.js:88-97 | A `socialMedia` object replaces exactly the links it supplies and keeps the others. |
| ProfileController.MergeSocial | controllers/profile.controller.js:88-97 | Specified by `ProfileController.SocialRules`: each supplied link replaces the stored one, the others stay. |
| ProfileController.UpdateEmpty | controllers/profile.controller.js:77-106 | An empty body leaves the profile as it was. |
| ProfileController.UpdateIdempotent | controllers/profile.controller.js:77-106 | Applying the same body twice is applying it once. |
| ProfileController.CastOfUpdate | controllers/profile.controller.js:77-106 | The merge commutes with the schema setters: casting before merging changes nothing. |
| ProfileController.ResendStoresSame | controllers/profile.controller.js:77-106 | Sending the same update twice stores the same profile as sending it once. The second save finds nothing modified, so `updatedAt` does not move either. |
| ProfileController.CreateIsUpdateOfDefault | controllers/profile.controller.js:107-127 | The create path stores what the update path would store on the default profile. |
| ProfileController.CreateDocument | controllers/profile.controller.js:107-127 | Specified by `ProfileController.CreateIsUpdateOfDefault`: the update rules applied to the schema-default profile. |
| ProfileController.Project | controllers/profile.controller.js:244-251 | The shared view carries the id, name, photo, about text, links and score of the profile. |
| ProfileController.ProjectHidesPrivateFields | controllers/profile.controller.js:244-251 | The shared view does not depend on e-mail, phone, birth date, gender or country code. |
| ProfileController.SetPhotoSaves | controllers/profile.controller.js:172-175 | Setting the photo of a stored profile saves it with the new photo and a recomputed score. `updatedAt` moves only if the photo differs from the stored one. |
| ProfileController.DefaultProfileSaves | controllers/profile.controller.js:26-32 | The default profile of a registered user passes the schema. Its name is the local part of the e-mail and its e-mail is the user's own. |
| ProfileController.PublicNewestFirstMembers | controllers/profile.controller.js:270-272 | The listing holds exactly the public profiles in the creation order. |
| ProfileController.PublicNewestFirstSorted | controllers/profile.controller.js:270-272 | Listing in reverse creation order sorts by `createdAt`, newest first. |
| ProfileController.PublicNewestFirst | controllers/profile.controller.js:270-272 | Specified by `ProfileController.PublicNewestFirstMembers` and `ProfileController.PublicNewestFirstSorted`: exactly the public profiles, newest first. |
| ProfileController.PutKeepsInvariant | controllers/profile.controller.js:77-127 | Writing a saved profile keeps the store keyed by `user_id`, stored and chronological. |
| ProfileController.OrderAfterPut | models/Profile.js:97-99 | A new key goes to the end of the creation order, and an existing one keeps its place. |
| ProfileController.ProfileStore.constructor | models/Profile.js:129 | An empty profiles collection. |
| ProfileController.ProfileStore.Save | models/Profile.js:97-127 | `save()` on the collection, compared against the stored document of the same user (none for a new one). The outcome is `SaveDocument`. A saved document replaces the one under its key and a rejection changes nothing. |
| ProfileController.ProfileStore.CreateDefault | controllers/profile.controller.js:26-32 | Stores exactly the schema-default profile, named after the local part of the lower-cased e-mail. |
| ProfileController.ProfileStore.GetProfile | controllers/profile.controller.js:8-42 | No user gives 404 "User not found". An existing profile is returned unchanged. A missing one is created with the defaults and returned. |
| ProfileController.ProfileStore.CreateOrUpdate | controllers/profile.controller.js:48-132 | No user gives 404 and nothing changes. Otherwise the merged document is saved against the stored one, or the created document is saved as new. A schema rejection throws and changes nothing. A save replies 201 "Profile created successfully" for a new profile and 200 "Profile updated successfully" for an existing one. |
| ProfileController.ProfileStore.UploadProfilePhoto | controllers/profile.controller.js:138-187 | A falsy photo URL gives 400 "Photo URL is required" and an unknown user 404. Otherwise the photo is written into the user's profile, which is created with the defaults when missing, and the reply is 200 with the URL. `updatedAt` of an existing profile moves only if the photo changed. |
| ProfileController.ProfileStore.SetPhoto | controllers/profile.controller.js:161-175 | Writes the photo into the existing or default profile, with the score recomputed, `updatedAt` moved only when the photo changed, and nothing else in the collection changed. |
| ProfileController.ProfileStore.DeleteProfilePhoto | controllers/profile.controller.js:193-216 | No profile gives 404 "Profile not found". Otherwise the photo becomes `null` and the score is recomputed. `updatedAt` moves only if there was a photo. The reply is 200. |
| ProfileController.ProfileStore.ShareProfile | controllers/profile.controller.js:222-262 | No profile gives 404 and a private one 403. A public one gives the shared view and `<frontend>/profile/<id>`, where the frontend is the configured URL or `http://localhost:3000` when it is unset or empty. |
| ProfileController.ProfileStore.ListPublic | controllers/profile.controller.js:268-282 | The count equals the length. The list holds exactly the stored public profiles, newest first. |
| Validation.CheckSocialWith | middleware/validation.js:142-234 | A falsy social-media value always passes its custom validator. |
| Validation.CheckSocialDiffersOnYouTubeOnly | middleware/validation.js:142-234 | The corrected social validators agree with the written ones on every network except YouTube. |
| Validation.CheckSocialAsWritten | middleware/validation.js:142-234 | The validators as written; the rule lists use them. Specified by the per-network lemmas below and `Validation.CheckSocialWith`. |
| Validation.CheckSocial | middleware/validation.js:183-200 | The validators with the YouTube pattern corrected. Specified by `Validation.CheckSocialDiffersOnYouTubeOnly` and `Validation.YouTubeHandleUrlAccepted`. |
| Validation.CheckLinkedIn | middleware/validation.js:142-154 | Specified by `Validation.UncheckedBareValues`: a value that does not name the site is not checked. |
| Validation.CheckWebsite | middleware/validation.js:155-164 | Specified by `Validation.WebsiteAccepted`. |
| Validation.CheckInstagram | middleware/validation.js:165-182 | Specified by `Validation.InstagramBareValue`. |
| Validation.CheckYouTube | middleware/validation.js:183-200 | Specified by `Validation.YouTubeHandle`, `Validation.YouTubeHandleUrlRefusedAsWritten` and `Validation.YouTubeHandleUrlAccepted`. |
| Validation.CheckGitHub | middleware/validation.js:201-217 | Specified by `Validation.GitHubBareValue` and `Validation.GitHubUrlAccepted`. |
| Validation.CheckTwitter | middleware/validation.js:218-234 | Specified by `Validation.TwitterBareValue` and `Validation.TwitterNameAccepted`. |
| Validation.YouTubeHandleUrlRefusedAsWritten | middleware/validation.js:189 | As written, the validator refuses every `youtube.com/@name` channel URL with "Invalid YouTube URL format". |
| Validation.ProfileRefusesYouTubeHandleUrl | middleware/validation.js:183-200 | The profile route refuses every body whose YouTube link is `http(s)://(www.)youtube.com/@name`, whatever its other keys hold. |
| Validation.YouTubeHandleUrlAccepted | middleware/validation.js:183-200 | The corrected pattern accepts `http(s)://(www.)youtube.com/@name`. |
| Validation.YouTubeHandle | middleware/validation.js:193-198 | A bare `@handle` passes exactly when the rest is word characters and dashes. |
| Validation.UncheckedBareValues | middleware/validation.js:142-200 | Values not naming the site are not checked for LinkedIn, nor for YouTube unless they start with `@`. |
| Validation.GitHubNameAccepted | middleware/validation.js:201-217 | A bare user name of word characters and dashes passes. |
| Validation.GitHubBareValue | middleware/validation.js:201-217 | A bare GitHub value passes exactly when it is word characters and dashes. |
| Validation.GitHubUrlAccepted | middleware/validation.js:201-217 | A `github.com/<path>` URL of word characters and dashes passes. |
| Validation.InstagramBareValue | middleware/validation.js:165-182 | A bare Instagram value passes exactly when it is word characters, dots and dashes. |
| Validation.TwitterNameAccepted | middleware/validation.js:218-234 | A name of word characters, with or without `@`, passes. |
| Validation.TwitterBareValue | middleware/validation.js:227-232 | A bare Twitter/X value passes exactly when it is `@?\w+`; any other is refused with "Invalid Twitter/X username format". |
| Validation.WebsiteAccepted | middleware/validation.js:155-164 | `https://host.tld` with a plausible host and a 1–6 character top-level domain passes. |
| Validation.RunChain | middleware/validation.js:21-236 | A chain changes its own key only. |
| Validation.RunRulesPasses | middleware/validation.js:6-16 | With distinct keys, a rule list reports no error exactly when every chain passes alone. |
| Validation.RunRulesKeepsOtherKeys | middleware/validation.js:21-236 | Chains that do not name a key leave it as it arrived. |
| Validation.RunRulesThen | middleware/validation.js:100-236 | Running two rule lists in a row is running their concatenation. |
| Validation.HandleValidationErrors | middleware/validation.js:6-16 | No reply exactly when there are no errors. Otherwise 400 with every message, in order. |
| Validation.Validated | middleware/validation.js:6-16 | A rule list followed by the error check passes exactly when there are no errors. A refusal is 400 "Bad Request" with all messages, and a pass hands on the sanitized body. |
| Validation.SignupPasses | middleware/validation.js:21-35 | Sign-up passes exactly for a non-empty valid e-mail and a string password of at least 6 characters. |
| Validation.LoginPasses | middleware/validation.js:40-52 | Login passes exactly for a non-empty valid e-mail and a non-empty string password. |
| Validation.SignupRules | middleware/validation.js:21-35 | Specified by `Validation.SignupPasses` and `Validation.SignupEmptyBody`. |
| Validation.LoginRules | middleware/validation.js:40-52 | Specified by `Validation.LoginPasses`. |
| Validation.SignupEmptyBody | middleware/validation.js:21-35 | An empty sign-up body is refused with all five messages, in chain order, since no chain stops at its first failure. |
| Validation.SupportPasses | middleware/validation.js:57-95 | A ticket body passes exactly when its user id, e-mail, subject (5–100 after trim), description (10–1000 after trim), ten-digit contact number and optional screenshot are acceptable. |
| Validation.SupportSanitizes | middleware/validation.js:57-95 | The controller sees the normalised e-mail and the trimmed subject and description; the other keys are as sent. |
| Validation.SupportRules | middleware/validation.js:57-95 | Specified by `Validation.SupportPasses` and `Validation.SupportSanitizes`. |
| Validation.PersonalPasses | middleware/validation.js:101-133 | The name, e-mail, photo, birth-date, gender and phone chains pass exactly for acceptable values. |
| Validation.AboutPasses | middleware/validation.js:130-141 | The country code and about chains pass exactly for an optional string code and an about text of 1–500 characters once trimmed. |
| Validation.SocialPasses | middleware/validation.js:142-234 | The six social chains pass exactly when each link is absent or passes its validator as written. |
| Validation.ProfileErrors | middleware/validation.js:100-236 | The profile rule list reports the personal, about and social errors, in that order, with the social validators as written. |
| Validation.ProfilePasses | middleware/validation.js:100-236 | A profile body passes exactly when all three groups of fields are acceptable, the links by the validators as written. |
| Validation.ProfileSanitizes | middleware/validation.js:101-141 | The controller sees the name and about text trimmed. |
| Validation.ProfileRules | middleware/validation.js:100-236 | Specified by `Validation.ProfileErrors`, `Validation.ProfilePasses`, `Validation.ProfileSanitizes` and `Validation.ProfileRefusesYouTubeHandleUrl`. |
| SupportModel.StatusName | models/SupportRequest.js:40-44 | Every status is one of the four enum names. |
| SupportModel.StatusNamesDistinct | models/SupportRequest.js:42 | Different statuses have different names. |
| SupportModel.TrimSetter | models/SupportRequest.js:14 | The trim setter keeps presence and `null`, and trims a string. |
| SupportModel.CastIdempotent | models/SupportRequest.js:11-39 | Running the setters on a cast draft changes nothing. |
| SupportModel.Cast | models/SupportRequest.js:11-39 | Specified by `SupportModel.TrimSetter` and `SupportModel.CastIdempotent`: e-mail, subject and contact number trimmed, the description as sent. |
| SupportModel.PathError | models/SupportRequest.js:5-39 | A path gives no error exactly when it is supplied and its check holds, and at most one message. |
| SupportModel.TicketErrors | models/SupportRequest.js:3-49 | No schema error exactly when user id, e-mail (matching the pattern), subject (at least 5), description (at least 10) and contact number are supplied, with at most one error per path. |
| SupportModel.NewTicket | models/SupportRequest.js:31-44 | A new ticket is pending, has a `null` screenshot unless one is sent, and has both timestamps now. |
| SupportModel.NewTicketIsStored | models/SupportRequest.js:3-49 | A ticket built from a draft that passes the schema is a stored ticket. |
| SupportModel.EmptyDraftErrors | models/SupportRequest.js:3-49 | An empty draft reports the five required messages, in schema order. |
| SupportController.Reverse | controllers/support.controller.js:48-49 | Element `i` of the result is element `n-1-i` of the input. |
| SupportController.ReversePermutes | controllers/support.controller.js:48-49 | Sorting by creation time, newest first, is a permutation of the collection. |
| SupportController.Owned | controllers/support.controller.js:106-107 | Holds exactly the tickets of that user. |
| SupportController.OwnedNewestFirst | controllers/support.controller.js:106-107 | Filtering a newest-first list keeps it newest first. |
| SupportController.Requester | controllers/support.controller.js:13 | A found user is stored and has the body's `user_id`. |
| SupportController.DraftOf | controllers/support.controller.js:23-30 | The document passed to `create` has the body's fields and, for e-mail, the body's e-mail or else the user's. |
| SupportController.FallbackEmailPasses | controllers/support.controller.js:25 | When the body has no truthy e-mail, the ticket gets the user's own e-mail, which passes the schema. |
| SupportController.TicketStore.constructor | models/SupportRequest.js:51 | An empty ticket collection. |
| SupportController.TicketStore.Create | controllers/support.controller.js:8-40 | An unknown user gives 404 and nothing changes. Schema errors throw and nothing changes. Otherwise exactly one pending ticket is appended, with the trimmed subject and contact number, the description as sent, and the sent or fallback e-mail. |
| SupportController.TicketStore.ListAll | controllers/support.controller.js:46-59 | The count equals the length. The list is a permutation of the collection, newest first. |
| SupportController.TicketStore.GetById | controllers/support.controller.js:65-86 | A malformed id throws a `CastError` and an unknown one gives 404 "Support request not found". Otherwise 200 with the ticket of that id. |
| SupportController.TicketStore.ListByOwner | controllers/support.controller.js:92-117 | An unknown user gives 404. Otherwise 200 with exactly that user's tickets, newest first, and a matching count. |
| SupportController.GetByIdFindsEveryTicket | controllers/support.controller.js:65-86 | Every stored ticket is returned under the text of its id. |
| UploadController.Rejection | controllers/upload.controller.js:10-37 | Checks run in source order (no file, type, size). A file is accepted exactly when it is present, of an allowed image type and at most 5 MB. |
| UploadController.SizeBoundInclusive | controllers/upload.controller.js:31 | Exactly 5 MB is accepted and one byte more is refused. |
| UploadController.CollapseSpaces | controllers/upload.controller.js:48 | The replacement never lengthens the name. |
| UploadController.CollapseNoSpace | controllers/upload.controller.js:48 | `replace(/\s+/g, '_')` leaves no whitespace. |
| UploadController.CollapseKeepsSpaceless | controllers/upload.controller.js:48 | A name without whitespace is unchanged. |
| UploadController.CollapseIdempotent | controllers/upload.controller.js:48 | Replacing twice is replacing once. |
| UploadController.CollapseRun | controllers/upload.controller.js:48 | A whole run of whitespace becomes a single `_`. |
| UploadController.CollapseAppend | controllers/upload.controller.js:48 | The replacement distributes over a split that does not cut a whitespace run. |
| UploadController.Filename | controllers/upload.controller.js:47-49 | The generated file name contains no whitespace. |
| UploadController.FilenameInjective | controllers/upload.controller.js:47-49 | Equal file names come from the same timestamp and the same cleaned name. |
| UploadController.UploadType | controllers/upload.controller.js:40 | The `type` field when truthy, otherwise `screenshots`. |
| UploadController.BaseUrl | controllers/upload.controller.js:56 | `BACKEND_URL` when truthy, otherwise `http://localhost:3001`. |
| UploadController.Url | controllers/upload.controller.js:57 | The URL is the base, `/`, then the stored path. |
| UploadController.StoredPath | controllers/upload.controller.js:41-50 | Specified by `UploadController.StoredPathInjective` and `UploadController.Url`: `uploads/<type>/<name>`, different names at different paths. |
| UploadController.StoredPathInjective | controllers/upload.controller.js:41-50 | Within one upload type, equal stored paths come from equal file names. |
| UploadController.DeleteFindsScreenshot | controllers/upload.controller.js:78 | Delete looks where upload puts screenshots, and only there. |
| UploadController.DeletePath | controllers/upload.controller.js:78 | Specified by `UploadController.DeleteFindsScreenshot`: always the screenshots directory. |
| UploadController.Disk.constructor | controllers/upload.controller.js:39-44 | No stored files. |
| UploadController.Disk.UploadFile | controllers/upload.controller.js:8-68 | A rejection gives its 400 body and stores nothing. Otherwise exactly one file is added, under `uploads/<type>/<timestamp>_<name>`, and the reply gives its whitespace-free name and the URL. |
| UploadController.Disk.DeleteFile | controllers/upload.controller.js:74-96 | Success exactly when the screenshot exists. The file is removed, and a missing one gives 404 "File not found". |
| Routes.SignupGate | routes/auth.routes.js:10 | The sign-up rules pass exactly for an acceptable body, leave it unchanged, and otherwise reply 400. |
| Routes.LoginGate | routes/auth.routes.js:16 | Same for the login rules. |
| Routes.AccountRulesKeepBody | middleware/validation.js:21-52 | The sign-up and login rules have no sanitizers. |
| Routes.LoginRoute | routes/auth.routes.js:16 | A 400 exactly for an unacceptable body. Otherwise the login handler's reply on the sent e-mail and password. |
| Routes.SignupRoute | routes/auth.routes.js:10 | An unacceptable body gives 400 and no change. A success appends one user, after which logging in with the same body succeeds. |
| Routes.SupportGate | routes/support.routes.js:10 | Passes exactly for an acceptable ticket body and hands on the sanitized one. |
| Routes.SanitizedMeetsSchema | routes/support.routes.js:10 | A sanitized ticket body with a valid normalised e-mail passes the schema; an invalid one does not. |
| Routes.SupportRoute | routes/support.routes.js:10 | A refused body gives the rule list's 400 and no change. A stored ticket has a 5–100 character subject, a 10–1000 character description and a ten-digit contact number. |
| Routes.CreateSanitized | routes/support.routes.js:10 | The same bounds for a body that has already been sanitized. |
| Routes.PayloadOf | routes/profile.routes.js:23 | The update payload carries the validated body's name and about text. |
| Routes.ProfileRouteNarrowsUpdate | routes/profile.routes.js:23 | After the profile rules, an update or create stores the trimmed about text, and the trimmed name unless it trims to empty. |

## Left out

- The library validators `isEmail`, `isISO8601` and `normalizeEmail` are parameters: the body checks are stated relative to them.
- Request bodies hold strings, `null` or nothing. Numbers, booleans, arrays and objects sent where a string is expected are not modelled. The nested `socialMedia` object is kept as flat dotted keys.
- bcrypt is a sealed digest of the first 72 characters of the password, with a salt passed in. Hash timing and cost factor are not modelled. The schema's password `required`/`minlength` is checked on the 60-character hash, so it is not modelled.
- Concurrency is not modelled. Requests run one at a time, so the counter race between two sign-ups is not modelled.
- I/O is not modelled: console logging, `fs.existsSync`, `mkdirSync`, `file.mv`, `unlinkSync`. The disk is a set of stored paths.
- `path.join` normalisation and `..` in `:filename` are not modelled. A file name is a plain path segment.
- Only a single `req.files.file` is modelled. An array of files under one key is not.
- `Date.now()`, `process.env.FRONTEND_URL`/`BACKEND_URL` and the store's clock are parameters or a logical clock.
- A failed counter increment is an input flag of the user store.
- Other database failures (connection loss, timeouts) are not modelled.
- The `POST /profile/:user_id/photo` route's validator (routes/profile.routes.js:29-31) is not followed by `handleValidationErrors`, so its result is never read. The model ignores it and lets the controller's own check decide.
- Routes.PayloadOf: carries `isPublic` as absent. The rule list does not validate it, and a string body cannot hold a boolean.
- SupportController.Requester: looks a user up only when `user_id` is a string. Mongoose's cast of a `null` or missing filter value is not modelled.
- Document ids are 24-digit hexadecimal strings. Other forms that Mongoose casts to an ObjectId (12-byte strings, objects) are not modelled.
- Mongoose's `timestamps` are the logical clock value at the write. `updatedAt` moves only for a new document or one that differs from the loaded one, as the timestamps hook decides.
- ProfileModel.SchemaErrors: measures the about text in Unicode code points. Mongoose's `maxlength` counts UTF-16 code units, in which a character outside the Basic Multilingual Plane counts twice. An about text of 300 emoji passes the model's check, while the source refuses it with "About section cannot exceed 500 characters".
- SupportModel.TicketErrors: measures subject and description in code points, where Mongoose's `minlength` counts UTF-16 code units. The model refuses some texts the source accepts: two emoji and a letter are 3 code points but 5 units.
- Validation.Holds: `isLength` counts code points. validator.js also leaves U+FE0E and U+FE0F out of the count, so a text carrying them is longer here than in the source. A subject "abcd" followed by U+FE0F passes here and is refused by the source.
- Js.Lower: lower-cases ASCII letters only. `toLowerCase` also lower-cases non-ASCII letters, so the e-mail setters are modelled exactly only for ASCII addresses.
- ProfileModel.CastDate: keeps any non-empty text as the date it denotes. Mongoose's Date cast fails on text that is not a date and then throws a `CastError`; that failure, and the normalisation of date forms such as ISO week or ordinal dates, is not modelled. ProfileController.ProfileStore.CreateOrUpdate inherits this, since the rule list checks only `isISO8601` (a parameter here).
- UserModel.VerifyHash: bcrypt's 72-byte limit is taken as 72 characters. Passwords with characters outside ASCII, which UTF-8 encodes in several bytes, are cut later in the model than by bcrypt.
- Validation.CheckSocialWith: states only that a falsy value passes. The per-network behaviour is stated by the lemmas named after each network.
- `GET /auth/me/:userId` and the read-only profile, support and upload routes are composed directly with their controllers; no route module member is needed for them.
- `server.js`, database connection set-up, CORS and the static file server are not part of this model.

## Findings

| source | as written | input that shows it | evidently intended | confidence | as-written member | corrected member |
|---|---|---|---|---|---|---|
| middleware/validation.js:189 | The YouTube pattern requires `youtube.com/@/` followed by a name, so the current handle URL form is refused with "Invalid YouTube URL format". | `https://youtube.com/@name` | The comment on line 187 promises to accept a full URL or `@username`. `@` should be an alternative prefix of the name, so `youtube.com/@name` passes. | medium, not executed | Validation.YouTubeHandleUrlRefusedAsWritten | Validation.YouTubeHandleUrlAccepted |
