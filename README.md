# MasterNeoRevamp core, modelled in Dafny

MasterNeoRevamp is a Django REST backend. Talents sign in through Discord, and
companies post jobs and review talents. This project models its core:

- **Talent records** (`talents/models.py`): the profile-visit counter, the
  unique-visit table with its `unique_together (talent, session_key)`
  constraint, and the cascade from a talent to its visits, experiences and
  reviews.
- **Object permissions** (`api/permissions.py`): `IsTalentOrReadOnly` and
  `IsCompanyOrReadOnly`.
- **REST views** (`api/views.py`):
  - skill and job-type replacement with get-or-create of the name rows;
  - the 401/403/404/400/500 answers;
  - the case-insensitive `skills` / `job_types` filters;
  - ordering talents by average review rating;
  - retrieving a profile, which records the visit;
  - deleting a talent;
  - the `perform_create` hooks of jobs, experiences and reviews.
- **OAuth2 helpers** (`oauth2/utils.py`):
  - random strings;
  - the PKCE S256 code challenge (section 4.2 of RFC 7636);
  - the Twitter authorization URL;
  - the HTTP Basic client-credentials header (section 2 of RFC 7617);
  - the Discord avatar URL;
  - the locale-to-language lookup;
  - token lookups.
- **Talent creation and authentication**: `create_talent` from a Discord user
  record (`oauth2/managers.py`), and `DiscordAuthentication`
  (`oauth2/auth.py`).

## How it is built

- Pure code becomes datatypes, functions and lemmas (`strings.dfy`,
  `encoding.dfy`, `talent_models.dfy`, `permissions.dfy`, `view_rules.dfy`,
  `oauth2_utils.dfy`).
- The database is a class `Store.Db` whose fields are the tables. The rules
  are:
  - each ORM operation is a method with a `modifies` clause;
  - the schema's uniqueness and foreign-key constraints form the invariant
    `Valid`;
  - every method states the whole new state.
- The views and managers that write are methods over `Db` (`views.dfy`,
  `managers.dfy`, `auth.dfy`). Replacing a skill set keeps the loop of the
  source.
- External inputs are parameters:
  - the Discord user lookup is a function `getUser`;
  - the random source is a sequence of draws;
  - SHA-256 is any function returning 32 bytes;
  - `locale.json` is a map.

## Model

| member | source | states |
|---|---|---|
| Strings.Show | oauth2/managers.py:21 | an f-string renders a present value as itself and None as `None` |
| Strings.EqualsIgnoreCase | api/views.py:126 | `__iexact` holds iff the two strings have equal length and agree character by character after ASCII lower-casing |
| Strings.SplitOn | oauth2/utils.py:223 | `str.split`: at least one piece; the first piece is the longest separator-free prefix |
| Strings.RStrip | oauth2/utils.py:77 | `rstrip`: the result is a prefix, does not end in the stripped character, and only that character was removed |
| Strings.NatToString | oauth2/utils.py:441 | `str(id)` is a non-empty run of decimal digits |
| Strings.ParseNatToString | oauth2/utils.py:441 | the decimal rendering of an id reads back as the same number |
| Strings.ParseNat | oauth2/utils.py:441 | the reader that inverts `str(id)`: defined exactly on non-empty digit runs |
| Strings.SplitOnce | oauth2/managers.py:21 | the first occurrence of a separator splits a string into the text before and after it; None iff there is none |
| Strings.SplitOnceConcat | oauth2/managers.py:21 | `a + sep + b` with no separator in `a` splits back into `a` and `b` |
| Strings.ToLower | api/views.py:126 | ASCII lower-casing, character by character, keeping the length |
| Common.Lookup | oauth2/utils.py:310-311 | `dict.get`: Some of the stored value iff the key is present |
| Common.FilterCount | talents/models.py:40 | every copy of a kept row is kept: a row occurs in the result as often as in the table when it meets the condition, and never otherwise |
| Common.Filter | talents/models.py:40 | the kept rows are exactly the rows satisfying the condition, in their original order, and a table without duplicates stays without duplicates |
| Encoding.Utf8Encode | oauth2/utils.py:76 | `str.encode()` gives at least one byte per character, and exactly the ASCII bytes for ASCII text |
| Encoding.AsciiEncode | oauth2/utils.py:146 | `encode("ascii")` succeeds iff every character is below 128, and then gives their codes |
| Encoding.AsciiRoundTrip | oauth2/utils.py:146-148 | ASCII-encoding then decoding gives back the text |
| Encoding.Encode | oauth2/utils.py:77 | Base64 of n bytes has 4·⌈n/3⌉ characters |
| Encoding.EncodeUnpadded | oauth2/utils.py:77 | the unpadded encoding has the unpadded length and only alphabet characters |
| Encoding.DecodeEncode | oauth2/utils.py:77 | decoding a Base64 or URL-safe Base64 encoding gives back the bytes |
| Encoding.StripPadding | oauth2/utils.py:77 | `rstrip("=")` of an encoding leaves exactly its unpadded characters |
| Encoding.RePadUnpadded | oauth2/utils.py:77 | restoring the `=` padding of a stripped encoding gives the padded encoding |
| Encoding.PaddedLength | oauth2/utils.py:77 | unpadded length plus padding is 4·⌈n/3⌉ |
| TalentModels.UniqueVisit | talents/models.py:30-33 | the session key joins the talent's recorded keys; the counter rises by one iff the key is new; one row per (talent, key) is kept; other talents are untouched |
| TalentModels.UniqueVisitIdempotent | talents/models.py:30-33 | the same session visiting twice counts as once |
| TalentModels.ReplayKeepsDifference | talents/models.py:26-33 | over any sequence of visits, the counter minus the number of distinct keys is invariant, and the recorded keys grow by exactly the keys seen |
| TalentModels.CounterCountsDistinctKeys | talents/models.py:18 | a counter starting at 0 equals the number of distinct session keys seen |
| Store.CascadeKeepsTables | talents/models.py:39-63 | deleting a talent with its visits, experiences and reviews leaves no dangling foreign key |
| Store.Db.IncrementProfileVisits | talents/models.py:26-28 | the talent's counter rises by one; every other row and table is unchanged |
| Store.Db.IncrementUniqueVisits | talents/models.py:30-33 | the new counter and visit table are those of `UniqueVisit`; the constraints still hold |
| Store.Db.GetOrCreateSkill | api/views.py:667 | a Skill row is created iff none has the name; names stay unique |
| Store.Db.GetOrCreateJobType | api/views.py:242 | a JobType row is created iff none has the name; names stay unique |
| Store.Db.ClearSkills | api/views.py:665 | the talent's skill set becomes empty; nothing else changes |
| Store.Db.AddSkill | api/views.py:668 | an existing skill joins the talent's set; nothing else changes |
| Store.Db.LinkSkill | api/views.py:667-668 | the name joins the talent's skills, and the Skill table gains it iff it was missing |
| Store.Db.ClearJobTypes | api/views.py:240 | the job's type set becomes empty; nothing else changes |
| Store.Db.AddJobType | api/views.py:243 | an existing type joins the job's set; nothing else changes |
| Store.Db.LinkJobType | api/views.py:242-243 | the name joins the job's types, and the JobType table gains it iff it was missing |
| Store.Db.InsertTalent | oauth2/managers.py:23-29 | a new talent row under a free key; nothing else changes |
| Store.Db.DeleteTalent | talents/models.py:40 | the talent and exactly its visits, experiences and reviews are removed; the constraints still hold |
| Store.Db.InsertJob | api/views.py:148 | a job is saved under a fresh key with its company, and the next key moves on by one; nothing else changes |
| Store.Db.InsertExperience | api/views.py:699 | the experience is appended; nothing else changes |
| Store.Db.InsertReview | api/views.py:764 | the review is appended; nothing else changes |
| Permissions.IsTalentOrReadOnly | api/permissions.py:24-30 | safe methods are granted; a write is granted iff the user is the owning talent |
| Permissions.IsCompanyOrReadOnly | api/permissions.py:49-55 | safe methods are granted; a write is granted iff the user is the owning company |
| Permissions.WriteNeedsOwner | api/permissions.py:24-55 | a write is granted to exactly the owner, and never by both rules at once |
| ViewRules.GetList | api/views.py:664 | `QueryDict.getlist`: the values under the key, or an empty list when it is absent |
| ViewRules.AuthenticatedOrReadOnly | api/views.py:188-189 | `IsAuthenticatedOrReadOnly` with token authentication: passes iff the request is safe or carries credentials; otherwise 401 |
| ViewRules.SkillQueryset | api/views.py:626-633 | 404 iff the talent is missing; 403 iff another user makes a non-GET request; otherwise the talent's skills |
| ViewRules.JobTypeQueryset | api/views.py:202-209 | 404 iff the job is missing; 403 iff a non-GET request is not from the job's company; otherwise its types |
| ViewRules.UpdateTarget | api/views.py:365-385 | the talent's own row is reached iff the user is that existing talent; a 500 iff a talent asks for a missing row (`handle_not_found` calls an undefined `raise_exception`); 401 without credentials (taken as the authenticator's answer); 403 for a company or another talent |
| ViewRules.SkillPutCheck | api/views.py:656-663 | an update goes ahead iff the owner sends at most 5 form keys; otherwise 403 for a non-talent, then 404, 403, 400 in that order |
| ViewRules.JobTypePutCheck | api/views.py:188-209 | an update goes ahead iff the job exists and its company asks; otherwise 401 without credentials, 403 for a non-company, then 404, then 403 |
| ViewRules.MatchesAny | api/views.py:124-127 | the OR of `__iexact` conditions holds iff some requested name equals some name of the row, ignoring case |
| ViewRules.JobQueryset | api/views.py:119-129 | no filter keeps every job; otherwise exactly the jobs with a matching type; either way in the model's table order |
| ViewRules.FilterBySkills | api/views.py:284-289 | no filter keeps every talent; otherwise exactly the talents with a matching skill; either way in the model's table order |
| ViewRules.ReviewsOfCount | api/views.py:295 | the `review__` join reaches every copy of an equal review row of the talent, as often as the table holds it, and no row of another talent |
| ViewRules.ReviewsOf | api/views.py:295 | the rows the `review__` join reaches are exactly the talent's reviews, in the model's table order |
| ViewRules.RatingsOf | api/views.py:295 | one rating per review row of the talent, in order, so repeats count; empty iff it has none |
| ViewRules.SumOfRatings | api/views.py:295 | summing the ratings row by row gives the rows' total |
| ViewRules.AverageRating | api/views.py:295 | NULL (Unrated) iff the talent has no review; otherwise the total rating of its review rows over their number |
| ViewRules.AverageCountsRepeats | api/views.py:295 | ratings 5, 5 and 1 average 11/3: every review row counts |
| ViewRules.AverageAtMost | talents/models.py:56 | an average never exceeds the largest rating |
| ViewRules.AtMostTransitive | api/views.py:295-302 | comparing average ratings is transitive, so ordering by them is well defined |
| ViewRules.InsertBy | api/views.py:295-302 | inserting into a sorted list keeps it sorted and adds exactly that talent |
| ViewRules.SortBy | api/views.py:295-302 | `order_by` on the average rating yields a sorted permutation |
| ViewRules.SortedPairwise | api/views.py:295-302 | in the sorted list, every earlier talent's average is on the correct side of every later one's |
| ViewRules.TalentQueryset | api/views.py:281-304 | the filtered talents, sorted descending for `most_experienced`, ascending for `least_experienced`, and unsorted otherwise |
| Views.GetOrCreateAll | api/views.py:666-668 | get-or-create over a list only adds rows |
| Views.GetOrCreateAllRows | api/views.py:666-668 | after get-or-create, the table holds exactly the old rows and the names, and never one name twice |
| Views.ReplaceSkills | api/views.py:664-668 | the talent's skills become exactly the distinct names; missing Skill rows are created; nothing else changes |
| Views.PutSkills | api/views.py:646-670 | on a failed check, that error with nothing changed; otherwise the new skill set is exactly the distinct `name` values and is returned |
| Views.ReplaceJobTypes | api/views.py:239-243 | the job's types become exactly the distinct names; missing JobType rows are created; nothing else changes |
| Views.PutJobTypes | api/views.py:222-245 | on a failed check, that error with nothing changed; otherwise the new type set is exactly the distinct `name` values and is returned |
| Views.Retrieve | api/views.py:341-349 | 404 for a missing talent; with a non-empty session key the visit is recorded as by `increment_unique_visits`; otherwise nothing changes |
| Views.Destroy | api/views.py:351-354 | 403 for a non-talent; 404 for a missing row; otherwise the talent and its dependants are deleted |
| Views.CreateJob | api/views.py:100-148 | 401 without credentials; a company's job is saved under the next key with the company as owner; for any other account nothing is saved |
| Views.CreateExperience | api/views.py:697-699 | an experience is saved iff the user is a talent, owned by that talent |
| Views.CreateReview | api/views.py:762-764 | 400 for an unknown talent; otherwise a review is saved iff the user is a company, with that company as reviewer |
| OAuthUtils.AlphabetChar | oauth2/utils.py:60 | each of the 62 positions of `ascii_letters + digits` is a letter or digit |
| OAuthUtils.AlphabetIndex | oauth2/utils.py:60 | every letter or digit has a position in `ascii_letters + digits` |
| OAuthUtils.RandomString | oauth2/utils.py:59-61 | the string has the requested length; every character is the alphabet character of its draw |
| OAuthUtils.RandomStringCovers | oauth2/utils.py:59-61 | every alphanumeric string of the length is a possible result |
| OAuthUtils.CodeChallenge | oauth2/utils.py:76-77 | 43 URL-safe characters, no `=`; re-padded and decoded it gives back the SHA-256 digest of the verifier |
| OAuthUtils.CodeChallengeIsS256 | oauth2/utils.py:76-77 | for an ASCII verifier it is the unpadded URL-safe Base64 of SHA-256 of its ASCII bytes |
| OAuthUtils.TwitterAuthorizationUrl | oauth2/utils.py:88-98 | the verifier has 64 alphanumeric characters; the URL starts with the authorize endpoint and `?` |
| OAuthUtils.TwitterAuthorizationUrlParams | oauth2/utils.py:88-98 | the URL reads back as the seven parameters in order: the 32-character state, and the S256 challenge of the returned verifier |
| OAuthUtils.QueryParamsOf | oauth2/utils.py:92-96 | `endpoint?k=v&...` reads back as its pairs when keys and values hold no separators |
| OAuthUtils.SplitJoinParams | oauth2/utils.py:92-96 | splitting the joined parameters at `&` gives them back |
| OAuthUtils.ParseKeyValues | oauth2/utils.py:92-96 | each `key=value` reads back as its pair |
| OAuthUtils.TwitterRequestHeaders | oauth2/utils.py:145-155 | UnicodeEncodeError iff the id or secret is not ASCII; otherwise a `Basic` header with the form content type |
| OAuthUtils.TwitterHeadersCarryCredentials | oauth2/utils.py:145-153 | a server reading the header as HTTP Basic credentials gets back the client id and secret |
| OAuthUtils.AvatarUrl | oauth2/utils.py:437-443 | ValueError iff the avatar hash is missing or empty; otherwise a CDN address |
| OAuthUtils.AvatarUrlRoundTrip | oauth2/utils.py:440-442 | the avatar URL names exactly the user id and the hash |
| OAuthUtils.LanguageFromLocale | oauth2/utils.py:221-229 | the language exists iff the locale is a key; it is the entry up to its first comma; otherwise AttributeError naming the locale |
| OAuthUtils.LanguageOfEntry | oauth2/utils.py:223 | an entry `language,rest` gives `language` |
| OAuthUtils.AccessToken | oauth2/utils.py:310-311 | the `access_token` value iff present |
| OAuthUtils.RefreshToken | oauth2/utils.py:325-326 | the `refresh_token` value iff present |
| OAuthUtils.Render | oauth2/auth.py:39-40 | an f-string shows a JSON string as itself, and an absent value or null as `None` |
| Managers.DiscordTag | oauth2/managers.py:21 | the tag starts with the username and `#` |
| Managers.DiscordTagRoundTrip | oauth2/managers.py:21 | the tag splits back into username and discriminator |
| Managers.TalentFromUser | oauth2/managers.py:20-29 | the locale error comes first, then the avatar error; a row exists iff both succeed, with the user's id, global name, avatar URL, language and tag |
| Managers.TalentFromUserRecoversUser | oauth2/managers.py:20-29 | the created row's avatar URL and Discord profile identify the user record |
| Managers.CreateTalent | oauth2/managers.py:20-30 | on a helper error or a taken id, nothing changes; otherwise exactly that row is inserted |
| Auth.Authenticate | oauth2/auth.py:16-34 | fails on a missing header or a failing lookup; None for no user; a known talent unchanged; otherwise `create_talent` inserts exactly one row or raises with nothing changed |
| Auth.Bearer | oauth2/auth.py:39 | a `Bearer` header value carries exactly the rendered token |
| Auth.GetAccessToken | oauth2/auth.py:36-44 | an exchange error keeps its message; otherwise both tokens come back as `Bearer` values, with `expires_in` |
| Auth.RefreshAccessToken | oauth2/auth.py:46-53 | a refresh error keeps its message; otherwise the new access token comes back as a `Bearer` value, with `expires_in` |

## Left out

- HTTP calls to Discord and Twitter are not modelled:
  - `get_user`, `get_twitter_user`, `exchange_code`, `exchange_twitter_code`, `refresh_credentials`, `refresh_twitter_token`, `revoke_access_token`, `revoke_twitter_token` and `DiscordAuthentication.revoke_token`;
  - their answers are inputs (`getUser`, and the credentials or error message given to `GetAccessToken` and `RefreshAccessToken`).
- `upload_image` and `UploadAvatar.perform_update` are not modelled: they are calls into Cloudinary.
- Reading `oauth2/locale.json` is not modelled, nor its FileNotFoundError. The loaded table is the parameter `localeData`.
- SHA-256 is left uninterpreted: any function returning 32 bytes.
- The random source is left out. Its picks are the `draws` parameter.
- Environment settings are parameters. When unset they render as `None`.
- Pagination, serializer output, sessions and the ORM's SQL are not modelled. Authenticator selection is also left out: a request's user is given as `User`.
- Default permission and authentication classes from the project settings are not part of this model. This matters for `SkillView`, `ExperienceList`, `ReviewList`, `TalentDetail`, `UploadAvatar`, `Language`, `Timezone`, `AboutMe`, `Summary` and `Username`, which declare no `permission_classes` and rely on them. For `ViewRules.UpdateTarget`, the split between 401 and 403 for a request without credentials is not fixed by the source: the framework answers 401 only when the first authenticator defines `authenticate_header`, otherwise 403. These views use `DiscordOrTwitterAuthentication`, which the source never defines (and `DiscordAuthentication` has no `authenticate_header`); the model takes the 401.
- `DiscordOrTwitterAuthentication` is imported by `api/views.py` but defined nowhere in the source: `oauth2/auth.py` defines only `DiscordAuthentication`. A request an authenticator rejects never reaches the views; its result is the `User` given to each view.
- The field updates of `Language`, `Timezone`, `AboutMe`, `Summary` and `Username` are not modelled; only their shared object lookup (`UpdateTarget`) is. The same goes for `JobDetail` and `ExperienceDetail`: their generic update/delete is left to the framework, and their object rules are `Permissions`.
- `get_talent_average_rating` is not modelled: it calls `Talent.get_average_rating`, which `talents/models.py` does not define.
- ViewRules.UpdateTarget: the 500 for a missing row is modelled as written. The 404 that `handle_not_found` evidently intends is not.
- `api/views.py` imports Company, Skill and JobType, but the source never defines these classes: neither `jobs/models.py` nor `talents/models.py` declares them, and `talents/models.py` has no `skills` field.
  - The Skill and JobType tables are modelled from how the views use them: as tables of unique names (`skillRows`, `jobTypeRows`), plus a name set per talent and per job.
  - `jobs/models.py` has no `company` or `job_types` field either, so Job carries only what the views use: company, a title and a type set.
- `create_talent` passes `discord_profile`, but the field in `talents/models.py` is spelled `disord_profile`. The model keeps the value as `discordProfile`.
- Talent fields that the modelled operations never touch are not represented: timezone, about_me, summary, email, twitter_profile, phone_number and last_login.
- Store.Db.IncrementProfileVisits: the source's `save()` also sets `date_joined` (declared `auto_now=True`) to the current time on every save, so each counted visit rewrites it. The model does not represent `date_joined` or the clock.
- NOT NULL constraints and column widths are not modelled. For example, `last_login` has no default and `max_length=200`.
- ViewRules.TalentQueryset: where unrated talents go is the database's choice for NULL. The model puts them lowest, so last when descending and first when ascending.
- ViewRules.FilterBySkills: an OR over a many-to-many join can return a talent once per matching skill. The model returns each matching row once. ViewRules.JobQueryset is treated the same way.
- ViewRules.SortBy: the order among equal averages is stable in the model, but unspecified in SQL.
- ViewRules.JobQueryset, ViewRules.FilterBySkills and ViewRules.ReviewsOf: the result follows the model's table order. `Job` has no `Meta.ordering` and the queries have no `order_by`, so in SQL that order is unspecified.
- Strings.ToLower: case-insensitive matching folds ASCII letters only. Unicode case folding is not modelled.
- ViewRules.SkillPutCheck: request bodies are form data, where `getlist` applies; JSON bodies are not modelled. As in the source, the limit of 5 counts the form's keys, not its `name` values.
- Views.CreateReview: the serializer's field validation is not modelled beyond the review's talent existing. The source stores the Company object in the CharField `reviewer_organization`, that is `str(company)`; Company and its `__str__` are defined nowhere in the source, so the model stores the company's id as `reviewer`.
- Views.CreateExperience: the serializer's field validation is not modelled. As written, `ExperienceSerializer` lists `discord_profile` and `twitter_profile` (api/serializers.py:94-95), which `Experience` does not have, so the framework raises ImproperlyConfigured when it builds the serializer's fields; the model saves the experience as if the fields were valid.
- Views.CreateJob: the serializer's validation is not modelled, so invalid request data (a 400 with nothing saved in the source) is not represented; `JobInSerializer` is imported by `api/views.py` but not defined in `api/serializers.py`.
- Managers.CreateTalent: `talents/models.py` never sets `objects = TalentOauth2Manager()`. As written, `Talent.objects.create_talent` raises AttributeError. The model describes the manager's insert as if it were installed.
- Auth.Authenticate: for an unknown user it inserts the row through `create_talent`, as if the manager were installed (see Managers.CreateTalent). As written, that call raises AttributeError.
- Managers.TalentFromUser: the Discord user's `id` is taken as always present, although the source reads it with `user.get("id")`. A missing id would render as `None` in the avatar URL and be passed as the primary key. OAuthUtils.AvatarUrl takes the id as present too.
- Managers.CreateTalent: the check-then-create race between concurrent requests is not modelled. Requests run one at a time.
- Store.Db.IncrementUniqueVisits: `profile_visits` is unbounded here, with no 32-bit limit.
