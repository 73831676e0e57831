# lbs-admin: a Dafny model of the admin console's logic

lbs-admin is the administration front end of a learning platform, built with Next.js. It
manages courses, learning resources, help articles, users, badges and the platform a
user is working in. Most of its files are HTTP wrappers and React views. The parts with
behaviour that can be stated are modelled here, one Dafny module per source file:

- **`IsoDuration`** (`iso_duration.dfy`) models the YouTube proxy's `isoDurationToSeconds`. It reads the
  time part of an ISO 8601 duration (section 4.4.3.2 of ISO 8601:2004) with the unanchored
  pattern `PT(?:(\d+)H)?(?:(\d+)M)?(?:(\d+)S)?`. The pattern is written out as a scanner
  that tries the three optional groups one after another. Two of its steps are proved
  against the pattern: each group captures exactly what `(?:(\d+)U)?` can capture at its
  position, and the match starts at the leftmost `PT`. The partner is `FormatDuration`,
  which writes a duration; the parser reads the written text back.
- **`PlatformSelector`** (`platform_selector.dfy`) models the header's platform selector:
  - `UniqueById` is the `seen`-set de-duplication loop, proved against the reference
    definition `FirstOccurrences`;
  - `ShowsSelector` is the show/hide rule;
  - the class `Selector` holds the `isLoading` / `isOpen` state that `handlePlatformChange`
    updates. The switch call is an outcome passed in.
- **`FaqApi`** and **`ResourceApi`** (`faq_api.dfy`, `resource_api.dfy`) model the query strings and
  multipart field lists. These are built by conditional `append` calls on an `EntryList`
  object (`key_values.dfy`), which stands for `URLSearchParams` and `FormData`. Each method
  is proved equal to a specification function. Lemmas then state which keys appear, with
  which values and in which order.
- **`UserApi`** (`user_api.dfy`) models the JSON bodies of the user endpoints. Keys whose value is
  `undefined` are dropped, as `JSON.stringify` does.
- **`Middleware`** and **`RootRoute`** (`middleware.dfy`, `root_route.dfy`) model the
  authentication middleware's pass/redirect decision with its `config.matcher` filter, and
  the root route's redirect. URLs follow the WHATWG URL standard:
  origin = protocol + `//` + host.
- **`UserTypes`** and **`UserFormState`** model the `userFormSchema` validation and the user
  form: its initial state, `handleChange` and the password-match rule of `onSubmit`.
- **`CourseCard`** and **`Badges`** model `selectUrl` and the badge type, label and colour tables.

Shared modules:

| module | what it models |
|---|---|
| `JsValues` | JavaScript truthiness, `undefined`/`null` |
| `Strings` | `includes`, `indexOf` |
| `Decimal` | `String(n)` and `parseInt` on digit runs |
| `KeyValues` | ordered key/value lists and their `toString()` |
| `Http` | requests and URLs |

## Model

| member | source | states |
|---|---|---|
| IsoDuration.OptionalGroup | src/app/api/youtube/route.ts:6 | the optional group tried at a position: a digit group, and the position moves only when the group takes part |
| IsoDuration.GroupNumber | src/app/api/youtube/route.ts:10-12 | definition: `match[k] ? parseInt(match[k], 10) : 0` |
| IsoDuration.OptionalGroupIsTheMatch | src/app/api/youtube/route.ts:6 | an optional group `(?:(\d+)U)?` takes part exactly when `\d+U` can match at that point, and then it captures the whole digit run (backtracking finds no other match) |
| IsoDuration.MatchAt | src/app/api/youtube/route.ts:6 | the match at a `PT` tries the H, M, S groups in that order; each group is absent or a non-empty run of digits |
| IsoDuration.FirstMatch | src/app/api/youtube/route.ts:6-8 | the pattern matches exactly when `PT` occurs, and it matches at the leftmost `PT` |
| IsoDuration.IsoDurationToSeconds | src/app/api/youtube/route.ts:5-15 | a string without `PT` gives 0; the result is never negative |
| IsoDuration.ParseFormatted | src/app/api/youtube/route.ts:6-14 | a duration written as `PT[hH][mM][sS]`, after any text holding no `PT` (a trailing `P` included), reads back as h*3600 + m*60 + s; a left-out component counts 0 |
| IsoDuration.ParseComponents | src/app/api/youtube/route.ts:10-14 | the captured digit groups of written components give hours*3600 + minutes*60 + seconds |
| IsoDuration.FirstMatchAfterPrefix | src/app/api/youtube/route.ts:6 | the match is unanchored: after a prefix without `PT`, the first match is at the `PT` that follows |
| IsoDuration.GroupNumberCapture | src/app/api/youtube/route.ts:10-12 | `parseInt` of the digits written for an amount gives that amount, and an absent group gives 0 |
| IsoDuration.HoursMinutesSeconds | src/app/api/youtube/route.ts:10-14 | `PT1H2M3S` is 3723 seconds |
| IsoDuration.DatePartReadsZero | src/app/api/youtube/route.ts:6-8 | `P1DT2H` holds no `PT` and reads as 0 |
| IsoDuration.OutOfOrder | src/app/api/youtube/route.ts:6 | in `PT3S2M` only the seconds are read, because components must come in H, M, S order |
| IsoDuration.FractionReadsZero | src/app/api/youtube/route.ts:6 | `PT1.5S` matches only `PT` and reads as 0 |
| IsoDuration.LeadingPReadsHour | src/app/api/youtube/route.ts:6-14 | in `PPT1H` the match starts at index 1 and reads 3600 |
| IsoDuration.FirstDurationWins | src/app/api/youtube/route.ts:6 | only the first `PT` in the text is read |
| PlatformSelector.UniqueById | src/components/platform-selector.tsx:32-41 | the `seen`-set filter returns exactly the first occurrence of each id, as the reference definition does |
| PlatformSelector.FirstIndex | src/components/platform-selector.tsx:34-40 | the first position of an id in the list |
| PlatformSelector.FirstOccurrencesDistinct | src/components/platform-selector.tsx:32-41 | kept platforms have pairwise distinct ids, and every input id is kept |
| PlatformSelector.FirstOccurrencesAreFirst | src/components/platform-selector.tsx:35-38 | each kept platform is the first platform of the input with its id |
| PlatformSelector.FirstOccurrencesInOrder | src/components/platform-selector.tsx:34-40 | kept platforms appear in the order in which their ids first occur |
| PlatformSelector.FirstOccurrencesOfDistinct | src/components/platform-selector.tsx:34-40 | a list without repeated ids is returned unchanged |
| PlatformSelector.FirstOccurrencesIdempotent | src/components/platform-selector.tsx:34-40 | de-duplicating twice is the same as de-duplicating once |
| PlatformSelector.ShowsSelector | src/components/platform-selector.tsx:43-45 | definition: `showSelector` and more than one platform left after de-duplication |
| PlatformSelector.ShowsSelectorIff | src/components/platform-selector.tsx:43-45 | the selector shows exactly when `showSelector` holds and two platforms have different ids |
| PlatformSelector.Selector.constructor | src/components/platform-selector.tsx:28-29 | the component starts neither loading nor open |
| PlatformSelector.Selector.OnOpenChange | src/components/platform-selector.tsx:84-89 | `setIsOpen(open)`, except that the disabled trigger does not open the menu while loading; the menu is never open while loading |
| PlatformSelector.Selector.HandlePlatformChange | src/components/platform-selector.tsx:47-56 | nothing changes while loading or when the id is 0; choosing the current platform only closes the menu; otherwise loading starts, the menu closes and the switch is requested |
| PlatformSelector.Selector.CompleteSwitch | src/components/platform-selector.tsx:57-80 | a failed switch resets `isLoading`; a successful one leaves it set until the page reloads |
| KeyValues.EntryList.constructor | src/services/external-api/faq.ts:15 | a new list has no entries |
| KeyValues.EntryList.Append | src/services/external-api/resource.ts:17 | `append` adds its entry at the end and changes nothing else |
| KeyValues.EntryList.AppendWhen | src/services/external-api/faq.ts:16-24 | a guarded `append` adds its entry at the end exactly when the guard holds |
| KeyValues.AppendedLookup | src/services/external-api/faq.ts:16-24 | with distinct keys, a key maps to its value when its append is made and is absent otherwise |
| KeyValues.AppendedKeys | src/services/external-api/resource.ts:17-24 | the keys written follow the order of the appends |
| KeyValues.AppendedDistinct | src/services/external-api/resource.ts:17-24 | appends with distinct keys write each key at most once |
| KeyValues.AppendedEmpty | src/services/external-api/faq.ts:15-24 | nothing is written exactly when no guard holds |
| KeyValues.Serialize | src/services/external-api/faq.ts:27 | definition: `key=value` pairs joined by `&` |
| KeyValues.SerializeEmpty | src/services/external-api/faq.ts:27 | `toString()` is empty exactly when there are no parameters |
| KeyValues.SerializeRoundTrip | src/services/external-api/faq.ts:25-29 | reading the query string back gives the parameters, provided no key or value holds a separator |
| FaqApi.BoolString | src/services/external-api/faq.ts:17 | `String(b)` is `"true"` exactly when b holds, and `"false"` otherwise |
| FaqApi.ArticleQuery | src/services/external-api/faq.ts:16-24 | definition: the three guarded appends in source order |
| FaqApi.CategoryQuery | src/services/external-api/faq.ts:63-65 | definition: the guarded `search` append |
| FaqApi.ArticleQueryFields | src/services/external-api/faq.ts:16-24 | `is_faq` is sent whenever it is given, including `false`, as `"true"`/`"false"`; `category_id` only when truthy, in decimal; `search` only when non-empty |
| FaqApi.ArticleQueryOrder | src/services/external-api/faq.ts:16-24 | parameters come in the order `is_faq`, `category_id`, `search`, each at most once |
| FaqApi.WithQuery | src/services/external-api/faq.ts:25-29 | the bare path when there are no parameters; otherwise the path, one `?` and the parameters |
| FaqApi.FetchAllHelpArticles | src/services/external-api/faq.ts:10-31 | the listing request is a GET of `/help-articles` with the article parameters |
| FaqApi.NoFilterBarePath | src/services/external-api/faq.ts:16-29 | without `is_faq` and with falsy other filters, the path has no `?` |
| FaqApi.FalseFlagIsSent | src/services/external-api/faq.ts:16-29 | `is_faq: false` alone gives `/help-articles?is_faq=false` |
| FaqApi.FalseFlagQuery | src/services/external-api/faq.ts:16-24 | `is_faq: false` alone gives the single parameter `is_faq=false` |
| FaqApi.WithQueryOne | src/services/external-api/faq.ts:25-29 | one parameter is written as `path?key=value` |
| FaqApi.CategoryQueryFields | src/services/external-api/faq.ts:62-65 | a category listing sends only `search`, and only when it is non-empty |
| FaqApi.FetchHelpCategories | src/services/external-api/faq.ts:59-72 | the category request is a GET of `/help-categories` with that parameter |
| FaqApi.FaqBody | src/services/external-api/faq.ts:39-42 | the body is the form with `is_faq` forced to true and every other field kept |
| FaqApi.FaqBodyIgnoresFlag | src/services/external-api/faq.ts:39-42 | the caller's own `is_faq` never reaches the server |
| FaqApi.CreateFaq | src/services/external-api/faq.ts:38-44 | POST to `/help-articles` with `is_faq: true` |
| FaqApi.UpdateFaq | src/services/external-api/faq.ts:46-52 | PUT to `/help-articles/<id>` with `is_faq: true` |
| FaqApi.CreateUpdateAgree | src/services/external-api/faq.ts:38-52 | create and update send the same body; different ids give different paths |
| ResourceApi.ResourceFields | src/services/external-api/resource.ts:17-24 | definition: the eight guarded appends in source order |
| ResourceApi.ResourceFieldValues | src/services/external-api/resource.ts:17-21 | `title` and `type` are always sent; `description` and `url` only when non-empty; `file` only when given |
| ResourceApi.ResourceIdValues | src/services/external-api/resource.ts:22-24 | `course_id`, `module_id` and `video_id` are sent only when non-zero, in decimal |
| ResourceApi.ResourceFieldOrder | src/services/external-api/resource.ts:17-24 | fields follow the order title, description, type, url, file, course_id, module_id, video_id, each at most once |
| ResourceApi.CandidateKeysInOrder | src/services/external-api/resource.ts:17-24 | the eight appends carry the field names in that order, all different |
| ResourceApi.BuildFormData | src/services/external-api/resource.ts:16-24 | the `append` sequence produces the resource field list |
| ResourceApi.CreateResource | src/services/external-api/resource.ts:15-32 | POST of the field list to `/resources` |
| ResourceApi.UpdateResource | src/services/external-api/resource.ts:34-58 | PUT of the same field list to `/resources/<id>` |
| ResourceApi.MinimalForm | src/services/external-api/resource.ts:17-24 | an empty description and a zero course id are left out, but `title` and `type` are still sent |
| Decimal.NatToString | src/services/external-api/resource.ts:22-24 | `toString()` of a natural number is digits without a leading zero |
| Decimal.NatToStringRoundTrip | src/services/external-api/resource.ts:22-24 | the decimal text of a number reads back as that number |
| Decimal.IntToString | src/services/external-api/faq.ts:20 | `String(n)` is non-empty and starts with a minus sign or a digit |
| Decimal.IntToStringRoundTrip | src/services/external-api/faq.ts:20 | `String(n)` reads back as n |
| Decimal.IntToStringInjective | src/services/external-api/user.ts:29 | different numbers have different decimal texts |
| Middleware.MatcherRuns | src/middleware.ts:37 | definition: the path starts with `/`, the lookahead does not exclude the rest, and `.*` reaches the end |
| Middleware.Handle | src/middleware.ts:5-37 | definition: the middleware's decision where the matcher selects the path, otherwise the request passes |
| Middleware.Decide | src/middleware.ts:5-26 | every redirect goes to `/login` on the request's own origin |
| Middleware.DecideIff | src/middleware.ts:9-25 | a request passes exactly when its path is public or it carries a non-empty token that verifies; the public check comes first |
| Middleware.PublicRoutesExact | src/middleware.ts:9-10 | public paths are matched exactly, so `/login/` and sub-paths of `/api/auth/login` are checked |
| Middleware.SkippedPathsPass | src/middleware.ts:37 | a path the matcher skips is never redirected |
| Middleware.PrefixesSkipped | src/middleware.ts:37 | the lookahead skips `/publications`, `/favicon-ico` and `/_next/imagery` too |
| Middleware.AdminPageChecked | src/middleware.ts:15-37 | an admin page is checked, and without a token it is redirected to the login page |
| RootRoute.RootRedirect | src/app/route.tsx:4-17 | a truthy token redirects to `<origin>/courses`, any other to `<origin>/login`; there is always a redirect |
| RootRoute.RootRedirectIgnoresPath | src/app/route.tsx:9-10 | the request's path and query never reach the redirect location |
| RootRoute.RootRedirectTargetsDiffer | src/app/route.tsx:12-16 | two tokens lead to the same place exactly when both are truthy or both are not |
| RootRoute.RootAgreesWithMiddleware | src/app/route.tsx:14-15 | without a token the root sends the user to the login page the middleware would choose |
| UserTypes.ParseUser | src/types/user.ts:14-25 | definition: the parsed schema fields when there are no issues, otherwise the issues |
| UserTypes.ParseUserSucceedsIff | src/types/user.ts:14-25 | a user parses exactly when its name and role are non-empty, its email is valid and any password has at least 6 characters; the parsed data keeps every schema field |
| UserTypes.IssueMessages | src/types/user.ts:15-21 | each failing field reports its own message, and a passing field reports none |
| UserTypes.IssueOrder | src/types/user.ts:14-21 | issues come in schema key order, at most one per field |
| UserTypes.OptionalFieldsAccepted | src/types/user.ts:22-24 | `id`, `created_at` and `updated_at` may be absent, null or set, and never cause an issue |
| UserFormState.UserForm.constructor | src/components/UserForm.tsx:10-16 | the form starts with the user's name and email, the user's role or `user`, and empty passwords |
| UserFormState.UserForm.HandleChange | src/components/UserForm.tsx:18-24 | the named field takes the new value and every other field keeps its own |
| UserFormState.UserForm.Submit | src/components/UserForm.tsx:26-36 | nothing is submitted exactly when password and confirmation differ |
| UserFormState.UserForm.SubmitMerges | src/components/UserForm.tsx:32-35 | the submitted user is the user with the form's fields laid over it; `id` and the dates are carried through |
| UserFormState.MatchingPasswordsSubmit | src/components/UserForm.tsx:18-35 | typing the same password twice makes the form submit that password and keep the user's id |
| UserApi.Stringified | src/services/external-api/user.ts:18 | definition: the payload with its `undefined` entries dropped |
| UserApi.RegisterPayload | src/services/external-api/user.ts:10-16 | definition: the five keys of the register payload |
| UserApi.UpdatePayload | src/services/external-api/user.ts:23-27 | definition: name, email and role |
| UserApi.PasswordPayload | src/services/external-api/user.ts:34-37 | definition: password and password_confirmation from `passwordVerify` |
| UserApi.UserPath | src/services/external-api/user.ts:29-39 | definition: `/users/` followed by the id as a template literal writes it |
| UserApi.AsCandidates | src/services/external-api/user.ts:10-16 | each key of the payload is written exactly when its value is defined |
| UserApi.StringifiedLookup | src/services/external-api/user.ts:18 | in the sent JSON body a key carries its value when defined and is absent otherwise |
| UserApi.RegisterUser | src/services/external-api/user.ts:9-20 | POST to `/users` with exactly name, email, password, password_confirmation and role |
| UserApi.RegisterBody | src/services/external-api/user.ts:10-16 | the body carries the profile fields, and the password fields when defined; `password_confirmation` comes from `passwordVerify` |
| UserApi.UpdateUser | src/services/external-api/user.ts:22-31 | PUT to `/users/<id>` with exactly name, email and role |
| UserApi.ProfileUpdateHasNoPassword | src/services/external-api/user.ts:23-27 | a profile update never carries a password |
| UserApi.UpdateUserPassword | src/services/external-api/user.ts:33-40 | PUT to `/users/<id>` with exactly password and password_confirmation |
| UserApi.PasswordUpdateHasNoProfile | src/services/external-api/user.ts:34-37 | a password update never carries the profile fields |
| UserApi.UserPathsDistinct | src/services/external-api/user.ts:29-39 | both updates address `/users/<id>`; two paths agree exactly when the ids do, `null` and `undefined` included |
| CourseCard.DefaultUrl | src/app/ui/CourseCard/CourseCard.tsx:5 | definition: the stock photo's URL |
| CourseCard.SelectUrl | src/app/ui/CourseCard/CourseCard.tsx:13-19 | the result is the URL or the stock photo; it is the URL exactly when the URL contains `thumbnails` or is the stock photo itself |
| CourseCard.DefaultUrlHasNoThumbnails | src/app/ui/CourseCard/CourseCard.tsx:5 | the stock photo's URL does not contain `thumbnails` |
| CourseCard.SelectUrlIdempotent | src/app/ui/CourseCard/CourseCard.tsx:5-19 | choosing twice is choosing once |
| CourseCard.SelectUrlCases | src/app/ui/CourseCard/CourseCard.tsx:14-18 | a URL with `thumbnails` anywhere is kept; any other URL becomes the stock photo |
| CourseCard.CapitalisedIsReplaced | src/app/ui/CourseCard/CourseCard.tsx:14 | the test is case-sensitive: `Thumbnails` is replaced |
| Badges.TypeCode | src/types/badge.ts:2-9 | definition: the code of each badge type |
| Badges.TypeLabels | src/types/badge.ts:11-18 | definition: the label of each code |
| Badges.ColorHex | src/types/badge.ts:21-30 | definition: the hex value of each colour |
| Badges.ColorOptions | src/types/badge.ts:32-41 | definition: the colour options with their labels |
| Badges.BadgeTypesDistinct | src/types/badge.ts:2-9 | there are six badge types, and no two share a code |
| Badges.EveryTypeLabelled | src/types/badge.ts:11-18 | every badge type has a label, and the table labels nothing else |
| Badges.ColorsDistinct | src/types/badge.ts:21-30 | there are eight colours, each a `#RRGGBB` value, no two alike |
| Badges.ColorHexWellFormed | src/types/badge.ts:21-30 | every colour is written `#` and six hex digits |
| Badges.ColorOptionsMatchPalette | src/types/badge.ts:32-41 | the options offer exactly the colours, in declaration order |
| Badges.ColorOptionValuesDistinct | src/types/badge.ts:32-41 | no colour is offered twice |
| Badges.ColorCaptionsDistinct | src/types/badge.ts:32-41 | no two options share a label |

## Left out

- HTTP plumbing is not modelled. The axios instance, headers, the responses and any error a request raises are foreign network calls. A wrapper is modelled as the request it would send (verb, path, body).
- `URLSearchParams` percent-encoding is not modelled. Keys and values are written as given, so `KeyValues.SerializeRoundTrip` requires that no key or value hold a separator.
- Multipart encoding of `FormData` is not modelled; the field list is the ordered list of (name, value) parts.
- JavaScript numbers are modelled as unbounded integers. NaN, fractions, exponent notation and the loss of precision beyond 2^53 (for example in `parseInt` of a very long digit run) are not modelled.
- The side effects of a platform switch are left out because they are I/O: `switchPlatform`, `localStorage`, the toasts, `setTimeout` and the page reload. `PlatformSelector.Selector.CompleteSwitch` takes the outcome as a parameter.
- PlatformSelector.Selector.OnOpenChange: assumes that the trigger, disabled while loading, sends no request to open. React's own event delivery is not modelled.
- PlatformSelector.Selector.HandlePlatformChange: React batches state updates, so `isLoading` and `isOpen` are shown as one step. A second call with stale state during the same render is not modelled.
- JWT verification (`verifyToken`) is foreign cryptography. It is the abstract predicate `verified`. Cookie reading is I/O; the cookie's value is a parameter.
- The `config.matcher` is taken to be matched against the whole pathname. Next.js's trailing-slash, base-path and locale handling are not modelled.
- Only the protocol, host, path and query of a URL are modelled; user name, password and fragment are left out.
- zod's e-mail check is the abstract predicate `isEmail`. String lengths count characters, not UTF-16 code units.
- zod's type checks (a non-string name, a non-number id) are not modelled: the datatype already fixes each field's type.
- `UserForm.tsx` imports a `User` type from `src/models/User.ts`, which is not part of this model. The `User` of `src/types/user.ts` stands in for it.
- Every input of the user form is `required` (src/components/UserForm.tsx:42-58), so the browser never submits empty fields. The model does not capture this: `UserFormState.UserForm.Submit` and `UserFormState.MatchingPasswordsSubmit` also describe submissions with empty passwords, which the page cannot make.
- The duration scanner tries the three groups left to right, each taking its one possible match. Because everything after a group is optional, the regular expression never backtracks into an earlier group; this is argued, not proved over a relational semantics of the whole pattern.
- The rendering of every component (the form fields, the dropdown, the course card) is not modelled.
- The reordering of modules and videos is not modelled: the source only sends the payload and holds no reorder algorithm.
- The rest of the YouTube route (its call to the YouTube API and the response it returns) is I/O and is left out. The day part of a duration is not read, as the code does not read it.
