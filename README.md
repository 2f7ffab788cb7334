# Dashboard rules, modelled and proved in Dafny

The dashboard reads a user's transaction records from a GraphQL API. It
shows audit totals and an audit ratio with a status, and it ranks the
user's skills. It also has a sign-in flow and error redirects. This
project models the rules underneath those screens and proves their
properties. The rules are:

- **Audit-ratio pipeline.** The profile page (`Profile.js`), the audit chart (`AuditRatioChart.js`) and the audit card (`AuditRatioDisplay.js`) work through these steps:
  - split the records into `"up"` (audits done) and `"down"` (audits received);
  - sum each group;
  - compute the ratio and write it with one decimal;
  - give it a status;
  - compute capped progress percentages;
  - write byte counts with the MB/KB/B unit chosen by size.
- **Skill ranking.** The radar chart (`SkillsRadarChart.js`) keeps the latest record of each `skill_<name>`, sorts the skills by level, keeps the top eight and capitalises their labels.
- **Path shortening and empty dates.** These are on the profile page.
- **Error utilities** (`ErrorHandler.js`): the status code and message of an API error, the page it redirects to, the 2xx success test and the display text of a GraphQL error.
- **Session state machine** (`AuthContext.js`): `checkAuth`, `login` and `logout` over `isAuthenticated`, `user`, `loading` and the stored token.
- **Sign-in form** (`Login.js`): `handleChange`, and `handleSubmit` with its email-or-username split and error-message normalisation.

Modules follow the source files. `AuditRules` holds the rules that
`Profile.js` and `AuditRatioChart.js` each carry in their own copy, so
each rule is defined once:

- the raw ratio;
- `getRatioStatus`;
- `formatBytes`, which appears identically at `src/pages/Profile.js:437-444` and `src/components/AuditRatioChart.js:168-175`.

Supporting modules:

- `Transactions`: the record type and per-type sums.
- `Decimal`: `toFixed` and `parseFloat` on the strings `toFixed` writes.
- `Strings`: `includes`, `startsWith`, `replace` with a string pattern, and the last path segment.
- `BrowserState`: `localStorage` and `window.location.href` as a class with fields.
- `Wrappers`: `Option`.

Modelling choices:

- **Numbers are exact.**
  - Amounts are natural numbers (bytes).
  - Ratios are rationals (`real`).
  - `x.toFixed(n)` is x·10ⁿ rounded half up, then written as digits, a point and exactly n digits.
  - `parseFloat` of such a string is `Decimal.ParseFixed`. The lemma `ParseFixedText` proves that it reads back exactly the rounded value.
  - `FixedTextCanonical` proves that the written text is the only text without a leading zero that reads back as that value, so each displayed number is fixed as text, not only as a value.
- **Missing and falsy values.**
  - A record with no `type` has the empty type. Both `type || ""` and `type === "up"` treat a missing type like that.
  - An absent array, object or string is `None`.
  - JavaScript truthiness is written out: a non-empty string, a non-zero number.
- **Side effects are state.**
  - `localStorage` and `window.location.href` are fields of `BrowserState.Browser`.
  - The React state of the chart, the auth provider and the sign-in page is held in classes. Their methods update it in place.
  - `navigate` records its target in `Login.LoginPage.navigatedTo`.
- **Foreign calls are inputs**, passed as function-valued parameters:
  - `jwtDecode` (`string -> DecodeResult`);
  - the Base64 encoding plus the sign-in POST (`string -> SignInResponse`, applied to the unencoded credential string);
  - `JSON.parse(message).error` (`string -> ErrorField`);
  - the locale date renderer (`string -> string`);
  - the clock (`now` in milliseconds).

## Model

| member | source | states |
|---|---|---|
| Transactions.FilterType | src/pages/Profile.js:414-416 | the filtered records are records of the input, all of the requested type, and every record of that type is kept |
| Transactions.FilterTypeCounts | src/pages/Profile.js:414-416 | each record of the type occurs in the result as often as in the input; no other record occurs |
| Transactions.FilterAppend | src/pages/Profile.js:414-416 | filtering keeps the input order: a concatenation filters to the concatenation of the filtered parts |
| Transactions.TypeTotal | src/pages/Profile.js:414-422 | the filter-then-reduce sum of one type's amounts; stated record by record by `TypeTotalSnoc`, over concatenations by `TypeTotalAppend` |
| Transactions.TypeTotalSnoc | src/pages/Profile.js:414-417 | appending a record adds its amount to its own type's total and nothing to any other type's |
| Transactions.TypeTotalAppend | src/pages/Profile.js:414-422 | a type's total over a concatenation is the sum of the totals of the parts |
| Transactions.TypeTotalIgnoresOthers | src/pages/Profile.js:414-422 | inserting a record of another type anywhere leaves a type's total unchanged |
| Transactions.TwoTypeTotalsBound | src/pages/Profile.js:414-422 | done plus received never exceeds the sum of all amounts, with equality when every record is "up" or "down" |
| Profile.AuditsDone | src/pages/Profile.js:414-417 | the "up" total, 0 for absent data; stated by `AuditTotalsStepwise` and `AuditTotalsIgnoreOtherTypes` |
| Profile.AuditsReceived | src/pages/Profile.js:419-422 | the "down" total, 0 for absent data; stated by `AuditTotalsStepwise` and `AuditTotalsIgnoreOtherTypes` |
| Profile.AuditTotalsStepwise | src/pages/Profile.js:414-422 | absent or empty data gives totals of 0; each further record adds its amount to "done" exactly when it is "up" and to "received" exactly when it is "down" |
| Profile.AuditTotalsIgnoreOtherTypes | src/pages/Profile.js:414-422 | records of any other type contribute nothing to either total |
| Profile.RatioTenths | src/pages/Profile.js:424-425 | the tenths shown are done/received rounded to the nearest tenth, halves up, and 0 when nothing was received |
| Profile.AuditRatioText | src/pages/Profile.js:424-425 | the ratio text is "0.0" when nothing was received, and otherwise reads back as exactly the rounded tenths, with no leading zero (so by `FixedTextCanonical` the text itself is fixed) |
| Profile.StatusOfText | src/pages/Profile.js:447-458 | text of the `toFixed(1)` shape gets the status of the value it reads as; any other text is treated as NaN and gets "needs improvement" |
| Profile.PageStatus | src/pages/Profile.js:458 | the status the page shows, computed from the one-decimal text; stated by `PageStatusFromTenths` and `PageStatusOfOnePointTwoFour` |
| Profile.PageStatusFromTenths | src/pages/Profile.js:447-458 | with t the displayed tenths: above 12 is "excellent", 10 to 12 "perfect", 8 to 9 "good", below 8 "needs improvement"; each in both directions; nothing received gives "needs improvement" |
| Profile.PageStatusOfOnePointTwoFour | src/pages/Profile.js:424-458 | a raw 1.24 is shown as "1.2", so the page says "perfect" while the raw rule says "excellent" |
| Profile.Percentages | src/pages/Profile.js:428-434 | both 0 when both totals are 0; otherwise both in [0, 100], the larger total gets 100, and the two stand in the ratio of the totals |
| Profile.FormatDate | src/pages/Profile.js:461-473 | a missing or empty date gives ""; otherwise the locale text loses exactly one character when it has a comma and is kept as it is when it has none |
| Profile.FormatProjectPath | src/pages/Profile.js:476-489 | an empty or absent path gives ""; a "bahrain/" or "bahrain\\" path gives its last segment, which has no separator; any other path has only its first "/bahrain/bh-module/" removed |
| Profile.FormatProjectPathSettles | src/pages/Profile.js:476-489 | shortening a bahrain path once more changes nothing |
| Profile.SeparatorFreeHasNoModulePrefix | src/pages/Profile.js:480-485 | a separator-free segment cannot contain the module prefix |
| AuditRules.Ratio | src/components/AuditRatioChart.js:131 | the ratio is 0 without received audits, and otherwise times received gives done |
| AuditRules.RatioStatus | src/components/AuditRatioChart.js:152-163 | "excellent" iff above 1.2, "perfect" iff 1.0 to 1.2, "good" iff 0.8 up to but not including 1.0, "needs improvement" iff below 0.8 |
| AuditRules.RatioStatusMonotone | src/components/AuditRatioChart.js:152-163 | a higher ratio never earns a worse status |
| AuditRules.UnitDivisor | src/components/AuditRatioChart.js:168-175 | the divisor is 1000000 iff the count is at least 1000000, 1000 iff it is from 1000 below 1000000, and 1 iff it is below 1000 |
| AuditRules.UnitSuffix | src/components/AuditRatioChart.js:168-175 | " MB", " KB" and " B" over the same three bands, each naming the divisor chosen |
| AuditRules.FormatBytes | src/pages/Profile.js:437-444 | the text ends in the unit chosen by size; the number before it has no leading zero and reads back as count/unit to the nearest hundredth |
| AuditRules.FormatBytesBelowKilo | src/pages/Profile.js:437-444 | 999 is written "999.00 B" |
| AuditRules.FormatBytesAtKilo | src/pages/Profile.js:437-444 | 1000 is written "1.00 KB" |
| AuditRules.FormatBytesBelowMega | src/pages/Profile.js:437-444 | 999999 is written "1000.00 KB" |
| AuditRules.FormatBytesAtMega | src/pages/Profile.js:437-444 | 1000000 is written "1.00 MB" |
| AuditRules.CappedPercent | src/components/AuditRatioChart.js:142-149 | the capped percentage lies in [0, 100]; it is the exact percentage up to the maximum and 100 at or above it |
| AuditRules.ShareAtMost | src/pages/Profile.js:431-434 | a share of at most the maximum lies in [0, 100], and the maximum itself gets 100 |
| AuditRatioChart.Chart.constructor | src/components/AuditRatioChart.js:102-106 | the chart starts with all zeros |
| AuditRatioChart.Chart.ApplyData | src/components/AuditRatioChart.js:117-139 | empty or absent data leaves the state unchanged; otherwise done and received become the "up" and "down" totals and the ratio is theirs |
| AuditRatioChart.Accumulate | src/components/AuditRatioChart.js:120-129 | the loop's two sums are the "up" total and the "down" total |
| AuditRatioChart.Percentages | src/components/AuditRatioChart.js:142-149 | both in [0, 100], the larger total gets 100 |
| AuditRatioChart.PercentagesMatchPage | src/components/AuditRatioChart.js:142-149 | when some audit exists, the chart's capped percentages equal the page's percentages |
| AuditRatioChart.StatusAndColour | src/components/AuditRatioChart.js:152-165 | the status is that of the raw ratio, with #26de81, #2575fc, #fed330 or #fc5c65 in the four bands |
| AuditRatioChart.StatusColour | src/components/AuditRatioChart.js:152-163 | the colour of each status band; stated by `StatusAndColour` and `ColourFollowsStatus` |
| AuditRatioChart.ColourFollowsStatus | src/components/AuditRatioChart.js:152-163 | the colour depends on the status alone |
| AuditRatioChart.RatioText | src/components/AuditRatioChart.js:206 | the one-decimal text reads back as the ratio rounded to the nearest tenth |
| AuditRatioChart.RatioTextMatchesPage | src/components/AuditRatioChart.js:206 | the chart writes the same ratio text as the profile page |
| AuditRatioChart.PageAndChartStatusAgreeAwayFromThresholds | src/components/AuditRatioChart.js:165 | the page's status (from the rounded text) and the chart's (from the raw ratio) agree unless the ratio lies within 0.05 of 0.8, 1.0 or 1.2 |
| AuditRatioDisplay.Ratio | src/components/AuditRatioDisplay.js:70 | the ratio times received is done |
| AuditRatioDisplay.Label | src/components/AuditRatioDisplay.js:74-103 | "perfect" iff ratio ≥ 1.0, "needs improvement" iff below; never "excellent" |
| AuditRatioDisplay.LabelColour | src/components/AuditRatioDisplay.js:102 | #FF9800 iff "perfect", #999 iff "needs improvement" |
| AuditRatioDisplay.LabelCoarsensStatus | src/components/AuditRatioDisplay.js:103 | the card's "perfect" is exactly the chart's "perfect" or "excellent" |
| AuditRatioDisplay.Percentages | src/components/AuditRatioDisplay.js:77-78 | for any non-negative values with a positive total: both in [0, 100], the larger value gets 100, and they stand in the ratio of the values |
| AuditRatioDisplay.NothingReceivedPercentages | src/components/AuditRatioDisplay.js:77-78 | with nothing received and something done, the bars are 100 and 0 |
| AuditRatioDisplay.MegabytesText | src/components/AuditRatioDisplay.js:86-94 | the text ends in " MB" with no unit scaling; the number has no leading zero and reads back as the value to the nearest hundredth |
| AuditRatioDisplay.RatioText | src/components/AuditRatioDisplay.js:71 | the one-decimal text has no leading zero and reads back as the ratio rounded to the nearest tenth |
| AuditRatioDisplay.DefaultProps | src/components/AuditRatioDisplay.js:68-103 | with the default props 1.16 and 1.11 the card shows "1.0", "perfect", and done at 100% |
| Decimal.ParseFixedText | src/pages/Profile.js:424-448 | reading back what `toFixed` wrote gives exactly the rounded scaled value |
| Decimal.ParseFixed | src/pages/Profile.js:448 | `parseFloat` on digits, a point and a fixed number of digits: a parsed text has its point in place; its value is stated by `ParseFixedText` and `FixedTextCanonical` |
| Decimal.FixedTextInjective | src/pages/Profile.js:424-425 | different rounded values are written differently |
| Decimal.NatToString | src/pages/Profile.js:424-425 | the integer part is all digits, one digit exactly below 10, and starts with "0" only for 0 |
| Decimal.FixedText | src/pages/Profile.js:424-425 | the `toFixed` text has no leading zero in its integer part |
| Decimal.FixedTextCanonical | src/pages/Profile.js:424-425 | the `toFixed` text is the only text without a leading zero that reads back as its value |
| Decimal.RoundHalfUp | src/pages/Profile.js:425 | the rounded value is within one half of num/den, halves going up |
| Decimal.RoundRealOfQuotient | src/components/AuditRatioChart.js:206 | rounding the real quotient agrees with the integer rounding formula |
| SkillsRadarChart.SkillName | src/components/SkillsRadarChart.js:68-74 | a record has a skill name iff its type starts with "skill_", and the type is "skill_" followed by that name |
| SkillsRadarChart.NamesUpToFacts | src/components/SkillsRadarChart.js:64-87 | the map's keys in insertion order are distinct and are exactly the skill names of the records |
| SkillsRadarChart.NamesUpTo | src/components/SkillsRadarChart.js:64-87 | the skill map's keys in first-seen order; stated by `NamesUpToFacts` |
| SkillsRadarChart.CollectLatest | src/components/SkillsRadarChart.js:64-87 | after the loop the map holds every skill name and only those; for each, the record with the latest createdAt, the first one on a tie |
| SkillsRadarChart.KeptUnique | src/components/SkillsRadarChart.js:77-85 | only one record is kept per name |
| SkillsRadarChart.InsertByLevel | src/components/SkillsRadarChart.js:106 | one insertion step of the sort keeps the elements |
| SkillsRadarChart.SortByLevel | src/components/SkillsRadarChart.js:106 | the sort is a permutation of its input |
| SkillsRadarChart.SortByLevelCorrect | src/components/SkillsRadarChart.js:106 | the sorted list is non-increasing by level and keeps names distinct |
| SkillsRadarChart.ToSkills | src/components/SkillsRadarChart.js:99-105 | one entry per key, in key order, with the kept amount as level and the kept time |
| SkillsRadarChart.ProcessSkillsData | src/components/SkillsRadarChart.js:55-108 | absent or empty input gives []; the result has min(8, number of skill names) entries with distinct names, sorted by level, each carrying its name's kept record; a kept record left out is no higher than any shown level |
| SkillsRadarChart.TopShape | src/components/SkillsRadarChart.js:106-107 | the top slice has min(8, n) entries, stays sorted and distinct, and draws from the entries |
| SkillsRadarChart.DroppedNotAbove | src/components/SkillsRadarChart.js:106-107 | an entry cut off by the slice is no higher than any entry kept |
| SkillsRadarChart.Capitalize | src/components/SkillsRadarChart.js:134-136 | the label has the name's length, its first character upper-cased and the rest unchanged |
| SkillsRadarChart.CapitalizeIdempotent | src/components/SkillsRadarChart.js:134-136 | capitalising a label a second time changes nothing |
| SkillsRadarChart.Labels | src/components/SkillsRadarChart.js:134-136 | one label per skill, in order, each the capitalised name |
| ErrorHandler.StatusCodeSources | src/utils/ErrorHandler.js:14-27 | the code is the response status if any, else a truthy statusCode, else 404, 400 or 500: 404 iff the message names "404", 400 iff it names "400" and not "404", 500 iff it names neither |
| ErrorHandler.StatusCodeOf | src/utils/ErrorHandler.js:14-27 | the status code chosen by priority; stated by `StatusCodeSources` and `NotFoundBeforeBadRequest` |
| ErrorHandler.MessageOf | src/utils/ErrorHandler.js:15-20 | the message of an API error; stated by `MessageOnlyFromResponse` |
| ErrorHandler.NotFoundBeforeBadRequest | src/utils/ErrorHandler.js:23-26 | a message naming both 404 and 400 is classified 404 |
| ErrorHandler.MessageOnlyFromResponse | src/utils/ErrorHandler.js:15-20 | a response body with a non-empty message gives that message, and every other error the default; so a message other than the default is the body's own |
| ErrorHandler.RedirectTarget | src/utils/ErrorHandler.js:31-53 | "/login" iff 401, "/error/400" iff 400, "/error/404" iff 404, "/error/500" iff any other code |
| ErrorHandler.HandleApiError | src/utils/ErrorHandler.js:11-60 | returns the code and message whatever `redirect` is; with redirect it goes to the code's page, and the token is removed iff redirecting a 401; without redirect nothing changes |
| ErrorHandler.IsSuccessfulResponse | src/utils/ErrorHandler.js:67-69 | success needs a response with status in [200, 300) |
| ErrorHandler.SuccessIsClassTwo | src/utils/ErrorHandler.js:67-69 | for three-digit codes, success is exactly the "Successful" class 2xx of section 15 of RFC 9110 |
| ErrorHandler.FormatErrorMessage | src/utils/ErrorHandler.js:76-88 | by priority: no error, first GraphQL error, network error, own message or default |
| ErrorHandler.FormatErrorMessageSource | src/utils/ErrorHandler.js:76-88 | the text is a fixed text or comes from the error, and is empty only when the first GraphQL message is |
| AuthContext.ExpiredInSeconds | src/utils/AuthContext.js:27 | with exp in seconds and the clock in milliseconds, a token is expired iff its expiry instant exp·1000 ms is strictly before now, that is, iff exp is at most the last whole second that began strictly before now, `(now - 1) / 1000` |
| AuthContext.ExpiryIsPermanent | src/utils/AuthContext.js:27 | an expired token stays expired later |
| AuthContext.IsExpired | src/utils/AuthContext.js:27 | the expiry test, false without `exp` (NaN); stated by `ExpiredInSeconds` and `ExpiryIsPermanent` |
| AuthContext.AuthString | src/utils/AuthContext.js:49-51 | "email:password" when signing in by email, "username:password" otherwise |
| AuthContext.FailureMessageSource | src/utils/AuthContext.js:79-90 | a string body gives itself, an object body its JSON text; without a response a non-empty error message gives itself and otherwise the default; other bodies give the default |
| AuthContext.FailureMessage | src/utils/AuthContext.js:79-90 | the message of a failed sign-in; stated branch by branch by `FailureMessageSource` |
| AuthContext.LoginSucceedsIff | src/utils/AuthContext.js:46-96 | login succeeds iff the sign-in returns a token that decodes |
| AuthContext.LoginOutcome | src/utils/AuthContext.js:46-96 | the result `login` returns; stated by `LoginSucceedsIff`, and tied to the state change by `AuthProvider.Login` |
| AuthContext.AuthProvider.constructor | src/utils/AuthContext.js:12-14 | initially signed out, no user, loading, children not rendered |
| AuthContext.AuthProvider.RendersChildren | src/utils/AuthContext.js:117 | the children are rendered exactly when loading is over; stated by the constructor (not rendered) and `CheckAuth` (rendered afterwards) |
| AuthContext.AuthProvider.Logout | src/utils/AuthContext.js:100-104 | the token is removed, user and authentication are cleared, nothing else changes |
| AuthContext.AuthProvider.CheckAuth | src/utils/AuthContext.js:17-43 | loading ends; no or empty token leaves the session; an undecodable or expired token logs out; otherwise the decoded user is signed in; authenticated iff a user |
| AuthContext.AuthProvider.Login | src/utils/AuthContext.js:46-97 | a token is stored and its decoded user signed in; a failed sign-in changes nothing; an undecodable token stays stored with the session unchanged; the result carries the chosen message |
| Login.BuildCredentials | src/pages/Login.js:134-141 | an identifier with "@" is the email and the username is empty, otherwise the reverse; the password is copied |
| Login.CredentialsRoundTrip | src/pages/Login.js:134-144 | whatever the identifier, the sign-in string is "identifier:password" |
| Login.Friendly | src/pages/Login.js:164-168 | a message naming the missing user or wrong password becomes "Incorrect username or password.", any other is kept |
| Login.FriendlyIdempotent | src/pages/Login.js:164-168 | normalising a second time changes nothing |
| Login.NormalizeMessage | src/pages/Login.js:150-169 | a message without `{"error":` is only translated; with it, a non-empty string field replaces the message and is translated, an unparsable, falsy or empty field keeps the message, an array is shown unless it holds the phrase as an element; the outcome is an exception exactly when the field is truthy and neither a string nor an array |
| Login.NormalizeMessageSource | src/pages/Login.js:153-161 | the shown error is the short text, the message itself, or the parsed field of a JSON message; a shown text other than the short text never names the phrase |
| Login.SubmitError | src/pages/Login.js:143-175 | success shows no error; a plain message is translated; for a JSON message the same cases as `NormalizeMessage`, with a field that has no `includes` showing "An unexpected error occurred. Please try again." |
| Login.LoginPage.constructor | src/pages/Login.js:110-115 | both fields empty, no error, not loading |
| Login.LoginPage.HandleChange | src/pages/Login.js:120-126 | only the named field changes |
| Login.LoginPage.HandleSubmit | src/pages/Login.js:128-179 | signs in with "identifier:password"; success navigates to "/profile" with no error; failure shows the normalised error; loading is over and the form is unchanged; the stored token and the session change exactly as `login` changes them |

## Left out

- `toFixed` on binary floating point. Exact half-up rounding of the rational value is modelled. A double that lies just below a decimal half can round the other way in JavaScript.
- NaN and Infinity. When both totals are 0, the chart's percentages are 0/0. When `received` is 0 the card's ratio divides by 0. These are excluded by preconditions:
  - `AuditRatioChart.Percentages` and the card's `Percentages` require a positive total;
  - the card's ratio members (`Ratio`, `RatioText`) require `received > 0`.
- AuditRatioDisplay.Label: the card's third branch, "excellent", is reached only by a NaN ratio (0/0). For a real ratio the member proves it unreachable.
- The skill map's key order is the records' first-seen order. JavaScript lists integer-like keys first, in ascending order, and keys such as "constructor" clash with `Object.prototype`. Neither is modelled.
- SkillsRadarChart.ProcessSkillsData: sort stability (equal levels keep map order) is built into `SortByLevel` but not stated in the contract. Record times are integers, so invalid `Date` values are not modelled.
- Profile.StatusOfText: `parseFloat` is modelled only on the digits-point-digit text `toFixed(1)` writes, which is all the page passes it. Other numeric text such as "12" or "1.25" is treated like NaN here, whereas `parseFloat` reads it.
- Login.NormalizeMessage: an array `error` field is modelled as an array of strings. An array holding numbers, objects or other values is not modelled; neither is how React renders one.
- `toUpperCase` is ASCII-only in `Strings.ToUpper`. Other Unicode case mappings are not modelled.
- The locale date rendering is an input; only the empty-input case and the comma removal are modelled.
- `btoa` (section 4 of RFC 4648), the sign-in POST, `jwtDecode` and `JSON.parse` are inputs, not implementations. The decoded claims other than `exp` are one opaque string.
- Claims: a non-integer `exp` is not modelled.
- `login` and `handleSubmit` are asynchronous. Each is modelled as one atomic step, so the intermediate `isLoading = true` state is not observable.
- Login.LoginPage.HandleSubmit: messages are always strings. That holds for every message the modelled `login` produces, so the `typeof errorMessage === "string"` guard is always true.
- `console` output, styled components, JSX, the chart configuration and the tooltip mouse handling are presentation only. The unused `skillsFilter` prop passed from the profile page is not modelled either, because the radar chart takes no props.
- The transport (`src/graphql/client.js`), the queries, the demo pages, the error pages and the error boundary are not part of this model.
