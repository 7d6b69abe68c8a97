# EduMind dashboard and page logic, modelled in Dafny

This project models the deterministic logic of the EduMind student
assessment web client and proves properties about it. The model covers five areas:

- **Dashboard profile and trend** (`Dashboard`, `dashboard.dfy`). The page picks one stored
  assessment record: the first "national-survey" record, or else the first record whose
  `ai_analysis` is truthy. It reads the record's fine-dimension scores and rolls the numeric
  ones up into the four macro categories through the static `dimensionMapping` table. It
  averages each category and normalises the average with `min(round(avg / 5 * 100), 100)`,
  reporting an exact 0 as 20. When nothing can be computed it shows the all-zero default
  radar. The newest-first record list becomes a labelled, oldest-first score trend of at
  most ten points.
- **Login** (`Login`, `login.dfy`). Student numbers become sign-in addresses
  (`formatEmail`), and authentication errors are translated by first match
  (`translateError`). Neither form calls the authentication service until the agreement box
  is ticked.
- **Settings** (`Settings`, `settings.dfy`). The profile form is filled from the account
  metadata, and the profile save sends exactly four fields. A password change runs the
  mismatch check, then the length check, and clears both fields after a successful update.
- **AI lab** (`AiLab`, `ai_lab.dfy`). This covers the chat session list and the open
  session: deriving a session title, the send guard, appending messages, prepending a new
  session, and deleting a session, which resets the page when the open session is deleted.
- **Navbar** (`Navbar`, `navbar.dfy`). This covers the display-name, display-id and avatar
  fallback chains and the scrolled switch.

Shared pieces live in `Optional` (`optional.dfy`), `JsText` (`js_text.dfy`), `JsMath`
(`js_math.dfy`: `Math.min` and `Math.round`) and `Notices` (`notices.dfy`). `JsText`
models the JavaScript string operations the pages rely on: `trim` with the ECMAScript
whitespace set, `includes`, `split("@")[0]`, and rendering a number in a template literal. `Notices` holds the toasts, as data.

All I/O is passed in as parameters. That covers database rows, the authentication
service's error message, the created session row, the chat reply, the user's confirmation
and `JSON.parse` followed by `Object.entries`. Arithmetic is on `real`, and `Math.round(x)`
is `Floor(x + 1/2)`.

Some behaviours of the code are easy to misread:

- The normalisation rounds first and then caps at 100. Nothing clamps it below 0, so a
  negative average gives a negative value (`Dashboard.Normalize`,
  `Dashboard.NegativeScoreShown`).
- `reverse().slice(0, 10)` on a newest-first list keeps the ten OLDEST records, not the ten
  most recent ones (`Dashboard.TrendKeepsOldestTen`).
- The stored `ai_analysis` is a flat map from dimension key to one number. The dashboard
  counts each key once; there are no stored per-dimension counts.
- Whether the default radar is shown depends only on the one chosen record. A
  "national-survey" record without analysis hides every other record's analysis
  (`Dashboard.SurveyWithoutAnalysisShowsDefault`).

The model also covers a JavaScript detail of the code. `dimensionMapping[key]` and
`assessmentMeta[id]` are plain object lookups, so an inherited `Object.prototype` name
(`constructor`, `toString`, `__proto__`, ...) yields a truthy value that is not a category.
A numeric score under such a key makes `categoryScores[...]` undefined, and `.total` then
throws. The `catch` swallows the error and the default radar is shown
(`Dashboard.InheritedNameThrows`). For the record list, such an id shows a blank title
(`Dashboard.AssessmentMetaCases`).

## Model

| member | source | states |
|---|---|---|
| `Dashboard.LookupDimension` | app/dashboard/page.tsx:123 | `dimensionMapping[dimKey]` yields exactly the table's category for every key the table lists; for any other key it yields a truthy non-category exactly when the key is an inherited property name, and nothing otherwise |
| `Dashboard.SocialEmotionalKeys` | app/dashboard/page.tsx:31-40 | optimism, empathy and grit map to social_emotional |
| `Dashboard.HealthKeys` | app/dashboard/page.tsx:45-50 | health and sleep_quality map to health_wellbeing |
| `Dashboard.UnknownKeyUnmapped` | app/dashboard/page.tsx:123-124 | a key the table does not list and no object inherits is skipped |
| `Dashboard.Aggregate` | app/dashboard/page.tsx:122-128 | no category is counted more often than there are entries; its full meaning is stated by `Dashboard.AggregateMatchesReference` |
| `Dashboard.AggregateMatchesReference` | app/dashboard/page.tsx:115-128 | the first-to-last `forEach` throws exactly when some entry has a numeric value under an inherited property name; otherwise each category holds the sum and the number of the numeric entries whose key maps to it |
| `Dashboard.IgnoredEntryChangesNothing` | app/dashboard/page.tsx:122-127 | an entry whose key is neither in the table nor an inherited property name, or whose value is not a number, changes no total and no count, wherever it sits |
| `Dashboard.MappedEntryAddsOnce` | app/dashboard/page.tsx:123-126 | a numeric entry under a mapped key adds its value to its category's total and exactly 1 to its count; the other three categories are unchanged |
| `Dashboard.InheritedNameThrows` | app/dashboard/page.tsx:122-147 | a number under an inherited `Object.prototype` name makes the whole reduction fail |
| `Dashboard.ReferencePermutation` | app/dashboard/page.tsx:122-128 | two entry lists holding the same entries, in any order, have the same per-category sums and counts and the same faults |
| `Dashboard.AggregateOrderIrrelevant` | app/dashboard/page.tsx:122-128 | any reordering of the entries gives the same tallies, and throws exactly when the original does |
| `Dashboard.MixedRecord` | app/dashboard/page.tsx:115-128 | a record with two social-emotional scores x1 and x2, one health score x3, a score under an unknown key and a non-numeric value under a known key tallies to (x1 + x2, 2), (x3, 1), (0, 0), (0, 0) |
| `Dashboard.Average` | app/dashboard/page.tsx:131-132 | the average times the count is the total; a zero count gives 0 |
| `JsMath.Min` | app/dashboard/page.tsx:134 | `Math.min` is at most each argument and equals one of them |
| `JsMath.Round` | app/dashboard/page.tsx:134 | `Math.round` returns the integer within half a unit of its argument, halves going up |
| `Dashboard.Normalize` | app/dashboard/page.tsx:134 | the result is at most 100; it is 100 exactly when the percentage reaches 99.5; below that it is the percentage rounded half-up; averages below -0.025 give negative results |
| `Dashboard.ReportsAverageUnique` | app/dashboard/page.tsx:132-138 | the reported value is determined by an independent description of the promise: never 0, capped at 100, 20 for a percentage that rounds to 0, otherwise the rounded percentage |
| `Dashboard.FloorOnlyAtZero` | app/dashboard/page.tsx:138 | only an exact 0 is replaced by 20; every other value, including positives below 20 and negatives, is shown unchanged |
| `Dashboard.Profile` | app/dashboard/page.tsx:130-141 | exactly four points in `MAIN_CATEGORIES` order, each with its label, full mark 100 and a value meeting `ReportsAverage` for that category's average |
| `Dashboard.WorkedProfile` | app/dashboard/page.tsx:130-141 | for the tallies (7, 2), (5, 1), (0, 0), (0, 0), averages 3.5 and 5 show as 70 and 100 and the two empty categories show as 20 |
| `Dashboard.NegativeScoreShown` | app/dashboard/page.tsx:134 | an average of -1 is shown as -20 because nothing clamps from below |
| `Dashboard.FindFirst` | app/dashboard/page.tsx:108-109 | `find` returns the first matching index, or nothing when no element matches |
| `Dashboard.ChosenIndexPrecedence` | app/dashboard/page.tsx:108-109 | the first "national-survey" record is chosen whenever one exists, with or without analysis; otherwise the first record with a truthy `ai_analysis`; nothing when neither exists |
| `Dashboard.ComputedRadarNotDefault` | app/dashboard/page.tsx:165-172 | a computed profile has four labelled points and is never the all-zero default |
| `Dashboard.RadarData` | app/dashboard/page.tsx:105-172 | the chart always has four points in category order, and it is the all-zero default exactly when the list is empty, no record is chosen, the chosen record lacks analysis, parsing fails or the reduction throws |
| `Dashboard.SurveyWithoutAnalysisShowsDefault` | app/dashboard/page.tsx:108-111 | a survey record without analysis yields the default chart even when later records carry analysis |
| `Dashboard.ComputedRadar` | app/dashboard/page.tsx:105-149 | a chart is stored exactly when a record is chosen, it carries analysis, its analysis parses and the reduction does not throw; the stored chart is the profile of that record's tallies |
| `Dashboard.SurveyRecordShown` | app/dashboard/page.tsx:108-143 | the first survey record, when it carries analysis, is the one whose profile is shown, whatever the other records hold |
| `Dashboard.FirstAnalysedRecordShown` | app/dashboard/page.tsx:108-143 | with no survey record, the chart is the profile of the first analysed record's parsed scores |
| `Dashboard.TrendData` | app/dashboard/page.tsx:159-162 | the trend has min(N, 10) points, and its first point is the oldest record, labelled `第1次` |
| `Dashboard.TrendShape` | app/dashboard/page.tsx:159-162 | the trend has min(N, 10) points; point i is labelled i + 1 and holds the score of the (i + 1)-th oldest record, with a missing score read as 0 |
| `Dashboard.TrendKeepsOldestTen` | app/dashboard/page.tsx:159-162 | for more than ten records the trend equals the trend of the ten oldest records alone |
| `Dashboard.TrendLabelInjective` | app/dashboard/page.tsx:160 | different ordinals give different `第N次` labels |
| `Dashboard.TrendLabelsDistinct` | app/dashboard/page.tsx:159-162 | no two trend points share a label |
| `Dashboard.AssessmentMeta` | app/dashboard/page.tsx:269 | a catalogued id gets its own table entry; any other id gets the "unknown" pair unless it is an inherited property name |
| `Dashboard.AssessmentMetaCases` | app/dashboard/page.tsx:269 | the three catalogued ids show their own table entry; the title is blank exactly for an inherited property name; every other id shows the "unknown" pair |
| `Dashboard.DashboardView` | app/dashboard/page.tsx:88-98 | the page counts the fetched records and shows the newest record's score, or zero records and score 0 when the fetch failed; the radar and trend are those of the fetched records (none on failure), a four-point radar and a trend of at most ten points and no more points than records |
| `Dashboard.FailedFetchShowsEmpty` | app/dashboard/page.tsx:88-98 | a failed records query shows zero records, score 0, the all-zero radar and an empty trend |
| `JsText.Trim` | app/login/page.tsx:30 | the result has no whitespace at either end; it is empty exactly when the input is all whitespace; an input without whitespace at its ends is returned unchanged |
| `JsText.TrimIsInfix` | app/login/page.tsx:30 | the trimmed string is the slice of the input that starts right after the leading whitespace |
| `JsText.TrimStartDropsWhitespace` | app/login/page.tsx:30 | everything removed at the front is whitespace |
| `JsText.TrimEndDropsWhitespace` | app/login/page.tsx:30 | everything removed at the back is whitespace |
| `JsText.ContainsAt` | app/login/page.tsx:36-40 | an occurrence at some position makes `includes` true |
| `JsText.ContainsWitness` | app/login/page.tsx:36-40 | every positive `includes` has an occurrence position |
| `JsText.ContainsPrefix` | app/login/page.tsx:39-40 | a string that contains a substring contains every prefix of that substring |
| `JsText.BeforeFirst` | components/Navbar.tsx:67 | `split("@")[0]` is a prefix without '@', and it is shorter than the input exactly when the input holds '@', which then follows it |
| `JsText.NatToDecimal` | app/dashboard/page.tsx:160 | the decimal rendering is non-empty, all digits, and has no leading zero |
| `JsText.DecimalRoundTrip` | app/dashboard/page.tsx:160 | reading the rendering back gives the number |
| `JsText.NatToDecimalInjective` | app/dashboard/page.tsx:160 | distinct numbers render differently |
| `Login.FormatEmail` | app/login/page.tsx:29-33 | the result always holds '@'; it is the trimmed id when that holds '@', else the trimmed id followed by "@example.com"; it has no surrounding whitespace |
| `Login.FormatEmailIdempotent` | app/login/page.tsx:29-33 | formatting twice equals formatting once |
| `Login.TranslateError` | app/login/page.tsx:35-44 | a message with "Invalid login credentials" gets the credentials text whatever else it contains; a message with none of the listed substrings is returned unchanged |
| `Login.FirstMatchFirstFiring` | app/login/page.tsx:35-44 | a first-match rule table returns the text of the earliest rule that fires, whatever later rules say |
| `Login.FirstMatchNoneFires` | app/login/page.tsx:35-44 | a first-match rule table returns the message itself when no rule fires |
| `Login.TranslateErrorIsFirstMatch` | app/login/page.tsx:35-44 | the `if` chain equals the first-match reading of its five rules, in their order |
| `Login.InvalidClaimIsSessionExpiry` | app/login/page.tsx:39-41 | a message with "invalid claim" also contains "invalid", yet it is translated to the session-expired text, not the id-format text |
| `Login.LoginRequest` | app/login/page.tsx:46-56 | the sign-in call is made exactly when the agreement is ticked, with the formatted login id and the password; otherwise a warning is raised |
| `Login.RegistrationMetadata` | app/login/page.tsx:80-86 | the stored metadata has exactly the keys display_name, school_name, class_name, student_id and role, with the form's values and role "student" |
| `Login.RegisterRequest` | app/login/page.tsx:69-88 | the sign-up call is made exactly when the agreement is ticked, with the formatted student number, the password and the metadata |
| `Login.LoginNotice` | app/login/page.tsx:57-63 | a failed sign-in shows "登录失败" with the translated message; success shows a success notice |
| `Login.AfterRegister` | app/login/page.tsx:89-99 | a successful sign-up switches to the login tab with the student number filled in; a failure leaves the form and shows the translated error |
| `Login.RegisteredAddressSignsIn` | app/login/page.tsx:52-96 | after a successful registration, the login form signs in with exactly the address the account was created with |
| `Settings.InitialForm` | app/settings/page.tsx:40-43 | each profile field starts from its metadata value, or "" when the account has none |
| `Settings.ProfilePayload` | app/settings/page.tsx:54-60 | the profile update sends exactly display_name, school_name, class_name and student_id, each with its form field |
| `Settings.SavedProfileReloads` | app/settings/page.tsx:40-60 | saving the profile and reloading the page shows the saved form, whatever other metadata the account has |
| `Settings.ProfileNotice` | app/settings/page.tsx:63-67 | a failed update shows "更新失败" with the service message; success shows a success notice |
| `Settings.PasswordRequest` | app/settings/page.tsx:76-87 | the update is issued exactly when the entries agree and are at least 6 long; a mismatch is reported first, then a short entry |
| `Settings.ChangePassword` | app/settings/page.tsx:74-98 | after a successful update both fields are ""; after a failed update or a rejection the form is unchanged and the right notice is shown |
| `AiLab.SessionTitle` | app/ai-lab/page.tsx:120 | a message of at most 12 characters is its own title; a longer one is its first 12 characters followed by "..."; a title has at most 15 characters and starts with the first min(12, length) characters |
| `AiLab.Send` | app/ai-lab/page.tsx:105-150 | a blank input or a pending reply changes nothing; otherwise the input is cleared, the user message is appended, one ai message follows only when the session exists and a reply arrived, a new session is prepended with the message's title, and no reply is pending afterwards |
| `AiLab.BlankInputIgnored` | app/ai-lab/page.tsx:106 | an empty or whitespace-only input is never sent |
| `AiLab.NewChat` | app/ai-lab/page.tsx:86-90 | a new chat has no open session and no messages, and keeps the session list |
| `AiLab.LoadSession` | app/ai-lab/page.tsx:70-83 | loading opens the session and shows its stored messages, or keeps the old ones when the query returned none |
| `AiLab.RemoveSession` | app/ai-lab/page.tsx:98 | the filtered list holds exactly the sessions whose id differs |
| `AiLab.RemoveSessionAppend` | app/ai-lab/page.tsx:98 | the filter works piecewise, so the surviving sessions keep their order |
| `AiLab.RemoveAbsentSession` | app/ai-lab/page.tsx:98 | filtering out an id no session has leaves the list as it is |
| `AiLab.DeleteSession` | app/ai-lab/page.tsx:93-102 | without confirmation or on a failed delete nothing changes; otherwise the id leaves the list; deleting the open session clears the open id and the messages; deleting another leaves both |
| `AiLab.DeleteTwice` | app/ai-lab/page.tsx:93-102 | deleting the same session twice is deleting it once |
| `AiLab.SendKeepsOpenSessionListed` | app/ai-lab/page.tsx:114-128 | if the open session is in the sidebar list before a send, it is after it; a send that creates a session both opens and lists it |
| `AiLab.NewChatKeepsOpenSessionListed` | app/ai-lab/page.tsx:86-90 | after a new chat no unlisted session is open |
| `AiLab.LoadSessionOpensListed` | app/ai-lab/page.tsx:70-83 | loading a session picked from the sidebar list leaves a listed session open |
| `AiLab.DeleteKeepsOpenSessionListed` | app/ai-lab/page.tsx:93-102 | after any delete, the open session, if any, is still in the sidebar list |
| `Navbar.EmailPrefix` | components/Navbar.tsx:67 | the e-mail prefix is the part of the address before its first '@' (a prefix with no '@', followed by '@' when shorter than the address, and the whole address exactly when there is no '@'); empty when there is no user or no e-mail |
| `Navbar.DisplayName` | components/Navbar.tsx:66 | the stored display name when non-empty, else "同学"; never empty |
| `Navbar.DisplayId` | components/Navbar.tsx:67 | the student number when non-empty, else the e-mail prefix when non-empty, else "User"; never empty |
| `Navbar.EmailPrefixEdges` | components/Navbar.tsx:67 | an address without '@' is its own prefix; an address starting with '@' falls through to "User" |
| `Navbar.AvatarFallback` | components/Navbar.tsx:68 | the upper-cased first character of the name when that is non-empty, else "S"; never empty |
| `Navbar.AvatarFromDisplayName` | components/Navbar.tsx:66-68 | because the display name is never empty, the avatar comes from its first character |
| `Navbar.IsScrolled` | components/Navbar.tsx:36 | `window.scrollY > 20`; its threshold behaviour is stated by `Navbar.ScrollThreshold` |
| `Navbar.ScrollThreshold` | components/Navbar.tsx:36 | the scrolled style is on exactly past 20 pixels, off at 20, and stays on further down |
| `Navbar.RegisteredStudentShown` | components/Navbar.tsx:66-67 | after registering, the bar shows the real name and the student number from the stored metadata when they were given |

## Left out

- Question delivery, branching and per-answer scoring (`app/assessments/[id]/page.tsx`) are not part of this model. They produce the `ai_analysis` and `score` columns that the dashboard reads, and here those columns are inputs.
- Calls to the authentication service, database queries and inserts, `fetch`, router navigation, `toast` and `confirm` are I/O. Their results are parameters (rows, an error message or none, the created session row, the reply, the confirmation), and notices are returned as data.
- `JSON.parse` followed by `Object.entries` is a parameter returning the parsed entries, or nothing when it throws.
- `app/api/chat/route.ts` is left out because it builds a prompt and calls a network language model.
- `components/DynamicBackground.tsx` is left out because it is random floating-point animation.
- `app/page.tsx`, `app/layout.tsx`, `app/assessments/page.tsx` and `lib/supabase.ts` are left out because they hold static markup, constant data and client construction.
- IEEE doubles are modelled as exact reals, so floating-point rounding in sums and divisions is not modelled, and neither are NaN or -0. `Math.round`'s -0 is falsy exactly like 0, so the 20-floor is unaffected.
- Strings are sequences of Unicode scalar values, so lengths and indices match JavaScript's UTF-16 code units only for text in the Basic Multilingual Plane. For a character outside it (an emoji, say) the model does not cover `slice(0, 12)` splitting a surrogate pair (app/ai-lab/page.tsx:120), `length < 6` counting the character twice (app/settings/page.tsx:79), or `displayName[0]` returning a lone surrogate (components/Navbar.tsx:68).
- `toUpperCase` is a parameter `upcase`.
- React rendering, loading and saving spinners, the `isLoading` flag, scroll-into-view, animation and the sidebar closing on narrow windows (app/ai-lab/page.tsx:82, 89) are not modelled.
- AiLab.Send: the "发送失败" toast is not returned, and the message inserts' results are ignored, as the page does.
- AiLab.DeleteSession: the "已删除" toast is not returned.
- AiLab.Send: handlers that interleave while a reply is pending are not modelled. Each handler is one atomic step, for example loading another session between the send and its reply.
- Sign-out, the auth-state listener and the redirects of signed-out users are left out because they are navigation.
