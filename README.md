# Resume roaster: a Dafny model of its decision logic

The resume roaster is a Next.js application. A student submits a school email address, a PDF resume, career goals and a grade level. The roast route extracts the PDF text and asks a language model for a JSON verdict. It pulls the JSON out of the reply's code fence and parses it. The home page stores the record for the results page. The results page loads it (retrying while storage is empty) and shows scores, letter grades and notes. A small results route keeps the last body posted to it.

This project models the deterministic parts of these four files and proves what they promise:

- `js_string.dfy` (`JsString`): the JavaScript string behaviour the code relies on.
  - ECMAScript whitespace, shared by `\s` and `trim`, as in sections 12.2 and 12.3 of ECMA-262 (2023 edition).
  - `trim`, ASCII `toLowerCase` and `endsWith`.
  - The decimal rendering of integers in template literals, with a read-back function.
  - JavaScript truthiness of optional strings.
  - `e instanceof Error ? e.message : fallback`.
- `feedback.dfy` (`Feedback`): the feedback record, and the outcome of `JSON.parse` followed by the unchecked cast.
- `fence_extraction.dfy` (`FenceExtraction`): `extractJSON`.
  - The regular expression ```` /```(?:json)?\s*([\s\S]*?)\s*```/ ```` is spelled out step by step.
  - It is proved to be the first match in backtracking order.
  - It is proved to equal a plain reference definition: the first fenced block, with a lower-case `json` tag dropped, trimmed.
- `roast_route.dfy` (`RoastRoute`): the guard chain of the roast route's `POST` and its `lastFeedback` slot.
- `results_page.dfy` (`ResultsPage`): the results page.
  - The letter grade, the category labels and the "N/A" rule.
  - The overall score.
  - The retrying loader, and the removal of the stored item.
- `home_page.dfy` (`HomePage`): the home page.
  - The email check, and the choice of error message.
  - The grade-level merge.
  - The rotating loading message.
  - The submit handler.
- `results_route.dfy` (`ResultsRoute`): the single-slot store of the results route, with `POST` and `GET`.

`wrappers.dfy` holds the `Option` type.

Foreign calls are parameters of the methods that make them:

| source call | model parameter |
|---|---|
| `JSON.parse` with the cast | `parse` |
| reading the upload and `pdfParse` | `extract` |
| the model request | `generate` |
| `fetch` with `response.json()` | `fetch` |
| `JSON.stringify` | `stringify` |
| successive `localStorage.getItem` reads | `storage` |

## Model

| member | source | states |
|---|---|---|
| FenceExtraction.FindFence | src/app/api/roast/route.ts:144 | returns the first "```" at or after the start index, and None only when there is none |
| FenceExtraction.SkipWhitespace | src/app/api/roast/route.ts:144 | greedy `\s*` ends at the first non-whitespace index, and everything it skips is whitespace |
| FenceExtraction.SkipWhitespaceLands | src/app/api/roast/route.ts:144 | greedy `\s*` stops exactly at the end of a whitespace run |
| FenceExtraction.SkipWhitespaceIsMaximal | src/app/api/roast/route.ts:144 | greedy `\s*` takes every whitespace run that starts where it starts |
| FenceExtraction.LazyEnd | src/app/api/roast/route.ts:144 | lazy `[\s\S]*?` ends at the first index followed by `\s*` and "```", and no earlier index is followed by them |
| FenceExtraction.Chosen | src/app/api/roast/route.ts:144 | the way the matcher builds is a match of the whole pattern |
| FenceExtraction.ChosenFirst | src/app/api/roast/route.ts:144 | every way the pattern can match is the chosen way or is tried after it |
| FenceExtraction.ChosenBounds | src/app/api/roast/route.ts:144 | compares any match with the chosen way piece by piece: opener not earlier, tag not longer, whitespace not longer, capture not shorter |
| FenceExtraction.MatchIsFirstTried | src/app/api/roast/route.ts:144-145 | `match` returns null exactly when no way matches; otherwise the reported way comes first in backtracking order |
| FenceExtraction.MatchExistsIff | src/app/api/roast/route.ts:144-145 | the pattern matches exactly when the text holds two "```" that do not overlap |
| FenceExtraction.CaptureEndsClean | src/app/api/roast/route.ts:144 | a non-empty capture neither begins nor ends with whitespace |
| FenceExtraction.CaptureTrimmed | src/app/api/roast/route.ts:144-146 | group 1 has no whitespace at either end |
| FenceExtraction.NoFenceInsideCapture | src/app/api/roast/route.ts:144 | no "```" begins inside the capture |
| FenceExtraction.CaptureHasNoFence | src/app/api/roast/route.ts:144-146 | group 1 contains no "```" |
| FenceExtraction.ChosenClosesOnNextFence | src/app/api/roast/route.ts:144 | with a first fence and a next fence, the chosen way closes exactly on the next fence |
| FenceExtraction.TagAgrees | src/app/api/roast/route.ts:144 | the `(?:json)?` test on the text after the opener agrees with a test on the block's own text |
| FenceExtraction.CaptureIsFirstBlock | src/app/api/roast/route.ts:144-146 | group 1 is the text between the first fence and the next one, lower-case `json` tag dropped, trimmed |
| FenceExtraction.MatchIsFirstBlock | src/app/api/roast/route.ts:144-146 | group 1 equals the reference definition of the first fenced block, on every input |
| FenceExtraction.MatchIgnoresWhatFollows | src/app/api/roast/route.ts:144-146 | text appended after a match, later fenced blocks included, does not change group 1 |
| FenceExtraction.FirstBlockIgnoresWhatFollows | src/app/api/roast/route.ts:144-146 | appended text does not change the reference first block |
| FenceExtraction.MatchFence | src/app/api/roast/route.ts:144 | group 1 of `text.match`, or None where `match` gives null; its properties are in MatchIsFirstTried, MatchIsFirstBlock, CaptureTrimmed and CaptureHasNoFence |
| FenceExtraction.ExtractJson | src/app/api/roast/route.ts:142-150 | the result of `extractJSON` never begins or ends with whitespace |
| FenceExtraction.ExtractUnfenced | src/app/api/roast/route.ts:144-149 | without two non-overlapping "```", the result is the whole text trimmed |
| FenceExtraction.ExtractFenced | src/app/api/roast/route.ts:144-146 | on the fence path the result is the capture itself; the `trim()` there changes nothing |
| FenceExtraction.ExtractIdempotent | src/app/api/roast/route.ts:142-150 | extracting from an extraction changes nothing |
| FenceExtraction.ExtractSingleBlock | src/app/api/roast/route.ts:142-150 | a reply made of one fenced block without backticks gives that block's text, tag dropped, trimmed |
| FenceExtraction.UpperCaseTagKept | src/app/api/roast/route.ts:144 | only the lower-case tag is dropped: "```JSON\n{}```" gives "JSON\n{}" |
| FenceExtraction.TagPrefixDropped | src/app/api/roast/route.ts:144 | the tag is dropped even when letters follow it: "```json5 x```" gives "5 x" |
| JsString.TrimStartIsSuffix | src/app/api/roast/route.ts:197 | the leading half of `trim` drops a whitespace prefix and keeps the rest |
| JsString.TrimEndIsPrefix | src/app/api/roast/route.ts:197 | the trailing half of `trim` keeps a prefix and drops a whitespace suffix |
| JsString.Trim | src/app/api/roast/route.ts:146 | the result of `trim` has no whitespace at either end and fits inside the input after its leading whitespace |
| JsString.TrimIsInfix | src/app/api/roast/route.ts:149 | `trim` returns the infix that starts after the leading whitespace |
| JsString.TrimRemovesPadding | src/app/api/roast/route.ts:149 | everything `trim` removes is whitespace |
| JsString.TrimOfTrimmed | src/app/api/roast/route.ts:146 | `trim` leaves a string without surrounding whitespace unchanged |
| JsString.TrimOfPadded | src/app/api/roast/route.ts:149 | `trim` of a trimmed infix padded with whitespace gives that infix |
| JsString.TrimIdempotent | src/app/api/roast/route.ts:149 | `trim` is idempotent |
| JsString.ToLower | src/app/page.tsx:51 | lower-casing keeps the length and folds each character |
| JsString.ToLowerAppend | src/app/page.tsx:51 | lower-casing distributes over concatenation |
| JsString.IntToDecimal | src/app/results/page.tsx:235 | the `${value}` rendering is never empty; IntToDecimalRoundTrip and IntToDecimalInjective carry its properties |
| JsString.EndsWith | src/app/page.tsx:51 | `endsWith`; ValidateEmailIff states what it means for the email check |
| JsString.NatToDecimalRoundTrip | src/app/results/page.tsx:235 | reading back the digits of a natural number gives the number |
| JsString.IntToDecimalRoundTrip | src/app/results/page.tsx:235 | the rendering of an integer is an optional minus sign and digits, and reading it back gives the integer |
| JsString.IntToDecimalInjective | src/app/results/page.tsx:235 | distinct integers render differently |
| Feedback.AcademicEntries | src/app/results/page.tsx:232 | `Object.entries` of the academic subscores lists the seven keys in declaration order, each paired with its own field's value |
| Feedback.ExperienceEntries | src/app/results/page.tsx:248 | `Object.entries` of the experience subscores lists the seven keys in declaration order, each paired with its own field's value |
| RoastRoute.BlankIffTrimsToEmpty | src/app/api/roast/route.ts:197 | the handler's empty-text test holds exactly when the text is empty or all whitespace |
| RoastRoute.RoastHandler.constructor | src/app/api/roast/route.ts:139 | the slot starts empty |
| RoastRoute.RoastHandler.Post | src/app/api/roast/route.ts:152-301 | every status, message and `details` of the guard chain, and the foreign calls made before each exit; status 200 exactly when every stage succeeds; the slot then holds the returned record and is otherwise unchanged |
| ResultsPage.LetterGrade | src/app/results/page.tsx:96-110 | `getLetterGrade`; LetterGradeBands, LetterGradeMonotone and CutoffsInclusive carry its properties |
| ResultsPage.LetterGradeBands | src/app/results/page.tsx:96-110 | the cascade gives grade g exactly when the score lies in g's band: from its cutoff, inclusive, to the next better cutoff, exclusive |
| ResultsPage.LetterGradeMonotone | src/app/results/page.tsx:96-110 | a higher score never gets a worse grade |
| ResultsPage.CutoffsInclusive | src/app/results/page.tsx:96-109 | each cutoff belongs to the grade it starts, and one less belongs to the next grade down |
| ResultsPage.LabelInjective | src/app/results/page.tsx:97-109 | distinct grades show distinct labels |
| ResultsPage.SimplifyCategory | src/app/results/page.tsx:112-130 | `simplifyCategory`; SimplifyCategoryLookup carries its property |
| ResultsPage.SimplifyCategoryLookup | src/app/results/page.tsx:112-130 | a listed key gets its non-empty label; any other key is shown unchanged |
| ResultsPage.SimplificationsCoverSubscores | src/app/results/page.tsx:113-128 | the table lists exactly the fourteen subscore fields |
| ResultsPage.SubscoreDisplay | src/app/results/page.tsx:235 | a cell other than "N/A" ends in a percent sign after at least one character |
| ResultsPage.SubscoreNotApplicable | src/app/results/page.tsx:235 | "N/A" is shown exactly for 0 and 100 |
| ResultsPage.SubscoreReadsBack | src/app/results/page.tsx:251 | any other value is shown as its own decimal rendering followed by "%" |
| ResultsPage.GridRows | src/app/results/page.tsx:232-237 | one row per entry, in order, with the simplified label and the displayed cell |
| ResultsPage.AcademicGridLabels | src/app/results/page.tsx:232-236 | the academic grid has seven rows, each labelled from the table |
| ResultsPage.ExperienceGridLabels | src/app/results/page.tsx:248-252 | the experience grid has seven rows, each labelled from the table |
| ResultsPage.AcademicGridCells | src/app/results/page.tsx:232-236 | each academic grid cell shows `getSubscoreDisplay` of its own row's subscore |
| ResultsPage.ExperienceGridCells | src/app/results/page.tsx:248-252 | each experience grid cell shows `getSubscoreDisplay` of its own row's subscore |
| ResultsPage.OverallScore | src/app/results/page.tsx:195 | `Math.round` of the mean of the two section scores; OverallScoreIsRoundedUpMean, OverallScoreBetween and OverallScoreInRange carry its properties |
| ResultsPage.OverallScoreIsRoundedUpMean | src/app/results/page.tsx:195 | for whole scores, `Math.round((a + b) / 2)` is (a + b + 1) div 2 |
| ResultsPage.OverallScoreBetween | src/app/results/page.tsx:195 | the overall score lies between the two section scores |
| ResultsPage.OverallScoreInRange | src/app/results/page.tsx:195 | section scores in 0..100 give an overall score in 0..100 |
| ResultsPage.RecordGradeBetween | src/app/results/page.tsx:89 | the letter grade under the circle lies between the grades of the two section scores |
| ResultsPage.LoadFeedback | src/app/results/page.tsx:138-163 | the loader meets its specification: at most 1 + 3 reads; all but the last are empty; the last is parsed, or, if empty, ends in "No feedback found…" |
| ResultsPage.LoadsWithinUnique | src/app/results/page.tsx:142-163 | the read count and the outcome are determined by what storage returns |
| ResultsPage.EmptyStorageFails | src/app/results/page.tsx:146-152 | storage that stays empty gives four reads and the "No feedback found…" error |
| ResultsPage.StoredRecordLoadsAtOnce | src/app/results/page.tsx:145-156 | a parsable stored item is loaded on the first read |
| ResultsPage.ResultsView.constructor | src/app/results/page.tsx:133-134 | no feedback, no error, no redirect |
| ResultsPage.ResultsView.Mount | src/app/results/page.tsx:137-166 | sets `feedback` to the loaded record, or sets `error` and schedules the redirect home |
| ResultsPage.ResultsView.ClearAfterLoad | src/app/results/page.tsx:169-173 | the stored item is removed once a record is loaded, and only then |
| HomePage.ValidateEmail | src/app/page.tsx:50-52 | `validateEmail`; ValidateEmailIff, ValidateEmailIgnoresCase, ValidateEmailAcceptsDomain and BareDomainAccepted carry its properties |
| HomePage.ValidateEmailIff | src/app/page.tsx:50-52 | an address passes exactly when its last sixteen characters, lower-cased, are "@friendsbalt.org" |
| HomePage.ValidateEmailIgnoresCase | src/app/page.tsx:50-52 | addresses that agree once lower-cased are judged alike |
| HomePage.ValidateEmailAcceptsDomain | src/app/page.tsx:50-52 | any local part followed by the domain, in any letter case, passes |
| HomePage.BareDomainAccepted | src/app/page.tsx:50-52 | the bare "@friendsbalt.org" passes |
| HomePage.ResponseError | src/app/page.tsx:84-90 | no error exactly when the status is 2xx and `success` and `feedback` are present; an error is never empty; a truthy `data.error` is the error; otherwise a 2xx reply gives "Invalid response from server" |
| HomePage.ServerErrorNamesStatus | src/app/page.tsx:85 | a failed status without `data.error` gives "Server error: " followed by the status, which reads back |
| HomePage.RoastResponseDecision | src/app/page.tsx:84-90 | against the roast route's replies that carry a parsed record, the page goes on exactly on a 200 response, and otherwise shows the route's error |
| HomePage.WithGradeLevel | src/app/page.tsx:93-99 | the spread that replaces `studentInfo.gradeLevel`; WithGradeLevelChangesOnlyGrade, WithGradeLevelOverrides and WithGradeLevelLastWins carry its properties |
| HomePage.WithGradeLevelChangesOnlyGrade | src/app/page.tsx:93-99 | the merge sets the grade level and keeps every other field |
| HomePage.WithGradeLevelOverrides | src/app/page.tsx:93-99 | the server's grade level has no influence on the merge, and a record with the chosen grade is left as it is |
| HomePage.WithGradeLevelLastWins | src/app/page.tsx:93-99 | merging twice is merging with the later grade |
| HomePage.NextIndex | src/app/page.tsx:43 | advancing the index modulo ten keeps it equal to the tick count modulo ten |
| HomePage.MessageAt | src/app/page.tsx:38-42 | indices 1 to 9 give their fixed text; index 0 gives "Opening " followed by the chosen file's name; without a file, the message shown before is embedded there, since React runs the function passed to the setter as an updater |
| HomePage.MessageAtIgnoresFile | src/app/page.tsx:38-41 | every index but 0 shows its fixed text, whatever the file and the message before |
| HomePage.OpeningWrapsPrevious | src/app/page.tsx:38-42 | without a file, each pass through index 0 lengthens the message by the opening's fixed text |
| HomePage.LoadingTicker.constructor | src/app/page.tsx:36 | the index starts at 0 |
| HomePage.LoadingTicker.Tick | src/app/page.tsx:37-44 | sets the message from the entry for the tick count modulo ten and the message before; the index stays below ten and tracks the tick count |
| HomePage.HomeForm.constructor | src/app/page.tsx:12-17 | the initial form state |
| HomePage.Settle | src/app/page.tsx:77-109 | after the request: a move to the results page exactly when the reply has no error, storing the merged record; a thrown request alerts its message or "Something went wrong…"; an error reply alerts its error |
| HomePage.HomeForm.Conclude | src/app/page.tsx:93-109 | an alert is appended and nothing stored, or the item is stored and the page moves to the results |
| HomePage.HomeForm.Submit | src/app/page.tsx:56-113 | the submit steps once the address is judged: the guards in order, one request, the `finally` reset |
| HomePage.HomeForm.HandleSubmit | src/app/page.tsx:54-114 | email checked before file; a failed guard alerts and sends nothing; otherwise one request; on any outcome, loading ends and the message is cleared; success stores the merged record and navigates; an error alerts its message and stores nothing |
| ResultsRoute.FeedbackSlot.constructor | src/app/api/results/route.ts:5 | the slot starts as `null` |
| ResultsRoute.FeedbackSlot.Post | src/app/api/results/route.ts:7-18 | a parsed body overwrites the slot and is acknowledged; an unparsable body gives 500 and keeps the slot |
| ResultsRoute.FeedbackSlot.Get | src/app/api/results/route.ts:20-32 | 404 exactly while the slot is falsy, otherwise the stored value |
| ResultsRoute.GetBeforePost | src/app/api/results/route.ts:20-26 | `GET` before any `POST` answers 404 |
| ResultsRoute.PostThenGet | src/app/api/results/route.ts:7-11 | after posting a truthy body, `GET` returns it |
| ResultsRoute.FalsyPostHidesEarlier | src/app/api/results/route.ts:10-21 | after posting a falsy body, `GET` answers 404 whatever was stored before |
| ResultsRoute.LastWriteWins | src/app/api/results/route.ts:10 | the last successful `POST` wins |
| ResultsRoute.FailedPostKeepsSlot | src/app/api/results/route.ts:8-16 | an unparsable body answers 500 and the earlier value is still served |
| ResultsRoute.GetTwice | src/app/api/results/route.ts:20-32 | `GET` changes nothing: two in a row answer alike |

## Left out

- `JSON.parse`, `JSON.stringify`, `pdfParse`, the model request, `fetch` and the successive `localStorage.getItem` reads are parameters whose results are arbitrary. `alert` appends to the form's `alerts`, `router.push` sets `location` or `redirectHome`, and `localStorage.setItem` and `removeItem` assign the `stored` field. Logging is dropped.
- `JSON.parse … as ResumeRoastResponse` is a cast that checks nothing. The model's `parse` returns either a record or a syntax error. A reply that parses to something other than a record has no counterpart. Examples are `null`, or an object with missing fields.
- The roast route has no schema validator, no chain of trial parses and no fallback to the first `{` and last `}`. The model follows the code and leaves them out. The record is whatever `parse` returns.
- RoastRoute.RoastHandler.Post treats every `JSON.parse` failure as an `Error` with a message. `JSON.parse` throws only `SyntaxError`, so the "Unknown parsing error" fallback is not modelled.
- The prompt texts of the roast route are not modelled. `generate` receives the two values the prompt embeds: the resume text and the career goals.
- Rendering is not modelled: React, the components, framer-motion, `CircularProgress` and its floating-point circle, and the tooltip table in `score-tooltip.tsx`.
- Timer delays are not modelled. The 500 ms retry delay, the 2000 ms message interval and redirect, and the 100 ms pause before navigating become plain steps. The interval's cleanup is not modelled.
- JsString.IntToDecimal renders every integer in plain digits. JavaScript numbers are exact integers only up to 2^53, and `${n}` switches to exponent notation from 10^21 on ("1e+21"). Neither limit is modelled.
- ResultsPage.OverallScoreIsRoundedUpMean covers whole-number scores only. Scores are unbounded `int` throughout. Non-integer model output, `NaN` and the 2^53 limit of exact JavaScript integers are not modelled.
- JsString.ToLower folds ASCII letters only. Full Unicode `toLowerCase` differs on some inputs. For example, U+212A KELVIN SIGN lower-cases to 'k'.
- ResultsPage.SimplifyCategory uses a finite map. In JavaScript, a key such as "toString" finds an inherited function, which is truthy and would be returned. This is not modelled.
- Concurrent requests racing on the module-level slots are not modelled. `results/route.ts` imports `lastFeedback` from the roast route at line 2 and declares its own `let lastFeedback` at line 5. In an ES module a name bound twice is an early SyntaxError (TypeScript error TS2440), so that file as written would not build. The model follows it as evidently intended: one local slot, separate from the roast route's slot.
- HomePage.RoastResponseDecision covers only replies whose `feedback` is a record. A model reply that parses to `null`, `false`, `0` or `""` (such as "```json\nnull\n```") is stored by the roast route and answered with status 200, and the page then alerts "Invalid response from server"; `RoastRoute.Body` cannot carry such a value.
- HomePage.HomeForm.HandleSubmit treats `localStorage.setItem` as an assignment that cannot fail. In the page, a throwing `setItem` (storage full or disabled) is caught by the `catch` block, which alerts the exception's message and does not navigate.
- ResultsPage.LoadFeedback treats each `localStorage.getItem` read as returning a string or nothing. In the page, a throwing `getItem` is caught, sets `error` to its message and schedules the redirect home.
- HomePage.ResponseError assumes a reply's `error` field is a string or absent. Other values of `data.error` are not modelled.
- Feedback.AcademicEntries assumes the subscores object has exactly the seven declared keys, in declaration order. `Object.entries` lists the parsed object's own keys in the order of the JSON text, so a reply with extra or missing keys gives more or fewer grid rows, and an unknown key is shown through `simplifyCategory`'s fallback.
- Feedback.ExperienceEntries assumes the subscores object has exactly the seven declared keys, in declaration order. `Object.entries` lists the parsed object's own keys in the order of the JSON text, so a reply with extra or missing keys gives more or fewer grid rows, and an unknown key is shown through `simplifyCategory`'s fallback.
- HomePage.HomeForm.HandleSubmit stores the grade level as one of the four enum values. The page holds it as a free string set by the select control.
- HomePage.LoadingTicker.Tick updates the ticker's own copy of the message. The page has one `loadingMessage` state, which `handleSubmit` also sets; the model does not share it between the two classes.
- HomePage.HomeForm.HandleSubmit records the first loading message, but the `finally` block clears it before the handler ends. Only the cleared message is visible in its postcondition.
- ResultsPage.ResultsView.Mount reads storage through the `storage` parameter, where `storage(k)` is the k-th read. It does not read the `stored` field, because other code may write the item between the timer-driven retries.
- The files `layout.tsx` and `pdf-parse.d.ts` have no behaviour. `feedback-store.ts` is a type only; it gives the shape of the `Feedback.Record` datatype.
