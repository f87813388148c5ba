# Startup idea validator: a Dafny model

The application lets a signed-in founder describe a startup idea in an
eight-field form and get back a scored market-validation report. The browser
component builds a prompt from the form and posts it to a server route. The
route forwards the prompt to a Gemini model and strips markdown fences from
the reply. The component cleans the reply again, parses it as JSON (with a
regex fallback), shows it and saves it. A second component lists the saved
validations, deletes them and shows one in detail.

The model has seven modules:

- `Optional`: the `Option` datatype, for values that may be absent.
- `TextOps`: the JavaScript string primitives the pipeline relies on.
  These are the `\s` / `trim` white-space set, `trim`, and `indexOf` and
  `lastIndexOf` of one character.
- `Fences`: the fence clean-up that both the component and the route apply:
  four regex replacements and two trims. Each regex is written out for its one
  pattern.
- `Reports`: the `ValidationResult` report type and the 80/60 score bands.
- `IdeaValidator`:
  - the form and the prompt template;
  - `cleanJsonResponse` and the greedy-brace regex fallback;
  - the component state as the class `Validator`, with `handleInputChange`
    and `validateIdea` as methods.
- `ValidateRoute`: the `POST` route as one decision function over the
  request body, the key setting and what the upstream call produced. It also
  holds the mock report.
- `ValidationHistory`: the history component as the class `History`
  (fetch, delete, select and back), plus the pure views it renders.

Inputs from outside the program become parameters:

- `JSON.parse` is a function `string -> Option<ValidationResult>`.
  `None` means it throws.
- The route's reply, the upstream `fetch` result and the store's query result
  are values of small datatypes.
- The insert's error is a boolean.

## Model

| member | source | states |
|---|---|---|
| `TextOps.Trim` | components/idea-validator.tsx:89 | the result has no white space at either end and is no longer than the input; a text already trimmed is returned as is |
| `TextOps.TrimCutsOnlyEnds` | components/idea-validator.tsx:89 | the result is a contiguous run of the input, and everything cut before it and after it is white space |
| `TextOps.TrimKeepsAbsence` | components/idea-validator.tsx:95 | trimming introduces no character |
| `TextOps.IndexOf` | components/idea-validator.tsx:98 | `indexOf` is -1 or a valid position holding the character |
| `TextOps.IndexOfFirst` | components/idea-validator.tsx:98 | no occurrence comes before the position `indexOf` reports |
| `TextOps.LastIndexOf` | components/idea-validator.tsx:99 | `lastIndexOf` is -1 or a valid position holding the character |
| `TextOps.LastIndexOfLast` | components/idea-validator.tsx:99 | no occurrence comes after the position `lastIndexOf` reports |
| `TextOps.LineEnd` | components/idea-validator.tsx:93 | the run that `.` matches: it stops at the first line terminator (`\n`, `\r`, U+2028, U+2029) |
| `TextOps.ConcatHasInfix` | components/idea-validator.tsx:121-182 | every piece of a template occurs inside the joined text |
| `Fences.StripJsonMarkers` | components/idea-validator.tsx:87 | deleting every "```json" and the white space after it never lengthens the text |
| `Fences.MarkerScanKeepsAbsence` | components/idea-validator.tsx:87 | the scan only deletes: a character absent before is absent after |
| `Fences.MarkerScanWithoutBacktick` | components/idea-validator.tsx:87 | text without a backtick is left unchanged |
| `Fences.StripClosingFence` | components/idea-validator.tsx:88 | the result is a prefix, and when anything is removed it is a "```" followed only by white space up to the end |
| `Fences.ClosingFenceRemoved` | components/idea-validator.tsx:88 | any "```" followed only by white space at the end of a text is removed, trailing white space included |
| `Fences.ClosingFenceWithoutBacktick` | components/idea-validator.tsx:88 | text without a backtick has no closing fence |
| `Fences.StripOpeningFenceLine` | components/idea-validator.tsx:93 | the result is a suffix; when anything is removed, the text started with "```" and lost exactly its first line, up to and including a `\n`, with no other line terminator in that line |
| `Fences.OpeningFenceLineRemoved` | components/idea-validator.tsx:93 | conversely, a text "```" + x + "\n" + y, where x holds no line terminator, loses exactly its first line: the result is y |
| `Fences.StripClosingNewlineFence` | components/idea-validator.tsx:94 | a final "\n```" is removed, and nothing else changes |
| `Fences.StripFences` | components/idea-validator.tsx:86-95 | the fence clean-up yields trimmed text no longer than the input |
| `Fences.StripFencesKeepAbsence` | app/api/validate-idea/route.ts:226-235 | the fence clean-up introduces no character |
| `Fences.StripFencesWithoutBacktick` | app/api/validate-idea/route.ts:226-235 | on text without backticks the fence clean-up is plain `trim` |
| `Reports.ScoreBand` | components/idea-validator.tsx:257-267 | the bands split the integers totally: 80 and up is High, 60 to 79 Middle, below 60 Low |
| `Reports.BandMonotone` | components/validation-history.tsx:78-82 | a higher score never lands in a lower band |
| `Reports.BadgeVariant` | components/idea-validator.tsx:263-267 | "default", "secondary" and "destructive" are exactly the High, Middle and Low bands |
| `IdeaValidator.OnlyTitleAndDescriptionGate` | components/idea-validator.tsx:109-116 | the empty form cannot be submitted; clearing the title or the description blocks submission; editing any of the other six inputs never changes whether the form can be submitted |
| `IdeaValidator.With` | components/idea-validator.tsx:80-82 | the changed input takes the new value; the other seven keep theirs |
| `IdeaValidator.PromptFraming` | components/idea-validator.tsx:121-182 | every prompt begins with the fixed advisor sentence and ends with the fixed instructions and JSON template, whatever the form holds |
| `IdeaValidator.PromptEmbedsField` | components/idea-validator.tsx:121-131 | each of the eight values occurs in the prompt verbatim, right after its fixed label and followed by a line break |
| `IdeaValidator.FieldLinesEmbedField` | components/idea-validator.tsx:124-131 | each labelled value line occurs in the block of eight lines |
| `IdeaValidator.SliceBraces` | components/idea-validator.tsx:98-103 | slicing never lengthens the text and keeps trimmed text trimmed |
| `IdeaValidator.SliceBracesSpans` | components/idea-validator.tsx:98-103 | slicing happens exactly when some "{" precedes some "}", and then keeps the first "{" through the last "}"; otherwise the text is unchanged |
| `IdeaValidator.SliceIsBraced` | components/idea-validator.tsx:101-102 | a sliced text starts with "{" and ends with "}" |
| `IdeaValidator.SliceBracesIdempotent` | components/idea-validator.tsx:98-103 | slicing a second time changes nothing |
| `IdeaValidator.SliceKeepsAbsence` | components/idea-validator.tsx:102 | slicing introduces no character |
| `IdeaValidator.SliceKeepsBraced` | components/idea-validator.tsx:98-103 | a text running from "{" to "}" is kept whole |
| `IdeaValidator.CleanJsonResponse` | components/idea-validator.tsx:84-106 | the cleaned reply has no white space at either end and is never longer than the reply |
| `IdeaValidator.CleanSlicesBraces` | components/idea-validator.tsx:97-103 | when the fence-stripped text has a "{" before a "}", the result is exactly its first-"{"-to-last-"}" span, braces included |
| `IdeaValidator.CleanKeepsUnbracedText` | components/idea-validator.tsx:101-105 | otherwise the result is the fence-stripped text unchanged |
| `IdeaValidator.CleanOfPlainText` | components/idea-validator.tsx:84-106 | on trimmed text without backticks, cleaning is brace slicing alone |
| `IdeaValidator.CleanKeepsJsonText` | components/idea-validator.tsx:84-106 | text that starts with "{", ends with "}" and holds no backtick is returned unchanged |
| `IdeaValidator.CleanKeepsAbsence` | components/idea-validator.tsx:84-106 | cleaning introduces no character |
| `IdeaValidator.CleanIdempotentWithoutBackticks` | components/idea-validator.tsx:84-106 | on text without backticks, cleaning twice gives what cleaning once gives |
| `IdeaValidator.JsonMarkersSkipPlainPrefix` | components/idea-validator.tsx:87 | the "```json" scan copies a backtick-free prefix unchanged |
| `IdeaValidator.JsonMarkerInFront` | components/idea-validator.tsx:87 | a leading "```json" is deleted and the scan goes on deleting white space |
| `IdeaValidator.FencedFences` | components/idea-validator.tsx:86-95 | the fence clean-up of "```json\n" + object + "\n```" is the object |
| `IdeaValidator.BareFenceFences` | components/idea-validator.tsx:86-95 | the fence clean-up of "```\n" + object + "\n```" (a fence without a language tag) is the object |
| `IdeaValidator.CleanBareFencedObject` | components/idea-validator.tsx:84-106 | a backtick-free object wrapped in a bare "```" fence is cleaned to the object |
| `IdeaValidator.CleanFencedObject` | components/idea-validator.tsx:84-106 | a backtick-free object wrapped in a "```json" fence is cleaned to the object |
| `IdeaValidator.CleanExample` | components/idea-validator.tsx:84-106 | the reply "```json\n{\"a\":1}\n```" is cleaned to "{\"a\":1}" |
| `IdeaValidator.ClosingFenceNeedsFenceEnd` | components/idea-validator.tsx:88 | a text ending in neither white space nor a backtick has no closing fence to remove |
| `IdeaValidator.BracedSurvivesLaterSteps` | components/idea-validator.tsx:88-103 | a braced result of the first replacement passes all later steps unchanged |
| `IdeaValidator.CleanRejoins` | components/idea-validator.tsx:87 | deleting "```json" inside "`````json`json" joins the neighbours into a new "```json" |
| `IdeaValidator.CleanDeletesRejoined` | components/idea-validator.tsx:87 | a second cleaning deletes that new marker |
| `IdeaValidator.CleanNotIdempotent` | components/idea-validator.tsx:84-106 | for every braced JSON-like text of that shape, cleaning twice differs from cleaning once |
| `IdeaValidator.CleanNotIdempotentExample` | components/idea-validator.tsx:84-106 | the valid JSON `{"a":"`````json`json"}` is cleaned to `{"a":"```json"}`, and cleaned again to `{"a":""}` |
| `IdeaValidator.GreedyBraceMatch` | components/idea-validator.tsx:209 | `/\{[\s\S]*\}/` matches exactly when some "{" precedes some "}", and the match is the first-"{"-to-last-"}" span |
| `IdeaValidator.PairInTail` | components/idea-validator.tsx:209 | a first character that cannot start the match does not change whether there is one |
| `IdeaValidator.SliceBracesTail` | components/idea-validator.tsx:209 | such a first character does not change the matched span either |
| `IdeaValidator.RecoverReport` | components/idea-validator.tsx:198-220 | a cleaned text that parses is what is recovered; any recovered report is the parse of the cleaned text or of the raw reply's first-"{"-to-last-"}" span |
| `IdeaValidator.RecoverReportCases` | components/idea-validator.tsx:198-220 | a cleaned text that parses is used; otherwise the raw reply's brace span is parsed if there is one; otherwise nothing is recovered |
| `IdeaValidator.NoBraceIsMalformed` | components/idea-validator.tsx:209-219 | for a parser that accepts only objects, a reply without "{" recovers nothing |
| `IdeaValidator.NoBraceCleansBraceFree` | components/idea-validator.tsx:84-106 | cleaning a reply without "{" yields a text without "{" |
| `IdeaValidator.NoBraceNoMatch` | components/idea-validator.tsx:209-210 | the regex finds no match in a reply without "{" |
| `IdeaValidator.FallbackRepeatsCleanedText` | components/idea-validator.tsx:201-212 | when the fence clean-up leaves the reply unchanged, the retry parses the very text that already failed |
| `IdeaValidator.ScoreColor` | components/idea-validator.tsx:257-261 | green, yellow and red are exactly the High, Middle and Low bands |
| `IdeaValidator.ColorMatchesBadge` | components/idea-validator.tsx:257-267 | a score's colour and its badge always name the same band |
| `IdeaValidator.RowFor` | components/idea-validator.tsx:225-232 | the row carries the user id, the form's title and description, the form, the report, and the report's overall score |
| `IdeaValidator.ReplyReport` | components/idea-validator.tsx:184-220 | a report comes only from a delivered `result` text, and a delivered text yields exactly what recovering it yields |
| `IdeaValidator.DeliveredReplyIsRecovered` | components/idea-validator.tsx:196-220 | a delivered string `result` yields the report recovered from it, whether or not that is none |
| `IdeaValidator.FailedRepliesYieldNothing` | components/idea-validator.tsx:192-201 | an unreachable route, an error status, an unreadable body or a missing `result` recovers no report |
| `IdeaValidator.ParseReply` | components/idea-validator.tsx:192-220 | reading the reply yields exactly the report `RecoverReport` describes, or none for a failed reply |
| `IdeaValidator.Validator.constructor` | components/idea-validator.tsx:66-77 | the form starts empty, not loading, with no result |
| `IdeaValidator.Validator.HandleInputChange` | components/idea-validator.tsx:80-82 | one input changes; loading and result stay as they were |
| `IdeaValidator.Validator.ValidateIdea` | components/idea-validator.tsx:108-255 | without a title or description nothing is sent, stored or saved. Otherwise the prompt for the form is sent and `loading` ends false. A recovered report is stored and its row inserted, with the success toast whether or not the insert fails. Otherwise the previous result is kept and the error toast shown |
| `IdeaValidator.Validator.Conclude` | components/idea-validator.tsx:222-254 | given the recovered report, if any: store it and insert its row with the success toast, or keep the old result with the error toast; `loading` ends false either way |
| `ValidateRoute.GeminiRequestFor` | app/api/validate-idea/route.ts:95-128 | the prompt is the single part of the single content; `topK` is 40 and `maxOutputTokens` 8192; there are four safety settings, one per harm category, each `BLOCK_MEDIUM_AND_ABOVE` |
| `ValidateRoute.FirstText` | app/api/validate-idea/route.ts:218-223 | a text is found exactly when the body, `candidates`, `candidates[0]`, its `content`, `parts`, `parts[0]` and its string `text` all exist, and it is then that `candidates[0].content.parts[0].text` |
| `ValidateRoute.ReplyFor` | app/api/validate-idea/route.ts:133-237 | a text reply is always trimmed |
| `ValidateRoute.Post` | app/api/validate-idea/route.ts:3-319 | an upstream request is sent exactly when the body is JSON and the key is set and non-empty, and it is the request for the prompt; a text reply implies such a request and is trimmed |
| `ValidateRoute.NoKeyGivesMock` | app/api/validate-idea/route.ts:7-86 | with no key (or an empty one) the mock is returned, nothing is sent, and the upstream plays no part |
| `ValidateRoute.ErrorStatusGivesMock` | app/api/validate-idea/route.ts:133-214 | a status outside 200-299 gives the mock |
| `ValidateRoute.MissingTextGivesMock` | app/api/validate-idea/route.ts:216-223 | an unreachable upstream, an unreadable body, or a missing candidate, content, part or text gives the mock |
| `ValidateRoute.SuccessStripsText` | app/api/validate-idea/route.ts:223-237 | on success the reply is the first text part after the fence clean-up |
| `ValidateRoute.RouteOutcomes` | app/api/validate-idea/route.ts:85 | every reply is the mock or the stripped text of an ok upstream reply, reached only with a key and a JSON request |
| `ValidateRoute.ClientCleansRouteText` | app/api/validate-idea/route.ts:226-235 | for a backtick-free upstream text, the component's clean-up of the route's reply is brace slicing of the trimmed text |
| `ValidateRoute.MockReportScores` | app/api/validate-idea/route.ts:10-83 | the mock's overall score is 75 and all seven scores lie in 0..100 |
| `ValidationHistory.RemoveId` | components/validation-history.tsx:63 | filtering never lengthens the list |
| `ValidationHistory.RemoveIdRemoves` | components/validation-history.tsx:63 | every entry left was in the list and has a different id |
| `ValidationHistory.RemoveIdAppend` | components/validation-history.tsx:63 | the filter distributes over concatenation, so the kept entries stay in their order |
| `ValidationHistory.RemoveIdKeepsOthers` | components/validation-history.tsx:63 | every entry with another id keeps its number of occurrences |
| `ValidationHistory.RemoveIdIdempotent` | components/validation-history.tsx:63 | deleting the same id again changes nothing |
| `ValidationHistory.RemoveAbsentId` | components/validation-history.tsx:63 | a list without the id is unchanged |
| `ValidationHistory.TruncateDescription` | components/validation-history.tsx:236-238 | at most 153 characters; a description of up to 150 is shown whole; a longer one as its first 150 characters and "..." |
| `ValidationHistory.NatToString` | components/validation-history.tsx:212 | the count renders as a non-empty run of decimal digits with no leading "0" except for the count 0 itself |
| `ValidationHistory.NatToStringRoundTrip` | components/validation-history.tsx:212 | the rendered digits read back as the count |
| `ValidationHistory.CountLabel` | components/validation-history.tsx:211-213 | the label is the count, then " validation", then an "s" exactly when the count is not 1 |
| `ValidationHistory.Preview` | components/validation-history.tsx:173 | the first min(5, n) entries, in stored order |
| `ValidationHistory.KeyRecommendations` | components/validation-history.tsx:173 | the recommendations card shows the first min(5, n) stored recommendations, in their stored order |
| `ValidationHistory.MajorRisks` | components/validation-history.tsx:191 | the risks card shows the first min(5, n) stored major risks, in their stored order |
| `ValidationHistory.ListBadge` | components/validation-history.tsx:241-242 | the list badge is "default" exactly for an `overall_score` of 80 or more, "secondary" exactly for 60 to 79, "destructive" exactly below 60 |
| `ValidationHistory.DetailBadge` | components/validation-history.tsx:124-125 | the detail badge is "default" exactly for a report `overallScore` of 80 or more, "secondary" exactly for 60 to 79, "destructive" exactly below 60 |
| `ValidationHistory.BadgesAgreeOnInsertedRows` | components/validation-history.tsx:124-125 | for a row the validator inserted, the list and detail badges agree |
| `ValidationHistory.History.constructor` | components/validation-history.tsx:26-28 | an empty list, loading, nothing selected |
| `ValidationHistory.History.FetchValidations` | components/validation-history.tsx:35-55 | rows replace the list (null rows give the empty list); an error keeps the list; `loading` ends false |
| `ValidationHistory.History.DeleteValidation` | components/validation-history.tsx:57-76 | on success the list is the filtered old list; on a store error it is unchanged |
| `ValidationHistory.History.Select` | components/validation-history.tsx:259 | the chosen entry becomes the detail view; the list is untouched |
| `ValidationHistory.History.Back` | components/validation-history.tsx:111 | the detail view closes; the list is untouched |

## Notes on behaviour

- **Idempotence.** `cleanJsonResponse` is not idempotent, even on valid
  JSON. Deleting a "```json" inside a string value can join the characters
  on either side into a new "```json", which the next cleaning deletes. The
  valid JSON `{"a":"`````json`json"}` cleans to `{"a":"```json"}` and then
  to `{"a":""}` (`CleanNotIdempotentExample`). Idempotence does hold on
  text without backticks (`CleanIdempotentWithoutBackticks`).
- **Regex fallback.** The fallback regex runs on the raw `data.result`
  (components/idea-validator.tsx:209), not on the cleaned text. When the
  fence clean-up changes nothing, the retry parses the text that has just
  failed (`FallbackRepeatsCleanedText`).

## Left out

- Rendering, styling, toasts' wording and console logging: presentational.
  In `validateIdea` the toast is modelled only as which of the three notices
  is shown. The history component's toasts (a failed fetch, a deleted entry,
  a failed delete; components/validation-history.tsx:47-51, 64-67, 70-74) are
  not modelled at all; only the list, loading and selection changes are.
- components/auth.tsx, lib/supabase.ts and the store's own semantics are not
  part of this model. Query results, the insert's error and the rows' `id` and
  `created_at` are inputs. This includes newest-first ordering and row
  ownership.
- `fetch`, `request.json()`, `response.json()` and the model's behaviour:
  network I/O, given as values of the `ApiReply`, `IncomingRequest` and
  `Upstream` datatypes.
- `JSON.parse` and `JSON.stringify`: `parse` is a parameter. The route's
  mock reply is the tag `MockReply`, standing for the JSON of `MockReport`.
- `ValidateRoute.ClientCleansRouteText`: stated only for upstream text
  without backticks. With backticks, the component's second fence clean-up
  can still change the route's text, because the clean-up is not idempotent
  (`IdeaValidator.CleanNotIdempotent`). So in general the component's result
  is not brace slicing of the route's reply alone.
- `IdeaValidator.ParseReply`: a parse result that is not report-shaped
  (`null`, say) is not modelled. `parse` yields a `ValidationResult` or
  nothing.
- Trim: its own contract says only that the result is trimmed and no longer.
  That it is the input with only leading and trailing white space removed is
  the lemma `TextOps.TrimCutsOnlyEnds`. It is kept apart because an
  existential in `Trim`'s contract burdens every proof that uses `Trim`.
- StripOpeningFenceLine: its own contract says only what a removal looks
  like. That a first line "```..." ended by "\n" is always removed is the
  lemma `Fences.OpeningFenceLineRemoved`.
- The request's `prompt` is taken to be a string or absent. A JSON body whose
  `prompt` is a number, an object or `null` is destructured all the same
  (app/api/validate-idea/route.ts:5) and forwarded as the part's `text`
  (route.ts:100); `IncomingRequest` cannot represent it.
- The route writes its mock report out three times (route.ts:10-83, 138-211,
  242-315). The three copies are identical, so `MockReport` holds it once.
- `temperature` 0.7 and `topP` 0.95 are floating-point constants and are not
  part of `GeminiRequest`. The key's place in the request URL is not modelled
  either.
- The route's HTTP status is always 200 (`NextResponse.json` without an
  option). This is stated by `RouteReply` having only a mock and a text case,
  not by a status field.
- `formatDate` (`toLocaleDateString`): a locale-dependent library call.
- Async ordering, overlapping submissions and re-render timing: concurrency
  and the framework runtime. Each method runs as one step.
- The dashboard, landing page, verified page and layout: tab toggling and
  static content.
- Text outside the Basic Multilingual Plane. A Dafny `char` is a Unicode
  scalar value, so a lone UTF-16 surrogate cannot be represented. The model
  covers BMP text, where one `char` is one UTF-16 code unit and `length`,
  `indexOf` and `substring` count as in JavaScript. In particular
  `TruncateDescription` does not capture `substring(0, 150)` cutting a
  surrogate pair in half.
- Scores are `int`. A JSON report may carry fractional numbers (79.5, say),
  which `ScoreBand`, `BadgeVariant`, `ScoreColor`, `ListBadge` and
  `DetailBadge` do not cover; the source's comparisons would place them the
  same way by the 80 and 60 thresholds.
- That a stored row repeats the inserted columns (title, description,
  score, report) is an assumption about the store, written as
  `ValidationHistory.Stored`; it is used by `BadgesAgreeOnInsertedRows`.
