# AI mock-interview platform: feedback pipeline, score report and auth gate

This Dafny project models the core of an AI mock-interview platform:

- **Question generation.** The backend builds a prompt from a job description and sends it to a generative language model. It strips Markdown fences from the reply and parses it as a JSON array of questions. It stores a new interview record with the trimmed comma-separated tech stack.
- **Transcript evaluation.** After a voice session, the backend renders the transcript as `role: text` lines. It asks the model for an evaluation in a fixed layout, turns any failure into the text `Feedback failed: <message>`, and parses the reply into five scored categories plus an overall summary. It then completes the user's interview record in place.
- **Feedback page.** The frontend shows the rounded mean of the five scores, a colour per score band, a letter grade, and the user's profile image. A relative image path is prefixed with the backend host.
- **The `protect` middleware.** It extracts a bearer token from the `Authorization` header, verifies it, looks the user up, and either attaches the user to the request and calls `next` or answers 401.

Modules:

- `Options`: `Option` and `Result`.
- `Strings`: the JavaScript string operations the code relies on:
  - `\s`/`trim` whitespace and line terminators;
  - `trim` and `startsWith`;
  - literal search;
  - one-character `split`/`join`;
  - decimal digit runs and `parseInt`.
- `InterviewModel`: the stored record (`Interview`, `Feedback`, `Category`, `Entry`) with the schema defaults.
- `FeedbackParser`: `parseFeedback` with its three regular expressions modelled exactly: the score expression and the text expression, built per heading, and the summary expression. This covers a case-sensitive literal heading, a lazy same-line gap, a greedy digit run before `/100`, a text capture up to `**` or the end, and the overall summary.
- `FeedbackExamples`: concrete replies:
  - an unclamped score;
  - a lower-case heading;
  - a score on the next line;
  - a reply in the layout the evaluation prompt asks for.
- `InterviewService`:
  - transcript rendering, fence removal and tech-stack splitting;
  - the two prompts as template literals;
  - the `analyzeTranscript` fallback;
  - the `userId` guard;
  - the pure evaluation step.
- `Store`: the interview collection as a class. `GenerateInterview` appends one record. `ProcessTranscript` completes one record in place. The language model and `JSON.parse` are function parameters (oracles). The cover image and the completion time are plain parameters, and each method also returns the prompts it sent.
- `ReportScore`: `calculateOverallScore`, both copies of `getScoreColor`, `getGradeFromScore` and profile-image prefixing.
- `AuthGate`: token extraction, the pure decision `Gate`, and `Protect` as a method over `Request` and `Response` objects. Token verification and the user lookup are oracles.

Behaviour of `parseFeedback` worth knowing:

- **Headings are case-sensitive.** They are matched literally, so `communication skills:` is not recognised.
- **The summary is found anywhere.** It starts at the first `Overall Feedback:` in the text, wherever it stands, matched case-sensitively, and runs to the end of the text. When the phrase is missing the summary is `""`.
- **Category text is empty in the prompt's own layout.** The layout the evaluation prompt requests (`**Label: N/100**`, explanation on the next line) gives an empty text for every category, because the closing `**` ends the capture at once. The summary keeps the `**` that closes the bold phrase. `FeedbackParser.TemplateLineCategory` proves the general case. `FeedbackExamples.SampleParse` shows it on a reply.
- **Scores are not clamped.** `250/100` gives 250.

## Model

| member | source | states |
|---|---|---|
| `FeedbackParser.FindMatch` | backend/services/vapiService.js:205-215 | the occurrence both regexes match: a heading followed by `:` at p, then a digit run starting at q on the same line whose whole run is followed by `/100`; no earlier heading position matches at all, and no earlier digit position matches at p |
| `FeedbackParser.Get` | backend/services/vapiService.js:205-209 | the score is either the value of the whole digit run of a first match, or 0 when the heading matches nowhere |
| `FeedbackParser.GetText` | backend/services/vapiService.js:211-215 | the text is trimmed; it is `""` when the heading matches nowhere, and non-empty only when there is a first match |
| `FeedbackParser.CategoryOf` | backend/services/vapiService.js:205-215 | a category is the default `{0, ""}` or is read from a first match of its heading; its text is trimmed; no match at all gives the default |
| `FeedbackParser.OverallOf` | backend/services/vapiService.js:238 | the summary is trimmed, and non-empty only when `Overall Feedback:` occurs in the text |
| `FeedbackParser.ParseFeedback` | backend/services/vapiService.js:204-240 | every one of the five categories is its default or read from a match of its own heading, every text is trimmed, and a non-empty summary needs the phrase `Overall Feedback:` |
| `FeedbackParser.FindMatchIsFirst` | backend/services/vapiService.js:206-207 | the first match (least heading position, then least digit position) is exactly what the matcher reports |
| `FeedbackParser.GetOfFirstMatch` | backend/services/vapiService.js:205-209 | a category's score is the decimal value of the whole digit run of the first match |
| `FeedbackParser.GetTextOfFirstMatch` | backend/services/vapiService.js:211-215 | a category's text comes from the same match as its score: it runs from the end of the whitespace after `/100` to the next `**` or the end, and is trimmed |
| `FeedbackParser.FirstMatchWholeRun` | backend/services/vapiService.js:206 | the captured digits are a whole run: the character before them is not a digit |
| `FeedbackParser.StarsAfterScoreGiveEmptyText` | backend/services/vapiService.js:212-214 | when `**` follows `/100` (after optional whitespace), the text is empty |
| `FeedbackParser.TemplateLineCategory` | backend/services/vapiService.js:205-215 | at the first heading, `<heading>:<gap><digits>/100**` (gap without digits or line breaks) gives score = value of the digits and text `""`, whatever follows |
| `FeedbackParser.CategoryWithoutMatch` | backend/services/vapiService.js:208 | a heading with no match keeps score 0 and text `""` |
| `FeedbackParser.CategoryWithoutLabel` | backend/services/vapiService.js:206 | a heading that never occurs followed by `:` keeps the defaults |
| `FeedbackParser.HeadingCharMissing` | backend/services/vapiService.js:206 | a text lacking any one character of a heading keeps that category's defaults (case-sensitive literal match) |
| `FeedbackParser.OverallOfFirstPhrase` | backend/services/vapiService.js:238 | the summary is everything after the first `Overall Feedback:` and its whitespace, to the end of the input, trimmed |
| `FeedbackParser.OverallWithoutPhrase` | backend/services/vapiService.js:238 | no `Overall Feedback:` gives summary `""` |
| `FeedbackParser.ParseWithoutColon` | backend/services/vapiService.js:204-239 | text with no colon parses to all schema defaults |
| `FeedbackParser.ParseEmpty` | backend/services/vapiService.js:204-239 | the empty text parses to all schema defaults |
| `FeedbackExamples.ScoreNotClamped` | backend/services/vapiService.js:208 | `Communication Skills: 250/100` gives score 250 |
| `FeedbackExamples.LowerCaseLabelIgnored` | backend/services/vapiService.js:206 | a lower-case heading is not recognised |
| `FeedbackExamples.ScoreOnNextLineIgnored` | backend/services/vapiService.js:206 | a score on the line after the heading is not found |
| `FeedbackExamples.SampleCommunication` | backend/services/vapiService.js:211-215 | in the layout the evaluation prompt requests, the Communication category is score 85 with text `""` although an explanation follows |
| `FeedbackExamples.SampleOverall` | backend/services/vapiService.js:238 | in that layout the summary keeps the closing `**` |
| `FeedbackExamples.SampleParse` | backend/services/vapiService.js:204-239 | the whole parse of that reply: one scored category with empty text, four defaults, the summary |
| `InterviewService.Lines` | backend/services/vapiService.js:120 | one `role: text` line per entry, in transcript order |
| `InterviewService.RenderTranscript` | backend/services/vapiService.js:120 | an empty transcript renders as `""` |
| `InterviewService.RenderSplitsIntoLines` | backend/services/vapiService.js:120 | for single-line entries, splitting the rendering at newlines gives back exactly the rendered entries |
| `InterviewService.RenderNewlineCount` | backend/services/vapiService.js:120 | n single-line entries give n - 1 newlines |
| `InterviewService.RenderTwoTurns` | backend/services/vapiService.js:120 | a two-turn session renders as `assistant: Hello\nuser: Hi` |
| `InterviewService.RemoveFences` | backend/services/vapiService.js:60 | fence removal never lengthens the reply |
| `InterviewService.RemoveFencesWithoutBackticks` | backend/services/vapiService.js:60 | text without backticks is unchanged by fence removal |
| `InterviewService.CleanWithoutBackticks` | backend/services/vapiService.js:60 | cleaning text without backticks is just trimming |
| `InterviewService.BareFenceOpening` | backend/services/vapiService.js:60 | a bare fence around a backtick-free payload that does not start with `json` is not taken for a "```json" opening |
| `InterviewService.CleanFencedPayload` | backend/services/vapiService.js:60 | a payload in "```json … ```", or in "``` … ```" when it does not start with `json`, is recovered and trimmed |
| `InterviewService.SplitTechstack` | backend/services/vapiService.js:79 | k commas give k + 1 entries; entry i is field i, trimmed and comma-free, and the fields joined with commas give back the input |
| `InterviewService.SplitTechstackOfJoin` | backend/services/vapiService.js:79 | splitting comma-joined comma-free fields trims each field |
| `InterviewService.TechstackKeepsEmptyFields` | backend/services/vapiService.js:79 | `"a,,b"` gives `["a", "", "b"]` |
| `InterviewService.TechstackTrimsFields` | backend/services/vapiService.js:79 | `"React, Node.js"` gives `["React", "Node.js"]` |
| `InterviewService.AnalyzeReply` | backend/services/vapiService.js:190-198 | a failed call gives `Feedback failed: ` + its message; an empty reply gives `Feedback failed: Empty feedback from Gemini`; a reply is trimmed |
| `InterviewService.FailureTextNamesNoHeading` | backend/services/vapiService.js:197 | `Feedback failed: ` holds none of the headings' first letters, so the failure text names a heading only if the message does |
| `InterviewService.ColonFreeNamesNoHeading` | backend/services/vapiService.js:192 | a colon-free message, such as the empty-reply message, names no heading |
| `InterviewService.CapitalFreeNamesNoHeading` | backend/services/vapiService.js:195-198 | a message without a capital C, T, P or O names no heading, whatever colons or URLs it holds |
| `InterviewService.FailedAnalysisGivesDefaults` | backend/services/vapiService.js:195-198 | the failure text of any message that contains no `<heading>:` and no `Overall Feedback:` (URLs, colons and digits allowed) parses to all schema defaults, so such a failure is stored as defaults, never raised |
| `InterviewService.EmptyReplyGivesDefaults` | backend/services/vapiService.js:192 | an empty reply is parsed as the default feedback |
| `InterviewService.UserIdEdgeCases` | backend/services/vapiService.js:21-23 | an absent or null id, the number 0 and text that is not an optionally signed decimal integer are rejected; the text `"0"` is accepted as user 0 |
| `InterviewService.CleanResponse` | backend/services/vapiService.js:60 | the cleaned reply is trimmed and never longer than the raw reply |
| `InterviewService.QuestionsOf` | backend/services/vapiService.js:44-70 | questions exist exactly when the call answered with non-empty text whose cleaned form parses to a JSON array, and they are that array; a failed call or an empty reply gives none |
| `InterviewService.Interpolate` | backend/services/vapiService.js:25-34 | a template literal starts with its first fixed piece |
| `InterviewService.InterpolateAt` | backend/services/vapiService.js:25-34 | each interpolated value stands between its two neighbouring fixed pieces, at the offset of the text before it |
| `InterviewService.QuestionPrompt` | backend/services/vapiService.js:25-34 | the question prompt opens with the template's fixed text |
| `InterviewService.QuestionPromptShowsFields` | backend/services/vapiService.js:25-34 | the count, role, level, tech stack and focus each appear in the prompt between the fixed texts the template puts around them (a missing one as `undefined`) |
| `InterviewService.EvaluationPrompt` | backend/services/vapiService.js:151-175 | the evaluation prompt opens with the fixed instructions and ends with the transcript verbatim followed by a newline |
| `InterviewService.NumericText` | backend/services/vapiService.js:82 | decimal digits read as their value; a number is only read from empty text, digits, or a sign followed by digits; a negative result needs a leading `-` |
| `InterviewService.NumberOf` | backend/services/vapiService.js:82 | a number stays itself, an absent id is `NaN`, null and empty text are 0, text converts after trimming |
| `InterviewService.ValidUserId` | backend/services/vapiService.js:21 | an accepted id is truthy (not absent, null, 0, `""` or `false`) and converts to a number; a number is accepted exactly when it is not 0 |
| `InterviewService.ShownIdRoundTrip` | backend/services/vapiService.js:21-23 | a positive id sent as its decimal text is accepted and converts back to the same number |
| `InterviewService.GenErrorMessage` | backend/services/vapiService.js:21-79 | the three failures carry distinct messages: the invalid-id message, `AI question generation failed`, and the `TypeError` of calling `split` on an absent tech stack |
| `InterviewService.EvaluateTranscript` | backend/services/vapiService.js:120-127 | a failed evaluation is parsed as its failure text, an empty reply as the empty-feedback failure text, and a reply as its trimmed text |
| `InterviewService.FailedEvaluationStoresDefaults` | backend/services/vapiService.js:120-126 | an evaluation that fails with a message naming no heading, or comes back empty, yields the default feedback |
| `Store.Complete` | backend/services/vapiService.js:130-133 | a completed record carries the transcript, the feedback, the completed status and the time, and differs from the original in nothing else |
| `Store.InterviewStore.GenerateInterview` | backend/services/vapiService.js:16-94 | an invalid user id fails before any prompt is sent; a failed model call or a reply that is not an array fails; with a valid id, an array reply and a tech stack the call always succeeds; every failure leaves the store unchanged; a success appends exactly one pending record with the request fields, the split tech stack, the questions, the numeric user id and the default feedback, under a fresh id |
| `Store.InterviewStore.ProcessTranscript` | backend/services/vapiService.js:99-145 | "not found" exactly when the user has no record, and then nothing is sent or changed; otherwise one record of the user gets the transcript, the parsed evaluation of the rendered transcript, the completed status and the time; all other records stay the same; the answer count is the transcript length; the answer reports success and `Transcript processed` exactly when a record was found, `Interview not found` otherwise |
| `Store.InterviewStore.FindRecordOf` | backend/services/vapiService.js:111-116 | some record of the user, or none exactly when the user has none |
| `Store.InterviewStore.CompleteRecord` | backend/services/vapiService.js:130-135 | only record i changes, to its completed form; ids stay distinct |
| `ReportScore.RoundFifth` | frontend/src/components/Feedback.js:78 | `Math.round(t / 5)`: the result r satisfies 10r - 5 ≤ 2t < 10r + 5 |
| `ReportScore.OverallScore` | frontend/src/components/Feedback.js:66-79 | 0 without a feedback object; otherwise the integer nearest to the mean of the five scores, a missing score counting as 0 |
| `ReportScore.OverallOfEqualScores` | frontend/src/components/Feedback.js:69-78 | five equal scores s give s |
| `ReportScore.OverallInRange` | frontend/src/components/Feedback.js:69-78 | scores in [0, 100] give an overall score in [0, 100] |
| `ReportScore.OverallOfMissingScores` | frontend/src/components/Feedback.js:69-75 | a feedback object without scores, and the schema's default feedback, give 0 |
| `ReportScore.ScoreColor` | frontend/src/components/Feedback.js:81-86 | green exactly from 80, yellow exactly in [60, 80), orange exactly in [40, 60), red exactly below 40 |
| `ReportScore.ScoreCardColor` | frontend/src/components/Feedback.js:316-321 | the score card's copy returns one of the four colours |
| `ReportScore.CardColorAgrees` | frontend/src/components/Feedback.js:316-321 | the score card's copy gives the same colour as the page helper for every score |
| `ReportScore.ColorMonotone` | frontend/src/components/Feedback.js:81-86 | a higher score never gets a worse colour |
| `ReportScore.Grade` | frontend/src/components/Feedback.js:88-95 | A+ exactly from 90, A in [80, 90), B+ in [70, 80), B in [60, 70), C in [50, 60), D below 50 |
| `ReportScore.GradeMonotone` | frontend/src/components/Feedback.js:88-95 | a higher score never yields a lower grade |
| `ReportScore.GradeMatchesColor` | frontend/src/components/Feedback.js:81-95 | A grades are exactly the green scores, B grades exactly the yellow ones; a C is orange; a red score is a D |
| `ReportScore.NormalizeProfileImage` | frontend/src/components/Feedback.js:22-24 | a non-empty path not starting with `http` gets the prefix `http://localhost:5000/`; an absent, empty or `http` image is untouched; every non-empty result starts with `http` |
| `ReportScore.NormalizeIdempotent` | frontend/src/components/Feedback.js:22-24 | normalising twice is normalising once |
| `AuthGate.TokenOf` | backend/middleware/authMiddleware.js:8-13 | a token exists only for a present header starting with `Bearer`, and is non-empty and space-free |
| `AuthGate.TokenIsSecondField` | backend/middleware/authMiddleware.js:12 | the token starts right after the header's first space and runs to the end or to the next space |
| `AuthGate.TokenOfBearerHeader` | backend/middleware/authMiddleware.js:12 | `<first> <token>` with `first` starting with `Bearer` carries `token` |
| `AuthGate.TokenOfLongerHeader` | backend/middleware/authMiddleware.js:12 | further space-separated fields after the token do not matter |
| `AuthGate.NoSpaceNoToken` | backend/middleware/authMiddleware.js:12 | a header without a space has no token |
| `AuthGate.EmptySecondFieldNoToken` | backend/middleware/authMiddleware.js:12-17 | an empty second field is no token |
| `AuthGate.BearerTokenExample` | backend/middleware/authMiddleware.js:12 | `Bearer abc` gives `abc` |
| `AuthGate.SchemeOnlyExamples` | backend/middleware/authMiddleware.js:12-17 | `Bearer` and `Bearerabc` give no token |
| `AuthGate.DoubleSpaceExample` | backend/middleware/authMiddleware.js:12-17 | `Bearer  abc` gives no token |
| `AuthGate.OtherSchemeExamples` | backend/middleware/authMiddleware.js:8-13 | another scheme, or no header, gives no token |
| `AuthGate.Gate` | backend/middleware/authMiddleware.js:15-31 | admit exactly when a token exists, verifies, and its user is found, with that user; "User not found" exactly when the lookup finds no user; every other refusal is "Not authorized" |
| `AuthGate.NoTokenDenied` | backend/middleware/authMiddleware.js:8-17 | a missing or non-`Bearer` header is refused as "Not authorized" whatever the oracles say |
| `AuthGate.AdmittedUserIsFound` | backend/middleware/authMiddleware.js:19-27 | the request is admitted with user u exactly when some token verifies to an id whose lookup finds u |
| `AuthGate.Response.Unauthorized` | backend/middleware/authMiddleware.js:16 | the response becomes status 401 with body `{success: false, error: message}` |
| `AuthGate.Protect` | backend/middleware/authMiddleware.js:4-32 | `next` is called exactly when the decision admits, and then `req.user` is the user found and the response is untouched; otherwise the response is 401 with the decision's message; `req.user` becomes null exactly on "User not found" and is otherwise left alone on refusal |

## Left out

- **Network and model calls.** The HTTP calls to the model (`fetch`, request and response JSON) are oracles `string -> AiReply`. An `AiReply` is the reply text (`""` when the response has no candidate text) or the message of the error raised.
- **JSON parser.** `JSON.parse` is an oracle `string -> Json`. The elements of a parsed array are taken to be strings; the schema's casting of other elements is not modelled.
- **Persistence.** The interview store is in memory. `save` failures and the `userId` cast in `findOne` are not modelled. Strict-mode dropping of fields the schema does not declare is not modelled either: the model's record keeps `status`, as the service sets it, and has no `amount`.
- **Choice of record.** The sort on `createdAt` cannot order records, because the service never sets that field. `FindRecordOf` may therefore pick any record of the user.
- **Randomness and dates.** The cover image and the completion time are inputs. `generateInterview` models the stored `completedAt: null` as `None`.
- InterviewService.NumberOf, InterviewService.NumericText, InterviewService.ValidUserId, InterviewService.UserIdEdgeCases: `Number(userId)` is modelled as optional sign plus decimal digits after trimming, with empty text giving 0 and booleans giving 0 or 1. Hexadecimal, exponent and fractional literals and `Infinity` are read as `NaN`, so the model rejects ids such as `1e3`, `0x10`, `1.5` or `Infinity` that the source accepts as 1000, 16, 1.5 and Infinity; arrays or objects as ids are not modelled.
- InterviewService.InterviewRequest: request fields are optional strings. Fields of other JSON types, and how the template literal would print them, are not modelled. A missing `techstack` makes `split` throw (`TechstackMissing`); a present value other than a string is not modelled.
- **Score precision.** Scores are unbounded naturals; JavaScript number precision for very long digit runs is not modelled.
- **Transcript entries.** `role` and `text` are taken to be present strings.
- **Other parts of the system:**
  - the PDF export of the feedback page;
  - the React UI, `localStorage` and the JSON parsing of the stored user around the image prefixing;
  - the other routes and controllers;
  - the authentication service;
  - the internals of JWT verification (its secret is part of the verification oracle);
  - logging, which has no effect on results.
- Store.InterviewStore.GenerateInterview, Store.InterviewStore.ProcessTranscript: each is taken as one atomic step on the shared store. In the source both await (the model call, `findOne`, `save`) between their checks and the write, so two concurrent `processTranscript` calls for one user can both complete the same record, the last `save` winning; interleavings are not modelled.
- AuthGate.Protect: the middleware is `async`. Its one await point (the lookup) is taken as atomic, and there is no concurrency.
