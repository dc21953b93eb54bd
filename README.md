# ChromaScan in Dafny

ChromaScan scans a photo of a product label. Text detection reads the label,
and a knowledge base of ingredients is matched against that text. A language
model then writes a short summary, and the user can ask follow-up questions
about the matched ingredients. This project models the three parts of the
system where its decisions are made:

- the image-analysis route `POST /api/analyze` (module `AnalyzeRoute`):
  - the rate-limit verdict and the upload checks (presence, 5 MiB size
    limit, MIME type), in order;
  - text normalisation (lower case; newline, comma and period become spaces);
  - the knowledge-base matcher, as an imperative method with loop invariants
    proved equal to a recursive specification;
  - the branch on the number of matches (fewer than three gives a
    front-of-package summary, three or more an ingredient analysis);
  - the `- name: summary` context lines, the summary clean-up (leading-colon
    rewrite, trim, fallback strings) and the catch-all 500 error;
- the follow-up chat route `POST /api/chat` (module `ChatRoute`):
  - request validation;
  - the `User:` / `Assistant:` history text;
  - the triage verdict and its SAFETY short-circuit;
  - the analyst answer and its fallback;
  - the final YES/NO screen;
  - the order and number of model calls, and the catch-all 500 error;
- the client component (module `ChromaScanClient`):
  - a class `ChromaScan` whose fields are the four pieces of React state;
  - its two handlers, as methods specified by pure step functions;
  - the guard that shows the follow-up form.

Supporting modules:

- `Strings`: the JavaScript string operations the code relies on
  (`toLowerCase`, `toUpperCase`, `trim`, `includes`, `join('\n')`) and
  `split('\n')`, which is used only to state round trips.
- `Domain`: the records of `types/index.d.ts`.
- `Llm`: a model call as a request value, with the model name, the data put
  into the prompt and the token limit.
- `Prompts`: the text serialisations.

## Modelling decisions

- Every language-model provider is a function argument `llm` from request to
  completion. A completion either throws or returns content, which may be
  absent. Each route returns the list of requests it made, so the order and
  number of calls are part of every result.
- Text detection, the knowledge-base file, the rate limiter and the API-key
  checks are inputs of the analyze route. `Services` holds them:
  - a rate-limit verdict;
  - `OcrFailed` or the detected text;
  - the parsed catalog, or `None` when reading or parsing fails;
  - whether the model key is set.
- The client's HTTP calls are modelled by what they yield. A delivered body,
  or a rejection carrying the server's `error` field and the client's own
  message. `ScanReply` and `ChatReply` translate a route's response into that
  form. A non-2xx status becomes a rejection with the message
  `Request failed with status code N`.
- Two behaviours of the code that are easy to miss are stated as lemmas:
  - Content made only of white space is truthy, so it passes the rich
    branch's fallback and gives an empty summary. The front-page branch
    trims first and so falls back (`AnalyzeRoute.BlankContentGivesEmptySummary`).
  - Normalisation turns every comma, period and newline in the text into a
    space, so an ingredient whose name holds one of them can never match by
    name (`AnalyzeRoute.PunctuatedNameNeverHits`).
- The chat route accepts an empty context array, because `[]` is truthy.
  The client shows the form only when the context is non-empty
  (`ChromaScanClient.FollowUpRequestAccepted`,
  `ChromaScanClient.FollowUpOfferedAfterAnalysis`).

## Model

| member | source | states |
|---|---|---|
| Strings.Lower | app/api/analyze/route.ts:119 | same length; each ASCII upper-case letter becomes its lower-case form, every other character is kept, and no upper-case letter remains |
| Strings.Upper | app/api/chat/route.ts:38 | same length; each ASCII lower-case letter becomes its upper-case form, every other character is kept, and no lower-case letter remains |
| Strings.Trim | app/api/chat/route.ts:79 | `trim` never lengthens its input and leaves no white space at either end (partner: `Strings.TrimSplit`) |
| Strings.Contains | app/api/analyze/route.ts:123 | an `includes` match needs the searched text to be no longer than the string (partner: `Strings.ContainsAt`) |
| Strings.JoinLines | app/api/chat/route.ts:14-16 | `join('\n')` of no lines is empty and otherwise starts with the first line (partners: `Strings.SplitJoin`, `Strings.JoinEndsWithLast`) |
| Strings.TrimSplit | app/api/chat/route.ts:79 | `trim` returns a string with no white space at either end, and removes only white space from the two ends of its input |
| Strings.TrimEmpty | app/api/chat/route.ts:38 | `trim` yields the empty string exactly when the input is all white space |
| Strings.TrimIdempotent | app/api/analyze/route.ts:163 | trimming twice is trimming once |
| Strings.ContainsAt | app/api/chat/route.ts:43 | `includes` holds exactly when some window of the string equals the searched text |
| Strings.MissingCharNotContained | app/api/chat/route.ts:43 | a text holding a character the string lacks is never included in it |
| Strings.ColonSummary | app/api/analyze/route.ts:204 | after a leading colon, replacing the colon and its white space by `": "` and trimming gives `":"` for a blank rest and `": "` plus the trimmed rest otherwise |
| Strings.SplitJoin | app/api/chat/route.ts:14-16 | splitting newline-joined lines gives the lines back when none holds a newline |
| Strings.JoinEndsWithLast | app/api/analyze/route.ts:174-176 | `join('\n')` ends with the last line, with no trailing newline |
| Strings.NatToString | app/api/analyze/route.ts:55 | the interpolated number is a non-empty string of decimal digits with no leading zero, and those digits denote the number |
| Prompts.SerializeContext | app/api/analyze/route.ts:174-176 | the context text is empty exactly when nothing matched, and otherwise starts with the first match's `- name: summary` line |
| Prompts.SerializeHistory | app/api/chat/route.ts:14-16 | the history text is empty exactly when the history is absent or empty, and otherwise starts with the first message's `Speaker: content` line |
| Prompts.ContextRoundTrip | app/api/analyze/route.ts:174-176 | the context text of a non-empty match list splits back into exactly one `- name: summary` line per match, in match order, when no name or summary holds a newline |
| Prompts.ContextEndsWithLastLine | app/api/chat/route.ts:50 | the context text ends with the last match's line |
| Prompts.EmptyHistory | app/api/chat/route.ts:14 | a missing or empty history serialises to the empty string |
| Prompts.HistoryLineParses | app/api/chat/route.ts:15 | each history line reads back as the message it came from: `User: ` for the user, `Assistant: ` otherwise |
| Prompts.ParseLinesOfHistory | app/api/chat/route.ts:14-16 | the history lines read back, in order, as the messages |
| Prompts.HistoryRoundTrip | app/api/chat/route.ts:14-16 | a non-empty serialised history reads back as the original messages, roles and order included, when no content holds a newline |
| Llm.TrimmedOr | app/api/analyze/route.ts:163 | the result is the fallback for absent or blank content; otherwise it is non-empty, trimmed, and the content minus surrounding white space |
| AnalyzeRoute.ValidateUpload | app/api/analyze/route.ts:36-63 | a missing file gives 400; otherwise more than 5 MiB gives 413; otherwise a type outside the five allowed gives 415; otherwise it passes. Each case holds if and only if its condition holds |
| AnalyzeRoute.TooLargeMessage | app/api/analyze/route.ts:44-56 | the 413 message names the limit as `5MB` |
| AnalyzeRoute.SizeBoundary | app/api/analyze/route.ts:44-63 | exactly 5 MiB is accepted, one byte more is 413 whatever the type, and `image/jpg` is 415 |
| AnalyzeRoute.Normalise | app/api/analyze/route.ts:119 | same length; each newline, comma and period becomes a space, and every other character is lower-cased; no upper-case letter or punctuation of the three remains |
| AnalyzeRoute.NormaliseIdempotent | app/api/analyze/route.ts:119 | normalising normalised text changes nothing |
| AnalyzeRoute.MatchCatalog | app/api/analyze/route.ts:122-133 | the match list is never longer than the knowledge base |
| AnalyzeRoute.MatchCatalogMembers | app/api/analyze/route.ts:122-133 | an entry is in the match list if and only if it is in the knowledge base and its lower-cased name or some lower-cased alias occurs in the text |
| AnalyzeRoute.PositionsAscend | app/api/analyze/route.ts:122 | the matched positions strictly ascend and lie inside the knowledge base |
| AnalyzeRoute.PositionsPick | app/api/analyze/route.ts:124-129 | the match list is the knowledge base read at the matched positions |
| AnalyzeRoute.PositionsExact | app/api/analyze/route.ts:123-128 | a position is matched exactly when its entry matches the text |
| AnalyzeRoute.MatchCatalogSelects | app/api/analyze/route.ts:122-133 | the match list is the subsequence of the knowledge base at exactly the matching positions, each position contributing at most once, in catalog order |
| AnalyzeRoute.MatchCatalogCounts | app/api/analyze/route.ts:122-133 | each entry occurs in the match list as often as in the knowledge base if it matches, and not at all otherwise |
| AnalyzeRoute.MatchCatalogIdempotent | app/api/analyze/route.ts:122-133 | matching the match list against the same text gives the same list |
| AnalyzeRoute.NameInTextIsFound | app/api/analyze/route.ts:119-126 | an entry whose name stands in the scanned text in any letter case, free of newline, comma and period, is found |
| AnalyzeRoute.PunctuatedNameNeverHits | app/api/analyze/route.ts:119-123 | a name holding a newline, comma or period never matches the normalised text by name |
| AnalyzeRoute.FindIngredients | app/api/analyze/route.ts:120-133 | the loop, with `continue` after a name hit and `break` after the first alias hit, computes exactly the specified match list |
| AnalyzeRoute.ReplaceLeadingColon | app/api/analyze/route.ts:204 | the result starts with a colon exactly when the input does. A leading colon is followed by exactly one space, then the first non-space character of the rest; only white space is dropped. Text without a leading colon is unchanged |
| AnalyzeRoute.AnalysisSummary | app/api/analyze/route.ts:203-204 | the summary is always trimmed. It is the fallback for absent or empty content, and the trimmed content when there is no leading colon. A leading colon and its white space become `": "` before trimming, so the colon is kept |
| AnalyzeRoute.FallbackTrimmed | app/api/analyze/route.ts:203 | the summary fallback survives the trim unchanged |
| AnalyzeRoute.BlankContentGivesEmptySummary | app/api/analyze/route.ts:163 | white-space-only content gives an empty rich summary but the front-page fallback |
| AnalyzeRoute.Summarise | app/api/analyze/route.ts:143-212 | exactly one call, to the Scout model with 150 tokens. Fewer than 3 matches send the scanned text, and a returned call gives general info; 3 or more send the context lines, and a returned call gives an analysis. A thrown call, and only that, gives the 500 error. The analysis carries the match list unchanged |
| AnalyzeRoute.Post | app/api/analyze/route.ts:21-221 | throttling gives 429 and validation failures their errors, with no model call. A failure of text detection, of the knowledge base or of the key check gives 500 with no call. Otherwise the result is the summary step on the match list of the normalised text, so an analysis means at least 3 matches and general info fewer |
| ChatRoute.Intent | app/api/chat/route.ts:38 | the intent is never empty: `ANALYSIS` for absent or blank content, else the trimmed, upper-cased content |
| ChatRoute.AsksForSafety | app/api/chat/route.ts:38-43 | the refusal can fire only for present content that is not all white space (partner: `ChatRoute.SafetyVerdict`) |
| ChatRoute.SafetyVerdict | app/api/chat/route.ts:38-43 | the refusal fires exactly when content is present and its trimmed, upper-cased form contains `SAFETY`; the default never does, so the triage fails open |
| ChatRoute.IntentOfPadded | app/api/chat/route.ts:38 | a verdict with white space around a word is judged by the upper-cased word |
| ChatRoute.IntentOfTrimmed | app/api/chat/route.ts:38 | a verdict with no surrounding white space is judged by its upper-cased form |
| ChatRoute.SafetyVerdictExact | app/api/chat/route.ts:43 | `SAFETY` triggers the refusal |
| ChatRoute.SafetyVerdictPadded | app/api/chat/route.ts:38-43 | a lower-case, padded ` safety\n` triggers it too |
| ChatRoute.SafetyVerdictInside | app/api/chat/route.ts:43 | `SAFETY` anywhere in the verdict triggers it, as in `UNSAFETY` |
| ChatRoute.SafetyVerdictAnalysis | app/api/chat/route.ts:43 | `ANALYSIS` proceeds to the analyst |
| ChatRoute.SafetyVerdictBlank | app/api/chat/route.ts:38 | a blank or absent verdict proceeds to the analyst |
| ChatRoute.ScreenFlags | app/api/chat/route.ts:95-99 | a flagged verdict is present, at least three characters long and not all white space (partner: `ChatRoute.ScreenVerdict`) |
| ChatRoute.FlaggedIsYesWord | app/api/chat/route.ts:95-99 | a flagged verdict is a three-letter yes in some letter case, padded with white space |
| ChatRoute.UpperOfYesWord | app/api/chat/route.ts:95 | a yes in any letter case upper-cases to `YES` |
| ChatRoute.YesWordIsFlagged | app/api/chat/route.ts:95-99 | a padded yes in any letter case is flagged |
| ChatRoute.ScreenVerdict | app/api/chat/route.ts:95-99 | the screen flags an answer if and only if its verdict is the single word yes, in any case, with only white space around it |
| ChatRoute.ScreenVerdictPositive | app/api/chat/route.ts:95-99 | `YES` and ` yes\n` are flagged |
| ChatRoute.ScreenVerdictNegative | app/api/chat/route.ts:95-104 | `YES.`, `NO`, the empty string and absent content are not flagged, so the answer goes out verbatim |
| ChatRoute.Answering | app/api/chat/route.ts:72-104 | the analyst call comes first, and the screen call follows only if it returned, carrying the trimmed answer or the fallback. A throw at either stage, and only that, gives the 500 error. Otherwise the answer is the second refusal if the screen flags it and the analyst's answer if not |
| ChatRoute.Pipeline | app/api/chat/route.ts:32-104 | the triage call is always first; at most three calls. Further calls happen exactly when the triage returned a non-safety verdict; a lone call ends in the 500 error or the first refusal |
| ChatRoute.Handle | app/api/chat/route.ts:4-12 | a missing key or unparsable body gives 500, a falsy question or missing context gives 400, neither makes a call, and a valid request runs the pipeline |
| ChatRoute.CallOrder | app/api/chat/route.ts:32-94 | calls go to the triage (5 tokens), analyst (150) and screen (2) models in that order, at most three, and none before validation passes |
| ChatRoute.FailuresAreTotal | app/api/chat/route.ts:106-109 | an answer means no call threw, and a throw at any stage gives the 500 error |
| ChatRoute.GeneratedAnswersAreScreened | app/api/chat/route.ts:81-104 | any answer other than the two refusals is the analyst's answer, was sent to the screen and was not flagged |
| ChatRoute.SafetyShortCircuit | app/api/chat/route.ts:38-46 | any returned verdict that counts as SAFETY gives the first refusal after the single triage call; the analyst and the screen are never called |
| ChatRoute.SafetyReplyShortCircuits | app/api/chat/route.ts:43-45 | the verdict `SAFETY` itself is one such verdict |
| ChatRoute.ClearedAnswerPassesThrough | app/api/chat/route.ts:72-104 | an ANALYSIS verdict, a trimmed answer and a NO screen give that answer after exactly three calls |
| ChromaScanClient.ErrorText | components/ChromaScan.tsx:64 | the server's error text if present, else the client's message, else the unknown-error text; never empty |
| ChromaScanClient.BeginScan | components/ChromaScan.tsx:46-49 | before the request: loading, with the error, the history and the context cleared |
| ChromaScanClient.EndScan | components/ChromaScan.tsx:54-67 | a delivered reply sets the history to a single assistant summary, and sets the context to the matches only for an `analysis` reply. A rejection sets the error. Loading ends either way |
| ChromaScanClient.ScanStartsOver | components/ChromaScan.tsx:42-67 | a scan's outcome does not depend on the state before it: success leaves one assistant message and no error, and failure leaves an empty history and context with an error |
| ChromaScanClient.StatusMessage | components/ChromaScan.tsx:64 | the client's own message for an error status is never empty |
| ChromaScanClient.FollowUpEnabled | components/ChromaScan.tsx:247 | the form is rendered while the context is non-empty (partners: `ChromaScanClient.FollowUpOfferedAfterAnalysis` and `ChromaScanClient.ChromaScan.HandleFileChange`) |
| ChromaScanClient.ScanReply | components/ChromaScan.tsx:55-64 | an error response, and only that, is a rejection carrying the route's message, which the banner then shows. A delivered body keeps the summary, and is tagged `analysis` exactly for an analysis, whose match list it carries |
| ChromaScanClient.FollowUpOfferedAfterAnalysis | components/ChromaScan.tsx:247 | after a scan the form appears if and only if the route returned an analysis with a non-empty match list; general info and errors leave it hidden |
| ChromaScanClient.FollowUpNeedsThreeMatches | components/ChromaScan.tsx:247 | with the summary step behind it, the form appears if and only if at least three ingredients matched and the model call returned |
| ChromaScanClient.FollowUpRequest | components/ChromaScan.tsx:83-87 | the posted body holds the question, the current context and the history with the question appended; it passes the chat route's validation exactly when the question is non-empty |
| ChromaScanClient.BeginFollowUp | components/ChromaScan.tsx:75-79 | an empty question changes nothing; otherwise the question is appended as a user message and loading starts, keeping context and error |
| ChromaScanClient.EndFollowUp | components/ChromaScan.tsx:88-96 | the answer is appended as an assistant message, or the error is set with the history kept; loading ends and the context is kept |
| ChromaScanClient.FollowUpExtends | components/ChromaScan.tsx:77-96 | the old history is a prefix of the new one. It grows by the question and the answer on success (two messages) and by the question alone on failure, where the error is set |
| ChromaScanClient.FollowUpRequestAccepted | components/ChromaScan.tsx:84-87 | every follow-up the client sends passes the chat route's validation, and its serialised history ends with the question's own line |
| ChromaScanClient.ChatReply | components/ChromaScan.tsx:88-93 | an answer, and only that, is delivered, with its text; an error response is a rejection carrying the route's message, which the banner then shows |
| ChromaScanClient.SafetyQuestionGetsRefusal | components/ChromaScan.tsx:83-90 | when the triage returns any verdict that counts as SAFETY, the conversation ends with the question followed by the first refusal |
| ChromaScanClient.ChromaScan.ShowsFollowUpForm | components/ChromaScan.tsx:247 | the form is shown exactly when the state's context is non-empty; after a file choice that means an `analysis` reply with matches, and a follow-up never changes it |
| ChromaScanClient.ChromaScan.constructor | components/ChromaScan.tsx:17-20 | empty history and context, not loading, no error |
| ChromaScanClient.ChromaScan.HandleFileChange | components/ChromaScan.tsx:42-68 | no file leaves the state unchanged; otherwise the new state is the scan's end state for the reply, after the reset, and the form shows exactly for an `analysis` reply with matches |
| ChromaScanClient.ChromaScan.HandleFollowUpSubmit | components/ChromaScan.tsx:70-97 | an empty question sends nothing and changes nothing; otherwise the posted body is the question, the current context and the extended history, and the new state is the follow-up's end state for the reply; the form's visibility never changes |

## Left out

- Rate limiting (app/api/analyze/route.ts:9-31): the Redis sliding window is reduced to a boolean verdict in `Services`.
- HEIC conversion, reading the upload into a buffer and base64 encoding (app/api/analyze/route.ts:68-79, 87): byte work in libraries. A failed conversion is one of the causes folded into `OcrFailed`.
- The text-detection request and the reading and parsing of `knowledge_base.json` (app/api/analyze/route.ts:84-117): network and file I/O. Their results are inputs, and their failures become `OcrFailed` or a missing catalog.
- The provider SDK itself and the temperatures passed to it: each call is a request value (model, prompt data, token limit) answered by the `llm` argument. Temperatures are floating-point constants the model does not use.
- The fixed wording of the prompt templates: a prompt is modelled by the runtime data interpolated into it; no property here depends on the wording.
- A rate limiter that throws (app/api/analyze/route.ts:25) sits outside the route's `try`, so its handling belongs to the framework; not modelled.
- A body that is not valid multipart form data: `request.formData()` (app/api/analyze/route.ts:33) is also outside the `try`, so its exception reaches the framework instead of giving the JSON 500 error. The model's upload is already parsed, present or `None`, and this path is not modelled.
- Values of the wrong JSON type (a non-string question, a non-array context, a message without a role): the request type admits only well-typed fields, and a missing field is `None`.
- Case mapping beyond ASCII: `toLowerCase` and `toUpperCase` are modelled on ASCII letters, and every other character maps to itself.
- Logging, rendering, scrolling effects, timers and the loading indicator (components/ChromaScan.tsx:25-40, 107-283), and the disabling of inputs while loading.
- The HTTP client: its transport is replaced by the delivered body or the rejection it yields. React's batching of state updates is not modelled, and the handlers' steps are taken in program order.
- ChromaScanClient.ChromaScan.HandleFileChange: the upload's contents are not modelled; the method sees only whether a file was chosen and what the post yielded.
