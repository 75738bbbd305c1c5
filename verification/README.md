# EcoNexus chat widget — a verified Dafny model

EcoNexus is a browser chat widget for sustainability questions. It sends the user's
question to the Gemini generative-language API and shows the answer in a conversation
thread. When the API cannot be used (no API key configured, a timeout, a network error,
an API error or an empty answer), it explains what went wrong in Dutch and always adds
an offline tip chosen by keyword matching.

This project models the logic of `script.js` as pure functions over immutable
datatypes and proves what that logic promises:

- `Text` — the string primitives the widget relies on, with JavaScript's meaning:
  `trim` (over the exact ECMAScript whitespace and line-terminator set), ASCII
  `toLowerCase`, and `includes`.
- `EcoResponses` — the ordered `ecoResponses` keyword table and `ecoReply`: the first
  rule with a keyword in the lower-cased input wins, else a fixed default.
- `Gemini` — `generateGeminiReply` and `callGemini`. The HTTP exchange is abstracted into
  an `Exchange` value (aborted, transport failure, non-ok with status text and optional
  payload message, or ok with a body). What remains is a classifier to reply text or a
  coded error (`missing-key`, `timeout`, `network`, `api`, `empty`).
- `ErrorTranslator` — `handleGeminiError`: a coded error and the user's input become the
  text shown in place of the reply plus the connection status (`ready`, `warning`, `error`).
- `Conversation` — `handleSubmit`, `resetConversation` and the page start as transitions
  over a state holding the message list and the connection status, plus an event-driven
  `Run` and the invariant every reachable thread keeps.
- `Wrappers` — `Option` (with `GetOr` for JavaScript's `??`) and `Result`.

The configured API key, the way the network exchange ends and the user's events are
parameters. Nothing in the model performs I/O.

Two details of `script.js` shape the error model:
- A thrown value without a `code` is classified `network` (script.js:187-190). This
  includes a 2xx body that is not JSON (script.js:168). The `default:` branch of
  `handleGeminiError` is modelled as `Unrecognized`, and `Gemini.ErrorCodes` proves that
  no exchange reaches it.
- The payload's `error.message` replaces the status text whenever it is present, even
  when it is the empty string, because the code uses `??` and not `||`.

## Model

| member | source | states |
|---|---|---|
| Text.Trim | script.js:245 | `trim` leaves a string with no whitespace at either end that is obtained from the input by removing only whitespace in front and behind |
| Text.TrimEmptyIff | script.js:245-248 | trimming gives `''` exactly when the input is all whitespace, so a blank input is recognised as empty |
| Text.TrimOfTrimmed | script.js:175 | a string already free of surrounding whitespace is left unchanged, so trimming is idempotent |
| Text.TrimUnique | script.js:175 | any trimmed string obtained by stripping surrounding whitespace from `s` equals `Trim(s)`, which characterises `trim` independently of how it is computed |
| Text.ToLower | script.js:113 | lower-casing keeps the length and lowers each character in place, ASCII letters only |
| Text.Includes | script.js:115 | `includes` is true exactly when the keyword occurs at some position of the text |
| Text.ToLowerIdempotent | script.js:113 | lower-casing an already lower-cased text changes nothing |
| EcoResponses.AnyKeywordFrom | script.js:115 | `keywords.some(...)` is true exactly when some keyword from the given index on occurs in the text |
| EcoResponses.FindFrom | script.js:114-116 | `find` returns the first matching rule's index: the rule matches and no earlier rule does; it returns nothing exactly when no rule matches |
| EcoResponses.FirstReply | script.js:114-124 | the reply is that of the first matching rule in table order, later matches ignored, and the default when no rule matches |
| EcoResponses.EcoReply | script.js:112-125 | `ecoReply` answers with the reply of the first table rule that has a keyword in the lower-cased input; any answer other than the default comes from such a first matching rule |
| EcoResponses.EcoReplyRange | script.js:16-42 | every answer is one of the table's replies or the default |
| EcoResponses.EcoReplyNonEmpty | script.js:118-124 | the offline answer is never empty |
| EcoResponses.EcoReplyDefaultIff | script.js:118-124 | the default is returned if and only if no rule has a keyword in the lower-cased input |
| EcoResponses.EcoReplyCaseInsensitive | script.js:113 | the answer to a text equals the answer to its lower-cased form |
| EcoResponses.EcoReplyEnergyExample | script.js:16-21 | "Hoe werkt zonne-energie?" gets the energy reply |
| Gemini.ConfiguredKey | script.js:14 | the configured key is the configuration value, absent counting as `''`, with surrounding whitespace stripped; it is trimmed, and empty exactly when the value is absent or all whitespace |
| Gemini.Caught | script.js:183-190 | in the catch block an abort becomes `timeout`, an already coded error is rethrown unchanged, and anything else becomes `network` |
| Gemini.JoinParts | script.js:173-174 | the joined text is empty exactly when every part's text is missing or empty |
| Gemini.JoinAppend | script.js:173-174 | joining the texts of two runs of parts gives the concatenation of their joins |
| Gemini.ExtractText | script.js:168-176 | the reply text is trimmed; it is `''` when `parts` is not an array and otherwise the joined part texts with surrounding whitespace removed |
| Gemini.CallGemini | script.js:157-190 | a reply comes only from an ok, parseable response, equals its extracted text and is never empty or whitespace-edged; every failure is `timeout`, `network`, `api` or `empty` |
| Gemini.GenerateReply | script.js:196-202 | with an empty key the result is the `missing-key` error; with a key it is the result of the API call |
| Gemini.MissingKeyIgnoresExchange | script.js:196-201 | with no key the result does not depend on the exchange and is `missing-key` |
| Gemini.ErrorCodes | script.js:183-201 | `missing-key` occurs exactly when the key is empty, and no exchange produces an unrecognised code |
| Gemini.Classification | script.js:157-190 | `timeout` if and only if aborted; `network` if and only if transport failure or unparseable ok body; non-ok gives `api` with "Gemini API-fout: " and the payload message, else the status text; `empty` if and only if the extracted text is empty |
| Gemini.SuccessIff | script.js:168-182 | an ok response yields a reply if and only if `parts` is an array whose joined text is not all whitespace |
| Gemini.ReplyIsTrimmedJoin | script.js:171-182 | the reply is exactly the trimmed concatenation of the part texts, a missing text counting as `''` |
| Gemini.JoinIgnoresMissing | script.js:173-174 | inserting a part without text anywhere leaves the joined text unchanged |
| Gemini.ApiMessageExample | script.js:158-165 | an empty payload message still replaces the status text; a missing one falls back to it |
| ErrorTranslator.HandleGeminiError | script.js:204-241 | the text always ends with `ecoReply(userInput)`; the status is `warning` exactly for `missing-key` and `error` otherwise, unknown codes included; for `api` and `empty` the text starts with the error's own message |
| ErrorTranslator.MessageShownOnlyForApiAndEmpty | script.js:209-240 | for every code other than `api` and `empty`, the text does not depend on the error's message |
| ErrorTranslator.TranslationNonEmpty | script.js:207-240 | the translated text is never empty |
| Conversation.Reset | script.js:274-281 | after a reset the thread holds exactly one non-pending eco greeting and the status is unchanged |
| Conversation.Start | script.js:293-300 | at page start the thread is the greeting; the status is `ready` exactly when the configured value holds more than whitespace, and `warning` when it is absent or blank |
| Conversation.Begin | script.js:245-260 | blank input changes nothing; otherwise the trimmed user text and then a pending eco placeholder are appended, earlier messages and the status untouched |
| Conversation.BeginPendingOnlyPlaceholder | script.js:254-260 | while the request is in flight the placeholder, the last message, is the only pending one |
| Conversation.Settle | script.js:262-271 | the placeholder stops being pending and gets the reply with status `ready`, or the translator's text and status; no other message changes |
| Conversation.Submit | script.js:243-272 | blank input changes nothing; otherwise exactly two messages are appended, the user's trimmed text and a resolved eco answer carrying the reply or the translated error, with the matching status |
| Conversation.SubmitAlwaysAnswers | script.js:262-271 | every non-blank submission ends with a non-empty answer, whatever the network does |
| Conversation.SubmitReadyIff | script.js:262-271 | after a non-blank submission the status is `ready` exactly when a reply came back |
| Conversation.SubmitWithoutKey | script.js:196-201 | without a key the submission ignores the exchange, warns and ends the answer with the offline tip |
| Conversation.SubmitEnergyWithoutKey | script.js:243-272 | asking "Hoe werkt zonne-energie?" without a key adds two messages; the answer is the missing-key explanation followed by the energy tip and the status is `warning` |
| Conversation.SubmitKeepsSettled | script.js:243-272 | a submission keeps a thread settled: greeting first, user and eco messages alternating, none pending |
| Conversation.Step | script.js:283-291 | each user event (submit or new conversation) keeps a settled thread settled |
| Conversation.Run | script.js:283-294 | every thread reachable from page start through user events, with every request using the trimmed configured key, is settled |
| Conversation.ThreadLength | script.js:243-281 | the thread holds the greeting plus two messages for each non-blank submission since the last reset |

## Left out

- The DOM: element lookup, template cloning, avatars, scrolling, focus, clearing the form,
  CSS status classes and the status label texts. Only the abstract status value is kept.
- `fetch`, the request URL, key encoding, JSON (de)serialisation and the request body,
  including the system prompt and the `generationConfig` sampling values. The exchange is
  an input value, and the prompt sent is not modelled.
- The 20-second `AbortController` timer and `clearTimeout`. Wall-clock time is not
  modelled; expiry appears only as the `Aborted` exchange.
- An abort that fires while a non-ok body is being read is swallowed by the inner
  `try` and yields `api` with the status text. It is covered by `NotOk(statusText, None)`
  and is not told apart.
- `details` of a coded error and `console.error`, which only log.
- Timestamps (`Date`, `toLocaleTimeString`).
- Text.ToLower: full Unicode `toLowerCase` is not modelled. Only ASCII letters are
  lowered and every other character is left as it is. This can change a match: JavaScript lowers U+212A KELVIN SIGN to
  ASCII `k`, so `script.js` answers "\u212Alimaat" with the climate reply while `EcoReply`
  gives the default. JavaScript strings are also UTF-16 code units, while Dafny
  characters are Unicode scalar values.
- A configured API key that is present but not a string: `.trim()` then throws a
  `TypeError` while the script loads. The configuration value is an `Option<string>`.
- A part `text` or payload message that is not a string (JavaScript would stringify it)
  is not modelled; both are `Option<string>`.
- Interleaving: a reset or a second submission while a request is in flight. `Submit`
  applies the whole of `handleSubmit` at once, and `Settle` resolves the placeholder at
  the position where `Begin` put it.
