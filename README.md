# EduConnect web front end — verified model of its client-side logic

This project is a Dafny model of the client-side logic of the EduConnect
learning platform's web front end. It models five parts, and proves what
each of them guarantees:

- **Timeline parser** (`src/utils/timelineParser.js`). It turns a lesson's
  timeline text into navigation markers `{time, seconds, label, desc}`.
  - `timeStringToSeconds` converts `MM:SS` / `HH:MM:SS` to seconds.
  - `cleanMarkdown` strips `**` and trims.
  - `parseTimelineText` makes one pass over the trimmed, non-blank lines.
    Each line is a time-range line `[MM:SS] - [MM:SS] : label`, a `>`
    description line, a `#` header, or a plain line.
- **Lesson tracking client** (`src/services/TrackingService.js`):
  - the per-tab id kept in sessionStorage (`getTabId`);
  - the tab-id choice and error policy of `enterLesson`, `exitLesson`,
    `updateFocus` and `getCurrentLesson`, and the bodies they post;
  - the request interceptor that adds the `Authorization: Bearer` header.
- **Chat bot session** (`src/services/ChatBotService.js`). A
  `ChatBotService` object keeps the chat history (persisted in
  localStorage) and the current lesson context. `sendMessage` posts a
  question to the AI agent and records the user's and the bot's messages.
- **Registration form** (`src/components/auth/Register.jsx`). It covers
  the submit-time validation, the live checks made while the user types,
  and the guard in front of the confirmation-code submission.
- **Notification form** (`src/components/series/NotificationModal.jsx`).
  It covers the reset when the modal opens, the input handler, the
  validation, and the submit handler's control flow.

The code is modelled in the form it has in the source. Loops and state
updates are methods:

- the parser's loop;
- `getTabId` on a sessionStorage object;
- the `ChatBotService` class;
- the two components, whose state hooks are the fields of a class and
  whose handlers are methods.

Each method is proved against a pure specification function, and the
properties are proved as lemmas about those functions. JavaScript
semantics that matter here are written out:

- the whitespace set shared by `trim()` and `\s`;
- `parseInt` with NaN;
- `split` on one character;
- the leftmost-match rule of `String.prototype.match`, with the
  backtracking of `\]\s*:\s*(.+)$`;
- "" as a falsy value, where a missing key or `null` reads as "".

Files:

- `wrappers.dfy`: `Option` and `Result`.
- `text.dfy`: whitespace, `trim`, `split`, decimal digits.
- `timeline_parser.dfy`: the parser and its specification `Parse`.
- `timeline_properties.dfy`: what the parser guarantees.
- `tracking_service.dfy`
- `chat_bot_service.dfy`
- `register.dfy`
- `notification_modal.dfy`

Notes on the code's behaviour:

- `exitLesson` posts through the same axios client as the other calls, with
  no keep-alive transport.
- The enter body's series field is `serie_id`.
- A marker's time is always a `DD:DD` token captured by the time-range
  pattern, except for the first marker, whose time can be "": a plain line
  before the first time range becomes a label, and the next time-range line
  pushes it with no start time. Its seconds are then 0.

## Model

| member | source | states |
|---|---|---|
| Text.Trim | src/utils/timelineParser.js:33 | `trim()` leaves no white space at either end and never lengthens the string |
| Text.TrimIdempotent | src/utils/timelineParser.js:33 | trimming twice is trimming once |
| Text.TrimEmpty | src/components/series/NotificationModal.jsx:55 | a string trims to "" exactly when it is all white space |
| Text.Split | src/utils/timelineParser.js:11 | `split(sep)` gives one more piece than separators, no piece holds the separator, and joining the pieces with the separator gives the string back |
| Text.SplitJoin | src/utils/timelineParser.js:11 | splitting a join of separator-free pieces gives the pieces back |
| Text.SplitNoSeparator | src/utils/timelineParser.js:11 | a string without the separator splits into itself alone |
| Text.SplitThreePieces | src/utils/timelineParser.js:11 | `a:b:c` with separator-free parts splits into exactly `[a, b, c]` |
| Text.DecimalValue | src/services/TrackingService.js:42 | the decimal rendering of `Date.now()` in a tab id reads back as the same number |
| TimelineParser.DigitPrefix | src/utils/timelineParser.js:11 | the digit run `parseInt` reads is the longest prefix of digits |
| TimelineParser.ParseInt | src/utils/timelineParser.js:11 | `parseInt(s, 10)` of a digit string is its decimal value, and of a blank string NaN |
| TimelineParser.TimeStringToSeconds | src/utils/timelineParser.js:10-24 | a count of pieces other than 2 or 3 (as for "") gives 0 |
| TimelineParser.MinutesSeconds | src/utils/timelineParser.js:13-16 | two digit groups `m:s` give `m * 60 + s` |
| TimelineParser.HoursMinutesSeconds | src/utils/timelineParser.js:17-20 | three pieces `h:m:s` give `h * 3600 + m * 60 + s` when all parse, NaN when one does not |
| TimelineParser.HoursMinutesSecondsDigits | src/utils/timelineParser.js:17-20 | three digit groups `h:m:s` give `h * 3600 + m * 60 + s`, with each group read as its decimal value |
| TimelineParser.ClockSplit | src/utils/timelineParser.js:11 | `h:m:s` with digit groups splits back into the three groups |
| TimelineParser.ClockSeconds | src/utils/timelineParser.js:56-65 | a captured `DD:DD` token converts to its minutes times 60 plus its seconds, between 0 and 99 * 60 + 99 |
| TimelineParser.TimestampListSeconds | src/components/lessons/LessonTimestamps.jsx:9-10 | the hard-coded list's times "05:40" and "10:20" agree with its seconds 340 and 620 |
| TimelineParser.StripBold | src/utils/timelineParser.js:33 | removing `**` left to right leaves no `**`, keeps every character other than `*` in order, and leaves a `**`-free string as it is |
| TimelineParser.StripBoldFirstMatch | src/utils/timelineParser.js:33 | the first `**` met is removed and the `**`-free text before it kept, so the scan is left to right and non-overlapping ("a***b" gives "a*b"); with the `**`-free case of StripBold this fixes the whole result |
| TimelineParser.CleanMarkdown | src/utils/timelineParser.js:31-34 | the result has no `**` and no outer white space; "" gives ""; a `**`-free text is just trimmed |
| TimelineParser.CleanMarkdownIdempotent | src/utils/timelineParser.js:31-34 | cleaning twice is cleaning once |
| TimelineParser.CleanPlain | src/utils/timelineParser.js:31-34 | a trimmed text without `*` is left as it is |
| TimelineProperties.CleanBold | src/utils/timelineParser.js:31-34 | `**label**` is cleaned to `label` |
| TimelineParser.RangeAt | src/utils/timelineParser.js:56-58 | a match of the time-range pattern captures a `DD:DD` clock token |
| TimelineParser.FindRange | src/utils/timelineParser.js:56-58 | `line.match` of the time-range pattern from a position on: whatever it captures is a `DD:DD` clock token |
| TimelineParser.FindRangeLeftmost | src/utils/timelineParser.js:56-58 | the captured start time is that of the leftmost match; no match anywhere gives none |
| TimelineParser.FindRangeFound | src/utils/timelineParser.js:56-58 | the search returns the match at the first position where one begins, and none begins before it |
| TimelineParser.TimeRangeStart | src/utils/timelineParser.js:56-72 | the start time taken from a time-range line is a clock token |
| TimelineParser.LabelAt | src/utils/timelineParser.js:78 | a match of `\]\s*:\s*(.+)$` anchored at a position starts at a `]` and captures a non-empty label |
| TimelineParser.FindLabel | src/utils/timelineParser.js:78 | the leftmost label match from a position on captures a non-empty label, and a line with no `]` there has none |
| TimelineParser.LabelMatch | src/utils/timelineParser.js:78-81 | `line.match(/\]\s*:\s*(.+)$/)`: a captured label is non-empty, and a line without `]` has no label |
| TimelineParser.LabelIsTail | src/utils/timelineParser.js:78-81 | a captured label is a non-empty tail of the line with no line terminator |
| TimelineParser.Lines | src/utils/timelineParser.js:45 | the loop sees only non-empty, trimmed lines |
| TimelineParser.Step | src/utils/timelineParser.js:53-94 | one loop iteration either keeps the markers or appends exactly the pending marker, and leaves the start time unchanged or sets it to a clock token |
| TimelineParser.ParseTimelineText | src/utils/timelineParser.js:41-108 | the loop over the lines computes `Parse`, the left fold of one step per line followed by the final flush |
| TimelineProperties.StepInvariant | src/utils/timelineParser.js:52-95 | one loop iteration keeps the loop invariant (markers pushed from the accumulators, start time a clock token or "") |
| TimelineProperties.FoldInvariant | src/utils/timelineParser.js:52-95 | the invariant holds after any number of lines |
| TimelineProperties.ParsedMarkers | src/utils/timelineParser.js:41-108 | every returned marker has seconds = `timeStringToSeconds(time)` in 0..99 * 60 + 99, a cleaned label and description, and a clock time, except that the first may have time "" and 0 seconds |
| TimelineProperties.MarkerCount | src/utils/timelineParser.js:60-105 | at most one marker more than there are time-range lines, and none without a time-range line |
| TimelineProperties.NoTimeRangeNoMarkers | src/utils/timelineParser.js:42-105 | a text with no time-range line (the empty text among them) yields no marker |
| TimelineProperties.MarkersInInputOrder | src/utils/timelineParser.js:52-105 | marker times occur in the order of the time-range lines; nothing is sorted |
| TimelineProperties.MarkersOnlyGrow | src/utils/timelineParser.js:52-95 | reading more lines only appends markers |
| TimelineProperties.StepMarkersGrow | src/utils/timelineParser.js:60-69 | one line appends at most one marker and removes none |
| TimelineProperties.HeaderLineIgnored | src/utils/timelineParser.js:88-91 | deleting a `#` line without a time range does not change the result |
| TimelineProperties.HeaderStep | src/utils/timelineParser.js:88-91 | a `#` line leaves the accumulators unchanged |
| TimelineProperties.DescriptionLineReplaces | src/utils/timelineParser.js:82-87 | a `>` line with text replaces the description, and does not append to it |
| TimelineProperties.BlankDescriptionLineIgnored | src/utils/timelineParser.js:82-87 | a `>` line with nothing after it changes nothing |
| TimelineProperties.TimeRangeLineStartsMarker | src/utils/timelineParser.js:60-81 | a time-range line pushes the pending marker if it has a label, then opens a new one with the captured start, the same-line label or "", and an empty description |
| TimelineProperties.PlainLineSetsEmptyLabel | src/utils/timelineParser.js:91-94 | a plain line becomes the label only while none is set |
| TimelineProperties.FinishPushes | src/utils/timelineParser.js:98-105 | the final flush pushes the pending marker exactly when it has a label and a start time, and otherwise returns the markers as they are |
| TimelineProperties.LinesOfJoined | src/utils/timelineParser.js:45 | the loop visits exactly the pieces of a text joined with newlines, when the pieces are trimmed and non-empty |
| TimelineProperties.RangeLineMatches | src/utils/timelineParser.js:56-81 | a line `[t1] - [t2] : label` yields start `t1` and label `label` |
| TimelineProperties.DescLineSets | src/utils/timelineParser.js:82-87 | a line `> desc` sets the description to `desc` |
| TimelineProperties.FoldRangeDesc | src/utils/timelineParser.js:60-87 | a time-range line followed by a description line opens a marker with that start, label and description |
| TimelineProperties.TwoMarkers | src/utils/timelineParser.js:41-108 | two range/description pairs parse into two markers, in order, each with its own fields |
| TimelineProperties.BoldTitleMarker | src/utils/timelineParser.js:62-68 | a bold label reaches the marker without its asterisks |
| TrackingService.SessionStorage.GetItem | src/services/TrackingService.js:39 | `getItem` gives the stored string, or null for a missing key |
| TrackingService.SessionStorage.SetItem | src/services/TrackingService.js:43 | `setItem` sets one key and changes no other |
| TrackingService.NewTabId | src/services/TrackingService.js:42 | a fresh id starts with `tab_` |
| TrackingService.NewTabIdParts | src/services/TrackingService.js:42 | a fresh id splits at `_` into `tab`, the clock reading and the random suffix, and the clock part reads back as the clock value |
| TrackingService.GetTabId | src/services/TrackingService.js:38-46 | returns the stored id, or stores and returns the generated one, as `TabIdLookup` specifies |
| TrackingService.StoredTabIdReturned | src/services/TrackingService.js:39-45 | a non-empty stored id is returned and nothing is written |
| TrackingService.GeneratedTabIdStored | src/services/TrackingService.js:40-44 | without a usable stored id, the generated id is stored under `educonnect_tab_id` and returned; other keys keep their values |
| TrackingService.TabIdStable | src/services/TrackingService.js:38-46 | a second lookup in the same tab returns the first id and writes nothing |
| TrackingService.ChooseTabId | src/services/TrackingService.js:60 | the caller's `tab_id`, else `getTabId()`: a non-empty caller id is used and storage is not touched; otherwise `getTabId` decides |
| TrackingService.Swallow | src/services/TrackingService.js:69-73 | a write call returns the response data, or null on any failure; it never raises |
| TrackingService.EnterLesson | src/services/TrackingService.js:58-74 | posts `{user_id, lesson_id, serie_id, lesson_title, tab_id}` with the chosen tab id to the enter endpoint, and swallows failures |
| TrackingService.ExitLesson | src/services/TrackingService.js:82-95 | posts exactly `{user_id, tab_id}` to the exit endpoint, and swallows failures |
| TrackingService.UpdateFocus | src/services/TrackingService.js:103-116 | posts exactly `{user_id, tab_id}` to the focus endpoint, and swallows failures |
| TrackingService.GetCurrentLesson | src/services/TrackingService.js:123-131 | GETs the user's current-lesson path; data on success, the same error raised again on failure |
| TrackingService.CallerTabIdUsed | src/services/TrackingService.js:58-116 | a non-empty caller tab id goes into every write body unchanged, with storage untouched |
| TrackingService.SameTabSameId | src/services/TrackingService.js:38-116 | calls from one tab without a caller id all carry the id the first call stored |
| TrackingService.ExitAndFocusSameBody | src/services/TrackingService.js:82-116 | exit and focus send the same body to different endpoints |
| TrackingService.Intercept | src/services/TrackingService.js:13-31 | with an id token, `Authorization` is `Bearer <token>` and every other header is kept; without one, or when the session lookup throws, the config is unchanged |
| TrackingService.InterceptIdempotent | src/services/TrackingService.js:13-27 | intercepting twice with the same session is the same as once |
| TrackingService.BearerOnlyWithToken | src/services/TrackingService.js:16-22 | starting with no `Authorization` header, one is present afterwards exactly when there is a token |
| ChatBot.Loaded | src/services/ChatBotService.js:40-43 | `loadChatHistoryFromLocalStorage`: the stored history when there is one, [] when the key is absent or empty |
| ChatBot.InitialHistoryNonEmpty | src/services/ChatBotService.js:8-27 | a new session keeps a stored non-empty history, and otherwise starts with exactly the bot's welcome message |
| ChatBot.UserIdOf | src/services/ChatBotService.js:61-69 | the first non-empty of `cognito_sub`, `_id`, `id`; "guest_user" when none is set, there is no user, or the entry does not parse |
| ChatBot.BuildPayload | src/services/ChatBotService.js:83-97 | the question, the user id and `top_k` 5; `lesson_id` of the context and `is_in_lesson` true inside a lesson, `"general_chat"` and false outside |
| ChatBot.BotReplyContent | src/services/ChatBotService.js:107-138 | the bot's message is the answer, or the no-answer text for an empty answer, or the connection-error text marked `error` when the request failed |
| ChatBot.ExchangeShape | src/services/ChatBotService.js:74-140 | one call appends the user's message (unless skipped), stamped with the clock reading taken before the request, and then exactly one bot message, stamped with the reading taken after it |
| ChatBot.OneBotMessagePerCall | src/services/ChatBotService.js:72-145 | whatever the reply, a call adds one bot message, and one user message unless skipped |
| ChatBot.ChatBotService.constructor | src/services/ChatBotService.js:2-28 | agent URL from the configuration or the default; no lesson context; the stored history, or the welcome message saved to storage |
| ChatBot.ChatBotService.SetCurrentLesson | src/services/ChatBotService.js:31-33 | records the lesson and series; nothing else changes |
| ChatBot.ChatBotService.ClearCurrentLesson | src/services/ChatBotService.js:36-38 | forgets the lesson; nothing else changes |
| ChatBot.ChatBotService.SaveChatHistory | src/services/ChatBotService.js:45-47 | storage holds the current history, and loading it gives that history back |
| ChatBot.ChatBotService.ClearChatHistory | src/services/ChatBotService.js:49-53 | the history is empty, the stored key is removed (so loading gives []), and [] is returned |
| ChatBot.ChatBotService.GetChatHistory | src/services/ChatBotService.js:55-57 | returns the history the service holds, the one it saves |
| ChatBot.ChatBotService.SendMessage | src/services/ChatBotService.js:72-145 | posts the payload to `<agentApiUrl>/query`; the history grows by the exchange (the user's message stamped before the request, the bot's after it) and is saved on every path; returns the bot message, or raises the error again |
| Register.EmailOfParts | src/components/auth/Register.jsx:113 | `local@domain.tld` with non-space parts matches `\S+@\S+\.\S+` |
| Register.EmailNeedsAtAndDot | src/components/auth/Register.jsx:113 | a matching string holds `@` and `.` and has at least 5 characters |
| Register.EmailUnanchored | src/components/auth/Register.jsx:64-65 | the pattern is unanchored: text around a match does not stop it |
| Register.FieldError | src/components/auth/Register.jsx:105-142 | the message for one field: no field outside the six checked ones gets one, and each of the six gets one whenever it is empty |
| Register.ValidateEntries | src/components/auth/Register.jsx:101-146 | the error record holds exactly the failing fields, each with its message |
| Register.ValidateRules | src/components/auth/Register.jsx:105-142 | each field is required, and its "required" message takes precedence; the email must match, the password must have at least 8 characters, and the confirmation must equal the password |
| Register.ValidateEmpty | src/components/auth/Register.jsx:101-146 | the record is empty exactly when no field has a message |
| Register.ValidIffAllRulesHold | src/components/auth/Register.jsx:101-146 | the form is valid exactly when all six rules hold |
| Register.ClearedErrorOnlyThatField | src/components/auth/Register.jsx:55-60 | typing clears only the edited field's error, and only if it had one |
| Register.LiveChecksOwnEntries | src/components/auth/Register.jsx:62-90 | each live check writes only its own entry, for its own non-empty field, and writes "" exactly when the check passes; the confirmation check uses the password from before the change |
| Register.RegisterForm.constructor | src/components/auth/Register.jsx:27-42 | empty fields except gender "male"; no errors; no code |
| Register.RegisterForm.HandleChange | src/components/auth/Register.jsx:47-91 | sets the field, clears its error if it had one, and applies the live checks |
| Register.RegisterForm.FlushTempErrors | src/components/auth/Register.jsx:94-99 | the live-check entries are copied over the form errors |
| Register.RegisterForm.ValidateForm | src/components/auth/Register.jsx:101-146 | stores `Validate(formData)` and returns true exactly when it is empty |
| Register.RegisterForm.HandleSubmit | src/components/auth/Register.jsx:148-160 | `signUp` is called, with email, password, name, birth date and gender, exactly when the form validates |
| Register.RegisterForm.SetConfirmationCode | src/components/auth/Register.jsx:399-406 | stores the code and clears its error if it had one |
| Register.RegisterForm.HandleConfirmSubmit | src/components/auth/Register.jsx:184-196 | an empty code records the code error and does not call `confirmSignUp`; otherwise it sends email and code and records nothing |
| NotificationModal.ClearedOnEdit | src/components/series/NotificationModal.jsx:41-49 | the edited field's error becomes null only if it was truthy; the record is otherwise unchanged |
| NotificationModal.ValidationErrors | src/components/series/NotificationModal.jsx:52-62 | every recorded error is a truthy message |
| NotificationModal.ValidationRules | src/components/series/NotificationModal.jsx:52-65 | a field has an error exactly when it is all white space, with the field's message; there are no other keys; valid exactly when neither field is blank |
| NotificationModal.EditClearsOnlyThatMessage | src/components/series/NotificationModal.jsx:41-62 | editing the title after a failed validation nulls the title error and keeps the content error |
| NotificationModal.NotificationForm.constructor | src/components/series/NotificationModal.jsx:12-18 | both fields "", no errors, not submitting |
| NotificationModal.NotificationForm.ResetOnOpen | src/components/series/NotificationModal.jsx:21-29 | on opening, each field takes its initial value or "", and the errors are cleared; otherwise nothing changes |
| NotificationModal.NotificationForm.HandleInputChange | src/components/series/NotificationModal.jsx:31-50 | only the named field changes, and its error is cleared as `ClearedOnEdit` says |
| NotificationModal.NotificationForm.ValidateForm | src/components/series/NotificationModal.jsx:52-65 | stores the validation errors and returns true exactly when there are none |
| NotificationModal.NotificationForm.HandleSubmit | src/components/series/NotificationModal.jsx:67-81 | no `onSubmit` unless valid; submits the form data; closes exactly when the submission resolves; `isSubmitting` is false after every path that set it |
| NotificationModal.ResetThenValidate | src/components/series/NotificationModal.jsx:21-65 | a freshly opened form validates exactly when both initial values are non-blank; without initial data it reports both fields |

## Left out

- Rendering, styling, routing, and the components' other handlers are not modelled. This covers Google sign-up, resending the code, the password-strength display and `handleContentClick`.
- `fetchAndParseTimeline` is not modelled: it is network transport around `parseTimelineText`.
- The HTTP transport (axios, `fetch`) is left out. Each call's outcome is a parameter (`Response`, `Reply`, `Outcome`), and the model states what is sent and what is done with the outcome.
- The interceptor's request-error handler (`Promise.reject(error)`) is not modelled. It only passes the error on.
- Clock and randomness are parameters: `Date.now()` and the `Math.random()` suffix in `getTabId`, and `new Date().toISOString()` in the chat. Distinct tabs getting distinct ids cannot be proved.
- JSON encoding and decoding are not modelled. localStorage entries hold decoded values; a `user` entry that does not parse is the `Malformed` case.
- Failures of the storage APIs themselves (quota, disabled storage) are not modelled.
- The 800 ms debounce is not modelled. `FlushTempErrors` is the effect that runs when the timer fires, and its timing is not part of the model.
- In `handleSubmit` of the registration form, the step change after `signUp` (`setTimeout`, `setStep`) is not modelled, and neither is re-raising a `signUp` failure. In `handleConfirmSubmit`, everything after `confirmSignUp` is not modelled (`signIn`, `navigate`, the success message).
- `isSubmitting` is not observed while `onSubmit` is pending, because the submission's outcome is an input.
- Console logging is not modelled.
- A marker's field `label` is called `title` in the model, because `label` is a keyword in Dafny.
- TimelineParser.ParseInt: `parseInt` is modelled only as far as the parser can reach. Radix prefixes are not modelled; digits beyond a safe integer are read exactly, not rounded.
- Text.Trim: strings are sequences of code points, not UTF-16 code units. Lengths such as the password's 8-character minimum count code points, so an astral character counts 1 here and 2 in JavaScript.
- ChatBot.ChatBotService.SendMessage: the call runs as one step. In the source, other calls on the same service (another `sendMessage`, or `clearChatHistory`) can run while the request is awaited, and the bot's message is then appended to whatever the history has become; the model does not capture that interleaving.
- NotificationModal.NotificationForm.HandleSubmit: `isSubmitting` is reset on every path that set it. On the invalid path it keeps whatever value it had.
- ChatBot.ChatBotService.GetChatHistory: the source returns the service's own `chatHistory` array, so a caller holding it sees later in-place pushes by `sendMessage`; the model returns the history's value at the time of the call, which later calls do not change. Likewise `ClearChatHistory` returns the new array the service then holds and pushes into, where the model returns the value [].
