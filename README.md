# Slugs and the chat assistant of the PAE web front end

This project models two parts of the PAE solar company's Vue front end in
Dafny and proves properties about them.

- **Project slugs** (`src/utils/projectUtils.ts`). `generateSlug` turns a
  project title into a URL slug: lower-case it, replace every run of
  characters outside `[a-z0-9]` by one hyphen, then drop a hyphen at either
  end. `findProjectBySlug` returns the first project whose title slugifies
  to a given slug. Both are pure and are modelled as functions
  (`ProjectUtils`). `Catalogue` applies them to titles from the static
  catalogue in `src/data/projects.ts`.
- **The chat controller** (`src/composables/useChat.ts`). `useChat` holds
  reactive state: the open and form flags, the input buffer, the contact
  details, the busy flags and the transcript. Three operations change it
  step by step. It is modelled as the class `Chat.ChatSession`, whose
  fields are those refs. Its methods are `ToggleChat`, `SubmitUserInfo`
  (with `StartSession`, the request half that runs after validation) and
  `SendMessage`.
- **JavaScript text behaviour** that the controller relies on:
  - `String.prototype.trim` and the regular-expression class `\s` (`JsText`);
  - the email pattern `/^[^\s@]+@[^\s@]+\.[^\s@]+$/` (`ChatValidation`).

Each awaited webhook call counts as one atomic step. Its result is an
`Outcome` parameter:

- a network failure;
- a response that is not `ok`;
- a body that is not JSON;
- an `ok` response whose body is JSON `null`;
- or the `output`, `response` and `message` keys of the reply.

The ISO timestamp that `new Date().toISOString()` would give is also a
parameter. A ghost field `requests` records the body of every POST the
controller would send. The properties proved about it are:

- invalid details send nothing;
- valid details send exactly one `session_start`;
- a non-blank message sends exactly one `user_message`.

The transcript invariant `WellFormedTranscript` is kept by every
operation: no empty message, and every user message is immediately
followed by an assistant reply.

## Model

| member | source | states |
|---|---|---|
| ProjectUtils.LowerChar | src/utils/projectUtils.ts:4 | the result is never an upper-case letter; A-Z move up by 32 to a-z, and every other character is unchanged |
| ProjectUtils.ToLower | src/utils/projectUtils.ts:4 | the lower-cased title has the same length, and each character is the lower-cased character at the same position |
| ProjectUtils.CollapseRuns | src/utils/projectUtils.ts:5 | the `replace(/[^a-z0-9]+/g, '-')` step; its own contract states that the result is never longer than the input; what the replacement produces is stated by CollapseRunsShape, CollapseWord and CollapseSeparator |
| ProjectUtils.CollapseRunsShape | src/utils/projectUtils.ts:5 | after runs are replaced, only `[a-z0-9-]` remain, no two hyphens are adjacent, and the text does not start with a hyphen when the input began inside a run |
| ProjectUtils.CollapseRunsOfSlug | src/utils/projectUtils.ts:5 | replacing runs leaves text already in slug form unchanged |
| ProjectUtils.CollapseWord | src/utils/projectUtils.ts:5 | a word of `[a-z0-9]` passes through unchanged and closes any open run |
| ProjectUtils.CollapseSeparator | src/utils/projectUtils.ts:5 | a non-empty run outside `[a-z0-9]` becomes exactly one hyphen, or none if a run is already open |
| ProjectUtils.StripEdgeHyphens | src/utils/projectUtils.ts:6 | the result is the input with exactly one character cut from the front when it starts with a hyphen and exactly one cut from the back when a hyphen is still left at the end, everything between kept; so text with no edge hyphen is returned unchanged and `"-"` becomes empty |
| ProjectUtils.StripEdgeHyphensShape | src/utils/projectUtils.ts:6 | stripping the edge hyphens of collapsed text gives a well-formed slug (no edge hyphen and no double hyphen) |
| ProjectUtils.GenerateSlug | src/utils/projectUtils.ts:2-7 | every result is a well-formed slug: only `[a-z0-9-]`, no hyphen first or last, no two hyphens in a row |
| ProjectUtils.SlugFixpoints | src/utils/projectUtils.ts:2-7 | `generateSlug(s) == s` exactly when `s` is a well-formed slug (both directions) |
| ProjectUtils.GenerateSlugIdempotent | src/utils/projectUtils.ts:2-7 | slugifying a slug again changes nothing |
| ProjectUtils.GenerateSlugKeepsAlnum | src/utils/projectUtils.ts:2-7 | with its hyphens deleted, the slug equals the lower-cased title with every character outside `[a-z0-9]` deleted: letters and digits survive, in order |
| ProjectUtils.RemoveHyphens | src/utils/projectUtils.ts:5-6 | a helper for GenerateSlugKeepsAlnum, not a step of the source: deleting every hyphen leaves no hyphen |
| ProjectUtils.FindProjectBySlug | src/utils/projectUtils.ts:10-12 | `None` exactly when no title slugifies to the slug; otherwise the project at the first index whose title does |
| ProjectUtils.NonSlugFindsNothing | src/utils/projectUtils.ts:10-12 | a slug that `generateSlug` can never produce (upper case, an edge hyphen, a double hyphen) finds no project |
| Catalogue.SlugOfWords | src/utils/projectUtils.ts:2-7 | a title of letter-and-digit words separated by punctuation runs slugifies to its lower-cased words joined by single hyphens |
| Catalogue.SlugOfPaddedWords | src/utils/projectUtils.ts:2-7 | the same title with a punctuation run before it, after it or both (as in "Hi, there!") still slugifies to its lower-cased words joined by single hyphens: the edge hyphens those runs leave are stripped |
| Catalogue.QuezonCitySlug | src/data/projects.ts:22 | "Residential Solar Installation - Quezon City" slugifies to "residential-solar-installation-quezon-city" |
| Catalogue.MakatiSlug | src/data/projects.ts:39 | "Commercial Solar Farm - Makati" slugifies to "commercial-solar-farm-makati" |
| Catalogue.MakatiLookup | src/utils/projectUtils.ts:10-12 | looking up "commercial-solar-farm-makati" in the first two catalogue projects finds the second |
| JsText.IsWhitespace | src/composables/useChat.ts:73 | the characters that `trim` and `\s` treat as whitespace; restricted to ASCII they are exactly tab, line feed, vertical tab, form feed, carriage return and space |
| JsText.LeadingWhitespace | src/composables/useChat.ts:125-126 | the leading whitespace is exactly the prefix that `trim` cuts: everything before it is whitespace and the next character is not |
| JsText.TrailingWhitespace | src/composables/useChat.ts:125-126 | the trailing whitespace is exactly the suffix that `trim` cuts: everything after it is whitespace and the character before is not |
| JsText.Trim | src/composables/useChat.ts:125-126 | `trim` returns a contiguous part of the input with no whitespace at either end, and everything cut off is whitespace; it is empty exactly when the input is blank, so `!s.trim()` is the blank test |
| JsText.TrimPadded | src/composables/useChat.ts:126 | a text with no whitespace at either end, padded on both sides with whitespace, trims back to exactly that text |
| ChatValidation.EmailPatternTest | src/composables/useChat.ts:79-80 | `emailRegex.test(email)` as the pattern's own shape; any address it accepts has at least five characters, an `@` and a `.` |
| ChatValidation.IndexOf | src/composables/useChat.ts:79-80 | a helper for EmailShape, not a call in the source: the position of the first occurrence of the character, or the length of the text when it does not occur |
| ChatValidation.EmailPatternIffShape | src/composables/useChat.ts:79-80 | the email pattern matches exactly when the email has no whitespace, exactly one `@` that is not its first character, and a domain with a `.` that is neither the first nor the last character of the domain (both directions) |
| ChatValidation.AcceptedEmail | src/composables/useChat.ts:79-80 | "ana@mail.ph" matches the pattern |
| ChatValidation.RejectedNoDot | src/composables/useChat.ts:79-80 | "ana@mail" does not match: no dot after the `@` |
| ChatValidation.RejectedLeadingSpace | src/composables/useChat.ts:79-80 | " ana@mail.ph" does not match, because the email is tested untrimmed |
| ChatValidation.RejectedDoubleAt | src/composables/useChat.ts:79-80 | "ana@@mail.ph" does not match: a second `@` |
| Chat.Or | src/composables/useChat.ts:107 | JavaScript's or-operator on two keys: the first key when it is truthy and the second key otherwise; so the result is truthy exactly when one of them is |
| Chat.GreetingFallback | src/composables/useChat.ts:107 | the greeting template: it starts with "Hello " followed by the first name |
| Chat.WelcomeText | src/composables/useChat.ts:107 | the welcome text is never empty; it is the webhook's `output` when that is truthy, and the "Hello {firstName}! …" greeting otherwise |
| Chat.FirstTruthy | src/composables/useChat.ts:151-166 | the value of the first truthy candidate (every earlier one falsy), and the default exactly when no candidate is truthy |
| Chat.ReplyText | src/composables/useChat.ts:148-178 | the reply `sendMessage` appends is never empty, and it is either the fallback text or the text of one of the `output`, `response` and `message` keys of an `Ok` reply |
| Chat.ReplyInSourceOrder | src/composables/useChat.ts:148-178 | the reply appended is the source's nested choice (`output`, else `response` or-ed with `message`, else the fallback; the fallback on every failed call), and it equals the first truthy of the three keys |
| Chat.AppendExchange | src/composables/useChat.ts:127 | appending a non-empty user message followed by a non-empty assistant reply keeps the transcript well formed |
| Chat.ValidateUserInfo | src/composables/useChat.ts:72-83 | no alert exactly when no field is blank after trimming and the untrimmed email matches; "Please fill in all fields" exactly when some field is blank; "Please enter a valid email address" exactly when none is blank and the email fails the pattern |
| Chat.ChatSession.Valid | src/composables/useChat.ts:9-25 | the state between two operations: both busy flags down, the transcript well formed, and a collected session with its form hidden and an assistant message first; a valid transcript never ends on an unanswered user message |
| Chat.ChatSession.constructor | src/composables/useChat.ts:9-25 | a closed chat with the form hidden, nothing collected, an empty input, empty details, an empty transcript and no request sent; the invariant holds |
| Chat.ChatSession.ToggleChat | src/composables/useChat.ts:61-69 | before the details are collected it opens the chat on the form; afterwards it flips `isChatOpen` and leaves the form flag alone; nothing else changes and the invariant is kept |
| Chat.ChatSession.SubmitUserInfo | src/composables/useChat.ts:71-122 | details rejected by validation give that alert, send nothing and change nothing. Accepted details send one `session_start` with the details and timestamp. An `Ok` outcome then collects the session, hides the form and makes the welcome text the whole transcript. Any failure, a `null` body included, alerts "Failed to start chat. Please try again." and changes nothing else. The invariant is kept. The `null` body follows the corrected behaviour (see Findings) |
| Chat.ChatSession.StartSession | src/composables/useChat.ts:85-121 | the request half of `submitUserInfo`: exactly one `session_start` is sent. On `Ok` the session is collected with the welcome message as its only message. On failure, a `null` body included, there is the alert and no other change. The busy flag is lowered on every path. This is the corrected member of the Findings row |
| Chat.ChatSession.StartSessionAsWritten | src/composables/useChat.ts:85-121 | the request half in source order: one `session_start` is sent. `Ok` collects the session with the welcome message. A `null` body sets the collected flag and hides the form (lines 104-105), then alerts when line 107 throws, leaving the transcript as it was. Other failures alert and change nothing else |
| Chat.ChatSession.SendMessage | src/composables/useChat.ts:124-183 | a blank input changes nothing and sends nothing. Otherwise the transcript gains the trimmed input as a user message and then exactly one assistant reply (`ReplyText`), the input is cleared, and exactly one `user_message` is sent. The typing flag is lowered on every path, the other state is unchanged, and the invariant is kept |
| Chat.ToggleTwice | src/composables/useChat.ts:61-69 | after collection, toggling twice returns the chat to its previous open state and leaves the transcript alone |
| Chat.StartVisit | src/composables/useChat.ts:61-122 | a new session opened and given valid details, with a truthy `output`, is open and collected, with that output as its only message, after exactly one request |
| Chat.AskWhileOffline | src/composables/useChat.ts:124-183 | sending a non-blank input while the webhook is unreachable appends the trimmed input and the fallback reply, and sends one request |
| Chat.NullBodyCollectsEmptySession | src/composables/useChat.ts:102-118 | the counterexample: a new session with valid details and an `ok` reply whose body is `null` gets the failure alert, yet ends collected with its form hidden and an empty transcript, so the session invariant fails |
| Chat.FirstVisit | src/composables/useChat.ts:61-183 | a whole first visit ends with the transcript [welcome, trimmed question, fallback reply] and exactly the two request bodies, in order |

## Left out

- ProjectUtils.LowerChar: only ASCII case mapping is modelled. `toLowerCase` also maps some non-ASCII code points into or around ASCII, such as U+212A becoming `k` and U+0130 becoming `i` plus U+0307. So `GenerateSlug`, `FindProjectBySlug` and the lemmas about them require ASCII titles. Every title in `src/data/projects.ts` is ASCII.
- ProjectUtils.FindProjectBySlug: it works on `Project(id, title)` records. The other catalogue fields are never read by the lookup.
- Scrolling is not modelled, because it affects only the view:
  - `handleChatScroll`, `scrollToBottom`, the two `watch`ers and `nextTick`;
  - the `setTimeout` debounce and the `onUnmounted` cleanup;
  - `chatMessagesContainer` and the hover and scrolling flags.
- `fetch`, `response.json()`, `alert`, `console.error` and the clock are outside the model:
  - the webhook's answer is the `Outcome` parameter;
  - the timestamp is a parameter;
  - the alert text is the returned `alert`;
  - console logging is dropped;
  - the webhook URL and the request headers are not modelled.
- Interleaving of asynchronous calls is not modelled. Each await is atomic, so `isSubmittingForm` and `isTyping` are observed raised only inside an operation. `Chat.ChatSession.Valid` asks for both to be down between operations. Nothing in `useChat.ts` reads `isSubmittingForm`, so a second submission started while one is in flight is not guarded by this file.
- Chat.Outcome: the `output`, `response` and `message` keys are strings or absent. A JSON number, object or `null` in those keys is not modelled. A body that is a JSON number, string, boolean or array reads every key as `undefined`, so it is the outcome `Ok(None, None, None)`. A `null` body is its own outcome, `NullBody`.
- Chat.ChatSession.SubmitUserInfo: on an `ok` reply whose body is `null` it follows the corrected `StartSession`, which leaves the session uncollected. The source instead marks the session collected and hides the form before it fails. That behaviour is modelled separately by `StartSessionAsWritten`; see Findings.
- Chat.ChatSession.SendMessage: the source pushes the reply inside each branch. The model computes the reply in the branches and pushes it once. On the error path the typing flag is lowered before the push, as in the source.
- The following are not part of this model: `useSEO`, `useNavigation`, `useAppContext`, `router.ts` and `main.ts`.
- Behaviour where the code is followed rather than a prose reading of it:
  - `toggleChat` never closes the chat before the details are collected; it re-opens on the form.
  - The welcome text and the replies use JavaScript truthiness, so an empty `output` falls through to the greeting or to the next key.

## Findings

| source | as written | input that shows it | evidently intended | confidence | as-written member | corrected member |
|---|---|---|---|---|---|---|
| src/composables/useChat.ts:102-118 | `isUserInfoCollected` and `showUserInfoForm` are set at lines 104-105, before `data.output` is read at line 107. A throw at line 107 therefore reaches the catch block at 116-118 after the session is already marked collected | valid details and an `ok` webhook reply whose body is `null`: the failure alert is shown, but the session is collected with its form hidden and an empty transcript (Chat.NullBodyCollectsEmptySession) | a failed start leaves the session uncollected with its form shown, as for every other failure. A collected session always opens with an assistant message | not executed | Chat.ChatSession.StartSessionAsWritten | Chat.ChatSession.StartSession |
