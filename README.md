# English-tutor bot: a verified model of its core logic

The English-tutor bot lets a learner chat in English with a language model,
get structured feedback on their mistakes, and earn achievements. This project
models the parts of it that decide things, and proves what they promise:

- **The worker's pipeline** (`services/worker/src`). It trims text and clamps
  the chat history by turn count and by a character budget. It recovers the
  JSON object a model wrapped in prose, and parses language feedback or falls
  back to a safe value. It normalises the learner's level and picks the
  prompt. It waits on a queued job, and shapes the results of the reply and
  feedback requests and tasks. The records it exchanges are modelled together
  with their validation rules: roles, error types, levels, platforms,
  defaults, and nullable and required keys.
- **The web backend's login state** (`backend/main.py` and its copy in
  `services/web/backend/main.py`). Three tables hold pending login codes,
  issued tokens and saved levels. The model covers requesting a code,
  redeeming it before it expires, `Authorization: Bearer <token>` lookup
  (section 2.1 of RFC 6750, with the scheme matched case-insensitively),
  level settings, and the `/api/check` response shaping. The state is a class
  whose methods update the three maps. The web copy's `_make_code_5`
  (lines 39-40), `_auth_username_from_header` (136-152), `verify_code`
  (218-238), `set_settings` (251-265) and error-item loop (177-182) behave
  like the originals and share their members. `set_settings` takes the
  accepted levels as a parameter, because the web copy also accepts C2.
  Requesting a code and `/api/check` differ between the copies, and each
  copy has its own member for them.
- **Achievement awards** (`services/backend/src/database/crud`). The
  achievement catalogue, users' earned rows, the counting queries, the
  insert-if-absent award, and the threshold and meta rules of
  `check_and_award_on_message`. The user-achievement table is a class field
  that the award method appends to.
- **Small rules**: chat-history reconstruction from stored messages (an
  in-place reversal of an array, then a loop), the leaderboard router's index
  check, the cyclic keyboard navigation, the admin gate, and the
  deterministic statistics stub.

The clock, random draws, the SHA-256 seed, the language model, the JSON
decoder and every network or database call are parameters of the operations
that use them.

One module per source file: `Text` and `Json` (Python string operations and a
small JSON value type), `Schemas`, `Prompts`, `WorkerUtils`, `WorkerService`,
`WorkerTasks`, `Backend`, `Achievements`, `Awards`, `History`,
`LeaderboardRouter`, `LeaderboardKeyboard`, `AdminMiddleware`, `StatsStub`,
and `Common` (Option, Result, HTTP errors, sequence reversal).

Four slips in the source are modelled as their evident intent, and each is
noted where it occurs:
- `service.py` reads `req.hystory`, but the request's field is `history`.
- `make_feedback` and `task_feedback` call `generate_feedback_raw`, which the
  model class does not define. The model treats it as the feedback generator
  the code clearly means.
- `model.py` returns `answer.strip` without calling it. The generator is an
  opaque function here, so this has no effect on the model.
- `check_and_award_on_message` requests `completionist` only once the
  user's count reaches the catalogue's size, which a user lacking it never
  does. The award methods use the corrected rule (`CompletionistDue`: every
  other achievement held); see "## Findings".

## Model

| member | source | states |
|---|---|---|
| Common.Reverse | services/backend/src/routers/history.py:37 | reversal: position `i` of the result is position `len - 1 - i` of the input, same length |
| Text.IsSpace | services/worker/src/utils.py:21 | the whitespace set of `str.isspace()`: space, tab, newline and carriage return are in it; digits, ASCII letters and `_` are not |
| Text.Strip | services/worker/src/utils.py:21 | `str.strip()`: the result is a contiguous slice that neither starts nor ends with whitespace, and everything cut on either side is whitespace |
| Text.RStrip | services/worker/src/utils.py:24 | `str.rstrip()`: a prefix not ending in whitespace, and only whitespace is cut |
| Text.StripUnchanged | services/worker/src/utils.py:86 | stripping text that starts and ends with non-whitespace changes nothing |
| Text.StripPadded | services/worker/src/prompts.py:119 | stripping a value padded with whitespace on both sides gives the value back |
| Text.LStripChar | backend/main.py:186 | `lstrip('@')`: a suffix not starting with `@`, and only `@`s are cut |
| Text.Find | services/worker/src/utils.py:80 | `str.find`: -1 exactly when the character is absent, otherwise the index of its first occurrence |
| Text.RFind | services/worker/src/utils.py:81 | `str.rfind`: -1 exactly when the character is absent, otherwise the index of its last occurrence |
| Text.Upper | services/worker/src/prompts.py:119 | `str.upper()` character by character, same length |
| Text.Lower | backend/main.py:131 | `str.lower()` character by character, same length |
| Text.Split | backend/main.py:130 | `str.split()`: every part is a non-empty run without whitespace |
| Text.SplitWordThen | backend/main.py:130 | a word followed by whitespace (or nothing) splits into that word, then the split of the rest |
| Text.SplitJoinSpace | backend/main.py:130 | splitting words joined by single spaces gives back exactly those words |
| Text.Decimal | backend/main.py:27 | `str(n)`: a non-empty digit string |
| Text.DecimalRoundTrip | backend/main.py:27 | the digits of `str(n)` denote `n` |
| Text.ZeroPadded | backend/main.py:27 | `f"{n:0Wd}"`: digits denoting `n`, exactly `W` long when `str(n)` is shorter |
| Json.Get | services/worker/src/utils.py:98 | `dict.get`: None exactly when no field has the key |
| Json.GetAt | services/worker/src/utils.py:98 | a key's value is the one in its last occurrence, as in a dict built from the fields |
| Schemas.ParseRole | services/worker/src/schemas.py:13 | a role parses exactly when it is `user` or `assistant`, and parsing inverts the role's name |
| Schemas.ParseErrorType | services/worker/src/schemas.py:38-41 | an error type parses exactly when it is one of the five names, and parsing inverts the name |
| Schemas.ParseMetaLevel | services/worker/src/schemas.py:18 | a meta level parses exactly when it is one of A1..C2, and parsing inverts the name |
| Schemas.ParsePlatform | services/worker/src/schemas.py:19 | a platform parses exactly when it is `telegram` or `web` |
| Schemas.StrField | services/worker/src/schemas.py:22-27 | a required `str` field is present exactly when the key holds a string |
| Schemas.NullableStrField | services/worker/src/schemas.py:43 | a `str \| None` field without a default is accepted exactly when the key is present and holds a string or null |
| Schemas.ValidateChatMessage | services/worker/src/schemas.py:12-14 | a message validates exactly when it is an object whose `role` is `user` or `assistant` and whose `content` is a string; the record carries those values |
| Schemas.ValidateFeedbackItem | services/worker/src/schemas.py:36-43 | an item validates exactly when `user_text` and `explanation` are strings, `error_type` is one of the five names and `text_corrected` is present as a string or null; the record carries those values |
| Schemas.ValidateLanguageFeedback | services/worker/src/schemas.py:46-48 | feedback validates exactly when `overall_comment` is a string and `items` is an array whose every element validates as an item; the record keeps the comment and the items in order |
| Schemas.LevelField | services/worker/src/schemas.py:18 | an absent level reads as A2, null as no level, and a string is accepted exactly when it is one of A1..C2 and read as that level; any other value is refused |
| Schemas.ValidateMeta | services/worker/src/schemas.py:17-19 | meta validates exactly when its level is acceptable and `platform` is `telegram` or `web`; the record carries the level read and that platform |
| Schemas.MetaField | services/worker/src/schemas.py:27 | an absent or null `meta` reads as None; otherwise the field is accepted exactly when its value validates as meta, and then holds that meta |
| Schemas.HistoryField | services/worker/src/schemas.py:26 | an absent `history` reads as the empty history; otherwise it is accepted exactly when it is an array whose every element validates as a message, and keeps them in order |
| Schemas.ValidateReplyRequest | services/worker/src/schemas.py:22-27 | a reply request validates exactly when `user_id` and `message` are strings, `session_id` is present as a string or null, and history and meta are acceptable; the record carries each of them |
| Schemas.ValidateFeedbackRequest | services/worker/src/schemas.py:51-55 | a feedback request validates exactly when `user_id`, `session_id` and `message` are strings and meta is acceptable; the record carries each of them |
| Schemas.ValidateChatMessages | services/worker/src/schemas.py:26 | a list of messages validates exactly when every element does, and keeps each element's message in order |
| Schemas.ChatMessagesToJson | services/worker/src/schemas.py:26 | serialising keeps one element per message |
| Schemas.ValidateFeedbackItems | services/worker/src/schemas.py:47 | a list of items validates exactly when every element does, and keeps each element's item in order |
| Schemas.FeedbackItemsToJson | services/worker/src/schemas.py:47 | serialising keeps one element per item |
| Schemas.ChatMessageRoundTrip | services/worker/src/schemas.py:12-14 | a serialised message validates back to itself |
| Schemas.ChatMessagesRoundTrip | services/worker/src/schemas.py:26 | a serialised history validates back to itself, in order |
| Schemas.FeedbackItemRoundTrip | services/worker/src/schemas.py:36-43 | a serialised feedback item validates back to itself |
| Schemas.FeedbackItemsRoundTrip | services/worker/src/schemas.py:47 | a serialised item list validates back to itself |
| Schemas.LanguageFeedbackRoundTrip | services/worker/src/schemas.py:46-48 | serialised language feedback validates back to itself |
| Schemas.MetaRoundTrip | services/worker/src/schemas.py:17-19 | serialised meta validates back to itself |
| Schemas.ReplyRequestFields | services/worker/src/schemas.py:22-27 | a serialised reply request carries each of its fields under its key |
| Schemas.ReplyRequestRoundTrip | services/worker/src/schemas.py:22-27 | a serialised reply request validates back to itself |
| Schemas.FeedbackRequestRoundTrip | services/worker/src/schemas.py:51-55 | a serialised feedback request validates back to itself |
| Schemas.PromptOnlyErrorTypesRejected | services/worker/src/schemas.py:38-41 | an item with the prompt's `word_order` or `other` error type fails validation |
| Schemas.TextCorrectedRequired | services/worker/src/schemas.py:43 | an item without a `text_corrected` key fails validation, although the value may be null |
| Schemas.LanguageFeedbackKeysRequired | services/worker/src/schemas.py:46-48 | feedback missing `items` or `overall_comment` fails validation |
| Schemas.MetaLevelDefault | services/worker/src/schemas.py:18-19 | an absent level reads as A2, an explicit null stays None, and C2 is accepted |
| Schemas.ReplyRequestHistoryDefault | services/worker/src/schemas.py:26 | a reply request without `history` gets the empty history |
| Schemas.SessionIdNullability | services/worker/src/schemas.py:22-55 | a null `session_id` is refused by a feedback request and read as None by a reply request |
| Prompts.NormalizeLevel | services/worker/src/prompts.py:116-122 | the result is always one of A1..C1 and a key of both rule tables; any other result than B1 is the stripped, upper-cased input |
| Prompts.RuleTableKeys | services/worker/src/prompts.py:10-60 | both rule tables have exactly the keys A1, A2, B1, B2, C1 |
| Prompts.NormalizeLevelIdempotent | services/worker/src/prompts.py:116-122 | normalising a normalised level changes nothing |
| Prompts.NormalizeLevelPadded | services/worker/src/prompts.py:119-121 | surrounding whitespace and case are ignored (`' b2 '` gives `B2`) |
| Prompts.UnknownLevelIsDefault | services/worker/src/prompts.py:120-122 | a level outside A1..C1 after strip and upper-casing gives B1 |
| Prompts.C2IsDefault | services/worker/src/prompts.py:120-122 | C2, in any case and padding, gives B1 |
| Prompts.GetPrompt | services/worker/src/prompts.py:125-140 | a prompt exactly for the kinds `reply` and `feedback`; any other kind is the error `Unknown kind: <kind>` |
| Prompts.ReplyRuleNamesLevel | services/worker/src/prompts.py:10-41 | each reply rule text names its own level right after its header |
| Prompts.FeedbackRuleNamesLevel | services/worker/src/prompts.py:43-60 | each feedback rule text names its own level right after its header |
| Prompts.RulesNameTheirLevel | services/worker/src/prompts.py:10-60 | both rule texts of a level name that level |
| Prompts.PromptSelectsLevel | services/worker/src/prompts.py:132-138 | for either kind, two levels give the same prompt exactly when they normalise to the same level |
| WorkerUtils.TrimText | services/worker/src/utils.py:18-24 | empty for a non-positive budget; the stripped text when it fits; otherwise the first `max_chars` stripped characters with only trailing whitespace cut (the kept stem is empty or ends in a non-space, and every character cut from the window is whitespace), followed by `...` |
| WorkerUtils.TrimTextIdempotentIff | services/worker/src/utils.py:18-24 | trimming twice equals trimming once exactly when the cut text is not strictly between `max_chars - 3` and `max_chars` characters long |
| WorkerUtils.TrimTruncatedAgain | services/worker/src/utils.py:22-24 | a truncated result survives a second trim exactly when it does not exceed the budget by less than the ellipsis |
| WorkerUtils.TrimEllipsis | services/worker/src/utils.py:22-24 | trimming `p + "..."` again leaves it alone exactly when `p` is not strictly between `max_chars - 3` and `max_chars` characters long |
| WorkerUtils.ClampHistory | services/worker/src/utils.py:57-65 | empty for a non-positive limit, otherwise the last `min(len, max_turns)` messages in order, and the input itself when it fits |
| WorkerUtils.ClampHistoryIdempotent | services/worker/src/utils.py:57-65 | clamping a clamped history changes nothing |
| WorkerUtils.KeptFrom | services/worker/src/utils.py:36-41 | the scan from the newest message stops at or before the start of the history |
| WorkerUtils.KeptFromFits | services/worker/src/utils.py:36-41 | the messages the scan keeps fit in the budget |
| WorkerUtils.KeptFromMaximal | services/worker/src/utils.py:38-39 | the message just older than the kept ones would overflow the budget |
| WorkerUtils.KeptFromAll | services/worker/src/utils.py:36-41 | when the whole history fits, all of it is kept |
| WorkerUtils.KeptByChars | services/worker/src/utils.py:27-42 | a contiguous suffix in original order with total length within the budget, empty for a non-positive budget, and ended by the first message that would overflow |
| WorkerUtils.KeptByCharsIdempotent | services/worker/src/utils.py:27-42 | clamping by characters twice is clamping once |
| WorkerUtils.OverlongNewestKeepsNothing | services/worker/src/utils.py:36-39 | a newest message longer than the budget leaves nothing |
| WorkerUtils.ClampHistoryByChars | services/worker/src/utils.py:27-42 | the loop returns exactly the suffix specified by `KeptByChars` |
| WorkerUtils.ExtractJsonObject | services/worker/src/utils.py:77-91 | empty text is `Empty text`; a missing `{` or `}`, or a last `}` not after the first `{`, is `No JSON object boundaries found`; success needs both braces in order |
| WorkerUtils.ExtractDecodesObjectText | services/worker/src/utils.py:80-91 | with no `{` before the object and no `}` after it, exactly the object's text is decoded, and a decoder error becomes `JSON decode failed: <error>` |
| WorkerUtils.FeedbackPayload | services/worker/src/utils.py:98-104 | a found payload is never null |
| WorkerUtils.SafeParseLanguageFeedback | services/worker/src/utils.py:94-115 | the result is feedback exactly when extraction succeeds, the key is present and not null, and validation succeeds; every other case is None, never an exception |
| WorkerUtils.SafeParseRecoversWrappedFeedback | services/worker/src/utils.py:94-107 | feedback serialised inside an object wrapped in prose is recovered exactly |
| WorkerUtils.SafeParseMissingKey | services/worker/src/utils.py:98-104 | an object without `language_feedback` gives None |
| WorkerUtils.FallbackLanguageFeedback | services/worker/src/utils.py:118-124 | no items, and the reason as the overall comment, for every reason |
| WorkerUtils.FallbackIsValid | services/worker/src/utils.py:118-124 | the fallback survives serialisation and validation unchanged |
| WorkerUtils.FailureText | services/worker/src/utils.py:140 | the last 2000 characters of the failure text, or `job failed` when there is none |
| WorkerUtils.FirstTerminalDecides | services/worker/src/utils.py:134-140 | the first `finished` or `failed` status seen before the deadline decides the outcome |
| WorkerUtils.NoPollWithoutTime | services/worker/src/utils.py:133-134 | a non-positive timeout on a clock that does not go back times out without polling |
| WorkerUtils.WaitJobResult | services/worker/src/utils.py:127-142 | the loop's outcome is the specified one; every refresh it made was before the deadline and all but the last were non-terminal; a timeout follows a reading at or past the deadline |
| WorkerService.HistoryToDicts | services/worker/src/service.py:31-35 | one `{role, content}` dict per message, in order |
| WorkerService.DictsToHistory | services/worker/src/service.py:31-35 | the inverse reading keeps the length |
| WorkerService.HistoryToDictsRoundTrip | services/worker/src/service.py:31-35 | the dicts carry every message's role and content: reading them back gives the history |
| WorkerService.RequestLevel | services/worker/src/service.py:41 | a level exactly when the request has meta with a level, and it names that level |
| WorkerService.MakeReply | services/worker/src/service.py:37-63 | the generator gets the reply prompt for the request's level, the last 16 messages of the history as dicts, and the message; meta has mode `reply` and the level, or `auto` exactly when there is none |
| WorkerService.ClampHistoryOfOlder | services/worker/src/utils.py:63-65 | messages older than the last `max_turns` do not affect the clamp |
| WorkerService.MakeReplyIgnoresOlderTurns | services/worker/src/service.py:44 | with at least 16 messages in the history, older messages cannot change the reply |
| WorkerService.FeedbackOrFallback | services/worker/src/service.py:79-83 | the parsed feedback when parsing succeeds, otherwise no items and the formatting-error reason |
| WorkerService.MakeFeedback | services/worker/src/service.py:64-92 | the feedback is the parsed-or-fallback reading of the generator's output for the feedback prompt; meta has mode `feedback` and the level, or `auto` |
| WorkerService.MakeFeedbackIsValid | services/worker/src/service.py:79-86 | the returned feedback always survives serialisation and validation unchanged |
| WorkerService.MakeFeedbackFallsBack | services/worker/src/service.py:79-83 | output without a `{` gives exactly the formatting-error fallback |
| WorkerTasks.ErrorResult | services/worker/src/tasks.py:54-57 | an exception becomes exactly the two keys `error` and `traceback` |
| WorkerTasks.TaskReply | services/worker/src/tasks.py:34-57 | success is exactly `{'reply': text}` from the reply prompt; a generator exception becomes the error result |
| WorkerTasks.EscapeNewlines | services/worker/src/tasks.py:75 | no newline remains, the length at most doubles, and text without newlines is unchanged |
| WorkerTasks.UnescapeNewlines | services/worker/src/tasks.py:75 | the inverse reading never lengthens |
| WorkerTasks.EscapeNewlinesRoundTrip | services/worker/src/tasks.py:75 | for text without backslashes, escaping is undone by unescaping |
| WorkerTasks.RawPreview | services/worker/src/tasks.py:75 | the preview has no newline, is at most 600 characters, and for output without backslashes decodes back to exactly its first 300 characters |
| WorkerTasks.TaskFeedback | services/worker/src/tasks.py:60-98 | success is exactly `{'language_feedback': …}` holding the parsed-or-fallback feedback; a generator exception becomes the error result |
| WorkerTasks.TaskFeedbackPayloadValidates | services/worker/src/tasks.py:80-93 | the payload of a successful feedback task always validates as language feedback |
| WorkerTasks.TaskReplyMatchesService | services/worker/src/tasks.py:43-52 | given the service's clamped history and level, `task_reply` returns the service's reply |
| Backend.NormalizeUsername | backend/main.py:186 | strip then lstrip('@'): empty, or not starting with `@` and not ending in whitespace |
| Backend.NormalizeUsernameDropsAts | backend/main.py:186 | any run of leading `@`s is dropped (`@@bob` gives `bob`) |
| Backend.NormalizeUsernameKeepsInnerSpace | backend/main.py:186 | whitespace after the `@`s is kept, while leading whitespace is stripped |
| Backend.MakeCode5 | backend/main.py:26-27 | exactly five digits denoting the draw |
| Backend.MakeCode5Injective | backend/main.py:26-27 | different draws give different codes |
| Backend.MakeToken | backend/main.py:212 | `mock-<user>-<draw>`: 12 characters longer than the name, and its owner can be read back |
| Backend.MakeTokenInjective | backend/main.py:212 | a token determines both the user and the draw |
| Backend.AuthUsernameFromHeader | backend/main.py:126-138 | a missing or empty header is `Missing Authorization header`; a header that does not split into two words with the first `bearer` in any case is `Invalid Authorization header format`; otherwise the second word's user is returned when it is a known token with a non-empty user, and `Invalid or expired token` answers every other case; all rejections are 401 |
| Backend.BearerHeaderAccepted | backend/main.py:130-138 | `<scheme> <token>` with the scheme `bearer` in any case and a known token gives that token's user |
| Backend.OtherSchemeRejected | backend/main.py:130-132 | `<scheme> <token>` with any other scheme is rejected as a malformed header, whatever the token |
| Backend.UnknownTokenRejected | backend/main.py:134-137 | a bearer header whose token no user holds is rejected as an invalid or expired token |
| Backend.TwoWordSplit | backend/main.py:130 | two words joined by one space split back into exactly those two words |
| Backend.ThreePartHeaderRejected | backend/main.py:130-132 | a header of three whitespace-separated parts is `Invalid Authorization header format` |
| Backend.IssueTokenKeepsValid | backend/main.py:212-213 | issuing a token keeps every token owned by a non-empty name |
| Backend.RemovePendingKeepsValid | backend/main.py:205-214 | removing a pending code keeps the remaining codes well-formed |
| Backend.RedeemOutcome | backend/main.py:200-216 | success exactly when a pending, unexpired, matching code exists; success removes it and adds one token for the user; expiry removes it; a wrong code keeps it; failures are 401 and add no token; other users' codes are untouched |
| Backend.BackendState.constructor | backend/main.py:15-17 | the three tables start empty |
| Backend.BackendState.RequestCode | backend/main.py:184-195 | 422 for a name outside 3..64 characters; 400 when the normalised name is empty; otherwise a fresh five-digit code expiring 10 minutes later replaces any pending one; tokens and levels unchanged |
| Backend.BackendState.RequestCodeWeb | services/web/backend/main.py:194-215 | as above, and the code stays pending even when delivery fails with 404 |
| Backend.BackendState.VerifyCode | backend/main.py:198-216 | 422 for a code not five long, changing nothing; otherwise the redeem outcome for the normalised name |
| Backend.BackendState.Redeem | backend/main.py:200-216 | the tables change exactly as `RedeemOutcome` says; levels are untouched |
| Backend.BackendState.GetSettings | backend/main.py:222-226 | fails exactly when the header is rejected; otherwise the authenticated user with their saved level, or B1 when none was saved |
| Backend.BackendState.SetSettings | backend/main.py:229-233 | 422 for a level outside the accepted set; the header's rejection; otherwise the level is saved and `get_settings` then returns it |
| Backend.BackendState.CheckLevel | backend/main.py:149 | the saved level when one exists, else the requested one |
| Backend.IssuedTokenAuthenticates | backend/main.py:126-138 | a bearer header with an issued token authenticates its user when the name has no whitespace |
| Backend.SpacedNameTokenRejected | backend/main.py:130-132 | a user whose name holds a space gets a token that no header can present |
| Backend.ValidateErrorItem | backend/main.py:47-51 | only an object can construct an item |
| Backend.ErrorItemRoundTrip | backend/main.py:47-51 | a serialised item constructs back to itself |
| Backend.WellFormedItems | backend/main.py:167-172 | never more items than elements |
| Backend.WellFormedItemsAppend | backend/main.py:167-172 | filtering distributes over concatenation, so order is kept |
| Backend.MalformedItemSkipped | backend/main.py:169-172 | a malformed element is dropped without disturbing the others |
| Backend.WellFormedItemsKeepsAll | backend/main.py:167-172 | well-formed items are all kept, in order |
| Backend.ParseErrorItems | backend/main.py:167-172 | the loop keeps exactly the well-formed items, in order |
| Backend.ErrorsField | backend/main.py:168 | an absent `errors` key means no items; anything that cannot be iterated fails with 500 |
| Backend.StrOr | backend/main.py:175-176 | an absent key gives the default, a string value is used as is |
| Backend.ShapedResponse | backend/main.py:166-178 | the answer is usable exactly when `errors` is absent, an array, a string or an object and the two text fields are absent or strings (otherwise a 500); the corrected text is the answer's or else the submitted text, the explanation the answer's or else empty, and the items are the well-formed ones of an `errors` array |
| Backend.ShapeCheckResponse | backend/main.py:166-178 | the corrected text defaults to the input, the explanation to empty, only well-formed items are kept, and an unusable answer is a 500 |
| Backend.CorrectedTextDefaultsToInput | backend/main.py:175 | an answer without `corrected_text` echoes the submitted text |
| Backend.Check | backend/main.py:144-178 | 422 for empty text or an unknown level; the header's rejection; the saved level is sent; unreachable answers, answers with a 400–599 status (`not r.ok`) and non-JSON answers are 502; an object answer is shaped into the response |
| Backend.CheckWeb | services/web/backend/main.py:158-188 | 422 and the header check as above; a missing user record, `tg_id` or answer is a 500; otherwise the answer is shaped; no outcome is 502 |
| Achievements.FindByCode | services/backend/src/database/crud/achievement.py:95-99 | the catalogue row with the code, or None when no row has it |
| Achievements.FindById | services/backend/src/database/crud/achievement.py:36-39 | the catalogue row with the id, or None when no row has it |
| Achievements.UserRows | services/backend/src/database/crud/achievement.py:19-21 | exactly the user's rows |
| Achievements.HeldCodes | services/backend/src/database/crud/achievement.py:73-88 | the user's codes are catalogue codes |
| Achievements.HeldCodesOfCatalogue | services/backend/src/database/crud/achievement.py:77-84 | a catalogue code is held exactly when its id is among the user's rows |
| Achievements.HeldCount | services/backend/src/database/crud/achievement.py:115-123 | with no duplicate awards, the user's row count is the number of distinct held achievements |
| Achievements.HeldCodesCount | services/backend/src/database/crud/achievement.py:115-123 | with the catalogue's keys unique and every row joined to it, the user's row count equals the number of codes `get_user_achievement_codes` returns |
| Achievements.CatalogueCodesCount | services/backend/src/database/crud/achievement.py:126-129 | the catalogue's row count is its number of distinct codes |
| Achievements.MessagesCount | services/backend/src/database/crud/achievement.py:54-59 | zero exactly when the user has no message, and never above the table size |
| Achievements.MessagesCountAppend | services/backend/src/database/crud/achievement.py:54-59 | a new message counts exactly when it is the user's |
| Achievements.ErrorsCount | services/backend/src/database/crud/achievement.py:62-70 | zero exactly when no error is on one of the user's messages |
| Achievements.ErrorsOnOthersIgnored | services/backend/src/database/crud/achievement.py:62-70 | an error on another user's message does not count |
| Achievements.ErrorsOnOwnCounted | services/backend/src/database/crud/achievement.py:62-70 | an error on the user's own message counts once |
| Achievements.JoinRows | services/backend/src/database/crud/achievement.py:29-40 | the join never has more rows than the user-achievement table |
| Achievements.JoinRowsComplete | services/backend/src/database/crud/achievement.py:36-40 | with every achievement id in the catalogue, the join keeps every row in order, paired with its catalogue row |
| Achievements.InsertByEarned | services/backend/src/database/crud/achievement.py:41 | inserting one row lengthens the sequence by one |
| Achievements.SortByEarned | services/backend/src/database/crud/achievement.py:41 | the sort keeps the number of rows |
| Achievements.InsertByEarnedPermutes | services/backend/src/database/crud/achievement.py:41 | inserting a row adds exactly that row to the multiset of rows |
| Achievements.SortByEarnedPermutes | services/backend/src/database/crud/achievement.py:41 | the sorted rows are a permutation of the user's rows |
| Achievements.InsertByEarnedMembers | services/backend/src/database/crud/achievement.py:41 | a row is in the result exactly when it was in the sequence or is the inserted one |
| Achievements.SortByEarnedMembers | services/backend/src/database/crud/achievement.py:41 | a row is in the sorted sequence exactly when it is among the rows sorted |
| Achievements.EarnedAt | services/backend/src/database/crud/achievement.py:41 | the rows earned at one time are exactly those of the sequence with that `earned_at` |
| Achievements.EarnedAtAppend | services/backend/src/database/crud/achievement.py:41 | the rows of one time in a concatenation are those of each part, in order |
| Achievements.InsertByEarnedOrdered | services/backend/src/database/crud/achievement.py:41 | inserting into rows in `earned_at` order keeps them in that order |
| Achievements.SortByEarnedOrdered | services/backend/src/database/crud/achievement.py:41 | the sorted rows are in non-decreasing `earned_at` order |
| Achievements.InsertByEarnedStable | services/backend/src/database/crud/achievement.py:41 | the inserted row comes after every row with the same `earned_at` |
| Achievements.SortByEarnedStable | services/backend/src/database/crud/achievement.py:41 | rows with equal `earned_at` keep their table order (the sort is stable) |
| Achievements.InsertByEarnedLatest | services/backend/src/database/crud/achievement.py:41 | a row no earlier than every row already there goes at the end |
| Achievements.SortByEarnedOfOrdered | services/backend/src/database/crud/achievement.py:41 | rows already in `earned_at` order are left as they are |
| Achievements.RowView | services/backend/src/database/crud/achievement.py:42-51 | a view is returned only for a position inside the rows, and carries the given total |
| Achievements.RowViewSelects | services/backend/src/database/crud/achievement.py:36-51 | at a position inside rows that all join the catalogue, the view carries that row's id and `earned_at` and its catalogue title and description |
| Achievements.GetUserAchievements | services/backend/src/database/crud/achievement.py:14-51 | None when the user holds nothing; a returned view carries the user's non-zero achievement count as its total |
| Achievements.GetUserAchievementsSelects | services/backend/src/database/crud/achievement.py:27-51 | with every row joined to the catalogue, the index is taken mod the total, into range even when negative, and selects the row at that position of the user's rows sorted by `earned_at`, with its catalogue title and description |
| Achievements.GetUserAchievementsInEarnedOrder | services/backend/src/database/crud/achievement.py:41-43 | for indices within the total, a later index never reads an earlier `earned_at` |
| Achievements.GetUserAchievementsEarliestFirst | services/backend/src/database/crud/achievement.py:41-43 | index 0 reads the user's earliest `earned_at` |
| Achievements.GetUserAchievementsCycles | services/backend/src/database/crud/achievement.py:27 | shifting the index by the total selects the same achievement |
| Achievements.UserRowsInEarnedOrder | services/backend/src/database/crud/achievement.py:41 | a table in `earned_at` order keeps the user's rows in that order, so the sort then leaves them as they are |
| Achievements.AwardAddsCode | services/backend/src/database/crud/achievement.py:109-112 | a new award adds its id and its code to what the user holds, adds one row, and keeps the table valid |
| Achievements.AwardKeepsRowsValid | services/backend/src/database/crud/achievement.py:109-112 | inserting a row the user does not hold, for a catalogue achievement, keeps every row joined to the catalogue and the table free of duplicates, whatever `now` is |
| Achievements.AwardAchievementByCode | services/backend/src/database/crud/achievement.py:91-112 | None and no change for an unknown code or an achievement already held; otherwise exactly one row is appended and its id returned, so the code becomes held |
| Achievements.AchievementStore.constructor | services/backend/src/database/crud/achievement.py:14-129 | the store holds the given catalogue, messages, errors and user rows, and is valid |
| Achievements.AwardAddsId | services/backend/src/database/crud/achievement.py:109-112 | a new row adds its id to the user's held ids and one row to the user's rows |
| Achievements.AwardAddsHeldCode | services/backend/src/database/crud/achievement.py:109-112 | a new row for a catalogue achievement adds exactly its code to the held codes |
| Awards.MessageCodesMet | services/backend/src/database/crud/messages_with_awards.py:11-16 | codes 1–4 are met at 1, 20, 100 and 1000 messages |
| Awards.ErrorCodesMet | services/backend/src/database/crud/messages_with_awards.py:18-22 | codes 5–7 are met at 1, 10 and 100 errors |
| Awards.CompletionistNeverDueAsWritten | services/backend/src/database/crud/messages_with_awards.py:81-83 | as written, the completionist rule never fires for a user who lacks it |
| Awards.AllOthersHeldMakesDue | services/backend/src/database/crud/messages_with_awards.py:81-83 | holding every other achievement makes the corrected rule fire |
| Awards.DueMeansAllOthersHeld | services/backend/src/database/crud/messages_with_awards.py:81-83 | the corrected rule fires only when every other achievement is held |
| Awards.CompletionistDueIffAllOthersHeld | services/backend/src/database/crud/messages_with_awards.py:81-83 | the corrected rule fires exactly when every other achievement is held |
| Awards.NewId | services/backend/src/database/crud/achievement.py:95-112 | an award attempt yields at most one id, and one exactly when the code is in the catalogue |
| Awards.NewIdOf | services/backend/src/database/crud/achievement.py:95-112 | a catalogue achievement's id is the one yielded exactly when its code is the one asked for |
| Awards.ThresholdIds | services/backend/src/database/crud/messages_with_awards.py:42-52 | a threshold loop yields at most one id per table entry |
| Awards.ThresholdIdsAwardNew | services/backend/src/database/crud/messages_with_awards.py:42-52 | an achievement's id is yielded by a threshold loop exactly when its code's threshold is met and it was not held |
| Awards.MetaIds | services/backend/src/database/crud/messages_with_awards.py:57-89 | the meta rules yield at most three ids |
| Awards.MetaIdsAwardNew | services/backend/src/database/crud/messages_with_awards.py:57-89 | an achievement's id is yielded by the meta rules exactly when its code is added by them and was not held |
| Awards.AwardAndCollect | services/backend/src/database/crud/messages_with_awards.py:43-46 | one award attempt appends the new id, if any, to the collected ids, and grows the user's rows by as many |
| Awards.AwardIfDue | services/backend/src/database/crud/messages_with_awards.py:43-46 | inserts exactly when the threshold is met and the code is a catalogue code not yet held; the code is then held and its id, the one the rule yields, returned |
| Awards.AwardThresholds | services/backend/src/database/crud/messages_with_awards.py:42-52 | only new rows of this user are appended, the returned ids are theirs, in the order of the threshold table, exactly `ThresholdIds`, and afterwards the held codes are the earlier ones plus every met catalogue code |
| Awards.CompletionistDueIffAllOthersIn | services/backend/src/database/crud/messages_with_awards.py:81-83 | on a set of catalogue codes without code 11, the corrected rule applied to its size fires exactly when every other catalogue code is in it |
| Awards.WithRule | services/backend/src/database/crud/messages_with_awards.py:59-68 | one meta rule adds exactly its code, when due and in the catalogue, and the count of codes grows by one exactly when the code is new |
| Awards.MetaOutcome | services/backend/src/database/crud/messages_with_awards.py:57-89 | the codes after the meta rules lie between the codes before and those plus 9, 10 and 11; code 9 is held afterwards exactly when it was held or anything is held and the catalogue has it |
| Awards.CollectorOutcome | services/backend/src/database/crud/messages_with_awards.py:70-79 | code 10 is held after the meta rules exactly when it was held, or the catalogue has it and the user holds five achievements, or four without code 9 and is given code 9 by the rule before |
| Awards.CompletionistOutcome | services/backend/src/database/crud/messages_with_awards.py:81-89 | code 11 is held after the meta rules exactly when it was held, or the catalogue has it and every other code is then held (corrected rule) |
| Awards.MetaOutcomePromises | services/backend/src/database/crud/messages_with_awards.py:70-89 | code 10 is held once five achievements are; code 11 once every other code is (corrected rule) |
| Awards.AwardMetaStep | services/backend/src/database/crud/messages_with_awards.py:59-79 | a meta step changes the held codes exactly as its rule says, appends the id its rule yields, and the count stays the number of held codes |
| Awards.AwardCompletionist | services/backend/src/database/crud/messages_with_awards.py:81-89 | by the corrected `CompletionistDue` rule (count + 1 ≥ total), code 11 is added exactly when due and in the catalogue, and its id appended; it is held afterwards when every other achievement is |
| Awards.AwardMeta | services/backend/src/database/crud/messages_with_awards.py:54-89 | the held codes afterwards are exactly `MetaOutcome` of the codes before (with the corrected completionist rule); in particular code 9 once anything is held, code 10 once 5 were held before, code 11 once all others are, nothing else added; the ids returned are exactly `MetaIds`, in the order 9, 10, 11 |
| Awards.CheckAndAwardOnMessage | services/backend/src/database/crud/messages_with_awards.py:31-91 | only new rows for this user are appended; the ids returned are exactly those of the message codes in table order, then the error codes in table order, then codes 9, 10 and 11 (`ThresholdIds` twice, then `MetaIds`); the held codes afterwards are exactly `MetaOutcome` (with the corrected completionist rule) of the codes before plus every met threshold code in the catalogue |
| History.Turns | services/backend/src/routers/history.py:41-44 | a user turn exactly when the text is non-empty, then an assistant turn exactly when the answer is non-empty |
| History.TurnsOf | services/backend/src/routers/history.py:39-46 | at most two turns per message, none empty |
| History.TurnsOfAppend | services/backend/src/routers/history.py:39-46 | the conversion distributes over concatenation, so message order is kept |
| History.TurnsOfAt | services/backend/src/routers/history.py:40-44 | each message's turns sit between those of the messages before and after it |
| History.UserTurnThenAnswer | services/backend/src/routers/history.py:41-44 | a message with both fields puts its user turn immediately before its assistant turn |
| History.EmptyMessageSkipped | services/backend/src/routers/history.py:41-44 | a message with neither field contributes nothing |
| History.ReverseInPlace | services/backend/src/routers/history.py:37 | the array's contents are reversed in place |
| History.AppendTurns | services/backend/src/routers/history.py:39-46 | the loop's output is exactly the turns of the messages, in order |
| History.TurnsNewestFirst | services/backend/src/routers/history.py:37-46 | the turns of the newest-first fetch, reversed into chronological order |
| History.GetChatHistory | services/backend/src/routers/history.py:21-51 | a database error is 503, an unknown user is 404, otherwise the turns of the fetched messages in chronological order |
| LeaderboardRouter.Entries | services/backend/src/routers/leaderboard.py:42-50 | one entry per row, in order, with username, value and `user_id = tg_id` |
| LeaderboardRouter.GetLeaderboard | services/backend/src/routers/leaderboard.py:20-58 | 400 exactly for an index outside 0..2; otherwise that category's query gives the response with the index and 3 categories, or a 503 carrying its error |
| LeaderboardKeyboard.NextIndex | services/bot/src/buttons/leaderboard.py:9 | the next index is in 0..2 for any integer |
| LeaderboardKeyboard.PrevIndex | services/bot/src/buttons/leaderboard.py:10 | the previous index is in 0..2 for any integer |
| LeaderboardKeyboard.NextIndexSteps | services/bot/src/buttons/leaderboard.py:8-10 | from a valid index, next and previous step cyclically |
| LeaderboardKeyboard.PrevUndoesNext | services/bot/src/buttons/leaderboard.py:9-10 | previous after next, and next after previous, give the index mod 3 |
| LeaderboardKeyboard.GotoData | services/bot/src/buttons/leaderboard.py:17-25 | `lb:goto:` followed by one digit |
| LeaderboardKeyboard.ParseGoto | services/bot/src/buttons/leaderboard.py:17-25 | reading a `lb:goto:` callback gives a single digit |
| LeaderboardKeyboard.GotoRoundTrip | services/bot/src/buttons/leaderboard.py:17-25 | a goto callback reads back to its index |
| LeaderboardKeyboard.LeaderboardKb | services/bot/src/buttons/leaderboard.py:7-29 | one row of three buttons: back to the previous index, Exit, forward to the next index |
| LeaderboardKeyboard.KeyboardTargetsValid | services/bot/src/buttons/leaderboard.py:8-10 | every goto button targets an index the router accepts, and only Exit carries no index |
| AdminMiddleware.Call | services/bot/src/middlewares/admin.py:9-19 | the handler's result exactly when the event is not a message, or is a message from an admin; otherwise nothing |
| AdminMiddleware.AnonymousMessageDropped | services/bot/src/middlewares/admin.py:13-14 | a message without a sender is dropped |
| AdminMiddleware.AddingAdmin | services/bot/src/middlewares/admin.py:16-17 | adding an admin admits only that sender's messages in addition |
| StatsStub.AnalyzeFields | services/web/ai_worker_stub/app.py:61-68 | the corrected text is the input, the explanation names level and user, and there are no errors |
| StatsStub.StubCheckEchoesText | services/web/ai_worker_stub/app.py:64-68 | a backend check answered by the stub echoes the text with no error items |
| StatsStub.ParsePeriod | services/web/ai_worker_stub/app.py:79 | a period parses exactly when it is `day`, `week` or `all` |
| StatsStub.PeriodRoundTrip | services/web/ai_worker_stub/app.py:79 | every period's name parses back to it |
| StatsStub.Days | services/web/ai_worker_stub/app.py:85 | the period spans between 1 and 30 days |
| StatsStub.Point | services/web/ai_worker_stub/app.py:92-95 | point `i` is dated `days - 1 - i` days before today, with messages in 0..6 and errors in 0..10 |
| StatsStub.Timeseries | services/web/ai_worker_stub/app.py:87-97 | exactly `days` points, point by point as specified, with totals equal to the sums |
| StatsStub.TimeseriesDays | services/web/ai_worker_stub/app.py:91-92 | consecutive dates, oldest first, ending today |
| StatsStub.SumsBounded | services/web/ai_worker_stub/app.py:93-97 | the totals lie within 6 and 10 per day |
| StatsStub.TypeCount | services/web/ai_worker_stub/app.py:105 | each count is in 0..11 |
| StatsStub.ErrorsByType | services/web/ai_worker_stub/app.py:101-106 | five entries in the fixed type order with their counts |
| StatsStub.Window | services/web/ai_worker_stub/app.py:119 | the window is at least one day and at least the period |
| StatsStub.PickAchievements | services/web/ai_worker_stub/app.py:116-120 | at most one item per pool entry considered, each earned within the window ending today |
| StatsStub.Achievements | services/web/ai_worker_stub/app.py:108-120 | the loop selects exactly the specified achievements |
| StatsStub.PickedParity | services/web/ai_worker_stub/app.py:118 | item `k` is picked exactly when `seed + k` is even |
| StatsStub.PickedBySeedParity | services/web/ai_worker_stub/app.py:109-120 | an even seed picks FIRST_MESSAGE, STREAK_7 and 100_MESSAGES_SENT; an odd seed picks STREAK_3 and NO_ERRORS_5 |
| StatsStub.PickedEvenSeed | services/web/ai_worker_stub/app.py:116-118 | an even seed picks FIRST_MESSAGE, STREAK_7 and 100_MESSAGES_SENT, in that order |
| StatsStub.PickedOddSeed | services/web/ai_worker_stub/app.py:116-118 | an odd seed picks STREAK_3 and NO_ERRORS_5, in that order |
| StatsStub.StatsFor | services/web/ai_worker_stub/app.py:76-130 | the period's number of points, five error types, counts equal to the timeseries sums and within their bounds |
| StatsStub.StatsOf | services/web/ai_worker_stub/app.py:85-130 | the loops build exactly the specified statistics |
| StatsStub.Stats | services/web/ai_worker_stub/app.py:76-130 | 422 for an empty name or an unknown period; otherwise the statistics for the period (week by default), determined by the normalised name and the period |

## Left out

- HTTP client helpers (`post_response`, `get_response`, `patch_response`) and every network call: the answers are parameters of the operations that wait for them.
- SQL query construction, sessions and the FastAPI/aiogram wiring: the tables are sequences, and each query is a function over them.
- Model inference (`model.py`, `chat.py`): the generator is an opaque function, so `answer.strip` returned uncalled in `model.py` has no counterpart here.
- The Redis/RQ queue: the job's refreshed states and the clock readings are sequences the wait loop reads.
- The wall clock, `random`, and the SHA-256 seed of the stats stub: each is a parameter. Dates are day numbers, not ISO strings.
- `errors_per_message`: floating-point rounding is not modelled.
- Text.Upper / Text.Lower: only ASCII letters change case. Python's full Unicode case mapping is not modelled.
- JSON decoding (`json.loads`) is a parameter. Pydantic validation is modelled only for the records used here: extra keys are ignored and the last duplicate key wins.
- The history route declares status 201 for success; status codes of successful responses are not modelled.
- A negative `limit` for the history query is passed through to the database parameter unchanged; its meaning is left to that function.
- The bot's `lb:goto` callback handler is not part of this model; `ParseGoto` is only the inverse of the data the keyboard emits.
- Backend.BackendState.GetSettings: the web copy's `get_settings` reads the level from the users service over the network and is not modelled.
- Backend.BackendState.SetSettings: the web copy's follow-up PATCH to the users service is not modelled.
- Backend.CheckWeb: the user lookup and message post are parameters that give None on failure, so the `requests` exception branch, which cannot be reached, is not modelled.
- Logging, the `lru_cache` service singleton, the `Timer` and latency measurement: the latency is a parameter.
- Achievements.AwardAchievementByCode: requests run one at a time. The `user_achievements` table has no unique key on the user and achievement pair, and the award checks for a row before it inserts one, so two concurrent awards could insert the same achievement twice. `NoDuplicateAwards` excludes that, and the meta rules' comparisons of the row count with held codes rely on it.
- Achievements.GetUserAchievements: rows with equal `earned_at` are taken in table order, since `SortByEarned` is a stable sort (`SortByEarnedStable`); the database leaves the order of such ties unspecified.
- Awards.CompletionistNeverDueAsWritten: the finding assumes requests one at a time and no duplicate rows, as above; with duplicates the row count could reach the catalogue size without every other achievement held.

## Findings

| source | as written | input that shows it | evidently intended | confidence | as-written member | corrected member |
|---|---|---|---|---|---|---|
| services/backend/src/database/crud/messages_with_awards.py:81-83 | `completionist` is requested when the user's count reaches the number of catalogue rows, a count that includes the `completionist` row itself | a catalogue of 11 achievements and a user holding the 10 others: the count is 10 < 11, so code 11 is never requested | request it once the user holds every other achievement (count + 1 ≥ total) | not executed | Awards.CompletionistNeverDueAsWritten | Awards.CompletionistDueIffAllOthersHeld |
