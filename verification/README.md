# x-social-manager, modelled in Dafny

The repository holds two small web apps: an X (Twitter) account dashboard and a course
landing page. This project models their logic, leaving out rendering and SDK plumbing:

- **The X gateway** (`XApi`). The 280-character guard runs before the provider is
  called. The provider's rate-limit record, when present, is written through into a
  `rate_limits` table keyed by endpoint. A post is cached in `posted_tweets` keyed by
  tweet id. Page sizes are clamped to 100. The rate-limit status merges the stored rows
  with a live lookup that may be missing or may throw.
- **Reply suggestions** (`SuggestionParser`, `AiAssistant`). A completion is split on
  runs of newlines. One leading list number is stripped from each line, and the line is
  trimmed. Lines of 1 to 280 characters are kept, and the first `numSuggestions` of them
  are taken. One `pending` row of `ai_replies` is recorded per suggestion. Rows are read
  back newest first.
- **The POST handlers** (`Routes`, `Schedule`). Each handler is an ordered chain of
  checks that answers 400 or hands the request on. `/api/tweets/schedule` also appends
  a `pending` row, and its GET lists the rows by `scheduled_for`.
- **Browser state**:
  - the localStorage helpers and the `aa.events` log (`Storage`);
  - the per-module checklist and its progress figures (`ChecklistModel`);
  - checklist item ids (`CourseContent`);
  - the landing page's open/closed map (`HomePage`);
  - the rate-limit panel (`RateLimitDisplay`);
  - the join dialog's validation, stored lead and focus wrap (`JoinModal`).

`Wrappers` (Option, Result), `JsValue` (JSON values, truthiness, property lookup) and
`JsText` (JavaScript whitespace and `trim`, decimal rendering, `padStart`) hold the
shared vocabulary.

Provider calls, the language-model call, database driver errors, clocks and the
browser's `JSON.parse`/`JSON.stringify` are all inputs. A provider outcome is a `Result`
parameter. A timestamp is an opaque string parameter. The JSON codec is a pair of
functions fixed when the store is created, with no round trip assumed between them.
Stateful parts are classes whose methods state the whole new state:

- `XApi.XGateway` holds the two tables.
- `AiAssistant.AiRepliesTable` and `Schedule.ScheduledTweetsTable` hold the two other tables.
- `Storage.LocalStorage` holds the browser store.
- `ChecklistModel.Checklist`, `HomePage.Home`, `RateLimitDisplay.RateLimitPanel` and
  `JoinModal.Dialog` hold component state.

`window.aaLog` is the page's logger, which calls `appendEvent`. Where a component calls
it through `?.`, a `logInstalled` flag says whether it was there.

## Model

| member | source | states |
|---|---|---|
| XApi.ClampPageSize | lib/x-api.ts:142 | the page size asked for is `limit` capped at 100 |
| XApi.Upsert | lib/x-api.ts:52-64 | the endpoint's row becomes the new row; every other row is unchanged; the key set grows by at most that endpoint |
| XApi.UpsertSize | lib/x-api.ts:54-62 | an upsert adds a row exactly when the endpoint had none, so there is never a second row for an endpoint |
| XApi.UpsertOverwrites | lib/x-api.ts:57-61 | writing the same figures twice equals writing them once: values are overwritten, never accumulated |
| XApi.RecordQuota | lib/x-api.ts:96-104 | no rate-limit record leaves the table unchanged; a record stores `reset * 1000` ms with its remaining and limit; a reset outside the Date range fails with "Invalid time value"; other endpoints are untouched |
| XApi.RecordQuotaRowCount | lib/x-api.ts:96-104 | a successful write-through adds at most one row, and none without a record |
| XApi.CacheTweet | lib/x-api.ts:106-114 | the tweet id's entry takes the new content; a known id keeps its `posted_at`, a new one gets `now`; other entries are unchanged |
| XApi.XGateway.UpdateRateLimit | lib/x-api.ts:52-64 | the table becomes the upsert of the row keyed by endpoint |
| XApi.XGateway.WriteThrough | lib/x-api.ts:96-104 | the table becomes exactly what RecordQuota gives, or stays as it was with the error reported |
| XApi.XGateway.PostTweet | lib/x-api.ts:83-124 | the provider is called iff the content has at most 280 characters; a longer content fails with the unprefixed `Tweet content exceeds 280 characters` and leaves both tables unchanged; a provider or date failure carries the `Failed to post tweet: ` prefix and leaves both tables unchanged; on success it writes `tweets/create`, caches the tweet, and returns the provider's id and text |
| XApi.XGateway.ReplyToTweet | lib/x-api.ts:208-243 | the same guard, failing with the unprefixed `Reply content exceeds 280 characters`; provider and date failures carry `Failed to reply to tweet: `; on success it writes `tweets/create`, and by its frame it never touches `posted_tweets` |
| XApi.XGateway.FetchPage | lib/x-api.ts:141-161 | requests `min(limit, 100)`; writes the given endpoint's quota; answers the listed tweets or the empty list when the response has no data |
| XApi.XGateway.GetMyTweets | lib/x-api.ts:131-162 | FetchPage under `users/:id/tweets`, default limit 10, failures prefixed `Failed to fetch tweets: ` |
| XApi.XGateway.GetMentions | lib/x-api.ts:169-200 | FetchPage under `tweets/search/recent`, default limit 20, failures prefixed `Failed to fetch mentions: ` |
| XApi.XGateway.GetRateLimitStatus | lib/x-api.ts:249-282 | every stored row is returned; `live` is present iff the lookup exists and answers; a missing or throwing lookup never fails the call |
| SuggestionParser.SplitNewlineRunsRoundTrip | lib/ai-assistant.ts:105 | `SplitNewlineRuns` (`split(/\n+/)`): no piece holds a newline, and joining the pieces with one newline gives the input with each newline run collapsed |
| SuggestionParser.ExampleSplit | lib/ai-assistant.ts:105 | three newline-free lines, the last two non-empty, joined by single newlines split back into exactly those lines |
| SuggestionParser.StripNumberingRemovesMarker | lib/ai-assistant.ts:106 | `StripNumbering` (`replace(/^\d+[\.\)]\s*/, '')`) drops a prefix; when it drops something, the dropped prefix is digits, `.` or `)`, then whitespace, and what is left does not start with whitespace; when it drops nothing, no prefix of the line is such a marker |
| SuggestionParser.CleanNumbered | lib/ai-assistant.ts:106 | a line made of one digit, `)`, a space and a text without surrounding whitespace cleans to that text |
| SuggestionParser.CleanLineShape | lib/ai-assistant.ts:106 | `CleanLine` (numbering removal, then `trim()`) of a newline-free line has no newline and no whitespace at either end |
| SuggestionParser.SurvivorsOrigin | lib/ai-assistant.ts:104-107 | `Survivors` (the cleaned lines kept by `KeepAcceptable`): every survivor is the cleaned form of some line, and nothing survives iff no cleaned line has 1 to 280 characters |
| SuggestionParser.SurvivorsComplete | lib/ai-assistant.ts:107 | every cleaned line of 1 to 280 characters survives the `KeepAcceptable` filter |
| SuggestionParser.KeepAcceptableAppend | lib/ai-assistant.ts:107 | the filter distributes over concatenation, so kept lines stay in input order |
| SuggestionParser.SliceTo | lib/ai-assistant.ts:108 | `slice(0, n)` is a prefix of length `min(n, len)`, and for negative `n` of length `max(len + n, 0)` |
| SuggestionParser.ParseSuggestions | lib/ai-assistant.ts:104-108 | every suggestion is acceptable, and a non-negative count bounds the number returned |
| SuggestionParser.ParseTakesFirstSurvivors | lib/ai-assistant.ts:108 | the result is the first `min(numSuggestions, survivors)` surviving lines in input order |
| SuggestionParser.SuggestionsAreClean | lib/ai-assistant.ts:104-108 | every suggestion has 1 to 280 characters, no newline and no whitespace at either end |
| SuggestionParser.ParseEmptyIff | lib/ai-assistant.ts:104-112 | with a positive count the parse is empty iff no line of the completion survives cleaning and the length filter |
| SuggestionParser.ExampleNumberedList | lib/ai-assistant.ts:104-108 | `"1) Great point!\n2) Love this.\n3) "` with two suggestions gives `["Great point!", "Love this."]` |
| AiAssistant.NewestWithStatusMembers | lib/ai-assistant.ts:149-152 | `NewestWithStatus` (`WHERE status = ? ORDER BY created_at DESC`) lists exactly the rows with the requested status |
| AiAssistant.NewestWithStatusDescending | lib/ai-assistant.ts:152 | with ids in creation order the listed rows come out in strictly descending id order |
| AiAssistant.GetAllWhenFew | lib/ai-assistant.ts:147-154 | when at most 50 rows have the status, `getAISuggestions` returns every one of them |
| AiAssistant.AiRepliesTable.Insert | lib/ai-assistant.ts:116-122 | one `pending` row with the next id is appended and the id invariant is kept |
| AiAssistant.AiRepliesTable.SaveAISuggestion | lib/ai-assistant.ts:135-142 | exactly one `pending` row is appended |
| AiAssistant.AiRepliesTable.GenerateReplySuggestions | lib/ai-assistant.ts:101-129 | a thrown call or an empty parse fails with `Failed to generate reply suggestions: ` and records nothing; otherwise one pending row per suggestion is appended in order, carrying the tweet's id and text, and the suggestions are returned |
| AiAssistant.AiRepliesTable.GetAISuggestions | lib/ai-assistant.ts:147-154 | `min(50, n)` rows, where `n` rows have the status; every returned row is stored with the requested status; newest (largest id) first; every row with the status that is left out is older than every row returned |
| Routes.PostTweetRoute | app/api/tweets/post/route.ts:10-46 | `postTweet` is called iff the content is a non-empty string of at most 280 characters; the two 400 messages come in check order; success echoes the tweet; a failure is a 500 with its message or the fallback |
| Routes.PostLengthBoundary | app/api/tweets/post/route.ts:22-27 | 280 characters are handed on; 281 get the length 400 and no call |
| Routes.ReplyRoute | app/api/tweets/reply/route.ts:9-51 | `replyToTweet` is called iff the three checks pass; the tweet id is checked before the content; the messages follow the check order; success echoes the reply; failure is a 500 |
| Routes.NumSuggestionsOrDefault | app/api/ai/generate-reply/route.ts:24 | every falsy count becomes 2, and a truthy count is passed unchanged |
| Routes.NumSuggestionsFalsyDefaults | app/api/ai/generate-reply/route.ts:24 | a missing, null, zero, empty-string or false count becomes 2 |
| Routes.GenerateReplyRoute | app/api/ai/generate-reply/route.ts:9-38 | the core is called iff the original tweet and its id and text are truthy; `originalTweet` and `context` are passed through; success returns the suggestions; failure is a 500 |
| Routes.GenerateRefusesEmptyIdOrText | app/api/ai/generate-reply/route.ts:14-19 | an empty-string id or text is refused like a missing tweet |
| Schedule.ScheduleCheck | app/api/tweets/schedule/route.ts:14-33 | the request passes iff the content is a non-empty string of at most 280 characters and `scheduledFor` is truthy; otherwise the first failing check's message is reported |
| Schedule.AnyTruthyTimePasses | app/api/tweets/schedule/route.ts:21-26 | any truthy `scheduledFor` passes; it is not parsed |
| Schedule.ContentCheckedFirst | app/api/tweets/schedule/route.ts:14-26 | a request missing both content and time is told about the content |
| Schedule.TextLeqReflexive | app/api/tweets/schedule/route.ts:70 | the text order is reflexive |
| Schedule.TextLeqTotal | app/api/tweets/schedule/route.ts:70 | the text order is total |
| Schedule.TextLeqTransitive | app/api/tweets/schedule/route.ts:70 | the text order is transitive |
| Schedule.TextLeqAntisymmetric | app/api/tweets/schedule/route.ts:70 | the text order is antisymmetric |
| Schedule.InsertByTime | app/api/tweets/schedule/route.ts:70 | insertion adds exactly the one row |
| Schedule.InsertByTimeSorted | app/api/tweets/schedule/route.ts:70 | insertion into a sorted list keeps it sorted |
| Schedule.SortByTime | app/api/tweets/schedule/route.ts:68-72 | the sort is a permutation of the rows |
| Schedule.SortByTimeSorted | app/api/tweets/schedule/route.ts:68-72 | the sorted rows are in ascending `scheduled_for` order |
| Schedule.ScheduledTweetsTable.Post | app/api/tweets/schedule/route.ts:9-59 | a failed check answers 400 and inserts nothing; a valid request appends exactly one `pending` row with the next id and echoes the id, content, `scheduledFor` and status; a driver error is a 500 |
| Schedule.ScheduledTweetsTable.Get | app/api/tweets/schedule/route.ts:65-85 | all rows, as a permutation, in ascending `scheduled_for` order |
| Schedule.PostedRowListed | app/api/tweets/schedule/route.ts:35-72 | a row appended by POST is listed by the next GET |
| Storage.AppendedLog | lib/storage.ts:51-53 | a stored list gets the entry at its end; a missing or null log becomes a one-entry list; any other stored value makes `push` throw |
| Storage.WithoutPrefix | lib/storage.ts:36-37 | exactly the keys not starting with the prefix remain, with their text |
| Storage.LocalStorage.GetItem | lib/storage.ts:6 | a key's text when present, nothing otherwise |
| Storage.LocalStorage.SetItem | lib/storage.ts:18 | only the key changes |
| Storage.LocalStorage.RemoveItem | lib/storage.ts:27 | only the key is deleted |
| Storage.LocalStorage.GetJson | lib/storage.ts:3-13 | outside the browser, for an absent key, or when parsing throws, the fallback; otherwise the parsed value |
| Storage.LocalStorage.SetJson | lib/storage.ts:15-22 | in the browser only the key changes, to the stringified value; outside it nothing changes |
| Storage.LocalStorage.Remove | lib/storage.ts:24-31 | in the browser only the key is deleted; outside it nothing changes |
| Storage.LocalStorage.RemoveByPrefix | lib/storage.ts:33-41 | afterwards no key starts with the prefix and every other key keeps its text; outside the browser nothing changes |
| Storage.LocalStorage.AppendEvent | lib/storage.ts:43-57 | the store becomes `AfterAppend` (read `aa.events` with fallback `[]`, append the entry, write it back) in the browser, and is unchanged outside it |
| Storage.LocalStorage.AppendTouchesOnlyEvents | lib/storage.ts:51-53 | appending changes no key but `aa.events` |
| Storage.LocalStorage.AppendGrowsLog | lib/storage.ts:46-53 | `AfterAppend` writes a stored or missing list back with exactly the new entry at its end |
| CourseContent.ItemNumber | content/modules.ts:5 | a position below 9 gives `0` then one digit, any other gives `String(index + 1)` unchanged; either way the digits read back as `index + 1` |
| CourseContent.MakeItems | content/modules.ts:3-7 | one item per label, in order, with id `moduleId-track-NN`; ids pairwise distinct |
| CourseContent.ItemNumberExamples | content/modules.ts:5 | positions 0, 8, 9 and 99 give `01`, `09`, `10` and `100` |
| CourseContent.ItemIdsDistinct | content/modules.ts:5 | distinct positions give distinct ids under one prefix |
| CourseContent.ModuleIdList | content/modules.ts:446 | the module ids in module order |
| JsText.TrimShape | lib/ai-assistant.ts:106 | `Trim` (`trim()`) keeps a middle slice with only whitespace cut off at either end, and the result has no whitespace at either end |
| JsText.TrimEmptyIff | components/JoinModal.tsx:95-96 | `!x.trim()` holds iff the text is all whitespace |
| JsText.DecimalRoundTrip | content/modules.ts:5 | reading `String(n)` back gives `n` |
| JsText.PaddedValue | content/modules.ts:5 | a zero-padded rendering is all digits and reads back as the number |
| JsText.PaddedDecimalInjective | content/modules.ts:5 | distinct numbers stay distinct after zero-padding |
| ChecklistModel.TaskKeys | components/Checklist.tsx:58-60 | exactly the `<prefix>.task.<id>` keys of the listed items |
| ChecklistModel.Toggled | components/Checklist.tsx:37-40 | the item's checked value flips (absent counts as unchecked), and every other entry is unchanged |
| ChecklistModel.ToggleTwiceRestores | components/Checklist.tsx:37-39 | toggling the same item twice restores every checked value |
| ChecklistModel.RawChecked | components/Checklist.tsx:44 | the raw text is `true` iff the value is checked |
| ChecklistModel.ComputeProgress | components/Checklist.tsx:26-34 | the total is the item count or 1; completed counts the true entries; the percent is `completed * 100 / total` rounded half up |
| ChecklistModel.ProgressBounds | components/Checklist.tsx:32 | with no more ticks than items the percent is in 0..100, and it is 100 iff ticks reach 99.5% |
| ChecklistModel.Checklist.constructor | components/Checklist.tsx:13 | the state starts empty |
| ChecklistModel.Checklist.Load | components/Checklist.tsx:15-24 | in the browser the state holds exactly the listed ids, each checked iff its stored text is exactly `true`; outside it nothing changes |
| ChecklistModel.Checklist.ToggleItem | components/Checklist.tsx:36-54 | the state is the toggle; in the browser the item's key gets the raw value and the toggle is logged when the logger is installed |
| ChecklistModel.Checklist.ResetModule | components/Checklist.tsx:56-63 | in the browser the listed items' keys and only those are removed, the reset is logged when the logger is installed, and the state is emptied; outside it nothing changes |
| HomePage.AllSet | app/page.tsx:58-61 | exactly the listed ids, all with the one value |
| HomePage.CollapsedNoneOpen | app/page.tsx:51 | after collapse-all nothing is open |
| HomePage.ExpandedAnyOpenIff | app/page.tsx:51 | after expand-all something is open iff there is a module |
| HomePage.Home.constructor | app/page.tsx:27-28 | the track starts at beginner and the map starts empty |
| HomePage.Home.HandleToggle | app/page.tsx:53-55 | only the id's entry changes, to the given value; a module without an entry is closed |
| HomePage.Home.BuildAll | app/page.tsx:58-61 | the `reduce` builds exactly AllSet of the module ids |
| HomePage.Home.ExpandAll | app/page.tsx:57-64 | the map becomes the module ids all open, and the event is logged with the track |
| HomePage.Home.CollapseAll | app/page.tsx:66-73 | the map becomes the module ids all closed, and the event is logged with the track |
| RateLimitDisplay.UsagePercentage | app/components/RateLimitDisplay.tsx:38-40 | for a non-zero total `usage * total == (total - remaining) * 100`; a zero total gives +Infinity, -Infinity or NaN as JavaScript does |
| RateLimitDisplay.StatusColor | app/components/RateLimitDisplay.tsx:42-46 | critical iff usage is at least 90, warning iff at least 70 and not 90, good otherwise (NaN compares false) |
| RateLimitDisplay.StatusIntegerForm | app/components/RateLimitDisplay.tsx:38-46 | for a positive total the three statuses are integer comparisons of `100 * used` with `90 * total` and `70 * total` |
| RateLimitDisplay.ZeroTotalStatus | app/components/RateLimitDisplay.tsx:38-46 | a zero total shows critical for negative remaining and good otherwise |
| RateLimitDisplay.RelevantLimits | app/components/RateLimitDisplay.tsx:49-51 | exactly the rows of the three endpoints are kept |
| RateLimitDisplay.RelevantLimitsAppend | app/components/RateLimitDisplay.tsx:49-51 | the filter distributes over concatenation, so order is kept |
| RateLimitDisplay.EndpointLabel | app/components/RateLimitDisplay.tsx:79-84 | each of the three endpoints gets a label other than its own name; any other endpoint shows its own name |
| RateLimitDisplay.RateLimitPanel.constructor | app/components/RateLimitDisplay.tsx:13-14 | the list starts empty and loading |
| RateLimitDisplay.RateLimitPanel.FetchRateLimits | app/components/RateLimitDisplay.tsx:23-36 | the list is replaced only by a successful body with `stored`; loading always ends |
| JoinModal.EmailPatternIff | components/JoinModal.tsx:97 | `MatchesEmailPattern`, the regular expression read literally, matches iff there is no whitespace, exactly one `@` with something before it, and a `.` after it that is neither the first nor the last character of the rest |
| JoinModal.EmailExamples | components/JoinModal.tsx:97 | `a@b.co` passes; `a@b.`, `@b.co`, `a@@b.co` and `a b@c.de` fail |
| JoinModal.ValidationErrorsMeaning | components/JoinModal.tsx:93-100 | `ValidationErrors` (what `validate` records): a name error iff the trimmed name is empty; `Email is required.` iff the trimmed email is empty, else `Enter a valid email.` iff the pattern fails; no errors iff both are filled and the email matches |
| JoinModal.BlankFieldsRequired | components/JoinModal.tsx:95-96 | whitespace-only fields count as missing |
| JoinModal.ValidFormIsFilled | components/JoinModal.tsx:93-104 | a form without errors has a name and an email the pattern matches |
| JoinModal.SubmittedLeadIsValid | components/JoinModal.tsx:102-112 | `LeadPayload`, once validation passed, holds the trimmed, non-empty name, the trimmed email the pattern matches, the trimmed goals, the track and the submission time |
| JoinModal.LeadKeysDistinct | components/JoinModal.tsx:115 | `LeadKey` (`aa.lead.${Date.now()}`) differs for different milliseconds, so one lead never overwrites another |
| JoinModal.OnKeydown | components/JoinModal.tsx:45-67 | Escape closes; Tab on the last element focuses the first; Shift+Tab on the first focuses the last; anything else is not overridden |
| JoinModal.Dialog.constructor | components/JoinModal.tsx:27-31 | empty fields and errors, experience at the default |
| JoinModal.Dialog.Validate | components/JoinModal.tsx:93-100 | the recorded errors are ValidationErrors of the fields, and the answer is true iff there are none |
| JoinModal.Dialog.CloseModal | components/JoinModal.tsx:88-91 | closed, with the errors cleared |
| JoinModal.Dialog.StoreLead | components/JoinModal.tsx:114-117 | the lead is stored under `aa.lead.<ms>` and logged when the logger is installed |
| JoinModal.Dialog.Submit | components/JoinModal.tsx:106-120 | in the browser the lead is stored under `aa.lead.<ms>` and logged when the logger is installed; outside it the store is unchanged; the dialog closes with no errors and navigation goes to `/welcome` |
| JoinModal.Dialog.HandleSubmit | components/JoinModal.tsx:102-121 | an invalid form only records its errors: nothing stored, still open, no navigation; a valid one stores the lead in the browser, logs it when the logger is installed, closes and navigates to `/welcome` |

## Left out

- Client set-up is not part of this model, because it is environment I/O. This covers the lazily created clients and the credential checks (`initXClient`, `getXClient`, `getOpenAIClient`) and `getMe`. The prompt text, the model parameters and console logging are out too.
- Provider and language-model responses are parameters, because the SDKs cannot be seen.
- Database driver failures other than binding `scheduledFor` are out: a prepare or run that throws is not modelled. SQLite's type affinity is a parameter of `Schedule.ScheduledTweetsTable.Post`: the text it stores for `scheduledFor` is given, and the precondition only says a string is stored as itself.
- lib/db.ts is not part of this model. Only its UNIQUE keys appear: the tables are maps keyed by endpoint and by tweet id.
- `XApi.RecordQuota` does not claim that remaining never exceeds the limit, because the source stores whatever the provider reports.
- `XApi.XGateway.GetRateLimitStatus` treats the live snapshot as an opaque value.
- Timestamps (`datetime('now')`, `toISOString()`, `Date.now()`, `created_at`) are opaque parameters.
- `AiAssistant.AiRepliesTable.GetAISuggestions` orders by id: it assumes `created_at` follows insertion order. Rows created within the same second are ordered newest id first, which SQLite does not promise.
- `Schedule.ScheduledTweetsTable.Get` compares `scheduled_for` as text by code point, which is SQLite's BINARY collation. The order among equal times is not stated, because SQLite does not fix it.
- Request bodies that are not JSON objects, and the 500 that `request.json()` throws for them, are out. A body is the map of its fields.
- `content.length` counts UTF-16 code units in JavaScript. Here a `char` is one Unicode scalar value, so a character outside the Basic Multilingual Plane counts once rather than twice against the 280 limit. This applies to `XApi.XGateway.PostTweet`, `XApi.XGateway.ReplyToTweet`, `Routes.PostTweetRoute`, `Routes.ReplyRoute`, `Schedule.ScheduleCheck` and the parser's length filter.
- JSON numbers are integers. Floating-point rounding in `ComputeProgress` and `UsagePercentage` is out: `ChecklistModel.ComputeProgress` and `RateLimitDisplay.UsagePercentage` compute exactly, so a ratio that a double would round across a boundary may be classified differently.
- `SuggestionParser.ParseSuggestions` takes an integer count, because a fractional `numSuggestions` passed to `slice` is not modelled.
- `JSON.parse` and `JSON.stringify` are opaque functions with no round trip assumed between them. A `setItem` that throws (quota exceeded) is not modelled: the helpers that catch it would leave the store unchanged.
- The mount effects of the landing page are out, because they are wiring rather than logic. These are installing `window.aaLog`, loading and persisting `aa.track`, opening and closing the join dialog, and scrolling.
- In the join dialog, the `join_modal_open` log on opening, the focus timer, restoring focus, the portal and resetting the experience on reopen are out: they are DOM mechanics. `router.push` is recorded as the path navigated to.
- The rate-limit panel's 30-second polling and its rendering are out. Each poll is one call of `FetchRateLimits`.
- The thin GET routes (mentions, my-tweets, rate-limits, user/me) are out because they only pass data through. Upgrade gating is out because no route implements it.
- Requests are handled one at a time, so concurrent interleavings are not modelled.
