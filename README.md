# nuxt-telegram-notification, modelled in Dafny

This project models the logic of the Nuxt module that relays notifications
to a Telegram chat. It has three parts.

- **The server relay endpoint** (`POST` to the notify API). It checks the bot
  token, admits the request through an in-memory, fixed-window, per-address
  rate limiter and validates the type and title. It then assembles an
  HTML-formatted message: tags, emoji title, description, url and the first
  three lines of a stack trace, joined by blank lines and clipped. Finally it
  checks the configured chat and hands one `sendMessage` call to Telegram.
- **The client auto-capture filter.** It derives a key from an error's title
  and head and drops the event when an ignore pattern or the endpoint path
  matches the key. It suppresses repeats within a dedupe window, samples, and
  sends a fixed-shape error payload through the notifier composable.
- **The Telegram MarkdownV2 helpers.** Special-character escaping and a
  key/value line builder.

Modules, one file each:

| file | module | models |
|---|---|---|
| `wrappers.dfy` | `Wrappers` | `Option` |
| `js_string.dfy` | `JsString` | the JavaScript string built-ins used: `trim`, `includes`, `join` and `replaceAll` of one character; `Split` at one character is the inverse of `join`, used to state what a joined text contains (the source itself splits only on `''` and on `/\r?\n/u`, modelled as `FirstLine` and `Format.SplitLines`) |
| `notify_types.dfy` | `NotifyTypes` | the notification types, the payload, the request body and the composable's encoding of a payload (`normalizeStack`) |
| `markdown_v2.dfy` | `MarkdownV2` | `escapeMarkdownV2`, `prettyKV` |
| `telegram_format.dfy` | `Format` | `escapeHtml`, `sanitizeHashtag`, `firstLines`, `clip`, the emoji table |
| `rate_limit.dfy` | `RateLimit` | `takeToken` as the class `RateLimiter`, whose `buckets` map the method updates, and the function `Admit` that specifies it |
| `notify_handler.dfy` | `NotifyHandler` | the endpoint handler as the method `Handle`, with the function `Deliver` specifying everything after admission |
| `auto_capture.dfy` | `AutoCapture` | `toStack`, `firstLine`, `matchesIgnore` and `send`, as the class `CapturePlugin` holding the dedupe map, with the function `Decide` that specifies one event |

Conventions:

- Strings are sequences of characters.
- JavaScript's whitespace (for `trim` and `\s`) is the ECMAScript WhiteSpace
  and LineTerminator set, written out in `JsString.IsWhitespace`.
- The clock, the random draw, the client address, the request body, the
  Telegram reply and the host's regular-expression engine are all
  parameters. Each clock read is its own parameter because the source reads
  `Date.now()` twice: in `takeToken` and for `Retry-After` on the server, and
  for the dedupe check and for the recorded time on the client.

Where the code and the module's design differ, the model follows the code:

- Only an event that passes the dedupe check is recorded; a suppressed event
  does not refresh the time.
- The final `clip` uses Telegram's limit itself as the cut point, so the text
  can be one character longer than that limit.
- The chat id in a request body is ignored.
- `dedupeWindowSec` is never read by the server.

## Model

| member | source | states |
|---|---|---|
| `JsString.Trim` | src/runtime/plugins/telegram-auto-capture.client.ts:45 | the result is no longer than the input and neither starts nor ends with whitespace |
| `JsString.TrimPadded` | src/runtime/server/api/telegram-notify.post.ts:31 | trimming whitespace padding around a core that neither starts nor ends with whitespace gives back exactly that core |
| `JsString.Split` | src/runtime/server/api/telegram-notify.post.ts:37 | a split yields at least one piece and no piece contains the separator |
| `JsString.SplitJoin` | src/runtime/server/api/telegram-notify.post.ts:37 | splitting the join of separator-free pieces gives back the pieces |
| `JsString.JoinSplit` | src/runtime/server/api/telegram-notify.post.ts:37 | joining the pieces of a split with the separator gives back the text |
| `JsString.ReplaceAllRemoves` | src/runtime/server/api/telegram-notify.post.ts:25-27 | a character whose replacement does not contain it is gone from the result |
| `JsString.ReplaceAllKeepsOut` | src/runtime/server/api/telegram-notify.post.ts:25-27 | a character absent from the text and from the replacement stays absent |
| `JsString.JoinEmptyIff` | src/runtime/server/api/telegram-notify.post.ts:37 | a join of non-empty parts is empty exactly when there are no parts |
| `JsString.ReplaceAllAppend` | src/runtime/server/api/telegram-notify.post.ts:23-28 | replacing every occurrence of a character distributes over concatenation |
| `NotifyTypes.ParseType` | src/runtime/server/api/telegram-notify.post.ts:110-114 | a type is accepted exactly when it is one of `info`, `success`, `warning`, `error` |
| `NotifyTypes.ParseTypeInverse` | src/runtime/types.ts:1 | parsing yields a type exactly when the text is that type's name |
| `NotifyTypes.NormalizeStack` | src/runtime/composables/useTelegramNotify.ts:7-11 | an empty stack is dropped from the body; any other stack string is sent unchanged |
| `NotifyTypes.Encode` | src/runtime/composables/useTelegramNotify.ts:17-29 | the body the composable posts carries a type the endpoint accepts (the one asked for), the payload's title, the normalised stack, and the description, tags, url, chat id and thread id unchanged |
| `NotifyTypes.EncodeRoundTrip` | src/runtime/composables/useTelegramNotify.ts:17-29 | the endpoint reads back the type and the whole payload the composable was given, except that an empty stack comes back absent |
| `MarkdownV2.CountSpecial` | src/runtime/utils/escapeMarkdownV2.ts:3 | the number of special characters never exceeds the length |
| `MarkdownV2.EscapeMarkdownV2` | src/runtime/utils/escapeMarkdownV2.ts:5-7 | the output is longer than the input by exactly the number of special characters in it |
| `MarkdownV2.EscapeAt` | src/runtime/utils/escapeMarkdownV2.ts:3-7 | each special input character comes out as a backslash followed by that character, and every other character is copied, at the position shifted by the specials before it |
| `MarkdownV2.BackslashDoubled` | src/runtime/utils/escapeMarkdownV2.ts:3 | every backslash in the input comes out doubled |
| `MarkdownV2.EscapeAppend` | src/runtime/utils/escapeMarkdownV2.ts:5-7 | escaping distributes over concatenation, so it works character by character |
| `MarkdownV2.EscapeRoundTrip` | src/runtime/utils/escapeMarkdownV2.ts:5-7 | removing each escaping backslash from the output gives back the input |
| `MarkdownV2.CountSpecialZero` | src/runtime/utils/escapeMarkdownV2.ts:3 | the count is zero exactly when no character is special |
| `MarkdownV2.EscapeIdentityIff` | src/runtime/utils/escapeMarkdownV2.ts:3-7 | escaping leaves the text unchanged if and only if it has no special character |
| `MarkdownV2.NoSpecialUnchanged` | src/runtime/utils/escapeMarkdownV2.ts:3-7 | a text without special characters is returned as it is |
| `MarkdownV2.EscapeAddsOnlyBackslashes` | src/runtime/utils/escapeMarkdownV2.ts:5-7 | escaping introduces no character other than the backslash |
| `MarkdownV2.EntryLines` | src/runtime/utils/escapeMarkdownV2.ts:11-12 | one line per entry, in entry order, each `• *key*: value` with key and (string) value escaped |
| `MarkdownV2.PrettyKV` | src/runtime/utils/escapeMarkdownV2.ts:9-14 | the text is empty exactly when there are no entries |
| `MarkdownV2.PrettyKVLines` | src/runtime/utils/escapeMarkdownV2.ts:9-18 | no entries give the empty text; otherwise splitting the result at newlines gives exactly the entry lines in order, when keys and values hold no newline |
| `Format.Emoji` | src/runtime/server/api/telegram-notify.post.ts:13-18 | the emoji of `info` and `warning` are two characters (symbol and variation selector) and the others one, all inside the Basic Multilingual Plane |
| `Format.EscapeHtml` | src/runtime/server/api/telegram-notify.post.ts:23-28 | the escaped text has no raw `<` or `>` |
| `Format.EscapeHtmlChars` | src/runtime/server/api/telegram-notify.post.ts:23-28 | the entity-per-character escaping contains no raw `<` or `>` |
| `Format.EscapeHtmlAppend` | src/runtime/server/api/telegram-notify.post.ts:23-28 | the three replacement passes distribute over concatenation |
| `Format.EscapeHtmlOneChar` | src/runtime/server/api/telegram-notify.post.ts:23-28 | on one character the three passes give its entity: `&amp;`, `&lt;`, `&gt;`, or the character itself |
| `Format.EscapeHtmlIsCharwise` | src/runtime/server/api/telegram-notify.post.ts:23-28 | the three ampersand-first passes equal the entity-per-character escaping |
| `Format.EscapeHtmlRoundTrip` | src/runtime/server/api/telegram-notify.post.ts:23-28 | the escaped text has no raw `<` or `>`, and unescaping `&lt;`, `&gt;` and `&amp;` gives back the input |
| `Format.UnescapeEntity` | src/runtime/server/api/telegram-notify.post.ts:23-28 | unescaping reads back one character's entity whatever follows it |
| `Format.CharwiseRoundTrip` | src/runtime/server/api/telegram-notify.post.ts:23-28 | unescaping undoes the entity-per-character escaping |
| `Format.AmpersandLastDoubleEscapes` | src/runtime/server/api/telegram-notify.post.ts:25-27 | had the ampersand been replaced last, `<` would come out as `&amp;lt;`, which is why the order matters |
| `Format.StripLeadingHashes` | src/runtime/server/api/telegram-notify.post.ts:31 | the result does not start with `#`, is a suffix of the input, and everything removed was `#` |
| `Format.RemoveWhitespace` | src/runtime/server/api/telegram-notify.post.ts:32 | the result has no whitespace and is no longer than the input |
| `Format.RemoveWhitespaceOneChar` | src/runtime/server/api/telegram-notify.post.ts:32 | one character is dropped when it is whitespace and kept otherwise |
| `Format.RemoveWhitespaceAppend` | src/runtime/server/api/telegram-notify.post.ts:32 | removal works piece by piece, so every non-white character is kept, in order |
| `Format.SanitizeHashtag` | src/runtime/server/api/telegram-notify.post.ts:30-34 | the hashtag starts with `#` and contains no whitespace |
| `Format.StripHashRun` | src/runtime/server/api/telegram-notify.post.ts:31 | a leading run made only of `#`, in front of a tag not starting with `#`, is removed whole |
| `Format.RemoveWhitespaceOfClean` | src/runtime/server/api/telegram-notify.post.ts:32 | a text without whitespace passes unchanged |
| `Format.SanitizeHashtagCanonical` | src/runtime/server/api/telegram-notify.post.ts:30-34 | whitespace, then any number of `#`, then a word, then whitespace, normalises to `#` + the word |
| `Format.SanitizeHashtagHashAfterSpace` | src/runtime/server/api/telegram-notify.post.ts:31-33 | `#`, a white-space character, `#` and a word become `##` and the word (`"# #x"` gives `"##x"`): a `#` after inner white space is kept |
| `Format.SplitLines` | src/runtime/server/api/telegram-notify.post.ts:37 | the `\r?\n` split yields at least one line and no line holds a newline |
| `Format.NonEmptyLines` | src/runtime/server/api/telegram-notify.post.ts:37 | `filter(Boolean)` keeps only non-empty lines, as an in-order subsequence of its input, and is empty exactly when every line is; `NonEmptyLinesAppend` and `NonEmptyLinesSingle` show it keeps exactly the non-empty lines, in order |
| `Format.NonEmptyLinesSingle` | src/runtime/server/api/telegram-notify.post.ts:37 | a single blank line is dropped and a single non-empty line is kept |
| `Format.NonEmptyLinesAppend` | src/runtime/server/api/telegram-notify.post.ts:37 | filtering a concatenation is the concatenation of the filtered pieces, so a blank line drops only itself and every non-empty line is kept, in order |
| `Format.BlankLineSkipped` | src/runtime/server/api/telegram-notify.post.ts:36-38 | a blank line between non-empty lines (each with no line feed and no trailing `\r`) is skipped: `a`, blank, `b`, `c` cut to three lines gives `a`, `b`, `c` |
| `Format.SubsequencePrefix` | src/runtime/server/api/telegram-notify.post.ts:37 | a prefix of a subsequence is still a subsequence |
| `Format.FirstLines` | src/runtime/server/api/telegram-notify.post.ts:36-38 | the result is empty exactly when the limit is 0 or no line is non-empty |
| `Format.FirstLinesSpec` | src/runtime/server/api/telegram-notify.post.ts:36-38 | the result is empty exactly when the limit is 0 or there is no non-empty line; otherwise it holds at most the limit's number of lines, all non-empty, the first ones of the non-empty lines, in order, as a subsequence of the split lines |
| `Format.NonEmptyFromLines` | src/runtime/server/api/telegram-notify.post.ts:37 | a kept line holds no newline |
| `Format.FirstLinesOfJoinedLines` | src/runtime/server/api/telegram-notify.post.ts:36-38 | on non-empty lines, each with no line feed and no trailing `\r`, joined by `\n`, the result is the first `maxLines` of them joined again |
| `Format.NonEmptyKeepsAll` | src/runtime/server/api/telegram-notify.post.ts:37 | filtering lines that are all non-empty keeps them all |
| `Format.LinesOfJoin` | src/runtime/server/api/telegram-notify.post.ts:37 | splitting lines with no line feed and no trailing `\r`, joined by `\n`, gives them back |
| `Format.LinesOfPlain` | src/runtime/server/api/telegram-notify.post.ts:37 | a text without line breaks is a single line |
| `Format.LinesAfterPiece` | src/runtime/server/api/telegram-notify.post.ts:37 | a line with no line feed and no trailing `\r`, followed by `\n`, splits off as the first line |
| `Format.CrlfBreak` | src/runtime/server/api/telegram-notify.post.ts:37 | `\r\n` is one line break: the `\r` is not kept in the line before it |
| `Format.LoneCarriageReturnKept` | src/runtime/server/api/telegram-notify.post.ts:37 | a `\r` not followed by `\n` is no break and stays inside the line |
| `Format.Clip` | src/runtime/server/api/telegram-notify.post.ts:40-43 | a text within the limit is returned unchanged; a longer one becomes its first `limit` characters followed by `…`, exactly `limit + 1` long |
| `Format.ClipAtMaxLenOverflows` | src/runtime/server/api/telegram-notify.post.ts:143 | clipping at 4096 turns a longer text into one of 4097 characters, over Telegram's limit |
| `RateLimit.WindowEnd` | src/runtime/server/api/telegram-notify.post.ts:56-57 | the window end is the least multiple of the window length strictly after `now` |
| `RateLimit.Admit` | src/runtime/server/api/telegram-notify.post.ts:53-69 | admitted exactly when there is no bucket, the clock is past its window end, or its count is under the limit; a rejection leaves the buckets unchanged with 0 remaining; an admission reports the limit minus the stored count and the stored window end; at most the address's own bucket is added |
| `RateLimit.AdmitProperties` | src/runtime/server/api/telegram-notify.post.ts:53-69 | admitted exactly when there is no bucket, or the clock is strictly past its window end, or it is under the limit. A rejection leaves the map unchanged, with remaining 0 and the existing window end. An admission reports `max - count` of the stored bucket. Other addresses' buckets are untouched; `1 <= count <= max` and window alignment are preserved |
| `RateLimit.AdmitAll` | src/runtime/server/api/telegram-notify.post.ts:53-69 | a run of requests gives one decision per request |
| `RateLimit.BurstWithinWindow` | src/runtime/server/api/telegram-notify.post.ts:64-68 | within one live window the i-th request is admitted exactly when the count before it plus i is under the limit, the budget counts down, the window end stays, and the final count is known |
| `RateLimit.FreshWindowAdmitsUpToMax` | src/runtime/server/api/telegram-notify.post.ts:59-68 | starting without a live bucket, within that window the first request is always admitted and the i-th exactly when `i < max`, with `max - 1 - i` left, all carrying the window's end |
| `RateLimit.EleventhRequestRejected` | src/runtime/server/api/telegram-notify.post.ts:53-69 | with 10 requests per 60 s, eleven requests in one window admit ten and reject the eleventh |
| `RateLimit.RateLimiter.TakeToken` | src/runtime/server/api/telegram-notify.post.ts:53-69 | the decision and the new buckets are those of `Admit` on the old buckets, with the three branches stated |
| `NotifyHandler.StatusCode` | src/runtime/server/api/telegram-notify.post.ts:78-178 | a missing bot token is reported as 500, a rate-limit rejection as 429, a bad type, a missing title or a missing chat as 400, and a Telegram failure as 502, each code for exactly those failures |
| `NotifyHandler.SourceKey` | src/runtime/server/api/telegram-notify.post.ts:88 | a request without an address is counted under `"unknown"` |
| `NotifyHandler.RetryAfter` | src/runtime/server/api/telegram-notify.post.ts:90-93 | the least non-negative whole number of seconds covering the time to the window end |
| `NotifyHandler.TagsLine` | src/runtime/server/api/telegram-notify.post.ts:123-126 | the tags line is non-empty exactly when the body has at least one tag |
| `NotifyHandler.SanitizedTags` | src/runtime/server/api/telegram-notify.post.ts:125 | one sanitized tag per tag, in order |
| `NotifyHandler.TagsLineSplits` | src/runtime/server/api/telegram-notify.post.ts:123-126 | splitting the tags line at spaces gives back the sanitized tags, one per tag, in order |
| `NotifyHandler.JoinNonEmpty` | src/runtime/server/api/telegram-notify.post.ts:125 | a join whose first part is non-empty is non-empty |
| `NotifyHandler.ThreadId` | src/runtime/server/api/telegram-notify.post.ts:156-167 | a thread id in the body wins over the configured one, which is used only when the body has none; a zero id is never sent, and a body id of 0 suppresses the configured topic |
| `NotifyHandler.ErrorDetail` | src/runtime/server/api/telegram-notify.post.ts:176 | the error detail is Telegram's description when there is one, else the error message when there is one, else `unknown`; never empty |
| `NotifyHandler.Deliver` | src/runtime/server/api/telegram-notify.post.ts:109-178 | an invalid type fails with 400 exactly when the type is unknown; a missing title fails exactly when the type is valid and the title is empty. A message is sent exactly when both are valid and a chat is configured. It goes to the configured chat (never the body's), as HTML without previews, with the assembled text and the thread id. The result is success, carrying Telegram's reply, exactly when it was sent and Telegram accepted it. A valid request without a chat fails with the missing-chat error, and a rejected send fails with the error detail |
| `NotifyHandler.StackPart` | src/runtime/server/api/telegram-notify.post.ts:129 | the stack part is `firstLines(stack, 3)` for a truthy stack and empty otherwise; it is empty exactly when there is no stack or no non-empty stack line |
| `NotifyHandler.TitleLineReadsBack` | src/runtime/server/api/telegram-notify.post.ts:134 | the title line is `<b>`, the type's emoji and a space, the title escaped with no raw `<` or `>`, then `</b>`; the inner part unescapes back to the title |
| `NotifyHandler.UrlLineReadsBack` | src/runtime/server/api/telegram-notify.post.ts:136 | the url line is `<b>Url: `, the url escaped, then `</b>`; the inner part unescapes back to the url |
| `NotifyHandler.StackBlockReadsBack` | src/runtime/server/api/telegram-notify.post.ts:137-140 | the stack block is `<b>stack</b>`, a line break and `<pre><code>`, the stack lines escaped, then `</code></pre>`; the inner part unescapes back to the lines |
| `NotifyHandler.MessageParts` | src/runtime/server/api/telegram-notify.post.ts:132-140 | one part per present field: the tags line (escaped) first when there are tags, then the title line, and the stack block last when a stack line survives |
| `NotifyHandler.MessagePartsMiddle` | src/runtime/server/api/telegram-notify.post.ts:135-136 | right after the title comes the escaped description when it is truthy, and after that the url line when the url is truthy |
| `NotifyHandler.MessageText` | src/runtime/server/api/telegram-notify.post.ts:142-143 | the blank-line join of the parts when that fits in 4096 characters, else its first 4096 characters followed by `…`; never more than 4097 |
| `NotifyHandler.AssembleText` | src/runtime/server/api/telegram-notify.post.ts:122-143 | pushing the parts one by one and joining gives the specified message text |
| `NotifyHandler.Handle` | src/runtime/server/api/telegram-notify.post.ts:73-179 | a missing bot token fails before the limiter is touched. Otherwise the limiter is charged before the body is looked at, so invalid requests use budget too. Rate headers are always set. A rejection fails with `RetryAfter` and sends nothing. An admitted request behaves as `Deliver` |
| `NotifyHandler.EscapeHtmlLonger` | src/runtime/server/api/telegram-notify.post.ts:23-28 | escaping never shortens a text |
| `NotifyHandler.CharwiseLonger` | src/runtime/server/api/telegram-notify.post.ts:23-28 | the entity-per-character escaping never shortens a text |
| `NotifyHandler.JoinHoldsPart` | src/runtime/server/api/telegram-notify.post.ts:142 | a join is at least as long as each part |
| `NotifyHandler.MessageTextLength` | src/runtime/server/api/telegram-notify.post.ts:142-143 | a message is at most 4097 characters, and exactly 4097 whenever the title alone reaches 4096 |
| `NotifyHandler.PartsOfTitleAndStack` | src/runtime/server/api/telegram-notify.post.ts:132-140 | a body with only a title and a stack gives the title part then the stack block |
| `NotifyHandler.StackPartOfLines` | src/runtime/server/api/telegram-notify.post.ts:129 | a stack of three or more non-empty lines, each with no line feed and no trailing `\r`, is cut to its first three |
| `NotifyHandler.StackCutToThreeLines` | src/runtime/server/api/telegram-notify.post.ts:129-140 | title plus a stack of three or more non-empty lines, each with no line feed and no trailing `\r`, gives exactly two parts: the title line and a code block of the first three stack lines |
| `AutoCapture.ToStack` | src/runtime/plugins/telegram-auto-capture.client.ts:33-43 | a falsy value gives `""`; a string is returned unchanged; an error gives its stack, else its message; another value gives its JSON text |
| `AutoCapture.FirstLine` | src/runtime/plugins/telegram-auto-capture.client.ts:45 | at most one character: the first character of the text, or `""` when the text is empty or starts with whitespace |
| `AutoCapture.FirstLineIsOneCharacter` | src/runtime/plugins/telegram-auto-capture.client.ts:45 | when the first line has two or more characters, `firstLine` still keeps only one |
| `AutoCapture.Head` | src/runtime/plugins/telegram-auto-capture.client.ts:49 | the head is `firstLine(stack)` when that is non-empty, else the message when that is non-empty, else `String(err)`; it is empty only when all three are |
| `AutoCapture.MsgKey` | src/runtime/plugins/telegram-auto-capture.client.ts:50 | the key is never empty, at most 200 characters, and a prefix of `title:head`: all of it when that fits, else exactly its first 200 characters |
| `AutoCapture.ErrorsWithSameFirstCharShareKey` | src/runtime/plugins/telegram-auto-capture.client.ts:45-50 | two errors whose stacks start with the same visible character get the same key |
| `AutoCapture.CompilePattern` | src/runtime/plugins/telegram-auto-capture.client.ts:20-28 | a pattern that does not compile becomes `^$` |
| `AutoCapture.MatchesIgnore` | src/runtime/plugins/telegram-auto-capture.client.ts:18-31 | containing the endpoint path is enough to be ignored, and without patterns it is the only way |
| `AutoCapture.AnyPatternMatchesIff` | src/runtime/plugins/telegram-auto-capture.client.ts:30 | `some` holds exactly when some compiled pattern matches |
| `AutoCapture.MatchesIgnoreIff` | src/runtime/plugins/telegram-auto-capture.client.ts:18-31 | on a non-empty key (every key is one) the key is ignored exactly when a pattern that compiles matches it or it contains the endpoint path; a pattern that failed to compile never matches; containing the path alone suffices |
| `AutoCapture.DedupeWindow` | src/runtime/plugins/telegram-auto-capture.client.ts:16 | the dedupe window is the configured `dedupeWindowMs`, else 5000 ms |
| `AutoCapture.Last` | src/runtime/plugins/telegram-auto-capture.client.ts:53 | the last recorded time of a key, or 0 for a key never recorded |
| `AutoCapture.SampleRate` | src/runtime/plugins/telegram-auto-capture.client.ts:57 | the rate is clamped to [0, 1], is 1 when not configured, and is kept unchanged when already in range |
| `AutoCapture.ErrorPayload` | src/runtime/plugins/telegram-auto-capture.client.ts:60-66 | the payload has tags exactly `AutoCapture`, title `title: head`, the full stack, the info as description and the page url |
| `AutoCapture.Decide` | src/runtime/plugins/telegram-auto-capture.client.ts:47-67 | ignored exactly when the key matches; suppressed exactly when not ignored and `now - last` is under the window; both leave the map unchanged; any other event records its key at the recording time; a dispatch carries the error payload |
| `AutoCapture.DecideProperties` | src/runtime/plugins/telegram-auto-capture.client.ts:47-67 | an event is ignored exactly when the key matches, and then the map is untouched. It is suppressed when `now - last < window` (an absent key counting as 0), again without touching the map. Otherwise the key is recorded with the current time before sampling, and the event is dispatched exactly when the draw is at most the rate |
| `AutoCapture.RecordedSuppressesRepeats` | src/runtime/plugins/telegram-auto-capture.client.ts:53-58 | an event that was recorded suppresses same-key events within the window, even when sampling dropped it |
| `AutoCapture.SuppressedDoesNotRefresh` | src/runtime/plugins/telegram-auto-capture.client.ts:53-55 | a suppressed event leaves the map as it was, so a window after the recorded time the key passes the dedupe check again |
| `AutoCapture.RepeatTwoSecondsLaterSuppressed` | src/runtime/plugins/telegram-auto-capture.client.ts:14-58 | with the defaults, a new error is dispatched and the same error two seconds later is suppressed |
| `AutoCapture.CapturePlugin.Send` | src/runtime/plugins/telegram-auto-capture.client.ts:47-67 | the outcome and the new map are those of `Decide` on the old map: ignored and suppressed events leave the map unchanged, recorded ones set the key to the recording time, and a dispatch carries the error payload |
| `AutoCapture.CapturePlugin.OnWindowError` | src/runtime/plugins/telegram-auto-capture.client.ts:74-79 | an error from a file whose name contains the endpoint path never reaches `send`; otherwise it sends the error, or the event's message when there is none |
| `AutoCapture.CapturePlugin.OnVueError` | src/runtime/plugins/telegram-auto-capture.client.ts:70 | a Vue error is sent with its info as the description |
| `AutoCapture.CapturePlugin.OnAppError` | src/runtime/plugins/telegram-auto-capture.client.ts:71 | an app error is sent without a description |
| `AutoCapture.CapturePlugin.OnUnhandledRejection` | src/runtime/plugins/telegram-auto-capture.client.ts:82-85 | a rejection reason is sent as it is |
| `AutoCapture.DispatchedPassesValidation` | src/runtime/plugins/telegram-auto-capture.client.ts:60-66 | a dispatched payload, posted as an `error` notification, passes the endpoint's type and title checks, and a message is sent exactly when a chat is configured |

## Left out

- Text length: JavaScript counts UTF-16 code units, and here a character is
  one Unicode scalar value. Lengths, `slice` and `clip` differ for characters
  outside the Basic Multilingual Plane, such as emoji in user-supplied
  text. The module's own type emoji all lie inside that plane
  (`Format.Emoji`), so the title line's prefix has the same length either
  way.
- Regular expressions: `replace(/^#+/u)`, `/\s+/gu` and `/\r?\n/u` are written
  out as character-level functions. Pattern compilation and matching in the
  ignore list are abstract (`RegexEngine`). Ignore entries that are already
  `RegExp` objects, and a non-array `ignorePatterns`, are not modelled.
- `JSON.stringify` is a foreign serializer. `toStack` takes the JSON text of a
  non-error object as given. When stringifying returns `undefined` (a
  function, a symbol), `firstLine(undefined)` throws at
  src/runtime/plugins/telegram-auto-capture.client.ts:45 and nothing is
  sent. The model's JSON text is always a string, so this throw is not
  modelled. `prettyKV` takes
  string values only, whose `stringify` is the identity.
- `prettyKV` takes its entries as an ordered sequence. JavaScript's
  `Object.entries` ordering (integer-like keys first) is not modelled.
- Body fields of the wrong JSON type are not modelled: the type, title,
  description, url, stack, chat id and thread id are optional strings or
  integers. A `null` thread id is not modelled: the source would choose it
  over the configured id (telegram-notify.post.ts:157) and then drop it as
  falsy (line 167), so the configured topic would be suppressed.
  `String(body.stack)` is the identity on strings.
- `RateLimit.WindowEnd`, `RateLimit.Admit`, `NotifyHandler.Handle`: these
  require a positive window length. A zero, negative or non-numeric
  configuration (division by zero or `NaN` in the source) is not modelled.
  The per-address limit is an integer, and `rateLimitWindowSec` is taken as
  a whole number of seconds: a fractional window is not modelled.
- `RateLimit.RateLimiter.TakeToken`: the bucket object is mutated in place
  (`b.count += 1`) in the source. Here it is a map update, since nothing else
  holds a reference to a bucket.
- `AutoCapture.SampleRate`: the sample rate is a real number. `NaN` and
  floating-point rounding are not modelled. The random draw is a parameter
  in [0, 1).
- I/O and the framework: `readBody`, `getRequestIP`, `setHeader`,
  `createError` and the `$fetch` calls are not modelled as I/O. They appear
  as parameters (body, address, Telegram reply) and as the `Response` and
  `Failure` values, with status codes in `NotifyHandler.StatusCode`.
- Logging and console: the `console.log` of a failed send is not modelled.
  The `console.error` patch is not modelled either, since it only wraps
  `send` around global patching.
- The bot token and chat id come from server options and are fields of the
  configuration. The URL built from the token is not modelled.
- Registration and configuration: the `enabled` and `include…` switches
  that register the plugin's hooks are left to the caller. Each hook is a
  method of `CapturePlugin`. Module setup (`src/module.ts`) and the
  playground configuration are not part of this model.
- Concurrency: the model is sequential. Concurrent requests sharing the
  limiter's map and concurrent events sharing the dedupe map are not
  modelled.
