# Transcript helpers of the AI-Bot chat assistant

This project models, in Dafny, the transcript helpers of the AI-Bot
Streamlit chat assistant (`utils.py`). A transcript is a sequence of
`{role, content}` messages, oldest first. The helpers:

- sanitise a file name by replacing each of `<>:"/\|?*` with `_`;
- validate a user message by its stripped and its raw length;
- truncate a history to its newest messages;
- compute statistics (role counts, integer mean content length, a duration
  estimate of two minutes per message);
- export a transcript as numbered plain text;
- append a language note to a model reply unless it mentions Hindi or Hinglish;
- shape what a save writes (file name and wrapped document) and what a load
  returns (the messages of a wrapped document, a legacy bare list as it is).

Modules, one file each: `Wrappers` (Option), `Config` (the two constants),
`Transcript` (Message), `PyStr` (the Python `str` behaviour the helpers use:
single-character `replace`, `isspace`/`strip`, substring `in`, `str(int)`,
`c * n`), then one module per group of helpers: `Sanitize`, `Validate`,
`History`, `Statistics`, `Export`, `Language`, `Persistence`.

`sanitize_filename` and `export_chat_as_text` build their result in a loop,
so they are methods with loop invariants, proved equal to the specification
functions `Sanitize.Sanitized` and `Export.ExportText`. The other helpers are
expressions and are modelled as functions. Functions cannot call methods, so
`Persistence.FileStem` uses `Sanitize.Sanitized`.

Clock readings are parameters. `SaveChatHistory` takes the `%Y%m%d_%H%M%S`
reading for the file name and the ISO reading for the document, and
`ExportChatAsText` takes the "Generated on" reading. The history directory
is a value of type `map<string, Document>`. A save returns the new map; a
load reads it and returns `None` for a missing file.

In these details the model follows the code exactly:

- The duration of a non-empty history is `"<2n> minutes (estimated)"`, but
  `"0 minutes"` for an empty one.
- Roles are strings compared literally. A message whose role is neither
  `"user"` nor `"assistant"` is counted in neither statistic, and the export
  labels it `Assistant`.
- Truncation with a bound of 0 keeps the whole history, because `h[-0:]` is
  `h[0:]`. A negative bound `-k` drops the first `k` messages.

## Model

| member | source | states |
|---|---|---|
| `PyStr.IsSpace` | utils.py:144 | the whitespace `strip()` removes is CPython's `str.isspace` set: it includes space, tab, newline and carriage return, excludes the digits, and lies at or below U+3000 |
| `PyStr.Contains` | utils.py:186 | Python's substring `in`: an occurrence needs the text to be at least as long as the piece, and any prefix occurs |
| `PyStr.Replace` | utils.py:19 | `str.replace` with one-character arguments keeps the length, puts the replacement at every occurrence and leaves every other character in place |
| `PyStr.FirstVisible` | utils.py:144 | the scan from the left stops at the first non-whitespace character, past only whitespace |
| `PyStr.EndVisible` | utils.py:144 | the scan from the right stops after the last non-whitespace character, past only whitespace |
| `PyStr.Strip` | utils.py:144-147 | `strip()` gives a slice of the input that neither starts nor ends with whitespace, and only whitespace lies outside it |
| `PyStr.Repeat` | utils.py:125 | `c * n` has length `n` and holds only `c` |
| `PyStr.NatToString` | utils.py:223 | `str(n)` is a non-empty string of decimal digits with no leading zero |
| `PyStr.NatToStringRoundTrip` | utils.py:129 | reading the decimal rendering of `n` back gives `n` |
| `PyStr.NatToStringInjective` | utils.py:127-129 | different message numbers render differently |
| `Sanitize.SanitizedChar` | utils.py:17-19 | a sanitised character is never invalid, and is either the original or `_` |
| `Sanitize.Sanitized` | utils.py:15-20 | sanitising works character by character and keeps the length |
| `Sanitize.SanitizeFilename` | utils.py:15-20 | the loop of one `replace` per invalid character computes exactly `Sanitized` |
| `Sanitize.SanitizedProperties` | utils.py:15-20 | same length, no invalid character, valid characters unchanged in place, invalid ones become `_` |
| `Sanitize.SanitizedFixesValidNames` | utils.py:15-20 | a name without invalid characters is unchanged |
| `Sanitize.SanitizedIdempotent` | utils.py:15-20 | sanitising twice is sanitising once |
| `Validate.ValidateMessage` | utils.py:134-153 | accepted exactly when the stripped message has at least 2 characters and the raw message is at most 2000 long |
| `Validate.StripKeepsTwoIff` | utils.py:144-148 | stripping leaves at least 2 characters exactly when the message has two non-whitespace characters |
| `Validate.ValidateMessageIff` | utils.py:144-153 | both directions: accepted iff two non-whitespace characters and raw length at most 2000 |
| `Validate.ShortMessagesRejected` | utils.py:144-148 | empty, all-whitespace and single-visible-character messages are refused |
| `Validate.LongMessagesRejected` | utils.py:150-151 | a raw length above 2000 is refused |
| `Validate.ValidateExamples` | utils.py:144-153 | `""`, `" "` and `"a"` are refused and `"hello"` is accepted |
| `History.SliceFrom` | utils.py:171 | Python's `s[start:]`: negative starts count from the end, both clamp to the sequence |
| `History.TruncateChatHistory` | utils.py:155-173 | the result is a suffix of the history in original order; with bound `m >= 1` its length is `min(len, m)`; within the bound, or with bound 0, the history is returned unchanged; a negative bound `-k` drops `min(k, len)` messages; no bound means 50 |
| `History.TruncateIdempotent` | utils.py:169-173 | truncating twice to a non-negative bound is truncating once |
| `History.TruncateAfterAppend` | utils.py:169-173 | with bound `m >= 2`, appending a message then truncating keeps the newest `m - 1` earlier messages followed by the new one |
| `Statistics.WithRole` | utils.py:212-213 | the role filter returns only messages with that role, and no more messages than the history has |
| `Statistics.WithRoleKeepsExactly` | utils.py:212-213 | every message the filter returns comes from the history, and every message of the history with that role is returned |
| `Statistics.TotalChars` | utils.py:215 | the sum of content lengths is the one length for a single message and is at least the first message's length |
| `Statistics.ContentAtMostTotal` | utils.py:215 | no message's content is longer than the sum of all content lengths |
| `Statistics.EstimatedDuration` | utils.py:223 | the duration text ends with ` minutes (estimated)`, and what comes before it is decimal digits with no leading zero (unless the count is 0) reading back as twice the message count |
| `Statistics.GetChatStatistics` | utils.py:193-224 | total is the length; user/assistant counts are the role filters' sizes; the average is the floor of total characters over the count; an empty history gives all zeros and `"0 minutes"`; otherwise the duration is `2n` then `" minutes (estimated)"` |
| `Statistics.RoleCountsBounded` | utils.py:212-213 | messages of two different roles together number at most the whole history |
| `Statistics.RoleCountsExhaustive` | utils.py:212-213 | when every role is `"user"` or `"assistant"` the two counts add up to the total |
| `Statistics.StatisticsCountsBounded` | utils.py:218-221 | user plus assistant messages never exceed the total |
| `Statistics.WithRoleAppend` | utils.py:212 | the role filter distributes over concatenation |
| `Statistics.DivisionBounds` | utils.py:216 | floor division places the mean within one unit |
| `Statistics.TotalCharsBounded` | utils.py:215 | total characters are at most the count times the longest content |
| `Statistics.AverageAtMostLongest` | utils.py:215-216 | the average length never exceeds the longest message |
| `Statistics.DurationIsTwoMinutesPerMessage` | utils.py:223 | the duration of a non-empty history is decimal digits, not starting with `0`, that read back as `2n`, then the estimate suffix |
| `Statistics.TwoMessageSession` | utils.py:212-223 | one user and one assistant message give total 2, one of each, and `"4 minutes (estimated)"` |
| `Export.RoleLabel` | utils.py:128 | the label is `You` iff the role is `"user"`, `Assistant` otherwise |
| `Export.Header` | utils.py:123-125 | the header is the title line, `Generated on: ` with the clock reading at its fixed offset, then a 50-character `=` rule and a blank line |
| `Export.Entry` | utils.py:129 | an entry is `[n] ` for its number, then the role label (`You` or `Assistant`) and `:` with a line break, then the message content and a blank line |
| `Export.Block` | utils.py:129-130 | a block is exactly the entry followed by the 30-dash rule line |
| `Export.Blocks` | utils.py:127-130 | the blocks of the first `n` messages are empty exactly when `n` is 0, and otherwise end with the rule |
| `Export.ExportText` | utils.py:120-132 | an empty history exports as the sentinel; any other export starts with the header and has blocks after it |
| `Export.ExportChatAsText` | utils.py:110-132 | the loop that appends one entry and one rule per message computes exactly `ExportText`: the sentinel for an empty history, otherwise header then numbered blocks in order |
| `Export.ExportIsSentinelIff` | utils.py:120-121 | the export is the sentinel `"No chat history to export."` exactly when the history is empty |
| `Export.BlocksPrefix` | utils.py:127-130 | the blocks of the first `k` messages are a prefix of those of the first `n >= k` |
| `Export.ExportShowsMessage` | utils.py:127-130 | message `k` appears as the block numbered `k`, right after the header and the blocks of messages `1..k-1` |
| `Export.BlocksOfPrefix` | utils.py:127-130 | the first `n` blocks depend only on the first `n` messages |
| `Export.ExportExtends` | utils.py:127-130 | continuing a non-empty conversation only appends to its export |
| `Export.BlockShape` | utils.py:129-130 | every block starts with `[n` and ends with the 30-dash rule |
| `Language.MentionsLanguage` | utils.py:186 | the three-way `in` test: a reply containing `Hindi` passes it, and a reply that passes it is at least five characters long |
| `Language.FormatResponseWithLanguage` | utils.py:175-191 | the reply is returned unchanged iff it contains `हिंदी`, `Hinglish` or `Hindi`, otherwise exactly the note is appended; the result always mentions the languages |
| `Language.NoteMentionsHindi` | utils.py:190 | any reply followed by the note contains `Hindi` |
| `Language.FormatIdempotent` | utils.py:186-191 | formatting twice is formatting once |
| `Persistence.FileStem` | utils.py:36-39 | a non-empty custom name gives its sanitised form, no or an empty name gives `chat_history`; the stem has no invalid character |
| `Persistence.SaveFilename` | utils.py:36-39 | the name is the stem, `_`, the timestamp and `.json`, each at its position |
| `Persistence.SaveDocument` | utils.py:44-48 | the saved document is wrapped, carries the timestamp and the messages, and its count equals the number of messages |
| `Persistence.SaveChatHistory` | utils.py:33-54 | a save returns the new file name and stores the saved document under it, leaving every other file as it was |
| `Persistence.Unwrap` | utils.py:80-84 | a wrapped document becomes its messages, any other document is returned as it is |
| `Persistence.LoadChatHistory` | utils.py:70-84 | a missing file, or a file holding JSON `null`, gives nothing; any other file gives its unwrapped document, which is never wrapped |
| `Persistence.SaveLoadRoundTrip` | utils.py:81-82 | loading the file a save just wrote gives back exactly the saved messages |
| `Persistence.SaveKeepsOtherFiles` | utils.py:50-51 | a save changes what no other file name loads |
| `Persistence.LoadLegacy` | utils.py:83-84 | a legacy bare list loads as it is |
| `Persistence.SaveFilenameIsSanitized` | utils.py:36-39 | with a timestamp free of invalid characters, the whole file name is free of them |
| `Persistence.SaveFilenamesDistinct` | utils.py:34-39 | the same custom name at two different timestamps gives two different file names |

## Left out

- File and directory I/O (`open`, `json.dump`, `json.load`, `os.path.exists`, `os.path.join`) is replaced by the directory map. Exceptions raised by that I/O, which the helpers turn into `None`, are not modelled.
- A Python `str` can hold lone surrogate code points, for example when `json.load` reads `"\ud800"`. A Dafny `char` cannot. Strings and lengths are modelled only for text without lone surrogates.
- JSON serialisation itself (escaping, `ensure_ascii=False`, indentation) is library behaviour and is not modelled. A stored document is represented by its parsed value.
- `Document` distinguishes a wrapped document, a bare message list, JSON `null` and everything else. A JSON object whose `"messages"` value is not a list of role/content records falls under `Other`. The source would return that value rather than the whole object.
- Messages are records that always have a `role` and a `content` string. A malformed record, which raises a `KeyError` or `TypeError` in the source, is not modelled.
- `TruncateChatHistory`: a history within the bound comes back as the caller's own list object (utils.py:173), a longer one as a new list (utils.py:171). Transcripts are values here, so that aliasing difference is not modelled.
- `get_saved_chat_files` (utils.py:90-108) is not modelled. It lists the `.json` files of a directory by creation time, which is filesystem state.
- `datetime.now()` is replaced by the clock-reading parameters. Logging and the unused `streamlit` import have no behaviour to model.
- `MAX_CHAT_HISTORY` can be overridden through the environment (config.py:21). The model uses its default, 50, when no bound is passed.
- streamlit_app.py is not part of this model. It is a connectivity check for the hosted model API, made of network calls and console output.
- run.py is not part of this model. It is process launch and argument handling.
- Environment loading and directory creation in config.py are not part of this model. Only its two constants are used.
- The session controller and the prompt/context assembler are not in these source files, so they are not part of this model.
