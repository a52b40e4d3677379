# lx log pipeline, modelled in Dafny

lx is a command-line log processor. It reads log lines from a source (stdin,
files, a command, or a Docker container), normalises each one into a
`LogEntry`, detects its severity level, filters it through a chain of
keyword, exclude, level and regex filters or through grep-style
before/after context, and fans the surviving entries out to sinks. Around
that core sit a bounded ring buffer of recent entries, an entry pool, line
counters, a per-second rate/spike detector, regex alert rules, a Grok-style
pattern parser, and the Docker source's timestamp splitter.

This project models that core and proves properties of it:

- `Entries` (entry.dfy): the `Level` type, `ParseLevel`, `Level.String`, `LogEntry` and `Format`.
- `LevelDetect` (level.dfy): `DetectLevel`. It finds the leftmost whole word that case-insensitively spells a level keyword, then looks it up in the keyword table.
- `Filters` and `FilterChain` (filters.dfy, chain.dfy): the concrete filters and the AND/OR chain. The chain short-circuits, and level filters store the detected level in the entry.
- `Context` (context.dfy): `ContextBuffer` as a class over an `array` history ring, proved against a value-level window function.
- `RingBuffer` (ring.dfy): `Ring` as a class over an `array`, proved to hold the last `capacity` pushed entries in order.
- `EntryPool` (pool.dfy): `Get` and `Put`, with the reset an entry goes through.
- `Grok` (grok.dfy): token scanning, pattern compilation and `Parse`.
- `Rate` (rate.dfy): `RateDetector` with its pruning, bucketing and spike rule.
- `Alerts` (alert.dfy): `AlertEngine`.
- `LineStats` (stats.dfy): `Stats`.
- `Docker` (docker.dfy): `parseDockerTimestamp` and the source's name.
- `Pipeline` (pipeline.dfy): `Run`. The sinks are one object that records every `Write`, `Flush` and `Close` call in order. `Run` is proved equal to a fold (`FeedAll`) over the source's entries.

Go strings are byte strings. Here a `string` stands for one, one `char` per
byte. Regular expressions, the RFC 3339 parser and the clock are parameters
of the operations that use them.

## Model

| member | source | states |
|---|---|---|
| Entries.Level.String | internal/entry/entry.go:22-37 | the five known levels print as distinct upper-case names; every other value, `Unknown` included, prints "UNKNOWN" |
| Entries.ParseLevel | internal/entry/entry.go:40-55 | the result is `Unknown` or a known level, and a known level comes only from a short all-letter spelling |
| Entries.ParseStringRoundTrip | internal/entry/entry.go:22-55 | parsing a known level's printed name gives the level back; any other level prints "UNKNOWN", which parses to `Unknown` |
| Entries.ParseRejectsOtherSpellings | internal/entry/entry.go:40-55 | spellings outside the switch ("Warning", "Panic", "Err", "ErRoR") are `Unknown`; the switch is not case-insensitive |
| Entries.ParseRejectsUnknown | internal/entry/entry.go:40-55 | the empty string and "UNKNOWN" are `Unknown` |
| Entries.ParseAliases | internal/entry/entry.go:46-51 | PANIC spellings are `Fatal`, ERR spellings are `Error` |
| Entries.ParseWarningSpellings | internal/entry/entry.go:46-51 | WARNING spellings are `Warn`, like WARN |
| Entries.LevelOrder | internal/entry/entry.go:12-19 | severities are ordered Unknown < Debug < Info < Warn < Error < Fatal |
| Entries.Format | internal/entry/entry.go:70-76 | the text is `[ts][stream]`, then `[LEVEL]` exactly when the level is not `Unknown`, then `: message` |
| Text.Contains | internal/filter/keyword.go:22 | `strings.Contains` holds exactly when the substring occurs at some offset |
| Text.Join | internal/filter/exclude.go:33 | `strings.Join`: no parts give the empty string and one part gives itself |
| Text.JoinConcat | internal/filter/exclude.go:33 | joining two non-empty lists of parts is joining each with one separator between them |
| Text.JoinSnoc | internal/filter/exclude.go:33 | one more part appends the separator and that part |
| Text.Upper | internal/filter/level.go:68 | `strings.ToUpper` on bytes keeps the length and upper-cases each ASCII letter |
| Text.WordEnd | internal/filter/level.go:24 | the end of the maximal run of `\w` bytes starting at an offset |
| Text.WordEndAt | internal/filter/level.go:24 | a run of `\w` bytes closed by a non-word byte or the end of the text is the maximal word starting there |
| LevelDetect.LookupIn | internal/filter/level.go:69-76 | a level is returned only for a word listed in some row of the table, and `Unknown` when no row lists it |
| LevelDetect.KeywordTable | internal/filter/level.go:12-21 | the keyword table maps ERROR/ERR, WARN/WARNING, INFO, DEBUG/TRACE and FATAL/PANIC/CRITICAL to their levels, and nothing else to a level |
| LevelDetect.AlternativesAreKeywords | internal/filter/level.go:12-24 | the regex's alternatives are exactly the table's keywords, so every regex match maps to a known level |
| LevelDetect.MatchAt | internal/filter/level.go:24 | a regex match at an offset is an alternative spelled there, ignoring case |
| LevelDetect.MatchAtIsWholeWord | internal/filter/level.go:24 | with the `\b` anchors, a match is a whole word, and every whole word that upper-cases to an alternative matches |
| LevelDetect.MatchAtIffKeyword | internal/filter/level.go:24 | the regex matches at an offset iff a whole keyword word starts there, and the match is that word |
| LevelDetect.FindFromIsLeftmost | internal/filter/level.go:63 | `FindString` finds nothing iff no keyword word starts at or after the offset, and otherwise finds the leftmost one |
| LevelDetect.DetectUnknownIff | internal/filter/level.go:62-77 | `DetectLevel` is `Unknown` iff the message holds no keyword as a whole word |
| LevelDetect.DetectLeftmostKeyword | internal/filter/level.go:62-77 | the detected level is the table's level for the upper-cased leftmost keyword word |
| LevelDetect.DetectBracketed | internal/filter/level.go:62-77 | "[ERROR] disk full" is detected as `Error` |
| LevelDetect.DetectKeyValue | internal/filter/level.go:62-77 | "level=warning msg" is detected as `Warn` (case-insensitive, longer alternative) |
| LevelDetect.DetectLongerWord | internal/filter/level.go:24 | "ERRORS only" has no level: a keyword inside a longer word does not count |
| Filters.CacheLevel | internal/filter/level.go:44-48 | a set level is kept; an `Unknown` one becomes the detected level, and nothing else changes |
| Filters.CacheLevelIdempotent | internal/filter/level.go:44-48 | caching the detected level twice is the same as caching it once |
| Filters.KeywordMatch | internal/filter/keyword.go:21-23 | a keyword filter passes iff the keyword occurs in the message |
| Filters.EmptyKeywordMatchesAll | internal/filter/keyword.go:21-23 | the empty keyword passes every entry |
| Filters.KeywordName | internal/filter/keyword.go:26-28 | the name is "keyword:" followed by the keyword |
| Filters.ExcludeMatch | internal/filter/exclude.go:22-29 | an exclude filter passes iff none of its patterns occurs in the message |
| Filters.ExcludeNothing | internal/filter/exclude.go:22-29 | with no patterns, everything passes |
| Filters.ExcludeEmptyPatternRejectsAll | internal/filter/exclude.go:23-26 | an empty pattern rejects every entry |
| Filters.ExcludeOrderIrrelevant | internal/filter/exclude.go:22-29 | only the set of patterns matters, not their order or repetition |
| Filters.ExcludeFewer | internal/filter/exclude.go:22-29 | dropping patterns never turns a pass into a rejection |
| Filters.ExcludeName | internal/filter/exclude.go:32-34 | the name is "exclude:" followed by the patterns joined with commas |
| Filters.LevelMatch | internal/filter/level.go:43-50 | the entry leaves with its level cached, and passes iff that level is allowed; a set level leaves the entry unchanged |
| Filters.LevelMatchTwice | internal/filter/level.go:43-50 | matching an entry again gives the same answer and the same entry |
| Filters.NoLevelsRejectAll | internal/filter/level.go:33-50 | a level filter built from no levels rejects every entry |
| Filters.NewLevelFilter | internal/filter/level.go:33-39 | the loop builds a level filter whose allowed set is `AllowedOf` the listed levels |
| Filters.AllowedOf | internal/filter/level.go:33-39 | the allowed set of a level list holds exactly the listed levels |
| Filters.DuplicateLevelsNoEffect | internal/filter/level.go:33-50 | level filters built from lists with the same levels, in any order or with a level repeated, give every entry the same answer and cached level |
| Filters.Match | internal/filter/filter.go:9-15 | `Filter.Match` changes the entry only for a level filter, and then only by caching its level |
| Filters.MatchIgnoresCaching | internal/filter/level.go:43-50 | no filter's answer depends on whether the level was cached before it ran |
| FilterChain.Invoked | internal/filter/filter.go:53-68 | the chain stops at the first filter giving the deciding answer (false for AND, true for OR); every filter before it gave the other answer |
| FilterChain.Chain.constructor | internal/filter/filter.go:34-39 | `NewChain` keeps the mode and the filters in order |
| FilterChain.Chain.Add | internal/filter/filter.go:42-44 | the filter is appended, the mode is kept and the length grows by one |
| FilterChain.Chain.Len | internal/filter/filter.go:80-82 | the number of filters |
| FilterChain.Chain.Name | internal/filter/filter.go:72-77 | "FilterChain(AND)" for `MatchAll`, "FilterChain(OR)" for every other mode |
| FilterChain.Chain.Match | internal/filter/filter.go:48-69 | the loop's answer and the entry it leaves equal the chain's evaluation function |
| FilterChain.EmptyChainPasses | internal/filter/filter.go:49-51 | an empty chain passes every entry and leaves it unchanged, in either mode |
| FilterChain.EvalAllMatched | internal/filter/filter.go:54-60 | AND mode passes iff every filter passes the entry |
| FilterChain.EvalAnyMatched | internal/filter/filter.go:61-67 | OR mode passes iff some filter passes the entry |
| FilterChain.EvalAllEntry | internal/filter/filter.go:55-59 | in AND mode, only the filters up to the first rejection touch the entry |
| FilterChain.EvalAnyEntry | internal/filter/filter.go:62-66 | in OR mode, only the filters up to the first acceptance touch the entry |
| FilterChain.InvokedIgnoresCaching | internal/filter/filter.go:53-68 | where the chain stops does not depend on whether the level was already cached |
| FilterChain.TouchedCaches | internal/filter/filter.go:53-68 | the filters that ran leave the entry level-cached iff one of them is a level filter, and otherwise unchanged |
| FilterChain.AllIffEvery | internal/filter/filter.go:48-60 | a `MatchAll` chain passes iff every filter passes; the empty chain passes |
| FilterChain.OtherIffSome | internal/filter/filter.go:61-67 | a non-empty chain in any mode other than `MatchAll` passes iff some filter passes |
| FilterChain.ShortCircuit | internal/filter/filter.go:53-68 | the chain's answer is the deciding filter's answer, or the default when no filter decides |
| Context.HistorySize | internal/filter/context.go:22-25 | the history holds `before + 1` slots, and at least one |
| Context.Preceding | internal/filter/context.go:47-54 | the before-context is the last `before` stored entries (fewer if fewer are stored, none if `before` is not positive), oldest first |
| Context.Replay | internal/filter/context.go:36-71 | a run of `Process` calls gives one output list per call |
| Context.ContextBuffer.constructor | internal/filter/context.go:21-32 | `NewContextBuffer` allocates `HistorySize(before)` slots, with nothing stored and no after lines owed |
| Context.ContextBuffer.CopyBefore | internal/filter/context.go:47-54 | the slot loop copies the before-context: the last `before` entries stored ahead of the current one, oldest first |
| Context.ContextBuffer.Process | internal/filter/context.go:36-71 | the chain runs on the entry; the entry as the chain left it is stored in the ring; the output and the new window are the window function's, and the ring keeps the last entries at their slots |
| Context.WorkedExample | internal/filter/context.go:36-71 | with before=2 and after=1, where only the third of five entries matches, the calls emit [], [], [a,b,c], [d], [] |
| Context.AfterResetNotAdditive | internal/filter/context.go:59-60 | a match sets the after counter to `after` rather than adding to what is still owed |
| Context.OverlapRepeats | internal/filter/context.go:46-57 | overlapping windows are not deduplicated: two consecutive matches both emit the first |
| Context.QuietRun | internal/filter/context.go:64-70 | with no after lines owed and no match, nothing is emitted |
| Context.AfterLines | internal/filter/context.go:64-68 | after a match, each of the next owed non-matching entries is emitted on its own |
| Context.HistoryRecordsAll | internal/filter/context.go:39-41 | every processed entry is stored, whatever the outcome |
| RingBuffer.Ring.constructor | internal/buffer/ring.go:23-31 | `NewRing` makes a capacity of 1024 when the request is not positive, and starts empty with nothing dropped |
| RingBuffer.Ring.Push | internal/buffer/ring.go:34-44 | the count grows until full, after which each push counts one drop; the contents are the last `capacity` pushed entries |
| RingBuffer.Ring.Snapshot | internal/buffer/ring.go:47-61 | the copy holds the last `capacity` pushed entries in push order, oldest first |
| RingBuffer.Ring.Len | internal/buffer/ring.go:64-68 | the number of entries held, between 0 and the capacity |
| RingBuffer.Ring.Dropped | internal/buffer/ring.go:71-75 | drops plus held entries equal all pushes; nothing is dropped until more than `capacity` have been pushed |
| RingBuffer.Ring.Cap | internal/buffer/ring.go:78-80 | the capacity is positive and equals the slot array's length |
| RingBuffer.WriteKeeps | internal/buffer/ring.go:36-42 | writing at the head keeps every live entry at its slot `k % capacity` |
| RingBuffer.Unwrap | internal/buffer/ring.go:51-59 | the two-part copy from the head reads the slots back in push order |
| EntryPool.NewEntry | internal/buffer/pool.go:11-17 | a new pooled entry is in reset form with an empty, non-nil field map, the zero timestamp and a nil raw slice |
| EntryPool.Cleared | internal/buffer/pool.go:22-32 | a reset entry keeps its timestamp and raw backing array, and its field map only if it had one (now emptied); everything else is cleared |
| EntryPool.ResetIdempotent | internal/buffer/pool.go:22-32 | resetting an already reset entry changes nothing, so resetting twice is resetting once |
| EntryPool.ClearedForgets | internal/buffer/pool.go:22-32 | two entries that differ only in fields the reset clears come back identical |
| EntryPool.DeleteAll | internal/buffer/pool.go:23-25 | the delete loop empties the field map |
| EntryPool.Reset | internal/buffer/pool.go:22-32 | the in-place reset gives the cleared entry |
| EntryPool.Pool.constructor | internal/buffer/pool.go:11-17 | the pool starts with no free entries |
| EntryPool.Pool.Get | internal/buffer/pool.go:20-33 | `Get` returns a reset entry: a recycled one when the pool holds one, a new one otherwise |
| EntryPool.Pool.Put | internal/buffer/pool.go:36-38 | `Put` adds the entry to the free list |
| Grok.TokenAt | internal/parser/grok.go:95 | a token found at an offset is valid and spelled exactly there |
| Grok.TokenAtFindsText | internal/parser/grok.go:95 | conversely, the spelling of a valid token at an offset is found there |
| Grok.AnonymousAt | internal/parser/grok.go:95 | `%{NAME}` spelled at an offset is the anonymous token `NAME` |
| Grok.NamedAt | internal/parser/grok.go:95 | `%{NAME:field}` spelled at an offset is the token `NAME` with field `field` |
| Grok.Tokens | internal/parser/grok.go:96-98 | the tokens among the scanned pieces, in order |
| Grok.ScanRoundTrip | internal/parser/grok.go:95-96 | scanning loses nothing: the pieces spell the pattern back |
| Grok.Slots | internal/parser/grok.go:111-118 | one field-name slot per token, its field or "" for an anonymous token |
| Grok.Replacement | internal/parser/grok.go:111-118 | a token is replaced by a parenthesised group |
| Grok.CompilePiecesSpec | internal/parser/grok.go:90-124 | compilation succeeds iff every token names a built-in pattern; it then yields one slot per token, and otherwise the error names the first unknown pattern |
| Grok.CompileOk | internal/parser/grok.go:98-118 | the loop runs to the end iff no token is unknown, and then yields one slot per token |
| Grok.CompileErr | internal/parser/grok.go:105-108 | when some token is unknown, the loop stops at the first one and the error names its pattern |
| Grok.CompileExpands | internal/parser/grok.go:98-121 | when every token is known, the regex is the pattern with each token replaced in place by its group and all other text kept, next to one slot per token |
| Grok.NoTokensCompileToItself | internal/parser/grok.go:90-124 | a pattern without tokens compiles to itself with no slots |
| Grok.AssignSpec | internal/parser/grok.go:73-77 | keys no slot writes keep their values; each written key holds the submatch of the last slot bearing its name |
| Grok.GrokParser.constructor | internal/parser/grok.go:54-58 | the parser keeps its pattern, regex and slots |
| Grok.GrokParser.Parse | internal/parser/grok.go:63-80 | the loop computes the as-written parse `ParseBySlot` |
| Grok.GrokParser.ParseGrouped | internal/parser/grok.go:73-77 | the corrected loop, numbering named slots by capturing group, computes `ParseByGroup` |
| Grok.ParseBySlot | internal/parser/grok.go:63-80 | no match leaves the entry unchanged and gives false; a match gives true and changes only the field map, creating it if nil |
| Grok.ParseBySlotFields | internal/parser/grok.go:69-77 | on a match, the field map is the old one plus the submatch at position `i + 1` under each named slot `i` |
| Grok.NewGrokParser | internal/parser/grok.go:43-59 | the compile error is returned as is; a regex error is wrapped with the regex text; otherwise the parser holds the compiled regex and the slots |
| Grok.GroupNames | internal/parser/grok.go:111-118 | the non-empty slot names, in order; with no capturing group in the literal text, these are the regex's capturing groups |
| Grok.GroupOfSlot | internal/parser/grok.go:111-118 | named slot `i` is entry `NamedBefore(i)` of the non-empty slot names |
| Grok.ParseByGroup | internal/parser/grok.go:73-77 | the corrected parse: the same outcome on no match, and a field map on a match |
| Grok.ParseByGroupStoresOwnGroup | internal/parser/grok.go:73-77 | in the corrected parse, each named field whose name is not reused later holds its own group's submatch |
| Grok.ExampleSlots | internal/parser/grok.go:111-118 | `%{IP} %{WORD:method}` compiles with slots ["", "method"] |
| Grok.SlotIndexLosesField | internal/parser/grok.go:73-77 | as written, parsing with that pattern never sets `method` |
| Grok.GroupIndexKeepsField | internal/parser/grok.go:73-77 | with the corrected parse, `method` gets the verb |
| Rate.Truncate | internal/monitor/rate.go:43 | the start of the second containing the instant |
| Rate.StaleCount | internal/monitor/rate.go:96-99 | the length of the leading run of timestamps before the cutoff |
| Rate.Bump | internal/monitor/rate.go:43-49 | the event bumps the last bucket if it is for that second, and otherwise opens a new bucket with count 1 |
| Rate.RateDetector.constructor | internal/monitor/rate.go:20-31 | a window under one second becomes ten seconds and a non-positive threshold becomes 3; no buckets yet |
| Rate.RateDetector.Prune | internal/monitor/rate.go:94-104 | the stale prefix of buckets and timestamps is dropped and the rest kept in order |
| Rate.RateDetector.Record | internal/monitor/rate.go:35-52 | prune, then bump the current second, then report the spike rule on the new buckets |
| Rate.RateDetector.IsSpiking | internal/monitor/rate.go:107-124 | the loop computes the spike rule |
| Rate.RateDetector.CurrentRate | internal/monitor/rate.go:55-74 | prune, then the event count in the window divided by the window's seconds (0 when there are no buckets) |
| Rate.RateDetector.LatestSecondRate | internal/monitor/rate.go:77-91 | the last bucket's count if it is for the current second, else 0 |
| Rate.StaleCountIs | internal/monitor/rate.go:96-99 | the prune loop's exit index is the stale count |
| Rate.SpikingCrossMultiplied | internal/monitor/rate.go:107-124 | a spike means three or more buckets, a non-zero earlier sum, and latest × (n − 1) > threshold × sum |
| Rate.SpikeAfterQuietSeconds | internal/monitor/rate.go:107-124 | after three seconds with one event each, threshold 3 fires from the busy second's fourth event |
| Rate.RecordKeepsOrder | internal/monitor/rate.go:35-52 | with a clock that does not run backwards, recording keeps one positive bucket per whole second, in increasing order |
| Rate.BumpOrdered | internal/monitor/rate.go:43-49 | bumping at a whole second no earlier than the last keeps the history ordered |
| Rate.PruneKeepsWindow | internal/monitor/rate.go:94-104 | after pruning ordered timestamps, every kept bucket is within the window and every dropped one was outside it |
| Rate.NoSpikeWithoutHistory | internal/monitor/rate.go:108-120 | fewer than three buckets, or a zero average, never spike |
| Alerts.Quote | internal/monitor/alert.go:31 | `%q` output is the byte-wise escaped pattern enclosed in double quotes |
| Alerts.QuoteRoundTrip | internal/monitor/alert.go:31 | unquoting the `%q` form gives the pattern back, so the error names the failing pattern exactly |
| Alerts.QuoteBodyConcat | internal/monitor/alert.go:31 | `%q` escapes byte by byte: quoting distributes over concatenation |
| Alerts.QuoteDigitsPattern | internal/monitor/alert.go:31 | a pattern with a regex escape such as `\d+ ms` is quoted with its backslash doubled |
| Alerts.QuotePlain | internal/monitor/alert.go:31 | a pattern of printable bytes other than `"` and `\` is quoted by just adding the quotes |
| Alerts.CompileRules | internal/monitor/alert.go:26-39 | success iff every pattern compiles, giving one zero-count rule per pattern in order, named by it; otherwise the error quotes the first failing pattern |
| Alerts.NewAlertEngine | internal/monitor/alert.go:26-39 | the constructor loop yields exactly `CompileRules`' result |
| Alerts.Triggered | internal/monitor/alert.go:50-57 | at most one name per rule |
| Alerts.TriggeredIffMatch | internal/monitor/alert.go:50-57 | a name is reported iff some rule of that name matches the message |
| Alerts.Bumped | internal/monitor/alert.go:51-55 | each matching rule's count grows by one and nothing else changes |
| Alerts.CheckAddsTriggered | internal/monitor/alert.go:42-58 | one check adds to the total exactly as many hits as names it reports |
| Alerts.AlertEngine.constructor | internal/monitor/alert.go:27 | the engine holds the given rules |
| Alerts.AlertEngine.Check | internal/monitor/alert.go:42-58 | the rules become `Bumped` and the result is `Triggered`, both on the message (the early return for no rules included) |
| Alerts.AlertEngine.TotalAlerts | internal/monitor/alert.go:79-88 | the sum of all hit counts |
| Alerts.AlertEngine.Summary | internal/monitor/alert.go:61-76 | the summary is empty iff there are no rules; otherwise it is the header, one line per rule in rule order, and the footer |
| Alerts.RuleLine | internal/monitor/alert.go:72 | a rule's line is two spaces, the name padded with spaces to 30 bytes, a space, the signed decimal count, " hits" and a newline |
| Alerts.Decimal | internal/monitor/alert.go:72 | `%d` of a non-negative count: decimal digits without a leading zero whose value is the count |
| Alerts.Signed | internal/monitor/alert.go:72 | `%d` of any count: a minus sign exactly when negative, then the digits of the magnitude |
| Alerts.PadRight | internal/monitor/alert.go:72 | `%-30s` keeps the text and pads it on the right with spaces to 30 bytes, never truncating |
| LineStats.MatchRate | internal/monitor/stats.go:64-67 | 0 with no lines; otherwise rate × total = matched × 100 |
| LineStats.MatchRateIsPercentage | internal/monitor/stats.go:64-67 | with no more matches than lines, the rate lies between 0 and 100 |
| LineStats.LinesPerSecond | internal/monitor/stats.go:50-56 | 0 when no time has passed; otherwise rate × elapsed = lines per second |
| LineStats.Stats.constructor | internal/monitor/stats.go:18-22 | both counters start at zero and the start time is the given instant |
| LineStats.Stats.RecordLine | internal/monitor/stats.go:25-27 | one more line, matches untouched |
| LineStats.Stats.RecordMatch | internal/monitor/stats.go:30-32 | one more match, lines untouched |
| LineStats.Stats.Total | internal/monitor/stats.go:35-37 | the line counter |
| LineStats.Stats.Matched | internal/monitor/stats.go:40-42 | the match counter |
| LineStats.Stats.Elapsed | internal/monitor/stats.go:45-47 | start time plus elapsed is now |
| LineStats.Stats.Rate | internal/monitor/stats.go:50-56 | lines per second since the start, 0 at the start instant |
| LineStats.Stats.SummaryMatchRate | internal/monitor/stats.go:64-67 | the summary's match percentage |
| Docker.Name | internal/source/docker.go:30-32 | "docker:" followed by the container name |
| Docker.ParseDockerTimestamp | internal/source/docker.go:121-135 | a line is split iff it is at least 31 bytes and its first 30 parse as a timestamp; the instant is then parsed and the message is the line from byte 31; otherwise the line is kept whole, stamped now |
| Docker.SplitReassembles | internal/source/docker.go:127-133 | token, separator byte and message reassemble the line |
| Docker.DockerLineRoundTrip | internal/source/docker.go:120-134 | a valid 30-byte token, a space and any message split back into the token's instant and the message |
| Docker.SeparatorUnchecked | internal/source/docker.go:133 | the byte after the token is skipped unchecked: any byte there gives the same split as a space |
| Pipeline.Sinks.constructor | internal/sink/sink.go:9-21 | the sinks start with no recorded calls |
| Pipeline.Sinks.Write | internal/sink/sink.go:9-21 | a write is recorded and fails as the sink's outcome function says |
| Pipeline.Sinks.Flush | internal/sink/sink.go:9-21 | a flush is recorded |
| Pipeline.Sinks.Close | internal/sink/sink.go:9-21 | a close is recorded |
| Pipeline.Writes | internal/pipeline/pipeline.go:78-82 | the calls of one fan-out, sink by sink in order |
| Pipeline.FanOut | internal/pipeline/pipeline.go:78-82 | a fan-out with no error writes the entry to every sink in order |
| Pipeline.FanOutStops | internal/pipeline/pipeline.go:78-82 | a fan-out fails iff some sink's write fails; it stops at the first failing sink, whose write is recorded, and wraps its error with the sink's name |
| Pipeline.FanOutWrites | internal/pipeline/pipeline.go:78-82 | the sink loop records and returns exactly `FanOut` |
| Pipeline.Deliver | internal/pipeline/pipeline.go:58-65 | each emitted entry counts as a match before it is written; with no error, every emitted entry is counted |
| Pipeline.DeliverAll | internal/pipeline/pipeline.go:58-65 | the loop over emitted entries matches `Deliver` and leaves the line counter alone |
| Pipeline.Emit | internal/pipeline/pipeline.go:55-74 | without context, at most one entry is emitted and the window is unchanged |
| Pipeline.Feed | internal/pipeline/pipeline.go:42-83 | each line counts once, is pushed level-cached, and never lowers the match count |
| Pipeline.Closing | internal/pipeline/pipeline.go:86-89 | every sink is flushed then closed, in sink order |
| Pipeline.Intake | internal/pipeline/pipeline.go:43-53 | the line is counted, its level detected, and the level-cached entry pushed to the ring |
| Pipeline.RouteEntry | internal/pipeline/pipeline.go:55-74 | the context buffer or the filter chain emits exactly what `Emit` says |
| Pipeline.Handle | internal/pipeline/pipeline.go:42-83 | one iteration of the loop is one step of `Feed` on the whole observable state |
| Pipeline.Stream | internal/pipeline/pipeline.go:42-83 | the loop over all entries is `FeedAll`, stopping at the first write error |
| Pipeline.Advance | internal/pipeline/pipeline.go:42-83 | after `i` entries the objects hold `FeedAll` of the first `i`; one more iteration gives `FeedAll` of the first `i + 1`, or, on a write error, of the whole input |
| Pipeline.FeedAllSnoc | internal/pipeline/pipeline.go:42-83 | the loop over `xs` then `e` is the loop over `xs` followed by one more iteration, unless a write already failed |
| Pipeline.FeedAllStops | internal/pipeline/pipeline.go:78-82 | once a write fails the loop returns: later entries change nothing |
| Pipeline.Drain | internal/pipeline/pipeline.go:86-89 | flush and close every sink, ignoring their errors |
| Pipeline.Run | internal/pipeline/pipeline.go:29-98 | the three setup errors leave everything unchanged; otherwise the state is `FeedAll` from the start state, and after a clean run every sink is flushed and closed |
| Pipeline.Prepared | internal/pipeline/pipeline.go:46-48 | the entries with their levels detected |
| Pipeline.LinesAndRing | internal/pipeline/pipeline.go:42-53 | with a `k`-line prefix consumed, the ring holds those lines level-cached; counting stops early only on an error, and a clean run counts every line |
| Pipeline.ChainKeepsDetected | internal/pipeline/pipeline.go:46-74 | once the level is detected, the chain does not change the entry |
| Pipeline.Passed | internal/pipeline/pipeline.go:70-74 | the entries the chain passes, in order |
| Pipeline.WritesAll | internal/pipeline/pipeline.go:78-82 | the calls that write each entry to all sinks |
| Pipeline.PlainRun | internal/pipeline/pipeline.go:69-82 | a clean run without context counts one match per passed entry and writes exactly the passed entries to every sink, in order |
| Pipeline.DeliverClean | internal/pipeline/pipeline.go:58-64 | a delivery with no write error writes each entry to every sink in sink order |
| Pipeline.ContextFeed | internal/pipeline/pipeline.go:56-66 | one context-mode iteration: the window takes the `Process` step for the chain's verdict on the level-cached entry, and every line it emits is counted and written to every sink |
| Pipeline.ContextRun | internal/pipeline/pipeline.go:56-66 | a clean context-mode run counts one match per line the replayed window emits, writes each such line to every sink in order, and leaves the window where the replay ends |
| Pipeline.NoWriteErrors | internal/pipeline/pipeline.go:42-83 | with sinks that never fail, the run ends without error |
| Pipeline.DeliverNeverFails | internal/pipeline/pipeline.go:58-65 | with sinks that never fail, delivery succeeds |
| Pipeline.FirstFailureNone | internal/pipeline/pipeline.go:78-82 | with sinks that never fail, no sink is the first failure |
| Pipeline.StreamingOnlyWrites | internal/pipeline/pipeline.go:42-83 | while streaming, the sinks only receive writes |
| Pipeline.DeliverOnlyWrites | internal/pipeline/pipeline.go:58-65 | delivering emitted entries only writes |
| Pipeline.KeywordChain | internal/pipeline/pipeline.go:70-74 | a one-keyword OR chain passes a detected entry iff the keyword occurs in the message |
| Pipeline.EndToEndExample | internal/pipeline/pipeline.go:29-98 | five lines, two containing "ERROR", through an ERROR keyword filter to one sink: 5 lines, 2 matches, and exactly the two writes |
| Pipeline.ContextMatchStep | internal/pipeline/pipeline.go:56-66 | in context mode with before=1, a matching line is emitted with its predecessor and each emitted line counts as a match |
| Pipeline.ContextCountsContextLines | internal/pipeline/pipeline.go:56-66 | two matching lines with before=1 give 2 lines, 3 matches and a 150% match rate |

## Left out

- I/O and concurrency are not modelled: goroutines, channels, mutexes and `context.Context` cancellation. The source's channel is a finite sequence of entries given to `Run`, or a start error.
- The source adapters are not part of this model: stdin, file tail, exec and Docker `Start` and its reading loop. Only Docker's `Name` and `parseDockerTimestamp` are.
- The concrete sinks (terminal, JSON) are not part of this model. A sink is an index with a name, and its write outcome is a function of the calls recorded so far.
- Regular expressions are not modelled as an engine. They are parameters:
  - a compiled regex filter or alert rule is a predicate on the message;
  - Grok's regex is a submatch function;
  - `regexp.Compile` is a function returning the matcher or an error.
  - Only the level regex of level.go is modelled as an actual matcher.
- RFC 3339 parsing and formatting, and the clock (`time.Now`, `time.Since`), are parameters.
- Floating point is modelled by exact reals: the match rate, lines per second, the spike average and the threshold.
- Fixed-width integers are unbounded here. This covers `uint64` drop and sequence counters, `int64` bucket counts and `int` counters, so no wrap-around is modelled.
- The entry pool is a LIFO free list. `sync.Pool` may drop pooled entries or hand back any of them. The model always returns the last one put, and it resets slices without their backing arrays changing.
- `LevelFilter.Name` is not modelled, because it lists the levels in Go's random map iteration order.
- `RegexFilter` and `ContextBuffer.Name` are not modelled. The first holds an abstract matcher. The second is the constant "context".
- `GrokParser.Pattern` has no contract beyond returning the stored pattern.
- `Stats.Summary` text is not modelled (`%.1f` and `%.0f` rounding, `Duration.Round`); only its match percentage is, as `LineStats.Stats.SummaryMatchRate`.
- `ShowStats` printing at the end of `Run` is not modelled.
- Alerts.Quote: `%q` is modelled for bytes only. Go escapes invalid or non-printable UTF-8 sequences differently, and that is not modelled.
- Alerts.PadRight: `%-30s` pads by runes, and the model pads by bytes, so multi-byte names pad differently.
- Grok.CompileExpands: the source substitutes each token with `strings.Replace(result, fullMatch, replacement, 1)`, that is at the first occurrence of the token's text in the partly rewritten pattern. The model substitutes at the token's own position.
  - These agree: replacements contain no `%`, and an earlier occurrence of a token's text would have been found by the scan first.
  - That equivalence is argued, not proved.
- Grok.ParseByGroup: the corrected numbering (named slots before it + 1) assumes the pattern's literal text holds no capturing group. Literal text is copied into the regex unescaped (grok.go:92, 120), so for `(a|b) %{WORD:method}` group 1 is the literal one. `ParseByGroupStoresOwnGroup` states this as its hypothesis that there are exactly one plus as many submatches as named slots. The named groups promised at grok.go:88 would not need it.
- The monitors (rate, alerts) and the Grok parser are modelled on their own and are not called from `Run`, since pipeline.go does not call them.
- The `Stats` pointer in `Run` is never nil here, because the type excludes null. In Go a nil `Stats` panics at line 43.
- Pipeline.Run: `Flush` and `Close` errors are ignored, as in the code, so their outcomes are not modelled.

Behaviours of the code worth noting (the model follows the code):
- With before=2 and after=1, five entries of which only the third matches emit `[a, b, c]` and then `[d]`; see `Context.WorkedExample`.
- With threshold 3 after three one-event seconds, the spike fires from the busy second's fourth event; see `Rate.SpikeAfterQuietSeconds`.
- A failed sink write ends `Run` at once with that error. The remaining sinks are not written, and sinks are not flushed or closed.
- In context mode, every emitted line counts as a match, context lines included, so the match count can exceed the line count; see `Pipeline.ContextCountsContextLines`.
- `ParseLevel` accepts only the spellings in its switch, which is case-sensitive; see `Entries.ParseRejectsOtherSpellings`.

## Findings

| source | as written | input that shows it | evidently intended | confidence | as-written member | corrected member |
|---|---|---|---|---|---|---|
| internal/parser/grok.go:73-77 | `Parse` reads field slot `i` from submatch `i + 1`, but an anonymous `%{NAME}` token takes a slot (line 117) while compiling to a non-capturing group (line 116), so every later named field reads the wrong submatch or none | pattern `%{IP} %{WORD:method}` on "10.0.0.1 GET": slots are ["", "method"], the regex has one group, submatches are ["10.0.0.1 GET", "GET"]; `method` would need submatch 2 and is never set | each named field takes the submatch of its own capturing group; with no capturing group in the literal text, that is number = named slots before it + 1 | high (not executed) | Grok.SlotIndexLosesField | Grok.GroupIndexKeepsField |
