# A formal model of the gateway, the agent runtime and the control plane

This directory holds a Dafny model of the stateful algorithms of the repository, with proofs about every
input and every run. `dafny verify dfyconfig.toml` checks all of it.

| file | component |
|---|---|
| `Redaction.dfy`, `OutputStreamer.dfy` | the sandbox's literal redactor over a held-back buffer, and the two-channel streamer with one byte budget |
| `Lines.dfy`, `Sse.dfy`, `SseFrames.dfy`, `SseCuts.dfy`, `SseCrLf.dfy`, `ModelRewrite.dfy` | line splitting, the server-sent event reader and printers and what they make of any text (section 9.2.6 of the WHATWG HTML Living Standard), what chunk boundaries do to events, and the model-name rewriter |
| `StreamTranslation.dfy`, `MessageMeaning.dfy`, `StreamText.dfy` | the translators between chat chunks and message events, what each tells of any stream, and the same over event-stream text |
| `Normalizer.dfy`, `NormalizerConservation.dfy`, `RequestNormalizer.dfy`, `RequestRules.dfy` | the two request converters, their composition, and each on its own |
| `Subagents.dfy`, `SubagentCharges.dfy` | the subagent scheduler: reservations, parent tree, cancellation, charges |
| `PluginRegistry.dfy`, `PluginRules.dfy` | the plugin registry over a database and a directory map |
| `RateLimiter.dfy`, `LimiterAnswers.dfy` | three sliding-window limiters against one history |
| `Resilience.dfy`, `BreakerCounts.dfy`, `RetryVerdicts.dfy` | the circuit breaker shared by callers, and the retry loop |
| `Batches.dfy`, `BatchAnswers.dfy`, `BatchRules.dfy` | the idempotency protocol of batch submission and cancellation, and what its callers are answered |
| `AuditLog.dfy`, `LogVerification.dfy` | the hash-chained log |
| `Conversation.dfy`, `Context.dfy`, `ContextProjection.dfy`, `AgentLoop.dfy`, `AgentTurns.dfy` | sessions, context compaction and the token-budget loop |
| `Wrappers.dfy` | options, results, bytes and joining |

The objects that update fields in place are classes, and the loops are loops; each method is proved against a
specification function over values or over a ghost history, and the theorems are about those. JSON text,
hashing and token counting enter as codecs with the laws the proofs need (`Valid`, `Injective`). Clock
readings, random fractions, fresh identifiers, sink and provider outcomes are inputs, and concurrency is
interleaving of atomic steps.

Some promises turn out to hold only under a condition, which is then proved exact:

- Redaction does not depend on chunking if and only if no secret is a proper prefix of another.
- Frames printed with CRLF read back as their events if and only if no chunk boundary splits the CRLF of a closing
  blank line that another frame follows; every other split, and any split of frames printed with LF, is harmless. For
  arbitrary text one direction is proved: a split is harmless unless its CRLF directly follows a line feed and has
  text after it.
- The final token count survives translation and back if and only if the last finish reported it.
- The message-event protocol is kept if and only if the chat stream finishes once and adds nothing afterwards.
- Normalising a request is idempotent if and only if no user message has tool calls but no text, and the system
  prompt does not flatten to the empty text.
- The audit log stays appendable if and only if its last record is strictly shorter than the record bound, or
  the whole log is within it; a record of exactly that length is accepted by `append` and then blocks the next.
- A circuit is closed if and only if fewer than threshold endings spoke against the provider since the last success,
  where a success is a return, or an error that does not count when it answers a probe.
- A circuit breaker is half-open if and only if a probe was admitted and no attempt has been answered since; it
  stays blocked from there if and only if no attempt in flight is ever answered, so for good once nothing is.
- Callers of one idempotency key are all answered with the stored record if and only if none of them completes the
  key with a different record after another has.

## Model

| member | source | states |
|---|---|---|
| Redaction.ChunkingIsInvisibleIffPrefixFree | packages/zeaz-sandbox/src/zeaz_sandbox/streaming.py:138-168 | every way of cutting every input gives the bytes of one whole scan, if and only if no secret is a proper prefix of another |
| Redaction.ChunkedEqualsScan | packages/zeaz-sandbox/src/zeaz_sandbox/streaming.py:138-168 | prefix-free secrets: for every chunking, all feeds plus finish emit exactly the units of one scan of the joined input |
| Redaction.CutAfterShortSecret | packages/zeaz-sandbox/src/zeaz_sandbox/streaming.py:148-165 | for every secret that extends another, cutting right after the short one changes the emitted bytes |
| Redaction.ScanIsTheLongestLeftmost | packages/zeaz-sandbox/src/zeaz_sandbox/streaming.py:145-168 | the scan is the longest-leftmost replacement, stated without the scanner, and no other list of units is |
| Redaction.RedactionIsSafe | packages/zeaz-sandbox/src/zeaz_sandbox/streaming.py:138-168 | any secrets, any chunking: the units account for every input byte exactly once, each marker stands for one secret, and no secret starts at a copied byte |
| Redaction.CopiedRunHoldsNoSecret | packages/zeaz-sandbox/src/zeaz_sandbox/streaming.py:145-168 | no stretch of copied output bytes contains a whole secret |
| Redaction.HeldIsProperPrefix | packages/zeaz-sandbox/src/zeaz_sandbox/streaming.py:138-168 | after any feeds the held buffer is empty or a proper prefix of some secret |
| Redaction.DrainKeepsItsRest | packages/zeaz-sandbox/src/zeaz_sandbox/streaming.py:145-168 | what a non-final pass holds back would be held back again, and is empty or a proper prefix of a secret |
| Redaction.DrainExtends | packages/zeaz-sandbox/src/zeaz_sandbox/streaming.py:145-168 | prefix-free secrets: draining early and going on with more input equals draining it all at once |
| Redaction.DrainConserves | packages/zeaz-sandbox/src/zeaz_sandbox/streaming.py:145-168 | markers and copied bytes, put back, are the buffer up to what is kept; a final pass keeps nothing |
| Redaction.FirstMatchIsLongest | packages/zeaz-sandbox/src/zeaz_sandbox/streaming.py:53 | with secrets sorted longest first, the first match is at least as long as any other |
| Redaction.SecretShowsAsTenBytes | packages/zeaz-sandbox/src/zeaz_sandbox/streaming.py:157 | one scan of a secret alone writes exactly the ten bytes of [REDACTED] |
| Redaction.EachUnitShows | packages/zeaz-sandbox/src/zeaz_sandbox/streaming.py:145-168 | wherever it stands, a marker writes those ten bytes and a copied byte itself |
| Redaction.SecretsDoNotShow | packages/zeaz-sandbox/src/zeaz_sandbox/streaming.py:145-168 | outputs with the same copied bytes and markers in the same places are the same bytes, whichever secrets the markers stand for |
| Redaction.LiteralRedactor.DrainBuffer | packages/zeaz-sandbox/src/zeaz_sandbox/streaming.py:145-168 | the loop over the buffer emits and keeps what the specification of one pass says |
| Redaction.LiteralRedactor.Feed | packages/zeaz-sandbox/src/zeaz_sandbox/streaming.py:138-140 | appends to the held buffer and drains it, holding back possible secret starts |
| Redaction.LiteralRedactor.Finish | packages/zeaz-sandbox/src/zeaz_sandbox/streaming.py:142-143 | drains everything and leaves the buffer empty |
| OutputStreamer.ChunksAreTheBudgetedPrefix | packages/zeaz-sandbox/src/zeaz_sandbox/streaming.py:87-107 | each channel's redactor receives, in order, exactly its share of the first max_bytes of the interleaved input |
| OutputStreamer.BudgetIsShared | packages/zeaz-sandbox/src/zeaz_sandbox/streaming.py:87-107 | the two shares together use exactly the smaller of the input length and the budget |
| OutputStreamer.InterleavedIsWhatWasFed | packages/zeaz-sandbox/src/zeaz_sandbox/streaming.py:87-107 | the interleaved input is each channel's data in order, and as long as all feeds together |
| OutputStreamer.BudgetIsSpent | packages/zeaz-sandbox/src/zeaz_sandbox/streaming.py:87-107 | the redactors get max_bytes bytes, or all of the input when it is within the budget, and then each channel's data unchanged |
| OutputStreamer.TruncationIsPermanent | packages/zeaz-sandbox/src/zeaz_sandbox/streaming.py:87-107 | once more than max_bytes came in, every longer run is truncated and spends no more |
| OutputStreamer.FinishedChannelIsOneScan | packages/zeaz-sandbox/src/zeaz_sandbox/streaming.py:109-117 | prefix-free secrets: after finish a channel shows one scan of exactly its share of the first max_bytes |
| OutputStreamer.FinishedChannelIsSafe | packages/zeaz-sandbox/src/zeaz_sandbox/streaming.py:109-117 | any secrets: after finish every accepted byte is accounted for once and no secret starts at a copied byte |
| OutputStreamer.NormalizeKeeps | packages/zeaz-sandbox/src/zeaz_sandbox/streaming.py:53 | the redactor gets each distinct secret once, longest first |
| OutputStreamer.FeedOnChannel | packages/zeaz-sandbox/src/zeaz_sandbox/streaming.py:87-107 | one accepted feed extends what the channel has shown by what draining it emits, and its held buffer and byte count follow |
| OutputStreamer.FinishOnChannel | packages/zeaz-sandbox/src/zeaz_sandbox/streaming.py:109-117 | finishing appends the final drain of the held buffer to what the channel has shown |
| OutputStreamer.LimitsOfAStreamer | packages/zeaz-sandbox/src/zeaz_sandbox/streaming.py:51-60 | the output and secret limits that are accepted |
| OutputStreamer.BoundedOutputStreamer.constructor | packages/zeaz-sandbox/src/zeaz_sandbox/streaming.py:43-73 | for acceptable limits and secrets, starts with an empty history and two fresh redactors over the normalised secrets |
| OutputStreamer.BoundedOutputStreamer.Feed | packages/zeaz-sandbox/src/zeaz_sandbox/streaming.py:87-107 | keeps counters, redactors and what each channel was handed equal to what the history of feeds determines, failed deliveries included; answers whether nothing was cut; refuses data after finish |
| OutputStreamer.BoundedOutputStreamer.TakeIn | packages/zeaz-sandbox/src/zeaz_sandbox/streaming.py:87-107 | charges the shared budget for exactly the part of the data that fits, and only the fed channel's output grows |
| OutputStreamer.BoundedOutputStreamer.Finish | packages/zeaz-sandbox/src/zeaz_sandbox/streaming.py:109-117 | hands each channel the rest of the whole redaction of its accepted bytes, stderr only if stdout was taken; a second finish does nothing |
| OutputStreamer.BoundedOutputStreamer.ReceivedInFull | packages/zeaz-sandbox/src/zeaz_sandbox/streaming.py:87-117 | with no failed delivery the sink has received exactly what each channel should show, and truncated holds exactly when more than max_bytes came in |
| OutputStreamer.BoundedOutputStreamer.Deliver | packages/zeaz-sandbox/src/zeaz_sandbox/streaming.py:119-130 | nonempty data is handed to the sink on its own channel, and received exactly if taken |
| Sse.ReaderIsChunkIndependent | z-prov-0.4.2/src/z_prov/streaming.py:9-33 | for every chunking the events are those of the seen text cut at its blank lines |
| Sse.SeenIsNormalizedIffCutsCleanly | z-prov-0.4.2/src/z_prov/streaming.py:12 | the text seen is the normalised whole text exactly when no chunk boundary splits a CRLF |
| Sse.CleanCutsReadAlike | z-prov-0.4.2/src/z_prov/streaming.py:9-33 | a stream cut outside every CRLF reads like the whole text in one chunk |
| Sse.SplitCrLfGluesEvents | z-prov-0.4.2/src/z_prov/streaming.py:12-16 | for any two plain data lines, a boundary inside the CRLF that ends the first event glues the two into one |
| Sse.PrintThenRead | src/zeaz_provider/streaming.py:394-405 | printing any frames and reading the text back, cut anywhere, gives their events in order |
| Sse.PrintedReadsBack | z-prov-0.4.2/src/z_prov/streaming.py:352-357 | printed frames in one piece read back as their events |
| Sse.BodyReadsBack | src/zeaz_provider/streaming.py:402-405 | one printed frame is one event with its name and data; unsafe names become message |
| Sse.ReadFrame | z-prov-0.4.2/src/z_prov/streaming.py:16-24 | the line loop computes event name and joined data of a frame |
| Sse.ReadEvents | z-prov-0.4.2/src/z_prov/streaming.py:9-33 | the buffering loop yields the events of the chunked stream |
| SseFrames.CutAtBlankLines | z-prov-0.4.2/src/z_prov/streaming.py:13-14 | any text is cut at its blank lines and nowhere else, and its frames and the rest make it up again |
| SseFrames.FirstBlankIsFirst | z-prov-0.4.2/src/z_prov/streaming.py:13-14 | a cut is made at the first two line feeds in a row |
| SseFrames.EachLineCounts | z-prov-0.4.2/src/z_prov/streaming.py:15-22 | in any frame each data line adds its text in place, the last event line gives the trimmed name, and comments and other lines count for nothing |
| SseFrames.FrameIsItsFields | z-prov-0.4.2/src/z_prov/streaming.py:23-24 | a frame is an event exactly when it has a data line, and its data lines are joined by line feeds |
| SseFrames.TrimmedOnBothEnds | z-prov-0.4.2/src/z_prov/streaming.py:19 | trimming a name takes the white space off both ends and nothing else |
| SseFrames.FramesArePrinted | src/zeaz_provider/streaming.py:394-405 | the text of a printed frame, and that an unsafe name is left out |
| SseCuts.HarmlessCutsReadAlike | z-prov-0.4.2/src/z_prov/streaming.py:9-33 | any text cut anywhere reads like the whole text, unless a boundary falls inside a CRLF that directly follows a line feed and has text after it |
| SseCuts.LooseReadsAlike | z-prov-0.4.2/src/z_prov/streaming.py:9-33 | texts that differ only by carriage returns left before line feeds, none of which follows a line feed, have the same events |
| SseCuts.TextTerminated | z-prov-0.4.2/src/z_prov/streaming.py:25-33 | one more line break at the end of any text, LF or CRLF, changes no event |
| SseCuts.SeenByCuts | z-prov-0.4.2/src/z_prov/streaming.py:11-12 | the text seen is the whole text with every CRLF as LF except those a chunk boundary splits |
| SseCrLf.CrLfReadsBackIff | z-prov-0.4.2/src/z_prov/streaming.py:9-33 | frames printed with CRLF line ends and cut anywhere read back as their events if and only if no boundary falls inside the CRLF of a closing blank line that another frame follows |
| SseCrLf.WholeClosersReadBack | z-prov-0.4.2/src/z_prov/streaming.py:9-33 | with those closing CRLFs uncut, every event comes back, whatever else is cut |
| SseCrLf.CutClosersLoseEvents | z-prov-0.4.2/src/z_prov/streaming.py:9-33 | with one of them cut there are fewer events than frames |
| Lines.SplitTerminated | packages/zeaz-agent/src/zeaz_agent/audit.py:157 | splitting undoes terminating every line with a line feed |
| Lines.SplitAtBreak | z-prov-0.4.2/src/z_prov/streaming.py:17 | a line ends at any break character that is not the first half of a CRLF |
| Lines.SplitAtCrLf | z-prov-0.4.2/src/z_prov/streaming.py:17 | a CRLF ends one line |
| Lines.SplitFirstLine | z-prov-0.4.2/src/z_prov/streaming.py:18 | the first line of a text ends at its first line feed, and the rest splits on its own |
| ModelRewrite.LastRewriteWins | src/zeaz_provider/streaming.py:37-75 | rewriting a rewritten stream, cut anywhere on the way, writes the very text the last rewrite alone would write; so rewriting is idempotent |
| ModelRewrite.OutputReadsBack | src/zeaz_provider/streaming.py:37-75 | the rewritten text, cut anywhere, reads back as the renamed events under their safe names |
| ModelRewrite.RenameTouchesOneName | src/zeaz_provider/streaming.py:57-74 | at most one model name changes, none is added or removed, all else stays, and a later rename overrides an earlier one |
| ModelRewrite.ClientsSeeTheNewModel | src/zeaz_provider/streaming.py:57-74 | a client of the protocol that saw a model name sees the new one, and one that saw none sees none |
| ModelRewrite.FramesPassOn | src/zeaz_provider/streaming.py:45-75 | one frame for each event up to the first invalid one, the end marker unchanged and objects with only the model replaced, then for that one an error frame, which is the last |
| ModelRewrite.RewriteAs | src/zeaz_provider/streaming.py:45-75 | the loop writes the renamed events, passes the end marker on, and stops after an error at invalid data |
| ModelRewrite.RewriteModel | src/zeaz_provider/streaming.py:37-75 | exactly the three known protocol names are accepted, and then the rewritten text is written |
| StreamTranslation.RoundTripKeepsMeaning | z-prov-0.4.2/src/z_prov/streaming.py:36-258 | every chat stream translated to message events and back has the same text, reasoning, calls (renumbered 0, 1, 2, ... by first appearance, arguments concatenated), error, canonical finish reasons with their token counts, and as final token count the one of the last finish |
| StreamTranslation.TokensSurviveIff | z-prov-0.4.2/src/z_prov/streaming.py:227-245 | the final token count comes back if and only if it is the one the last finish reported, or 0 without a finish |
| StreamTranslation.TrailingUsageIsLost | z-prov-0.4.2/src/z_prov/streaming.py:227-245 | usage that differs and arrives in a chunk after the finish is lost |
| StreamTranslation.FinishReasonsSurvive | z-prov-0.4.2/src/z_prov/streaming.py:83-93 | finish reasons come back unchanged exactly when each is stop, length, tool_calls or content_filter |
| StreamTranslation.ProtocolIffFinishesOnce | z-prov-0.4.2/src/z_prov/streaming.py:122-258 | the events obey the message protocol exactly when the chat stream has no error, one finishing chunk, and only chunks that add nothing after it |
| StreamTranslation.FollowsChunk | z-prov-0.4.2/src/z_prov/streaming.py:149-240 | one chunk written, read back and absorbed conveys what the chunk itself conveys, from any related states |
| StreamTranslation.FollowsNewCall | z-prov-0.4.2/src/z_prov/streaming.py:201-219 | the first appearance of a call opens the next block, and the reader numbers it next |
| StreamTranslation.FollowsKnownCall | z-prov-0.4.2/src/z_prov/streaming.py:220-226 | arguments of a known call reach the same call on the other side |
| StreamTranslation.WriteInBody | z-prov-0.4.2/src/z_prov/streaming.py:149-240 | a chunk keeps every open block live and of its kind, or its finish closes all and reports once |
| StreamTranslation.QuietWritesNothing | z-prov-0.4.2/src/z_prov/streaming.py:149-240 | after the start exactly the chunks that add nothing write nothing |
| StreamTranslation.ChatToAnthropic | z-prov-0.4.2/src/z_prov/streaming.py:122-258 | the translating loop emits the specified events, ends at the marker or an error, and closes with message_stop |
| StreamTranslation.WriteChunk | z-prov-0.4.2/src/z_prov/streaming.py:146-240 | one chunk writes start, reasoning, text, calls and end in this order |
| StreamTranslation.WriteText | z-prov-0.4.2/src/z_prov/streaming.py:146-200 | the start, then reasoning, then content, each opening its block at most once |
| StreamTranslation.WriteCalls | z-prov-0.4.2/src/z_prov/streaming.py:201-226 | each call opens a block at its first appearance and appends nonempty arguments |
| StreamTranslation.WriteEnd | z-prov-0.4.2/src/z_prov/streaming.py:227-245 | a finish closes every block from 0 on and reports reason and tokens |
| StreamTranslation.AnthropicToChat | z-prov-0.4.2/src/z_prov/streaming.py:36-119 | the reading loop numbers tool blocks in order of start and relabels deltas and stop reasons |
| StreamText.TextRoundTrip | z-prov-0.4.2/src/z_prov/streaming.py:36-258 | chat text cut anywhere, translated to message text, cut anywhere, translated back and cut anywhere means what it meant |
| StreamText.EventsAreNamed | z-prov-0.4.2/src/z_prov/streaming.py:356-357 | each message event is printed under the name of its kind |
| StreamText.MarkersAreRead | z-prov-0.4.2/src/z_prov/streaming.py:43-44 | an end marker is passed over in a message stream and ends a chat stream, wherever it stands |
| StreamText.EventsPrintable | z-prov-0.4.2/src/z_prov/streaming.py:352-357 | message events print as plain named frames and read back as the same events |
| StreamText.ChatPrintable | z-prov-0.4.2/src/z_prov/streaming.py:352-357 | chat frames and the end marker print as plain data frames and read back as the same frames |
| MessageMeaning.AnyEventsRead | z-prov-0.4.2/src/z_prov/streaming.py:36-119 | any message events, read as chat, tell the text, reasoning, finish reasons with token counts, and error of the events: tool_use, max_tokens and refusal by their own names, every other stop reason as stop |
| MessageMeaning.OrderlyCallsRead | z-prov-0.4.2/src/z_prov/streaming.py:54-82 | of any stream whose tool blocks start once and before their JSON, call k is the k-th tool block with its id, name and all its JSON text |
| MessageMeaning.ToolEventsRead | z-prov-0.4.2/src/z_prov/streaming.py:54-82 | in any stream a tool start is a call with the next number, and JSON goes to the call of its block, or of the same number when that has not started as a tool |
| MessageMeaning.OneFrameForEach | z-prov-0.4.2/src/z_prov/streaming.py:36-119 | one chat frame for each message start, tool start, delta, report and error, none for anything else, and the end marker once at the end |
| MessageMeaning.ChunksCarryTheMessageId | z-prov-0.4.2/src/z_prov/streaming.py:48-51 | every chat chunk carries the id the message start gave, or a fixed one |
| MessageMeaning.WrittenEventsTell | z-prov-0.4.2/src/z_prov/streaming.py:122-258 | the events of any chat stream carry its text, reasoning and error, and one stop reason for each finish reason: tool_calls, length and content_filter by their own names, every other as end_turn |
| MessageMeaning.MessageIdIsTheFirst | z-prov-0.4.2/src/z_prov/streaming.py:145-165 | a message opens with the id of the first chunk, or a fixed one when that has none or there is none |
| MessageMeaning.ChunkIsWrittenInOrder | z-prov-0.4.2/src/z_prov/streaming.py:146-245 | one chunk writes the start, reasoning, text, tool calls, block stops and the report in this order |
| Normalizer.IdempotentIffNoToolOnlyUser | z-prov-0.4.2/src/z_prov/normalize.py:7-99 | normalising the messages twice is normalising once exactly when no user message has tool calls but no text |
| Normalizer.FixedIffCanonical | z-prov-0.4.2/src/z_prov/normalize.py:204-302 | normalising leaves exactly the canonical conversations unchanged |
| Normalizer.NormalTurnsAreTidy | z-prov-0.4.2/src/z_prov/normalize.py:204-250 | every normalised turn is canonical or an empty user turn, and result turns never follow each other |
| Normalizer.EmptyTurnsIffToolOnly | z-prov-0.4.2/src/z_prov/normalize.py:204-250 | an empty user turn appears exactly when a user message has tool calls but no text |
| Normalizer.CanonicalIsFixed | z-prov-0.4.2/src/z_prov/normalize.py:204-250 | a canonical conversation goes over and comes back as it was |
| Normalizer.PushTools | z-prov-0.4.2/src/z_prov/normalize.py:215-239 | a run of tool messages after anything else becomes one user turn with a result each, in order |
| NormalizerConservation.NormalTurnsConserve | z-prov-0.4.2/src/z_prov/normalize.py:7-57 | the assistant's calls, the tool results by id and text, and each speaker's texts stay the same, in order |
| NormalizerConservation.EachRunIsOneTurn | z-prov-0.4.2/src/z_prov/normalize.py:215-239 | however a chat is cut into maximal runs of tool messages and single spoken messages, each becomes exactly one turn |
| NormalizerConservation.EveryChatSplitsIntoTurns | z-prov-0.4.2/src/z_prov/normalize.py:204-250 | every chat, system and other messages included, can be cut so, and its turns are one for each run |
| NormalizerConservation.RunsExist | z-prov-0.4.2/src/z_prov/normalize.py:215-239 | every list of tool and spoken messages has such a cut |
| NormalizerConservation.PushAllGathers | z-prov-0.4.2/src/z_prov/normalize.py:204-250 | building the turns keeps, kind by kind, the blocks the chat messages carry |
| RequestNormalizer.NormalizeIdempotentIff | z-prov-0.4.2/src/z_prov/normalize.py:7-99 | a whole request: idempotent exactly when no user message is tool-only and the system prompt does not flatten to nothing |
| RequestNormalizer.NormalizeFixedIff | z-prov-0.4.2/src/z_prov/normalize.py:204-302 | a whole request is unchanged exactly when its messages are canonical, its system prompt is absent or nonempty text, its choice is not none, and it uses no thinking budget |
| RequestNormalizer.NormalizeByParts | z-prov-0.4.2/src/z_prov/normalize.py:85-99 | what happens to system prompt, messages, tool choice and effort; a thinking budget turns into an effort rung |
| RequestNormalizer.ToolOnlyUserVanishes | z-prov-0.4.2/src/z_prov/normalize.py:45-57 | a lone user tool call becomes an empty turn, which the next pass drops |
| RequestNormalizer.AnthropicToOpenAI | z-prov-0.4.2/src/z_prov/normalize.py:7-99 | the converter loop, against the request it should build |
| RequestNormalizer.ConvertBlocks | z-prov-0.4.2/src/z_prov/normalize.py:18-57 | tool results go out at once, texts and calls are gathered into one message at the end, if any |
| RequestNormalizer.OpenAIToAnthropic | z-prov-0.4.2/src/z_prov/normalize.py:204-302 | the converter loop back, against the request it should build |
| RequestNormalizer.AddResult | z-prov-0.4.2/src/z_prov/normalize.py:215-239 | a result joins the previous turn exactly when that is a nonempty user turn of results only |
| RequestNormalizer.SpeakBlocks | z-prov-0.4.2/src/z_prov/normalize.py:242-258 | text blocks, then for the assistant its calls, with malformed arguments kept under raw |
| RequestRules.ChoicesCorrespond | z-prov-0.4.2/src/z_prov/normalize.py:72-84 | auto, any, none and tool become auto, required, none and function, and come back except for none |
| RequestRules.EffortIsTheRung | z-prov-0.4.2/src/z_prov/normalize.py:85-121 | an explicit effort is kept; else an enabled thinking budget becomes its rung of the five-step ladder; else there is none |
| RequestRules.PromptComesFirst | z-prov-0.4.2/src/z_prov/normalize.py:8-12 | a nonempty system prompt is the one system message of the chat, and its first |
| RequestRules.PromptsAreCollected | z-prov-0.4.2/src/z_prov/normalize.py:210-214 | system messages anywhere in a chat make up the prompt, in order, joined by blank lines |
| RequestRules.ItemsAreLines | z-prov-0.4.2/src/z_prov/normalize.py:437-442 | a list of text items reads as the texts on lines of their own |
| RequestRules.ResultsThenWords | z-prov-0.4.2/src/z_prov/normalize.py:13-57 | a message becomes its tool results one by one and then at most one message by the same role, exactly if it has a text or a call |
| RequestRules.BadArgumentsAreKept | z-prov-0.4.2/src/z_prov/normalize.py:243-257 | arguments are read as JSON, nothing as an empty object, and malformed text is kept under raw |
| Subagents.EveryRunIsBounded | packages/zeaz-agent/src/zeaz_agent/subagents.py:136-288 | in every run: consumed plus reserved tokens within the total, reservations equal those of agents without a result, charges within reservations, agent count and depth within limits, slot holders within the concurrency limit |
| Subagents.RunIsSound | packages/zeaz-agent/src/zeaz_agent/subagents.py:136-288 | every interleaving of steps keeps all accounting invariants |
| Subagents.StepIsSound | packages/zeaz-agent/src/zeaz_agent/subagents.py:220-288 | each step of callers, workers and cancellers, with interrupted and lost finalisation, keeps them |
| Subagents.SpawnIsSound | packages/zeaz-agent/src/zeaz_agent/subagents.py:136-191 | a spawn reserves within the remaining tokens or changes nothing |
| Subagents.CancelMarksTheSubtree | packages/zeaz-agent/src/zeaz_agent/subagents.py:203-213 | cancel marks exactly the agents without result in the root's subtree and changes nothing else |
| Subagents.LineageIsDepth | packages/zeaz-agent/src/zeaz_agent/subagents.py:151-161 | an agent's depth is the number of its ancestors with itself, and parents come before children |
| Subagents.SubagentManager.constructor | packages/zeaz-agent/src/zeaz_agent/subagents.py:121-134 | starts empty with all slots free |
| Subagents.SubagentManager.CheckSpawn | packages/zeaz-agent/src/zeaz_agent/subagents.py:147-165 | reports the first of lifetime, per-agent budget, parent, session, depth and aggregate limits that fails, or the depth of the child |
| Subagents.SubagentManager.Spawn | packages/zeaz-agent/src/zeaz_agent/subagents.py:136-191 | registers a child with its reservation, or reports the first limit violated or the failed audit and changes nothing |
| Subagents.SubagentManager.AcquireSlot | packages/zeaz-agent/src/zeaz_agent/subagents.py:228 | takes a slot before running |
| Subagents.SubagentManager.BeginWork | packages/zeaz-agent/src/zeaz_agent/subagents.py:229-231 | sets the running flag, or leaves at once when already cancelled |
| Subagents.SubagentManager.EndWork | packages/zeaz-agent/src/zeaz_agent/subagents.py:233-270 | maps completion, overrun, failure and timeout to an outcome and leaves the slot |
| Subagents.SubagentManager.InterruptWork | packages/zeaz-agent/src/zeaz_agent/subagents.py:257-263 | a cancellation before the outcome is known ends in a cancelled outcome |
| Subagents.SubagentManager.FinalizeAgent | packages/zeaz-agent/src/zeaz_agent/subagents.py:273-288 | settles the result: releases the reservation and charges the tokens used |
| Subagents.SubagentManager.CancelTree | packages/zeaz-agent/src/zeaz_agent/subagents.py:203-213 | marks the subtree, or refuses an unknown agent |
| Subagents.SubagentManager.DescendantsIncluding | packages/zeaz-agent/src/zeaz_agent/subagents.py:290-299 | the growing set ends as exactly the agents that have the root in their lineage |
| SubagentCharges.ConsumedIsBilled | packages/zeaz-agent/src/zeaz_agent/subagents.py:273-288 | in every run, consumed tokens are what settled agents reported when completed and their whole reservations otherwise, and reserved tokens are those of agents without a result |
| SubagentCharges.SettlingCharges | packages/zeaz-agent/src/zeaz_agent/subagents.py:277-283 | settling a completed agent charges what it reported, any other its reservation, and releases the reservation |
| SubagentCharges.ReportsAreCharged | packages/zeaz-agent/src/zeaz_agent/subagents.py:233-283 | a report within the reservation is charged as reported, an overrun, a failure and a timeout in full, each with its outcome |
| SubagentCharges.CancelledNeverWorks | packages/zeaz-agent/src/zeaz_agent/subagents.py:228-263 | an agent cancelled before its slot came leaves at once as cancelled, frees the slot and costs its reservation |
| SubagentCharges.StepsTouchOneAgent | packages/zeaz-agent/src/zeaz_agent/subagents.py:220-288 | a step about one agent changes only its flags and stage, the accounts only when it settles, and the slots only when it takes or leaves one |
| SubagentCharges.SpawnIffAffordable | packages/zeaz-agent/src/zeaz_agent/subagents.py:147-190 | in every run a spawn is accepted exactly when count, budget, parent, session, depth and remaining tokens allow it, and then adds one queued child and its reservation, else nothing |
| SubagentCharges.RefusalsAreTrue | packages/zeaz-agent/src/zeaz_agent/subagents.py:147-166 | each refusal names a limit that really is exceeded |
| RateLimiter.NoIntervalOverflows | z-prov-0.4.2/src/z_prov/security.py:40-53 | no bucket is admitted more than limit times in any interval (t - window, t], for every t |
| RateLimiter.SweptLimiter.Allow | z-prov-0.4.2/src/z_prov/security.py:40-53 | answers exactly as the full admission history does; every stored bucket keeps an event later than now - 2 * window |
| RateLimiter.SweptLimiter.Sweep | z-prov-0.4.2/src/z_prov/security.py:55-77 | at most once per window, forgets aged-out buckets without changing any later answer |
| RateLimiter.Prune | z-prov-0.4.2/src/z_prov/security.py:43-46 | popping expired events leaves exactly the recent ones |
| RateLimiter.PrunedLimiter.Allow | src/zeaz_provider/security.py:96-112 | the limiter without sweep answers as the full history does |
| RateLimiter.RedisLimiter.Allow | src/zeaz_provider/security.py:118-170 | the atomic script with key expiry answers as the full history does |
| RateLimiter.KeyCounts | src/zeaz_provider/security.py:118-132 | the entries above the cutoff in a live or expired key are as many as the history has |
| RateLimiter.RemembersCount | z-prov-0.4.2/src/z_prov/security.py:43-50 | a pruned bucket counts what the history counts |
| LimiterAnswers.AdmittedIffRoom | z-prov-0.4.2/src/z_prov/security.py:40-53 | a request is admitted exactly when fewer than limit admissions of its bucket lie in the window before it, and is told how many remain; without a limit always |
| LimiterAnswers.RefusalIsNeeded | z-prov-0.4.2/src/z_prov/security.py:43-51 | with times in order, a refusal means exactly limit admissions in (t - window, t] |
| Resilience.RunIsSound | src/zeaz_provider/resilience.py:41-81 | any interleaving of callers: closed iff failures below threshold, half-open iff a probe is in flight, admissions while not closed at least reset_timeout apart |
| Resilience.OpenGuardIsUnreachable | src/zeaz_provider/resilience.py:60-67 | the second probe guard never fires, and admission is exactly closed, or open for reset_timeout |
| Resilience.QuiescentIsNotHalfOpen | src/zeaz_provider/resilience.py:103-142 | if every attempt returns, raises a provider error or times out, no quiescent breaker is half-open |
| Resilience.HalfOpenIffUnanswered | src/zeaz_provider/resilience.py:41-142 | in every run, quiescent or not, the breaker is half-open if and only if some probe was admitted after which no attempt in flight was answered |
| Resilience.BlockedIffNoAnswer | src/zeaz_provider/resilience.py:41-81 | from half-open, a run never changes the breaker and admits nothing if and only if no attempt in flight at its start ends with an answer |
| Resilience.AbandonedProbeBlocksForever | src/zeaz_provider/resilience.py:41-69 | a half-open breaker with nothing in flight never admits again, in any run |
| Resilience.AbandonedProbeIsReachable | src/zeaz_provider/resilience.py:103-142 | one failure, a wait and an abandoned probe reach that state |
| Resilience.ExecutionIsBounded | src/zeaz_provider/resilience.py:103-142 | at most max_attempts operations, none at or after the deadline, no timeout or sleep past it, bounded delays, and the code after the loop is never reached when max_attempts is at least 1 |
| Resilience.DelayIsBounded | src/zeaz_provider/resilience.py:155-166 | each delay lies between 0 and the larger of max_delay and max_retry_after |
| Resilience.CallWithRetry | src/zeaz_provider/resilience.py:103-142 | the retry loop takes the actions and ends with the verdict of the specification |
| Resilience.CircuitBreaker.BeforeCall | src/zeaz_provider/resilience.py:41-69 | admits or rejects, and moves open to half-open after the timeout |
| Resilience.CircuitBreaker.ReportSuccess | src/zeaz_provider/resilience.py:71-74 | resets to closed |
| Resilience.CircuitBreaker.ReportFailure | src/zeaz_provider/resilience.py:76-81 | counts the failure and opens at the threshold |
| Resilience.CircuitBreaker.EndAttempt | src/zeaz_provider/resilience.py:112-140 | what the end of an attempt tells the breaker: timeouts and circuit failures count, other errors only clear a probe |
| BreakerCounts.FailuresAreTallied | src/zeaz_provider/resilience.py:71-81 | in every run and state, the failure count is the number of timeouts and errors marked as circuit failures since the last success |
| BreakerCounts.ClosedIffFewAgainst | src/zeaz_provider/resilience.py:76-81 | in every run the circuit is closed exactly while there are fewer than threshold of them |
| BreakerCounts.ReturnsKeepClosed | src/zeaz_provider/resilience.py:138-140 | when every attempt returns, the circuit stays closed with no failures and admits every call |
| BreakerCounts.ThresholdOpens | src/zeaz_provider/resilience.py:76-81 | threshold such endings in a row open the circuit and leave it open |
| BreakerCounts.LenientProbeClears | src/zeaz_provider/resilience.py:127-130 | an error not marked as a circuit failure, answering a probe, clears the count without any return |
| RetryVerdicts.VerdictOfTheLast | src/zeaz_provider/resilience.py:103-142 | the verdict is that of the first attempt that does not go on: deadline, rejection, value, timeout, cancellation, or its error |
| RetryVerdicts.SomeAttemptIsTheLast | src/zeaz_provider/resilience.py:106 | with at least one attempt allowed there is such an attempt |
| RetryVerdicts.DelaysDouble | src/zeaz_provider/resilience.py:155-166 | a retry-after is kept as far as the policy allows; otherwise the ceiling doubles from base_delay up to max_delay and the delay is its random fraction |
| PluginRegistry.RunKeepsConsistent | packages/zeaz-agent/src/zeaz_agent/plugins.py:292-627 | every run, failures included: at most one enabled version per name, rows and version directories one to one, removed rows and trash directories one to one, staging empty |
| PluginRegistry.PerformKeepsConsistent | packages/zeaz-agent/src/zeaz_agent/plugins.py:292-627 | each operation keeps that |
| PluginRegistry.RemoveThenRestore | packages/zeaz-agent/src/zeaz_agent/plugins.py:469-627 | after a removal the restore is accepted and gives back the whole store |
| PluginRegistry.RecoverableAfterAnyRun | packages/zeaz-agent/src/zeaz_agent/plugins.py:469-627 | after a removal and any further run short of its own restore, restoring is accepted exactly when the version was not installed again, and brings back its row and files as they were |
| PluginRegistry.RunKeepsRemoval | packages/zeaz-agent/src/zeaz_agent/plugins.py:469-627 | no run without its own restore touches a removed row or its trash directory |
| PluginRegistry.RestoreThenRemove | packages/zeaz-agent/src/zeaz_agent/plugins.py:469-627 | restoring and removing again under the same id gives back the whole store |
| PluginRegistry.EnableIsExclusive | packages/zeaz-agent/src/zeaz_agent/plugins.py:403-467 | enabling leaves the version the only enabled one of its name, and touches no other name or field |
| PluginRegistry.Registry.InstallPackage | packages/zeaz-agent/src/zeaz_agent/plugins.py:292-383 | installs directory, row and audit record together, or leaves database and directories exactly as before |
| PluginRegistry.Registry.PublishAndRecord | packages/zeaz-agent/src/zeaz_agent/plugins.py:326-383 | a failure at the write, the rename, the insert or the audit undoes what was done |
| PluginRegistry.Registry.SetPluginEnabled | packages/zeaz-agent/src/zeaz_agent/plugins.py:403-467 | switches the flags, or after a database or audit failure leaves every flag as before |
| PluginRegistry.Registry.UndoEnabled | packages/zeaz-agent/src/zeaz_agent/plugins.py:450-466 | writing the recorded flags back row by row restores the table |
| PluginRegistry.Registry.RemovePlugin | packages/zeaz-agent/src/zeaz_agent/plugins.py:469-548 | moves to trash with both rows and the audit record, or changes nothing |
| PluginRegistry.Registry.TrashAndRecord | packages/zeaz-agent/src/zeaz_agent/plugins.py:492-548 | undoes the rename and the rows when the transaction or the audit fails |
| PluginRegistry.Registry.RestorePlugin | packages/zeaz-agent/src/zeaz_agent/plugins.py:550-627 | moves back from trash with both rows and the audit record, or changes nothing |
| PluginRegistry.Registry.UntrashAndRecord | packages/zeaz-agent/src/zeaz_agent/plugins.py:575-627 | undoes the rename and the rows when the transaction or the audit fails |
| PluginRules.AcceptedIffAcceptable | packages/zeaz-agent/src/zeaz_agent/plugins.py:292-570 | in a consistent store each operation is accepted exactly when the tables allow it, and each refusal names its reason |
| PluginRules.InstallBrings | packages/zeaz-agent/src/zeaz_agent/plugins.py:328-383 | a new version arrives disabled with its digest, signer and files, and the same archive again changes nothing |
| PluginRules.SwitchChangesFlags | packages/zeaz-agent/src/zeaz_agent/plugins.py:434-441 | disabling clears one flag, enabling is exclusive within its name, and nothing else changes |
| PluginRules.RemovalKeepsAll | packages/zeaz-agent/src/zeaz_agent/plugins.py:494-519 | a removal takes row and directory out and keeps both under its id |
| PluginRules.FailureChangesNothing | packages/zeaz-agent/src/zeaz_agent/plugins.py:353-382 | whatever is refused or fails leaves database and directories as they were |
| Batches.RunIsSound | packages/zeaz-control/src/zeaz_control/batches.py:226-568 | any interleaving of submitters, cancellers and refreshes, with crashes between steps: a key keeps its request and its response, has one completion event exactly when completed, and stored batches never leave a terminal status or lower time or counts |
| Batches.NoProviderCallAfterCompletion | packages/zeaz-control/src/zeaz_control/batches.py:473-520 | a caller that has not reserved when its key is completed never reaches the provider |
| Batches.ReservationNeverChanges | packages/zeaz-control/src/zeaz_control/batches.py:522-568 | the conflict check at completion cannot fire for a caller that reserved |
| Batches.UpsertAllAdvances | packages/zeaz-control/src/zeaz_control/batches.py:603-636 | a list of upserts only ever advances stored batches |
| Batches.ReserveIsSound | packages/zeaz-control/src/zeaz_control/batches.py:473-520 | a reservation keeps all entries, batches and audit |
| Batches.CompleteIsSound | packages/zeaz-control/src/zeaz_control/batches.py:522-568 | a completion records one response and one event, or nothing |
| Batches.SyncIsSound | packages/zeaz-control/src/zeaz_control/batches.py:318-400 | a refresh or retrieval advances batches and adds one event, or nothing |
| Batches.StepKeepsWorldOk | packages/zeaz-control/src/zeaz_control/batches.py:226-316 | each step keeps every caller's entry its own |
| Batches.BatchService.ReserveKey | packages/zeaz-control/src/zeaz_control/batches.py:473-520 | new key, pending key, completed key and conflicting request, each with its answer and its new table |
| Batches.BatchService.Upsert | packages/zeaz-control/src/zeaz_control/batches.py:603-636 | stores the record unless it would leave a terminal status or move the time or a count back |
| Batches.BatchService.CompleteKey | packages/zeaz-control/src/zeaz_control/batches.py:522-568 | batch, response and audit event together, or nothing |
| Batches.BatchService.SyncBatches | packages/zeaz-control/src/zeaz_control/batches.py:357-369 | the first refused record rolls the whole transaction back |
| BatchAnswers.AnswersAgreeIff | packages/zeaz-control/src/zeaz_control/batches.py:226-316 | from a service without reservations, callers of one key that finish well all get one record, in every run, if and only if no caller completes a key that holds a different record by then |
| BatchAnswers.LateCallerGetsTheResponse | packages/zeaz-control/src/zeaz_control/batches.py:473-520 | a caller that reserves after completion is answered, if well, with the stored response, in every run |
| BatchAnswers.TwoAnswers | packages/zeaz-control/src/zeaz_control/batches.py:522-568 | two submitters that both reserve before either completes finish with whatever the provider gave each, even if different |
| BatchAnswers.StepFaithful | packages/zeaz-control/src/zeaz_control/batches.py:543-568 | one step leaves every well finished caller with the stored response exactly if it was so before and the step completes no key that holds another record |
| BatchRules.AnswersSuitRequests | packages/zeaz-control/src/zeaz_control/batches.py:226-316 | in every run every answer and every stored response is about its own request: provider, account, and the file and endpoint or the batch |
| BatchRules.ConflictingCallerIsRefused | packages/zeaz-control/src/zeaz_control/batches.py:513-514 | in no run does a caller whose key another request holds finish well or reach the provider, completed or not |
| BatchRules.FinalStatusStays | packages/zeaz-control/src/zeaz_control/batches.py:616-620 | a batch stored as completed, failed, expired or cancelled keeps that status in every run |
| BatchRules.StoredIffForward | packages/zeaz-control/src/zeaz_control/batches.py:603-636 | a record is stored exactly when its batch is new or it takes the stored one forward |
| BatchRules.LastRecordIsStored | packages/zeaz-control/src/zeaz_control/batches.py:357-369 | an accepted list leaves each of its batches with its last record and no other batch changed |
| BatchRules.KeyDecidesReservation | packages/zeaz-control/src/zeaz_control/batches.py:489-520 | a new, an unfinished, a completed and a conflicting key, and a malformed one, each with its answer and table |
| BatchRules.LookingUpDecides | packages/zeaz-control/src/zeaz_control/batches.py:235-278 | a submission needs its file, and a cancellation its batch as stored then |
| BatchRules.FinishedBatchIsNotCancelled | packages/zeaz-control/src/zeaz_control/batches.py:292-300 | cancelling a batch seen in a final status answers with it and never asks the provider |
| BatchRules.ReplyMustSuit | packages/zeaz-control/src/zeaz_control/batches.py:250-256 | a provider's record is taken exactly when it suits the request |
| BatchRules.CompletionIsAnswered | packages/zeaz-control/src/zeaz_control/batches.py:533-568 | a completion stores record, response and event and answers with the record, or is the caller's error and stores nothing |
| BatchRules.RefreshIsRecorded | packages/zeaz-control/src/zeaz_control/batches.py:357-369 | a refresh stores its batches with one event, or nothing |
| AuditLog.TailReadFindsTheLast | packages/zeaz-agent/src/zeaz_agent/audit.py:187-199 | the bounded read finds the true last entry exactly when its record is strictly shorter than max_event_bytes or the log is within it |
| AuditLog.TailReadIffAppendable | packages/zeaz-agent/src/zeaz_agent/audit.py:187-199 | the next append can read the end of the log exactly then; otherwise it fails |
| AuditLog.LongRecordIsRefused | packages/zeaz-agent/src/zeaz_agent/audit.py:187-199 | a last record of the full length in a longer log makes the read fail, though append accepted it |
| AuditLog.LogVerifies | packages/zeaz-agent/src/zeaz_agent/audit.py:140-169 | a log of chained entries within the bounds verifies to exactly those entries |
| AuditLog.VerifiedIsChain | packages/zeaz-agent/src/zeaz_agent/audit.py:140-169 | whatever verifies is numbered from 0 and hash-chained |
| AuditLog.LastDigestFixesTheChain | packages/zeaz-agent/src/zeaz_agent/audit.py:202-204 | with an injective digest, two chains that end in the same digest are equal entry by entry |
| AuditLog.VerifiedLogsAgree | packages/zeaz-agent/src/zeaz_agent/audit.py:140-204 | two files that verify and share their last digest hold the same entries |
| AuditLog.JsonlAuditLog.constructor | packages/zeaz-agent/src/zeaz_agent/audit.py:82-97 | an empty log within the accepted limits |
| AuditLog.JsonlAuditLog.Append | packages/zeaz-agent/src/zeaz_agent/audit.py:99-138 | succeeds exactly when the tail is readable and the record fits, and then adds the next chained entry; otherwise the file is unchanged |
| AuditLog.JsonlAuditLog.VerifyLog | packages/zeaz-agent/src/zeaz_agent/audit.py:140-169 | returns exactly the appended entries |
| AuditLog.VerifyBytes | packages/zeaz-agent/src/zeaz_agent/audit.py:140-169 | the verifying loop, on any bytes |
| LogVerification.VerifiesIffChain | packages/zeaz-agent/src/zeaz_agent/audit.py:140-169 | a file verifies to a list of entries exactly when it is within the size, ends a record, and its lines spell out, each within its bound, a chain of just those entries |
| LogVerification.AppendedEntryLinks | packages/zeaz-agent/src/zeaz_agent/audit.py:115-127 | an append carries its body, the next number, the last digest or 64 zeros, and its own digest |
| LogVerification.TailReadOfAnyFile | packages/zeaz-agent/src/zeaz_agent/audit.py:187-199 | what the bounded read gives on any bytes |
| LogVerification.LineErrorsAreTrue | packages/zeaz-agent/src/zeaz_agent/audit.py:158-166 | each verification error names something that is wrong with the line |
| Context.CompactIsMinimal | packages/zeaz-agent/src/zeaz_agent/context.py:68-108 | a fitting conversation is kept; otherwise the smallest cut that fits, among cuts that do not start on a tool turn or leave exactly the minimum; failure only if none fits |
| Context.SearchFindsTheSmallest | packages/zeaz-agent/src/zeaz_agent/context.py:90-108 | the search from any cut returns the first later one that fits, or nothing when none does |
| Context.CompactFits | packages/zeaz-agent/src/zeaz_agent/context.py:68-108 | the estimate is the count of the returned turns and within the limit |
| Context.SummaryTextFits | packages/zeaz-agent/src/zeaz_agent/context.py:119-144 | the summary text never exceeds max_summary_chars, for every list of turns a session can hold |
| Context.CompactTurns | packages/zeaz-agent/src/zeaz_agent/context.py:68-108 | the nested loops return what the specification returns |
| Context.OmitToNextCut | packages/zeaz-agent/src/zeaz_agent/context.py:91-97 | omits one turn and then leading tool turns, down to the minimum |
| Context.SummaryLoop | packages/zeaz-agent/src/zeaz_agent/context.py:126-134 | a line a turn, cut to what is left of the budget |
| ContextProjection.CompactionKeepsSystem | packages/zeaz-agent/src/zeaz_agent/context.py:82-117 | over the limit, the result is the leading system turns, one summary, and the recent turns, with the fewest turns omitted that an allowed and fitting cut omits; or none fits |
| ContextProjection.SummaryStands | packages/zeaz-agent/src/zeaz_agent/context.py:119-144 | the summary is a system turn in the session of the omitted turns, at the place and time of the last |
| ContextProjection.SummaryOpens | packages/zeaz-agent/src/zeaz_agent/context.py:120-126 | its text opens with the number of omitted turns and their digest |
| ContextProjection.DecimalReadsBack | packages/zeaz-agent/src/zeaz_agent/context.py:123-125 | the number in the header reads back as the number of omitted turns |
| ContextProjection.LinesUseTheRoom | packages/zeaz-agent/src/zeaz_agent/context.py:126-134 | its lines are those of the first turns in full, and a turn is left out or a line cut only when the room is used up |
| ContextProjection.OneBlockLine | packages/zeaz-agent/src/zeaz_agent/context.py:147-159 | the line of a turn of one block, kind by kind |
| ContextProjection.LinesHidePayloads | packages/zeaz-agent/src/zeaz_agent/context.py:147-159 | no line shows image data, call arguments or tool output |
| AgentLoop.RunIsValid | packages/zeaz-agent/src/zeaz_agent/loop.py:90-305 | from any valid session every run keeps usage within budget, sequences strictly increasing and earlier turns in place, and every tool turn answers exactly the calls of the assistant turn before it |
| AgentLoop.PlanFits | packages/zeaz-agent/src/zeaz_agent/loop.py:164-183 | every request asks for at least one token, estimate plus limit fit what is left, and the last guard never fires |
| AgentLoop.AdvanceIsValid | packages/zeaz-agent/src/zeaz_agent/loop.py:90-255 | an advance grows the session by two turns and the reported usage, or fails for a reason other than an invalid session |
| AgentLoop.InferIsValid | packages/zeaz-agent/src/zeaz_agent/loop.py:159-255 | a reply within its limits is appended and the new session is valid |
| AgentLoop.AnswersAreBounded | packages/zeaz-agent/src/zeaz_agent/loop.py:134-138 | distinct results that name exactly the calls are no more than the calls, and not none |
| AgentTurns.AdvanceSucceedsIff | packages/zeaz-agent/src/zeaz_agent/loop.py:90-255 | an advance succeeds exactly when the caller may make it, the request can be planned and the reply is within its limits; it then adds the caller's and the assistant's turns, numbered in succession, and the usage |
| AgentTurns.AcceptedIffAllowed | packages/zeaz-agent/src/zeaz_agent/loop.py:99-139 | a start needs an active session and content without tool blocks, a resume results that answer exactly the pending calls once, and both room for two turns |
| AgentTurns.PlanAsksForTheMost | packages/zeaz-agent/src/zeaz_agent/loop.py:164-181 | the output limit is as large as configuration, budget and remaining tokens allow, and each failure to plan has its cause |
| AgentTurns.CallsAreTheCallBlocks | packages/zeaz-agent/src/zeaz_agent/loop.py:308-313 | the pending calls are the call blocks of the reply, in order |
| AgentTurns.AppendAddsOneTurn | packages/zeaz-agent/src/zeaz_agent/loop.py:285-305 | appending refuses a full session, and else adds the turn, the usage and one revision |
| AgentTurns.RunKeepsTurnsInOrder | packages/zeaz-agent/src/zeaz_agent/loop.py:285-305 | after every run turns are numbered upwards, with ids of their own, calls only with the assistant and results only in tool turns |
| AgentTurns.RefusalsAreTrue | packages/zeaz-agent/src/zeaz_agent/loop.py:99-139 | each refusal names something that is wrong |
| AgentTurns.UsageErrorsAreTrue | packages/zeaz-agent/src/zeaz_agent/loop.py:316-323 | a reply over a limit is told which, and is refused for no other reason |

## Left out

- UTF-8 decoding: chunks are decoded text or bytes, and no code point straddles a chunk.
- JSON: a codec that reads back what it prints; malformed text is a failed read.
- SHA-256: an arbitrary digest function, injective where a theorem says so; a batch request stands for its own digest.
- Identifiers: subagents are numbered in spawn order, and a plugin removal's id is an input that is never reused.
- Clocks and random jitter: inputs; monotone where the component relies on it.
- asyncio: awaits are interleaving points, lock-held sections and transactions are single steps, the semaphore is a counter.
- Multi-choice chat chunks, message models and timestamps in translated streams.
- The gateway's own `chat_to_anthropic_stream` and the Responses API translators.
- RequestNormalizer.AnthropicToOpenAI: images, the tool list and sampling parameters are copied or mapped item by item and left out.
- RequestNormalizer.OpenAIToAnthropic: likewise, with the response format.
- RequestNormalizer.ConvertBlocks: image blocks are left out.
- RequestNormalizer.SpeakBlocks: image items are left out.
- The response-side converters of the normaliser, and the text of subagent results.
- Plugin archives: reading, signatures, manifest and content validation are inputs; a version is one directory with its files.
- PluginRegistry.Registry.InstallPackage: failures are exceptions at one step; a crash of the process half-way, or a failing undo, is not modelled.
- File permissions, fsync, partial writes and short reads.
- Redis connection errors and the milliseconds in its replies.
- Batches: the batch file is a lookup that succeeds or fails; result streaming, list pages and record fields that no check reads are dropped.
- AuditLog.JsonlAuditLog.Append: the body stands for the sanitised event; sanitising and the file lock are not modelled.
- Context.CompactTurns: the token count of turns is any function; the tool list is fixed inside it.
- Audit events of the agent loop: emission has no effect on the session and cannot fail here.
- OutputStreamer.BoundedOutputStreamer.constructor: limits it would refuse with an exception are its precondition, and the delivery timeout is part of the sink's outcome.
- AuditLog.JsonlAuditLog.constructor: likewise, limits it would refuse are its precondition.
- Streaming use of the circuit breaker in the provider clients.
- HTTP handlers, adapters, web console, command-line tools, installers, container and network control, session and memory stores, permission rules, webhook replay, pricing and metrics: plumbing, or smaller variants of what is proved here.
