# Verified model of the AgenSense voice core

A Dafny 4.11 model of the parts of AgenSense that are decided by loops and state: the realtime voice session, the
gateway's stream protocol, conversation memory, echo suppression, text segmentation for speech, the WAVE and WebSocket
formats, and the index of issued device tokens. `dafny verify dfyconfig.toml` checks all of it.

## What is modelled

- **Realtime voice session, inbound** (`Vad`, `PartialAsr`, `VoiceSession`, `VoiceReader`, `StreamTracker`). A run is
  any list of events. The class `VoiceReader.Session` holds the session's fields and its handlers update them; the
  functions of `VoiceSession` say what each handler does; and what a run says by itself (where the open stream began,
  which frames arrived since) is defined without looking at any state. Voice activity detection is tied to a
  definition of a segmentation by position; partial transcription is a state machine whose steps are the critical
  sections and the cancel calls, in any interleaving.
- **Realtime voice session, outbound** (`Response`, `RealtimeTTS`). The producer, the consumer and whoever cancels a
  response share a channel of eight segments; the steps between two points that the others can see may interleave in
  any way, and a model may go on after its callback has failed. `RealtimeTTS` is the consumer's loop with everything it
  writes.
- **Conversation memory** (`Tokens`, `Compression`, `Summaries`, `MemoryStore`, `ContextWindow`). The token estimator,
  the compression loop, what a summary says, idle reset, and packing newest turns first into the context window. Sums that a client can drive
  to the limits of a 64-bit integer wrap around in the model as they do in Go.
- **Echo suppression** (`Subsequence`, `Echo`). The rolling two-row table against the definition of a common
  subsequence, and the matching rule in whole numbers.
- **Text for speech** (`Text`, `Segmenter`). The streaming segmenter and the batch splitter against a definition of
  how a text is cut.
- **Formats** (`Bytes`, `Bits`, `AudioFormats`, `Wav`, `WavStream`, `WebSocket`). The WAVE printer, the parser of a whole
  buffer and the parser of a stream; frames of sections 5.2 and 5.3 of RFC 6455, written by server or client.
- **Gateway** (`Gateway`, `Outbound`, `Streams`, `Pipeline`, `Turns`). The inbound loop over frames, the outbound sink,
  a turn of the pipeline with providers that may fail anywhere, and any number of turns on one connection. What a turn
  writes if the connection holds is a function of the turn; a connection that breaks takes a beginning of it and
  nothing afterwards, and an event that validation refuses leaves no trace.
- **Token index** (`TokenStore`). Issued tokens with their index, flushes that may fail, and reload in any map order.

Text is a sequence of Unicode scalar values, and white space is the White_Space property. Times are integers.
Ratios and durations are compared by cross-multiplication. A provider is any finite sequence of callbacks followed by
success or failure. Writes to a connection may fail at any point; since the buffered writer keeps its first error, a
connection that has failed once takes nothing more.

## Where the code falls short of what one would expect

Each of these is a theorem about the code as it is, with the exact condition where there is one.

- A reply that is blank cannot be announced, because an empty `llm.done` is refused; the response then ends without
  `response.done`, and the goroutine that speaks waits for ever (`Response.BlankReplyStrandsTheConsumer`,
  `Response.UnsentBlankReplyStrands`). In general, after an exit that leaves the channel open, some continuation
  strands the consumer if and only if it has taken everything enqueued and is waiting or still speaking
  (`Response.OpenExitStrandsIff`): for certain when it waits (`Response.WaitingIsStranded`), and when it speaks if and
  only if that synthesis ends well with audio (`Response.SynthesisDecides`).
- `speech_started` is reported twice in a row over a session if and only if some stream ends while speech goes on, by
  its stop or by `input.cancel`, and a later one hears speech (`VoiceSession.SessionEventsAlternateIff`,
  `VoiceSession.CutOffSpeechStartsTwice`).
- Over a gateway connection `tts.start` and `tts.stop` do not alternate if and only if a turn whose synthesis failed
  after its `tts.start` is followed by another that speaks; every `tts.stop` still matches the latest start
  (`Turns.ConnectionAlternatesIff`, `Turns.StopsAreRight`, `Turns.FailedSynthesisBreaksAlternation`).
- At the gateway a stop that does not match throws the stream and its audio away
  (`Gateway.MismatchedStopLosesTheStream`); the voice session keeps the stream.
- A summary that has reached its limit takes nothing more in, so it is the newest turns that leave no trace: a merged
  turn leaves something of its line if and only if the limit is more than a line break away
  (`Summaries.MergeLeavesATraceIff`).
- The history budget is sound unless base tokens and output reserve exceed the share of the context limit, computed
  with a product that wraps around, by more than 2^63 and less than 2^64; client metadata set the reserve and the
  limit, and either can bring it about (`ContextWindow.BudgetSoundness`, `ContextWindow.HugeLimitBreaksTheBudget`).
- The streaming WAVE parser fails, after handing out all the audio, exactly when an odd chunk at the end lacks its pad
  byte, which the buffer parser accepts (`WavStream.StreamAgreesWithBuffer`).
- A token saved again under another hash leaves its old hash behind in the index; such an entry is lost at reload, and
  until then refuses that hash to others (`TokenStore.ReloadAgreesIff`, `TokenStore.StaleHashIsRefused`).

## Model

| member | source | states |
|---|---|---|
| `Subsequence.LongestCommonSubsequenceRunes` | internal/voicews/session.go:1571-1593 | the two rolling rows return the length of a common subsequence of both texts, and no common subsequence is longer |
| `Subsequence.FillRow` | internal/voicews/session.go:1579-1588 | one pass turns the row of a text into the row of the text with one more rune |
| `Subsequence.LcsIsOptimal` | internal/voicews/session.go:1571-1593 | the recurrence equals the greatest length over all embeddings of subsequences |
| `Subsequence.LcsSymmetric` | internal/voicews/session.go:1571-1593 | exchanging the two texts does not change the result |
| `Subsequence.LcsOfBlock` | internal/voicews/session.go:1557-1564 | a text that occurs in the other as a block is itself the longest common subsequence, so the substring shortcuts agree with the table |
| `Echo.RecentSpeechEchoScore` | internal/voicews/session.go:1551-1569 | in all three branches the score is the longest common subsequence over the length of the transcript, and the match flag is the rule of that branch |
| `Echo.MatchesInWords` | internal/voicews/session.go:1551-1569 | the rule in terms of the texts alone: the transcript inside the candidate, the candidate inside the transcript with at most two or a tenth more, or common runes in order that are 86 percent of the one and 55 of the other |
| `Echo.NormalizedKeepsTheRest` | internal/voicews/session.go:2000-2010 | each rune that is not dropped stands, in lower case, behind those before it, and nothing else is there |
| `Echo.MatchCoversTranscript` | internal/voicews/session.go:1551-1569 | with eight runes on both sides, any match shares at least four fifths of the transcript |
| `Echo.MatchEscapesTheBoundIff` | internal/voicews/session.go:1551-1569 | whatever the lengths, a match shares less than four fifths of the transcript if and only if the candidate lies inside the transcript, not the other way round, and is shorter than four fifths of it; this is what the minimum of eight runes rules out |
| `Echo.CandidatesAreTheWindows` | internal/voicews/session.go:1529-1549 | the candidates built by the nested loops are exactly the trimmed, joined texts of the contiguous stretches that end in a non-blank item |
| `Echo.WindowIsJoined` | internal/voicews/session.go:1529-1549 | the text of a stretch is its texts that are not blank, with one blank between any two |
| `Echo.RecentSpeechCandidates` | internal/voicews/session.go:1529-1549 | the nested loops build that list |
| `Echo.SpeechMemory.MostlyRecentSpeechEcho` | internal/voicews/session.go:1507-1527 | a match is reported if and only if some eligible stretch of recent speech matches; the one named does and covers four fifths; without a match the score is the best of the eligible stretches, and the one named has it, or it is 0 |
| `Echo.SpeechMemory.RememberRecentSpeech` | internal/voicews/session.go:1458-1489 | short texts are ignored; expired items go, a repeated last text is replaced, at most four remain, each of at least eight runes |
| `Echo.RememberedInWords` | internal/voicews/session.go:1471-1488 | the new text is last, before it the newest unexpired ones, without the last if it says the same, four in all |
| `Echo.SpeechMemory.RecentSpeechSnapshot` | internal/voicews/session.go:1595-1613 | exactly the unexpired items remain, in order |
| `Echo.UnexpiredKeeps` | internal/voicews/session.go:1595-1613 | an item survives if and only if it is not older than the cutoff |
| `Tokens.EstimateTokensByCounting` | internal/voicews/session.go:1935-1957 | the counting loop computes the estimate from the number of wide runes |
| `Tokens.EstimateIsBounded` | internal/voicews/session.go:1935-1957 | the estimate never exceeds the number of runes of the trimmed text |
| `Tokens.EstimateOfPrefix` | internal/voicews/session.go:1935-1957 | cutting a text short never raises its estimate |
| `Tokens.MessageCountsItsText` | internal/voicews/session.go:1931-1957 | a message counts four, its role, a token for each rune of its trimmed text above 127 and one for every four others begun; four times that is at least the number of runes |
| `Tokens.CountCoversTheText` | internal/voicews/session.go:1923-1929 | the runes of any messages are at most four times what they count together |
| `Tokens.ConversationOptionsFromConfig` | internal/voicews/session.go:1798-1845 | each option is the last setting given, within its bounds; whatever the metadata hold all are in range, the reserve being any 64-bit number; the defaults result when nothing is set |
| `Tokens.PositiveIntValue` | internal/voicews/session.go:1974-1988 | exactly the positive numbers are accepted; below 2^63 the value is the number without its fraction, so a negative value comes only of a number of 2^63 or more |
| `Compression.MergeConversationSummary` | internal/voicews/session.go:1897-1910 | the loop appends one line for each turn, in order, and cuts at the limit |
| `Summaries.MergeTellsTheTurns` | internal/voicews/session.go:1897-1910 | the result is the beginning, up to the limit, of the trimmed old summary with one line below it for each turn in order: its stamp, and the first 220 runes of what the user and the assistant said |
| `Summaries.MergeLeavesATraceIff` | internal/voicews/session.go:1897-1910 | a turn leaves something of its line if and only if the old summary ends more than a line break before the limit; a full summary does not change |
| `Summaries.HistoryIsTold` | internal/voicews/session.go:1875-1910 | after any merges and cuts the summary is made of beginnings of the lines of the merged turns, one below the other in the order of merging, and of nothing else |
| `Summaries.RoomyHistoryIsTold` | internal/voicews/session.go:1875-1910 | as long as all lines have room within every limit, each is there whole |
| `Compression.CompressionKeepsItsPromises` | internal/voicews/session.go:1875-1895 | the kept turns are a suffix within the turn limit; the total is under the threshold or at most one turn is left; the summary is bounded; every dropped turn was merged once and in order |
| `Compression.LastEvictionWasNeeded` | internal/voicews/session.go:1884-1889 | before its last eviction the loop was over the threshold |
| `Compression.CompressionKeepsWhatItMay` | internal/voicews/session.go:1875-1890 | the kept turns are as many as the limit allows, unless with one more, and the others merged, the memory was over the threshold |
| `Compression.OperationsArePermitted` | internal/voicews/session.go:1875-1895 | every merge is cut at the configured limit, and the summary is shortened to half of it at most once, at the end |
| `Compression.TotalCountsEverything` | internal/voicews/session.go:1912-1921 | the total is the summary's count and that of the user and assistant text of every turn, and so covers their runes at four a token |
| `Compression.CompressionIsIdempotent` | internal/voicews/session.go:1875-1895 | compressing twice is compressing once |
| `MemoryStore.ConversationMemory.Compress` | internal/voicews/session.go:1875-1895 | the loop on the memory's fields computes that compression |
| `MemoryStore.ConversationMemory.EvictWhileOverBudget` | internal/voicews/session.go:1884-1889 | the eviction loop on the fields performs exactly the evictions of the specification |
| `MemoryStore.ConversationMemoryStore.Snapshot` | internal/voicews/session.go:1747-1767 | resets an idle memory, compresses it, and leaves every other key alone |
| `MemoryStore.ConversationMemoryStore.Append` | internal/voicews/session.go:1769-1786 | appends, compresses, and leaves every other key alone |
| `MemoryStore.RunsConserveTurns` | internal/voicews/session.go:1747-1786 | over every run: the turns merged, then the turns kept, are those appended since the last idle reset; replaying the merges gives the summary, and it tells the merged turns' lines, in order, as far as the limits leave them |
| `MemoryStore.KeysDoNotInterfere` | internal/voicews/session.go:1747-1786 | over every run with any mix of keys, a key's memory is that of its own requests alone |
| `MemoryStore.StoreConservesTurns` | internal/voicews/session.go:1747-1786 | the conservation law, and what the summary tells, for every key of the store |
| `MemoryStore.ServedIsBounded` | internal/voicews/session.go:1747-1786 | after each request the memory is within its limits |
| `MemoryStore.SnapshotAfterAppendChangesNothing` | internal/voicews/session.go:1747-1786 | a snapshot within the idle timeout after an append returns the stored state unchanged |
| `ContextWindow.PackContext` | internal/voicews/session.go:1664-1703 | what is returned is a packing: exact count, chronological order, within the budget, and nothing left out would still fit; and its text has at most four runes for each token of the budget |
| `ContextWindow.PackTurns` | internal/voicews/session.go:1685-1699 | the loop from the newest turn keeps a turn exactly when it fits beside what is already kept |
| `ContextWindow.GreedyIsMaximal` | internal/voicews/session.go:1685-1699 | no omitted turn would fit beside the whole choice, though turns were skipped before older ones were kept |
| `ContextWindow.ChosenIsWhatWasSaid` | internal/voicews/session.go:1685-1699 | what is chosen is, for each kept turn in order, its user text and then its assistant text |
| `ContextWindow.SummaryGoesInIff` | internal/voicews/session.go:1673-1683 | the summary goes in whole, below its header, if and only if it is not blank and its message fits |
| `ContextWindow.BudgetSoundness` | internal/voicews/session.go:1664-1669 | in 64-bit arithmetic base, reserve and budget stay within the target share of the limit if and only if base and reserve do not exceed the wrapped share by between 2^63 and 2^64 |
| `ContextWindow.BudgetIsTheRest` | internal/voicews/session.go:1664-1669 | where nothing wraps around the budget is the rounded share less base and reserve, exactly |
| `ContextWindow.PackedHistoryFitsTheWindow` | internal/voicews/session.go:1664-1703 | under that condition base, user text, reserve and included tokens stay within the target share of the context limit, and so do the texts themselves at four runes a token |
| `ContextWindow.HugeLimitBreaksTheBudget` | internal/voicews/session.go:1664-1669 | a context limit of 2^62 makes a budget positive and unsound where a limit of 32768 leaves none |
| `ContextWindow.ConversationContextMessages` | internal/voicews/session.go:1646-1704 | without a key nothing is returned; otherwise the packing of the snapshot of that key |
| `Segmenter.RealtimeTTSSegmenter.Add` | internal/voicews/session.go:1371-1386 | adding a delta advances the segmenter by its runes |
| `Segmenter.RealtimeTTSSegmenter.Flush` | internal/voicews/session.go:1412-1424 | the trimmed rest is emitted unless blank, and the buffer emptied |
| `Segmenter.CutsWrittenOut` | internal/voicews/session.go:1380-1442 | a rune ends a piece if and only if it is one of the nine hard breaks, or the piece is at its maximum, or it is one of the five soft breaks late enough |
| `Segmenter.SplitIntoDeltasIsIrrelevant` | internal/voicews/session.go:1371-1424 | the segments do not depend on how the reply is split into deltas |
| `Segmenter.SegmentsAreThePieces` | internal/voicews/session.go:1371-1442 | the segments are the trimmed pieces of a cutting of the text by the break rules |
| `Segmenter.CuttingIsUnique` | internal/voicews/session.go:1371-1442 | a text has only one such cutting |
| `Segmenter.SegmentsConserveText` | internal/voicews/session.go:1371-1424 | the runes that are not white space all come out, in order |
| `Segmenter.SegmentsAreSpeakable` | internal/voicews/session.go:1371-1424 | every segment is trimmed, not empty, within the maximum, and broken nowhere inside |
| `Segmenter.NoSegmentIffBlank` | internal/voicews/session.go:1052-1053 | no segment comes out if and only if the reply is blank |
| `Segmenter.SegmentReply` | internal/voicews/session.go:1014-1019 | adding each delta and flushing yields the segments of the joined reply |
| `Segmenter.SplitTTSSegments` | internal/provider/openai_compatible.go:587-626 | the batch splitter yields what the streaming segmenter yields of the trimmed text with equal thresholds |
| `Segmenter.BlanksAroundAreIdle` | internal/provider/openai_compatible.go:587-626 | trimming first, as the batch splitter does, changes nothing for any blanks after the text, nor for blanks before it that leave the streaming segmenter's buffer empty |
| `Wav.PcmToWav` | internal/provider/openai_compatible.go:956-994 | the printed file, or the error for empty audio or another codec |
| `Wav.PrintedFields` | internal/provider/openai_compatible.go:956-994 | every byte of the header: both sizes, PCM, channels, rate, byte rate, alignment and width, each at its place, then the audio; and which input is refused with which error |
| `Wav.PcmFromWav` | internal/saytts/saytts.go:92-142 | the loop over a buffer computes the walk over its chunks, with every error case |
| `Wav.ParsedByPosition` | internal/saytts/saytts.go:92-142 | what is parsed lies in the file: chunk after padded chunk from byte 12 on, the audio the body of the last data chunk, rate and channels at their places in the last fmt chunk |
| `Wav.WellFormedIsParsed` | internal/saytts/saytts.go:92-142 | and every file of that shape is parsed, or refused for having no format or no audio, whichever is missing |
| `Wav.InvalidIff` | internal/saytts/saytts.go:92-100 | a file is refused as no WAVE file if and only if it is shorter than twelve bytes or does not begin with RIFF and WAVE |
| `Wav.ChunkErrors` | internal/saytts/saytts.go:101-130 | which chunk is refused with which error: cut short, a fmt chunk under sixteen bytes, one that is not 16-bit PCM |
| `Wav.ParsingUndoesPrinting` | internal/saytts/saytts.go:92-142 | parsing a printed file gives back audio and format if and only if every value fits its field |
| `WavStream.StreamWavAsPcm` | internal/provider/openai_compatible.go:707-759 | the loop on a consumed reader hands out the pieces, and ends with the error, of the walk over the chunks, broken off with the first piece that the callback refuses |
| `WavStream.StreamSucceedsIff` | internal/provider/openai_compatible.go:707-759 | the stream ends without an error if and only if every chunk is complete and padded, every fmt chunk is 16-bit PCM, and there is a data chunk |
| `WavStream.StreamHandsOutTheData` | internal/provider/openai_compatible.go:707-786 | and then the audio of all data chunks has been handed out, in order |
| `WavStream.StreamWavData` | internal/provider/openai_compatible.go:761-786 | a data chunk comes out in pieces of at most 1024 bytes, as far as the input goes and the callback takes them |
| `WavStream.PiecesAreFull` | internal/provider/openai_compatible.go:761-786 | every piece but the last holds 1024 bytes, each from its own place in the data |
| `WavStream.StreamAgreesWithBuffer` | internal/provider/openai_compatible.go:707-786 | on accepted files with one fmt before one data chunk: same audio, same format, pieces of at most 1024, and no error if and only if the chunks are padded |
| `WavStream.StreamTTSAudio` | internal/provider/openai_compatible.go:664-705 | a body is parsed if it begins as a WAVE file and handed out raw otherwise, up to the first piece refused |
| `WebSocket.Conn.WriteFrame` | internal/gateway/wsconn/conn.go:127-131 | the bytes of the frame follow what was written before, or a beginning of them if the write fails, and nothing once one has failed |
| `WebSocket.WriteClientFrame` | cmd/agensense-smoke/main.go:889-915 | the masked frame, for any mask key |
| `WebSocket.Conn.ReadOneFrame` | internal/gateway/wsconn/conn.go:138-193 | reads the frame at the head of the input, or fails with its error |
| `WebSocket.FrameIsOnTheWire` | internal/gateway/wsconn/conn.go:138-193 | reading a frame in terms of the bytes: opcode, length in its three forms, key and payload at their places; each error exactly when it is due |
| `WebSocket.FrameIsUnique` | internal/gateway/wsconn/conn.go:138-193 | no bytes begin with two different frames |
| `WebSocket.EncodedLayout` | internal/gateway/wsconn/conn.go:195-225 | a written frame is final, has its opcode, the shortest length form, the key in wire order, and the payload masked with it |
| `WebSocket.MaskedHello` | internal/gateway/wsconn/conn.go:138-193 | the masked example of section 5.7 of RFC 6455 is read as Hello |
| `WebSocket.Unmask` | internal/gateway/wsconn/conn.go:183-191 | byte i of the result is byte i of the payload, exclusive-or byte i mod 4 of the key, as bit vectors |
| `WebSocket.MaskTwice` | internal/gateway/wsconn/conn.go:176-191 | masking twice with one key restores the payload |
| `WebSocket.LengthRoundTrip` | internal/gateway/wsconn/conn.go:148-174 | all three length forms are read back as written |
| `WebSocket.FrameRoundTrip` | internal/gateway/wsconn/conn.go:138-225 | a frame is read back, masked or not, and refused exactly above sixteen mebibytes |
| `WebSocket.ReadingUndoesWriting` | internal/gateway/wsconn/conn.go:138-225 | any sequence of frames written one after another is read back as the same sequence |
| `WebSocket.PingsAreAnswered` | internal/gateway/wsconn/conn.go:97-109 | each ping is answered with its own payload, in order, and the first other frame is returned |
| `WebSocket.PongsRepeatThePings` | internal/gateway/wsconn/conn.go:97-109 | the answers have opcode ten, the payloads of the pings, and no mask |
| `WebSocket.Conn.ReadFrame` | internal/gateway/wsconn/conn.go:97-109 | the loop over frames does that, and reports a pong that could not be written |
| `StreamTracker.Tracker.Start` | internal/protocol/stream_tracker.go:12-23 | opens a stream if and only if none is open and the payload is valid |
| `StreamTracker.Tracker.AddFrame` | internal/protocol/stream_tracker.go:26-32 | counts a frame if and only if a stream is open |
| `StreamTracker.Tracker.Stop` | internal/protocol/stream_tracker.go:35-48 | closes the stream if and only if the name and the count are right |
| `Gateway.StateReflectsRun` | internal/gateway/handler.go:171-373 | after any events the stream id is set if and only if the tracker is active, which takes a hello, and counter and buffer are those of the frames since the start |
| `Gateway.PipelineHearsExactlyTheFrames` | internal/gateway/handler.go:171-373 | the pipeline gets exactly the frames between each start and its matching stop |
| `Gateway.MismatchedStopLosesTheStream` | internal/gateway/handler.go:251-265 | any other stop closes the stream and hands on nothing |
| `Gateway.DefaultsAreIdle` | internal/gateway/handler.go:209-216 | the device's defaults fill what a start leaves out, and no valid start leaves anything out |
| `Gateway.ServeSession` | internal/gateway/handler.go:171-373 | the loop on its variables and tracker hands on exactly those turns |
| `Pipeline.GatewaySink.OnTTSStart` | internal/gateway/handler.go:429-453 | on any connection, whatever it has taken before: if the tracker accepts the start its stream opens, and the start is written or the connection breaks; otherwise nothing changes |
| `Pipeline.GatewaySink.OnTTSChunk` | internal/gateway/handler.go:455-460 | a frame is counted before it is written, and written only inside a stream |
| `Pipeline.GatewaySink.OnTTSStop` | internal/gateway/handler.go:462-480 | for the name of the tracked stream: it closes, and a stop with that name and the number of frames counted is written or the connection breaks; otherwise nothing changes |
| `Pipeline.Pipeline.Run` | internal/session/pipeline.go:67-238 | on any connection, in any state: exactly the events of the turn are written, or the beginning of them before the connection breaks; it succeeds if and only if the turn does and the connection holds |
| `Pipeline.SucceedsInWords` | internal/session/pipeline.go:67-238 | a turn succeeds if and only if every provider does, no empty delta is refused for good, and the format asked for is valid |
| `Pipeline.SuccessInWords` | internal/session/pipeline.go:67-238 | event by event what a successful turn writes |
| `Pipeline.DeltasAreTheReply` | internal/session/pipeline.go:129-137 | the deltas written are those not empty, and together they are the reply |
| `Pipeline.NamesSpellTheirNumbers` | internal/session/pipeline.go:250-252 | a name is its prefix and at least six digits that spell its number, so different numbers give different names |
| `Pipeline.TurnPhase` | internal/session/pipeline.go:67-238 | the events of any turn, failing anywhere, end in the phase its providers lead to, and never go astray |
| `Pipeline.NoTurnGoesAstray` | internal/session/pipeline.go:67-238 | nor does any beginning of them |
| `Pipeline.PhaseSpellsOutTheTurn` | internal/session/pipeline.go:67-238 | that language, spelled out: asr.final, deltas, llm.done, tts.start, frames, tts.stop, action |
| `Turns.ServeTurns` | internal/gateway/handler.go:266-305 | any turns on one connection, each with a sink of its own, write their events one after the other, with an error after each that fails, up to where the connection breaks |
| `Turns.StopsAreRight` | internal/gateway/handler.go:462-480 | over any turns, each failing anywhere, and any beginning of what they write: every tts.stop carries the id of the latest tts.start and the number of frames since |
| `Turns.StreamIsClosedIff` | internal/session/pipeline.go:172-223 | the stream that a turn begins is closed if and only if its synthesis succeeds |
| `Turns.EveryStartIsOfATurn` | internal/session/pipeline.go:172-223 | and there are no other streams |
| `Turns.StreamNamesDiffer` | internal/session/pipeline.go:167-172 | no two streams of a connection share a name |
| `Turns.ConnectionAlternatesIff` | internal/gateway/handler.go:266-305 | tts.start and tts.stop alternate over the connection if and only if no turn that leaves its stream open is followed by one that begins a stream |
| `Turns.FailedSynthesisBreaksAlternation` | internal/gateway/handler.go:289-305 | two turns at which they do not |
| `Outbound.EveryStopMatchesItsStart` | internal/gateway/handler.go:429-480 | in a bracketed log, where a start may give up an open stream, every stop has a latest start with the same id and exactly the counted frames between |
| `Outbound.EveryChunkIsInside` | internal/gateway/handler.go:455-460 | in a bracketed log audio is only sent inside a stream |
| `Outbound.RefusedInWords` | internal/protocol/types.go:186-238 | which events validation refuses |
| `Vad.StreamIsExplained` | internal/voicews/session.go:528-577 | for every stream: segments are exactly the ranges from speech to the first 220 ms of silence, with only silence between, exact audio, offsets and peak level; started and stopped alternate; a segment is active if and only if speech is |
| `Vad.StopSegment` | internal/voicews/session.go:2151-2182 | completing the open segment gives the audio of its range, and none of the clamps acts |
| `Vad.StoppedSegments` | internal/voicews/session.go:648 | a stop adds the open range, without waiting for its silence |
| `Vad.StoppedStreamIsSeparated` | internal/voicews/session.go:528-577 | the ranges of a stopped stream are disjoint, increasing, not empty, and silence is all that lies outside |
| `Vad.SegmentsHaveAudio` | internal/voicews/session.go:2494-2497 | since a payload of less than one sample is silent, no completed segment is empty |
| `Vad.ClockMeasures` | internal/voicews/session.go:2478-2492 | n bytes last n / (2 * rate * channels) seconds, in whole milliseconds, and end a segment if and only if that is 220 ms or more |
| `Vad.SamplesLast` | internal/voicews/session.go:2478-2492 | so silence ends a segment if and only if its samples last 220 ms, and a second is rate samples, whatever the channels |
| `Vad.SilentTailIsAudio` | internal/voicews/session.go:565-570 | the silence that is measured is all the audio since the last chunk of speech |
| `Vad.LoudestIsLoudest` | internal/voicews/session.go:578-580 | the peak level is no less than any level of the segment, and one of them |
| `Vad.SpeechIsInExactlyOneSpan` | internal/voicews/session.go:528-577 | every chunk of speech lies in exactly one of them |
| `Vad.StreamEventsTell` | internal/voicews/session.go:549-577 | the events of a stream in terms of its chunks alone: they alternate, there are some if and only if there is speech, and the last is an unanswered start if and only if speech goes on |
| `Vad.OpenIffStillSpeaking` | internal/voicews/session.go:549-577 | speech goes on at the end of a stream if and only if its segmentation has an open segment |
| `VoiceReader.Session.HandleAudioStart` | internal/voicews/session.go:470-526 | a valid start always cancels the partial transcription; it opens a fresh stream if and only if none is open |
| `VoiceReader.Session.HandleAudioChunk` | internal/voicews/session.go:528-618 | the fields after a frame, what is reported, and the partial transcription it may start |
| `VoiceReader.Session.HandleAudioStop` | internal/voicews/session.go:620-689 | a matching stop closes the stream and decides what becomes of its audio; any other changes nothing |
| `VoiceReader.Session.CancelInput` | internal/voicews/session.go:2031-2048 | the stream and the partial transcription are given up |
| `VoiceReader.Session.CompleteActiveSegmentLocked` | internal/voicews/session.go:2151-2182 | the completed segment, and the fields it leaves |
| `VoiceReader.Session.FinishPartial` | internal/voicews/session.go:744-751 | a finished transcription frees the slot only if the run id is still its own |
| `VoiceReader.Serve` | internal/voicews/session.go:470-689 | the handlers, one event after another, reach exactly the expected verdicts |
| `VoiceSession.StateReflectsRun` | internal/voicews/session.go:470-654 | after any events counter, buffer, format, guard and voice activity are those of the frames since the start of the open stream |
| `VoiceSession.AsrHearsExactlyTheFrames` | internal/voicews/session.go:620-689 | exactly the frames between a start and its matching stop are transcribed, unless the echo guard was up at the start or no client is configured |
| `VoiceSession.OpenStreamOutput` | internal/voicews/session.go:528-600 | what is reported of an open stream is its segmentation; its partial transcriptions are snapshots at least 1500 ms apart with at least 1200 ms of new audio, none under the echo guard |
| `VoiceSession.StoppedStreamOutput` | internal/voicews/session.go:620-689 | after its stop a stream has reported all its segments and one verdict |
| `VoiceSession.OpenStreamIsExplained` | internal/voicews/session.go:528-577 | the session's voice activity on an open stream satisfies the whole segmentation theorem |
| `VoiceSession.FrameReportsIff` | internal/voicews/session.go:545-577 | over every run, a frame reports speech_started if and only if it is loud enough and speech is not going on, and speech_stopped if and only if speech is going on and the silence it completes lasts 220 ms at the rate and channels of the stream's start |
| `VoiceSession.FrameTranscribesIff` | internal/voicews/session.go:582-600 | over every run, exactly when a frame starts a partial transcription, and of what: client, guard, slot, 1500 ms since the last, 1200 ms of new audio |
| `VoiceSession.VerdictInWords` | internal/voicews/session.go:620-689 | what becomes of a stopped stream, in terms of its start: suppressed under the guard, else transcribed in the announced format if a client is configured |
| `VoiceSession.EndedStreamEvents` | internal/voicews/session.go:620-654 | a stream that ends, by its stop or by input.cancel, has reported the events of its chunks and no more, so they end with an unanswered speech_started if and only if speech went on |
| `VoiceSession.SessionReportsItsStreams` | internal/voicews/session.go:470-654 | over every run the events reported are those of its streams, one stream after another |
| `VoiceSession.SessionEventsAlternateIff` | internal/voicews/session.go:549-577 | over every run started and stopped alternate if and only if no stream that ended while speech went on is followed by one that hears speech |
| `VoiceSession.CutOffSpeechStartsTwice` | internal/voicews/session.go:2031-2048 | runs at which they do not, for any valid start and any frame of speech, with a stop or a cancel between |
| `VoiceSession.SessionFollowsProtocol` | internal/voicews/session.go:582-599 | every run of the session is a run of the partial transcription protocol on the same slot |
| `PartialAsr.InvariantHolds` | internal/voicews/session.go:2031-2071 | the invariant of the slot, the running transcriptions and the reader, after any interleaving |
| `PartialAsr.SlotIsTakenIffCurrentRuns` | internal/voicews/session.go:744-751 | partialInFlight if and only if the transcription with the current id runs, and then partialCancel is its own; so the slot is never lost |
| `PartialAsr.RunIdsAreUnique` | internal/voicews/session.go:590-599 | no two transcriptions share a run id |
| `PartialAsr.ExactlyTheOldOnesAreCancelled` | internal/voicews/session.go:2050-2071 | a running transcription has been, or is just being, cancelled if and only if its id is not current |
| `PartialAsr.AtMostOneIsLive` | internal/voicews/session.go:582-599 | between events at most one transcription is not cancelled, and it holds the slot |
| `PartialAsr.StaleReturnFreesNothing` | internal/voicews/session.go:744-751 | a superseded transcription that comes back leaves the slot and the newer one alone |
| `PartialAsr.StartForgetsNoRunningTranscription` | internal/voicews/session.go:512-514 | the cancel function that audio.start drops is never that of a live transcription |
| `PartialAsr.TheGuardIsNeeded` | internal/voicews/session.go:746-749 | without the comparison of ids the invariant breaks exactly when a superseded transcription comes back while a newer one runs |
| `Response.InvariantHolds` | internal/voicews/session.go:949-1150 | the invariant of producer, channel, consumer and text, after any interleaving, for models that heed a failed callback and for models that go on |
| `Response.ChannelIsFaithful` | internal/voicews/session.go:949-1049 | received and buffered segments are those enqueued, in order, eight buffered at most, and what is spoken is an initial part; enqueued are segments of the text that got through, in order, and the first ones unless a model went on after its callback failed; that text is the whole reply unless the connection broke |
| `Response.ChoicesOfTheSelect` | internal/voicews/session.go:974-996 | over every run, while a segment is to be enqueued: it goes onto the channel if that holds fewer than eight, an early result is taken if there is one, a cancel noticed if there was one, and after an early result every segment fails |
| `Response.TrimmingAgainIsIdle` | internal/voicews/session.go:974-977 | every segment enqueued or taken is already trimmed and not blank, so neither test acts |
| `Response.CompletedSpeaksTheWholeReply` | internal/voicews/session.go:1113-1150 | a completed response has spoken exactly the segments of its whole reply, in order, whatever its model does after a failed callback |
| `Response.EarlyResultIsAnError` | internal/voicews/session.go:978-996 | the error for a consumer that stopped without one is never made up |
| `Response.AwaitedResultHasAudio` | internal/voicews/session.go:1113-1116 | an announced reply is not blank and has reached the segmenter whole; synthesis without error has spoken all that was enqueued, and brought audio unless a cancelled response passed segments over |
| `Response.StatusFollowsResult` | internal/voicews/session.go:1113-1150 | an awaited response is cancelled if its context is, completed if the synthesis had no error, and failed otherwise |
| `Response.ExitSaysWhy` | internal/voicews/session.go:1027-1150 | over every run, how runResponse returns says why: cancelled if and only if its context is, where the channel is closed; without llm.done only for a blank reply or a broken connection |
| `Response.GivenUpIff` | internal/voicews/session.go:1020-1050 | over every run, the response is given up exactly when the model's stream fails, or its callback does and it does not go on |
| `Response.GivingUpCloses` | internal/voicews/session.go:1027-1050 | then the speech is cancelled and the channel closed before runResponse returns, with the status of the context |
| `Response.CancelStopsSpeech` | internal/voicews/session.go:1300-1303 | once a response is cancelled, over any continuation: nothing new is spoken; at most the segment being spoken is finished |
| `Response.TakenSegmentsAreSpoken` | internal/voicews/session.go:1300-1315 | and only then: otherwise a segment taken from the channel is spoken |
| `Response.EveryReplyCanBeSpoken` | internal/voicews/session.go:949-1150 | for every reply that is not blank, however cut into deltas, there is a run that speaks all of it and completes |
| `Response.ProducerIsNeverStranded` | internal/voicews/session.go:965-996 | whenever the producer is blocked the consumer is there and can go on |
| `Response.ConsumerUsesUpWork` | internal/voicews/session.go:1295-1369 | each step of the consumer uses up a bounded amount of work, so the producer's wait ends |
| `Response.ConsumerEndsUnlessStranded` | internal/voicews/session.go:949-971 | after the producer has returned the consumer ends, unless the channel was left open by a failed llm.done or a failed flush |
| `Response.OpenExitStrandsIff` | internal/voicews/session.go:1088-1111 | at any moment after such an exit, some continuation strands the consumer if and only if it has taken everything enqueued and is waiting or speaking |
| `Response.WaitingIsStranded` | internal/voicews/session.go:1295-1295 | one that waits then is stranded, whatever happens afterwards |
| `Response.SynthesisDecides` | internal/voicews/session.go:1295-1369 | one that speaks the last segment is stranded if and only if that synthesis ends well with audio |
| `Response.OtherwiseTheConsumerEnds` | internal/voicews/session.go:1300-1303 | any other is never stranded, and after any further steps it is gone or has a step of its own to take |
| `Response.StrandedForEver` | internal/voicews/session.go:1295-1295 | a stranded consumer stays stranded |
| `Response.BlankReplyStrandsTheConsumer` | internal/voicews/session.go:1052-1065 | in any state where a blank reply is to be announced, announcing it ends the response without response.done and with a stranded consumer |
| `Response.UnsentBlankReplyStrands` | internal/voicews/session.go:1052-1065 | so every run that has ended with a blank reply unannounced has a stranded consumer |
| `Response.BlankReplyIsOnlyAnnounced` | internal/voicews/session.go:1052-1065 | a stream that ends well with a blank reply leads to the announcement, and nothing but the announcement leads on |
| `RealtimeTTS.Speaker.OnChunk` | internal/voicews/session.go:1324-1345 | the first chunk opens the stream in the format known by then; every chunk is counted and sent |
| `RealtimeTTS.Speaker.SpeakSegment` | internal/voicews/session.go:1315-1366 | a segment is a stream of its own, closed with its number of frames even when synthesis fails midway |
| `RealtimeTTS.SegmentInWords` | internal/voicews/session.go:1315-1366 | what a segment writes, event by event: the start in the merged format, the chunks from the opening one on, the stop with their number |
| `RealtimeTTS.OpensWhenItPasses` | internal/voicews/session.go:1324-1336 | the opening chunk is the first by which the merged format passes validation |
| `RealtimeTTS.MergeTakesWhatIsSet` | internal/voicews/session.go:2447-2458 | a chunk's codec, rate and channels replace the known ones where they are set |
| `RealtimeTTS.ErrorInWords` | internal/voicews/session.go:1346-1360 | a segment fails if and only if its provider does, gives up over a refusal, or brings nothing to send |
| `RealtimeTTS.ResultCountsTheLog` | internal/voicews/session.go:1337-1343 | the result counts the frames written and their bytes |
| `RealtimeTTS.Speaker.RunRealtimeTTS` | internal/voicews/session.go:1291-1369 | on any connection the loop writes the streams of the segments up to the first that fails, or the beginning of them before the connection breaks, also when validation refuses a start; it counts exactly their audio |
| `RealtimeTTS.SpokenSegmentsAreClosed` | internal/voicews/session.go:1315-1366 | those streams are bracketed, each closed with its id and its number of frames |
| `TokenStore.FileRepository.SaveIssuedDeviceToken` | internal/store/file_repository.go:347-363 | refuses the hash of another token; otherwise stores and indexes, and writes the file if it can |
| `TokenStore.FileRepository.FindIssuedDeviceTokenByHash` | internal/store/file_repository.go:377-392 | the token the index leads to, or not found |
| `TokenStore.FileRepository.TouchIssuedDeviceToken` | internal/store/file_repository.go:394-410 | the time of use changes and nothing else; the index is untouched |
| `TokenStore.FileRepository.RevokeIssuedDeviceToken` | internal/store/file_repository.go:412-428 | the time of revocation changes and nothing else |
| `TokenStore.SavedIsFound` | internal/store/file_repository.go:347-392 | a saved token is found by its hash as it was saved, and nothing else changes |
| `TokenStore.TouchAndRevoke` | internal/store/file_repository.go:394-428 | each sets its own time of its own token and nothing else |
| `TokenStore.RevokedStaysRevoked` | internal/store/file_repository.go:412-428 | over every run a revoked token stays revoked, since the same time, until it is saved or revoked again or the file is read |
| `TokenStore.FileRepository.Load` | internal/store/file_repository.go:430-455 | the memory becomes what the file says, under some order of the walk; a file that cannot be read is reported and changes nothing |
| `TokenStore.NormalizeTokens` | internal/store/file_repository.go:513-519 | fresh maps filled in an arbitrary order: the same tokens, and the index of that walk |
| `TokenStore.EveryTokenIsFound` | internal/store/file_repository.go:347-392 | after any run every stored token with a hash is found by it |
| `TokenStore.HashesAreUnique` | internal/store/file_repository.go:352-357 | no two stored tokens share a hash that is not empty |
| `TokenStore.OrderIsIrrelevant` | internal/store/file_repository.go:513-519 | the rebuilt index does not depend on the order of the walk |
| `TokenStore.ReloadAgreesIff` | internal/store/file_repository.go:430-455 | with the file up to date, a reload changes the answer for a hash if and only if its entry is stale |
| `TokenStore.StaleHashIsRefused` | internal/store/file_repository.go:352-354 | a stale entry refuses its hash to other tokens though no token has it |
| `TokenStore.SavingAgainLeavesAStaleEntry` | internal/store/file_repository.go:356-357 | saving a token under a second hash leaves one |
| `TokenStore.FailedFlushIsForgotten` | internal/store/file_repository.go:358-360 | a save whose flush failed is gone after a reload |

## Left out

- HTTP and WebSocket upgrade, JSON, sockets, files, the environment, hashing, provider requests and the `say` process: I/O or libraries; their results are parameters.
- The debug page, traces, prompts, language labels, provider registry, in-memory repository and MCP proposals: text and look-ups without a hard property.
- Floating point: scores, durations and levels are compared as exact fractions; the level of a chunk is given with it.
- Text that is not valid UTF-8, and a rune split over two deltas of the language model.
- Case folding, punctuation and symbol classes of Unicode: a table is a parameter of echo normalisation.
- The table from model names to context limits: the limit is a parameter of `Tokens.ConversationOptionsFromConfig`.
- The rendering of a turn's time in a summary line: the turn carries the text.
- 64-bit wrap-around outside the history budget, the compression threshold and the idle timeout.
- Two responses at once: `clearResponse` has no run id, so an old response that ends clears the cancel function of a newer one, and "at most one response is not cancelled" does not hold.
- Exactly one `response.done` per response: `response.cancel` writes one of its own.
- Whether a stale partial transcript is shown: emission compares only the stream id, which a client may use again.
- Cancellation of transcriptions by the end of the connection's own context, as opposed to a cancel function of the session.
- Language model deltas written by the producer between the events of `RealtimeTTS`: they do not touch the bracketing, and the log there is that of one goroutine.
- The playback echo window and its arithmetic: whether a start falls into it is read off its end time.
- Errors of the reader under the streaming WAVE parser other than the end of the input, and the difference between `io.EOF` and `io.ErrUnexpectedEOF`.
- What converting a float of 2^63 or more to an integer gives: platform-defined in Go, and a parameter of `Tokens.PositiveIntValue`.
- When the writes of a synthesis happen in `Response`: a synthesis is one step there, taken when it returns; `RealtimeTTS` has its writes.
- Files with several data chunks, where the streaming parser concatenates and the buffer parser keeps the last.
- The smoke client's own WAVE reader and writer and its reader of server frames: near copies of the ones modelled.
- Nil checks of the pipeline's dependencies, and handshake and close frames of the gateway beyond ending the loop.
- Instances, devices, profiles and configuration snapshots of the file repository: maps without an index.
