# Verified model of serial-mock-service

serial-mock-service emulates serial devices. Each configured port has a pseudo-terminal. A reader
thread cuts the received byte stream into frames, answers a frame by the first matching input rule
of the active scenario, and records raw bytes and frame events in bounded buffers. HTTP requests
switch the scenario, fire triggers, and poll or clear the buffers; SIGHUP reloads the configuration
into the running ports.

The project models that behaviour in Dafny and proves properties of it:

- **Framing** (`Framing.dfy`, `Chunking.dfy`, `RoundTrips.dfy`, `WireFormats.dfy`,
  `FramingConfigs.dfy`). The in-place
  loops of `push`, `on_idle` and `drain` are proved against pure functions (`Pushed`, `Idled`,
  `Drained`). About those: exactly which streams are framed alike under every chunking, as a
  condition that one drain decides; every byte is conserved across changes of specification; a
  list of frames survives every chunking exactly when each fits `max_buffer + 1`; exactly which
  delimiters make "the payload does not contain it" enough; what a malformed length does to every
  chunking; and what each configuration does on the wire, from its own fields and the default
  bound.
- **The port under concurrency** (`Protocol.dfy`, `Invariants.dfy`, `Guarantees.dfy`,
  `Determinism.dfy`, `Deliveries.dfy`, `Meaning.dfy`, `Polling.dfy`). The reader thread, any number of HTTP requests and the reload thread
  interleave; a step is one lock acquisition or one partial write. The invariants hold in every
  reachable state and give: events are a prefix of the input, output is whole responses, labels
  and responses come from one snapshot, where the active scenario may come from, how long an old
  scenario survives a switch and an old framing a swap, on exactly which streams the answers depend
  on the bytes alone, that every label and every byte sent is what an installed configuration says,
  and what a polling client holds of the handled frames.
- **Capture** (`Capture.dfy`, `PollBody.dfy`). The buffers refine "the last N of the history"; a
  polling client holds every event once and in order exactly when it saw no gap; and the JSON body
  of a poll answer can be read back to the very events.
- **Configuration** (`Config.dfy`, `Matching.dfy`, `Port.dfy`, `Reload.dfy`). Validation accepts
  exactly the valid configurations; compiling rules preserves their meaning; a validated port
  always compiles; and a reload leaves exactly the right ports live, each with its identity.
- **Codecs** (`Hex.dfy`, `Json.dfy`). The tolerant hex decoder reads exactly the decorated
  spellings of a byte string and inverts the encoder (section 8 of RFC 4648); JSON escaping is
  inverted by a reader of strings as section 7 of RFC 8259 defines them.

`Port.dfy` and `Reload.dfy` hold the classes and methods that the source updates in place, as they
act when no other thread interferes; `Protocol.dfy` is the same logic cut into its atomic steps.
`Guarantees.WholeSwap`, `Guarantees.WholeSwitch`, `Guarantees.WholeTrigger` and
`Determinism.EveryRunIsAReaderRun` tie the two together.

A *unit* of a strategy (`RoundTrips.IsUnit`) is a byte string that the strategy cuts off as one
whole frame and no proper prefix of which is cut. A stream is *quiet* (`Chunking.Quiet`) when no
prefix of it, pushed in one piece, sets off the backstop or a malformed length. A flush that only
the very last byte sets off is the same under every chunking, so independence of the chunks needs
a little less: no *proper* prefix may set one off (`Chunking.QuietInside`). The port inherits that
condition exactly (`Deliveries.StreamDecidesExactly`).

## Where the code and its description differ

The model follows the code in each case.

- The comment on `decode_hex` speaks of an optional leading `0x` (src/bytes.rs:45-46); the code
  skips `0x` and `0X` anywhere, even between the two digits of a byte (`Hex.PrefixInsideAByte`).
- A reload is described as a swap under a write lock (README.md:277). It takes three separate ones,
  and a switch that read the old table before the swap may commit after it. `Guarantees.StaleSwitch`
  shows the run and when it does harm; `Guarantees.FallsBehindExactly` and
  `Guarantees.ActiveIsCurrentExactly` say exactly which runs are free of it.
- Capacities of zero pass validation, and the buffers then grow without bound, because eviction
  tests for equality (src/capture.rs:42, src/capture.rs:58); `Captures.BoundedExactly` and
  `Captures.ZeroIsUnbounded`.
- A reload does not resize an existing port's buffers: `max_events` and `max_raw_bytes` take effect
  for new ports only (src/port.rs:153-169); in the model the capacities are constants of the
  capture, which `Reload.Apply` leaves alone.

## Model

| member | source | states |
|---|---|---|
| Framing.FindSubslice | src/framing.rs:311-316 | the result is an occurrence and no earlier one exists; no result means there is none or the needle is empty |
| Framing.ReadUint | src/framing.rs:293-308 | shifting and or-ing the bytes of a field of up to four bytes gives the number the field denotes in its byte order |
| Framing.LittleEndianSnoc | src/framing.rs:300-306 | the last byte of a little-endian field weighs 256 to its position |
| Framing.BigEndianSnoc | src/framing.rs:296-300 | the last byte of a big-endian field weighs one and raises the others by 256 |
| Framing.ReadTotal | src/framing.rs:257-272 | the declared total is read from the length field at its offset, with header and trailer added as the field's meaning asks |
| Framing.FramingSpec.DrainDelimiter | src/framing.rs:237-245 | the loop leaves buffer and frames as the repeated cut defines them |
| Framing.FramingSpec.DrainFixed | src/framing.rs:246-252 | the loop leaves buffer and frames as the repeated cut defines them |
| Framing.FramingSpec.DrainLengthPrefixed | src/framing.rs:253-284 | the loop, with its flush of a malformed length, leaves buffer and frames as the repeated cut defines them |
| Framing.FramingSpec.Drain | src/framing.rs:235-289 | every strategy cuts until nothing more can be cut, appending to the frames already there |
| Framing.FramingSpec.Push | src/framing.rs:217-225 | appends the chunk, cuts, and flushes a residue above `max_buffer` as one frame |
| Framing.FramingSpec.OnIdle | src/framing.rs:229-233 | only the idle strategy flushes, and only a nonempty buffer |
| Chunking.ValidateIsExact | src/framing.rs:82-114 | validation accepts exactly the settings whose compiled strategy is well formed and whose quiet gap is not zero, names the fault by its kind (a length field must have 1, 2 or 4 bytes), and the default is well formed |
| Chunking.ProgressExactly | src/framing.rs:235-289 | among all strategies only a fixed length of zero can cut without consuming, so every drain loop of an accepted one ends |
| Chunking.CutStable | src/framing.rs:235-289 | a cut that is decided stays the same whatever arrives later |
| Chunking.DrainFusion | src/framing.rs:235-289 | draining early and then the rest with more bytes is draining once, unless the early drain met a malformed length |
| Chunking.PushFusion | src/framing.rs:217-225 | two pushes give the frames and buffer of one push of both chunks, unless the first one forced a flush |
| Chunking.PushSettles | src/framing.rs:217-225 | after a push, from any earlier buffer, nothing more can be cut and the buffer is within `max_buffer` |
| Chunking.ChunkingIsIrrelevant | src/framing.rs:217-289 | frames and residue are the same under all chunkings of a stream if and only if no proper prefix of it forces a flush; the framer tells some two chunkings of any other stream apart |
| Chunking.QuietInsideRun | src/framing.rs:217-289 | every chunking of such a stream gives what one push of the whole stream gives |
| Chunking.FlushTellsApart | src/framing.rs:217-289 | when a byte forces a flush and another follows, cutting the stream between the two and keeping them in one chunk give different frames, whatever chunks come before and after |
| Chunking.LoudInsideTellsApart | src/framing.rs:217-289 | chunks of at most two bytes are enough to frame such a stream in two different ways |
| Chunking.UnforcedExactly | src/framing.rs:217-289 | a stream is quiet if and only if no chunking of it forces a flush, and then every chunking drains the stream as a whole |
| Chunking.LoudByteByByte | src/framing.rs:217-225 | a stream that is not quiet is flushed when it arrives byte by byte |
| Chunking.FixedNeverForces | src/framing.rs:178-182 | a validated fixed length is quiet on every stream from every buffer: the backstop cannot be reached |
| Chunking.DrainedConserves | src/framing.rs:235-289 | the emitted stretches followed by the rest are the buffer that was drained |
| Chunking.CallsConserve | src/framing.rs:217-289 | over any sequence of `push` and `on_idle` calls, each with its own specification, the input is the emitted stretches in order followed by the buffer, and only an excluded delimiter separates a stretch from its frame |
| RoundTrips.FirstUnit | src/framing.rs:235-289 | a unit in front of any tail is cut off first and whole |
| RoundTrips.DrainIsTheDecomposition | src/framing.rs:235-289 | a drain yields given units and a rest if and only if the stream is those units followed by that rest and the rest cannot be cut: the decomposition is unique |
| RoundTrips.DecompositionExists | src/framing.rs:235-289 | whatever is emitted without a forced flush is a list of units |
| RoundTrips.RoundTrip | src/framing.rs:217-289 | units of at most `max_buffer + 1` bytes, joined and delivered in any chunks, are emitted one by one with an empty buffer left |
| RoundTrips.QuietExactly | src/framing.rs:217-289 | a stream is quiet if and only if one drain of all of it meets no malformed length, takes at most `max_buffer + 1` bytes per frame and leaves at most `max_buffer` |
| RoundTrips.IndependentExactly | src/framing.rs:217-289 | the chunks of a nonempty stream do not matter if and only if one drain of all of it but the last byte meets no malformed length, takes at most `max_buffer + 1` bytes per frame and leaves at most `max_buffer` |
| RoundTrips.ForcedIsWrong | src/framing.rs:217-225 | a run over whole units that forces a flush never ends with the right frames and an empty buffer |
| RoundTrips.TooLongIsLoud | src/framing.rs:217-225 | a unit longer than `max_buffer + 1`, anywhere in a stream and behind any settled buffer, makes the stream loud |
| RoundTrips.RoundTripExactly | src/framing.rs:217-289 | a list of units survives every chunking if and only if each has at most `max_buffer + 1` bytes |
| RoundTrips.HeaderStopsBefore | src/framing.rs:253-262 | nothing is cut or flushed before the length field is complete, if it lies within `max_buffer + 1` bytes |
| RoundTrips.MalformedHeader | src/framing.rs:261-283 | with a malformed header behind good units, every chunking emits those units first, and the next emitted frame starts exactly at that header |
| RoundTrips.MalformedExactly | src/framing.rs:261-277 | exactly those headers are malformed whose length field is complete and declares a total below the end of that field |
| RoundTrips.TooLittleIsFlushed | src/framing.rs:261-283 | with a header that declares too little behind good units, every chunking emits those units first, and the next emitted frame starts with that header |
| RoundTrips.TooLittleTakesTheRest | src/framing.rs:273-277 | in one push, the rest of the buffer from that header on becomes one frame and nothing is left |
| RoundTrips.MalformedReached | src/framing.rs:273-277 | in any run of chunks, the push that completes the header flushes all that has arrived from it on as one frame and leaves nothing |
| WireFormats.DelimitedUnit | src/framing.rs:237-245 | payload and delimiter form a unit if and only if the delimiter first occurs at the payload's end; the frame has the delimiter or not as configured |
| WireFormats.BorderlessFirst | src/framing.rs:311-316 | for a delimiter that does not overlap itself it is enough that the payload does not contain it |
| WireFormats.BorderedCounterexample | src/framing.rs:237-245 | a delimiter that overlaps itself has a payload that does not contain it and is still cut short |
| WireFormats.BorderlessExactly | src/framing.rs:237-245 | "does not contain the delimiter" is enough for all payloads if and only if the delimiter does not overlap itself |
| WireFormats.LineEndingsAreBorderless | src/framing.rs:147-158 | the default line feed and CR LF do not overlap themselves |
| WireFormats.DelimitedUnitForm | src/framing.rs:237-245 | every unit of a delimiter is a payload with the delimiter first at its end |
| WireFormats.DelimitedRoundTrip | src/framing.rs:237-245 | any payloads are recovered under every chunking if and only if the delimiter first occurs at the end of each and each has at most `max_buffer + 1` bytes with it |
| WireFormats.BorderlessRoundTrip | src/framing.rs:237-245 | for a delimiter that does not overlap itself, payloads that do not contain it and fit with it are recovered under every chunking |
| WireFormats.FixedUnit | src/framing.rs:246-252 | the units of a fixed length are exactly the strings of that length |
| WireFormats.WriteThenRead | src/framing.rs:293-308 | reading a written length field gives the number back, in both byte orders |
| WireFormats.ReadThenWrite | src/framing.rs:293-308 | a field is the only spelling of the number it denotes |
| WireFormats.StampedUnit | src/framing.rs:253-284 | writing its length into an encodable frame gives a unit |
| WireFormats.LengthPrefixedUnit | src/framing.rs:253-284 | a string is a unit if and only if it is encodable and its length field already declares its length |
| WireFormats.LengthPrefixedRoundTrip | src/framing.rs:217-289 | encodable frames with their lengths written in survive every chunking if and only if each has at most `max_buffer + 1` bytes |
| FramingConfigs.DelimiterConfigExactly | src/framing.rs:167-177 | under a delimiter configuration each payload comes back with its delimiter if `include_delimiter` is set and without it otherwise, under every chunking, if and only if the delimiter first occurs at the end of each and each has at most 4097 bytes with it |
| FramingConfigs.DefaultIsLines | src/framing.rs:147-165 | without a framing configuration, lines of at most 4096 bytes come back with their line feed |
| FramingConfigs.FixedConfigBlocks | src/framing.rs:178-182 | under a fixed configuration blocks of that length come back, however long it is |
| FramingConfigs.SelfDescribedIsUnit | src/framing.rs:183-201 | a frame is cut off whole exactly if it is as long as its length field says, read at the configured place, in the configured order and with the configured meaning |
| FramingConfigs.LengthPrefixedConfigExactly | src/framing.rs:183-201 | frames that describe themselves in that way come back under every chunking if and only if none has more than 4097 bytes |
| FramingConfigs.LengthPrefixedConfigMalformed | src/framing.rs:261-277 | behind such frames, a header that declares less than its own end makes the rest one frame at once |
| FramingConfigs.IdleConfigBursts | src/framing.rs:202-206 | under an idle configuration bursts of at most 4096 bytes, however cut into chunks, each come back as one frame at the gap that ends them and not before; the gap has the configured length |
| FramingConfigs.GapOnlyFlushesIdle | src/framing.rs:229-233 | a quiet gap changes nothing under any other configuration and with an empty buffer |
| Captures.Capture.constructor | src/capture.rs:29-38 | empty buffers, the first id being 1 |
| Captures.Capture.AppendRaw | src/capture.rs:40-47 | the byte-by-byte ring loop is the operation `Raw` on the whole value, ids and events untouched |
| Captures.Capture.PushEvent | src/capture.rs:50-62 | the event takes the next id and the oldest one leaves a full log |
| Captures.Capture.DropRaw | src/capture.rs:68-70 | empties the raw buffer and nothing else |
| Captures.Capture.DropEvents | src/capture.rs:80-82 | empties the events and keeps the next id |
| Captures.EnqueueAllSlides | src/capture.rs:40-47 | a ring with a capacity of at least one is the sliding window over what was appended |
| Captures.BoundedExactly | src/capture.rs:42-60 | over all runs the raw buffer is bounded by its capacity if and only if that is at least one, and so is the event log by its own |
| Captures.ZeroIsUnbounded | src/capture.rs:42-60 | for every number some run leaves more than that in each buffer of capacity zero |
| Captures.Capture.EventsSince | src/capture.rs:72-78 | the answer holds exactly the retained events with a larger id; `Captures.CaptureAnswers` adds their order |
| Captures.CaptureAnswers | src/capture.rs:64-78 | the raw bytes handed out are the last of the history, and the events handed out are the history behind the given id, as far as it is retained |
| Captures.OpRefines | src/capture.rs:40-82 | every operation keeps the buffers equal to the last N of the history since the last clear |
| Captures.RunRefines | src/capture.rs:28-83 | after any run the buffers are the last N of the history, and the retained ids are the contiguous block that ends just before the next id |
| Captures.PollAnswer | src/capture.rs:72-78 | an answer is the history behind the given id, as far as it is retained |
| Captures.PollTellsLoss | src/capture.rs:72-78 | the first id of a nonempty answer gives the exact number of events lost, and the answer goes on to the newest event |
| Captures.PollerExactly | src/capture.rs:50-82 | a client that polls with the last id it saw holds every event once and in order if and only if every nonempty answer started right behind its cursor |
| Captures.PacedPollerSeesAll | src/capture.rs:50-82 | if at most `max_events` events wait unseen and none of them is cleared, the client holds the whole history after each poll |
| Polling.PortPollerExactly | src/http.rs:297-304 | in every run of a port, a client that polls with the last id it saw holds the events of exactly the frames handled up to that id, in order and with their labels, if and only if no answer started with a gap |
| Polling.PacedPollerOfPort | src/http.rs:297-304 | if never more than `max_events` events wait unseen and no unseen one is cleared, the client holds the events of all handled frames after its last poll |
| PollBody.RenderEvents | src/http.rs:297-326 | the loop builds the JSON array with the events in order, commas between them |
| PollBody.EventReads | src/http.rs:313-321 | one rendered event reads back to its id, time stamp, data and label, whatever follows |
| PollBody.BodyRoundTrip | src/http.rs:297-326 | the body of a poll answer reads back to exactly the events, and the reader stops right behind it |
| Config.CheckRules | src/config.rs:266-281 | accepts a rule list if and only if every rule is valid; otherwise names the first rule that is not and its fault |
| Config.ResolveExactly | src/config.rs:181-214 | a match resolves exactly if one of `exact`, `regex` and `mask` is set and no other, and a mask has the length of its pattern; each error belongs to its own case |
| Config.ValidRuleExactly | src/config.rs:266-281 | a rule is valid exactly if its match is an exact one, a pattern that compiles over text, or a mask as long as its pattern, and only one of them |
| Config.CheckScenario | src/config.rs:256-281 | accepts exactly scenarios with distinct trigger names and valid rules; otherwise names a real fault |
| Config.CheckPort | src/config.rs:233-288 | accepts exactly valid ports: framing, distinct scenarios, valid rules, a declared initial scenario; otherwise names a real fault |
| Config.Validate | src/config.rs:227-291 | accepts exactly the valid configurations; an error names a fault that the configuration really has |
| Matching.PreMaskingIsSound | src/matching.rs:28-40 | for equal lengths the test against the pre-masked pattern is the bitwise comparison of frame and pattern under the mask at every index |
| Matching.MaskHoldsBitwise | src/matching.rs:28-40 | a mask holds for a frame of its own length that agrees with the pattern in every bit that the mask has set |
| Matching.CompiledRuleMeansTheSame | src/matching.rs:43-73 | a compiled rule keeps the response and matches exactly the frames for which the configured rule holds |
| Matching.CompileRulesExactly | src/matching.rs:43-73 | a rule list compiles if and only if every rule does, in order; otherwise the error is that of the first rule that does not |
| Matching.FirstMatchIsLeast | src/port.rs:202-212 | the match found is the least matching index, with that rule's response |
| Matching.CompilationPreservesMeaning | src/matching.rs:28-73 | first match over the compiled rules is the least index whose configured rule holds, with its response, or none if no rule holds |
| Matching.CompileRuleExactly | src/matching.rs:43-73 | a rule compiles exactly if its match resolves and its pattern is valid over bytes; otherwise the error carries its index and its own fault |
| Port.TriggerMapIsTheList | src/port.rs:298-311 | with distinct names the trigger table holds exactly the declared triggers with their responses |
| Port.CompilePort | src/port.rs:285-296 | the table by name, the order list, or the first error |
| Port.CompiledKeys | src/port.rs:285-296 | the scenario table has exactly the declared names |
| Port.ValidPortCompiles | src/port.rs:285-311 | a validated port compiles; its order list is the declared names in their order, free of duplicates and equal to the table's keys, the initial scenario is there, and every scenario answers every frame as configured |
| Port.ValidPortMeans | src/port.rs:196-259 | for every declared scenario of a validated port: every frame gets the label and the response of the first configured rule that holds, or neither, and looking up a trigger gives exactly the declared response |
| Port.LabelsDetermine | src/port.rs:251 | a label names one scenario and one rule only, even if scenario names contain colons |
| Port.RuleLabelLabels | src/port.rs:251 | the label is the scenario, a colon and the rule's index as a plain decimal number |
| Port.FirstFailure | src/port.rs:285-311 | a port that does not compile fails with the first scenario that does not, and with its first rule that does not |
| Port.FireTriggerOn | src/port.rs:217-229 | writes exactly the trigger's bytes; an unknown trigger writes nothing; a failed write is reported |
| Port.ProcessLineOn | src/port.rs:242-259 | returns the label of the first rule that holds even when the write fails, and writes exactly that rule's response; for a scenario that means a configured one, both are as configured |
| Port.PortState.SwapConfig | src/port.rs:153-169 | succeeds if and only if the configuration compiles and offers a scenario; then everything is new and the name stays active if it still exists; a failure changes nothing |
| Port.PortState.SwitchScenario | src/port.rs:172-183 | activates the named scenario of the current table, or fails without change |
| Port.PortState.FireTrigger | src/port.rs:188-192 | writes the active scenario's trigger; an unknown one writes nothing; a failed write is reported and leaves a proper prefix of the response |
| Port.SentAppend | src/port.rs:346-371 | parts sent for some replies and then for more are parts of all of them in order, complete exactly if both were |
| Port.PortState.HandleFrame | src/port.rs:386-408 | records one event with the answer's label whether or not the write succeeds; the output grows by a part of that one response, by all of it exactly if the write succeeds |
| Port.PortState.ReaderLoop | src/port.rs:321-372 | over any sequence of chunks, gaps and errors, the capture is that of the reader's specification run, and the output grows by a part of each of its responses in order, by all of them exactly if every write succeeds |
| Determinism.ReaderRunOfCalls | src/port.rs:328-371 | what the reader loop sends, records and keeps for chunks and gaps is the answers to the frames that the framer's calls make of them |
| Determinism.ReaderRunAnswersStream | src/port.rs:346-371 | on a stream that forces no flush before its last byte the reader loop sends, records and keeps what the stream as a whole calls for, whatever its chunks |
| Determinism.EveryRunIsAReaderRun | src/port.rs:321-408 | between two turns, in every interleaving without switch, swap, trigger and write failure, idle flushes included, the port has sent, buffered, received and recorded exactly what the sequential reader loop does for the chunks and gaps that the run took |
| Invariants.InitInv | src/port.rs:90-148 | a spawned port satisfies every invariant |
| Invariants.ConservedStep | src/port.rs:321-408 | every step keeps: emitted stretches, buffer and the chunk in hand are the bytes received |
| Invariants.InOrderStep | src/port.rs:364-371 | every step keeps: emitted frames are the recorded ones followed by those still in hand |
| Invariants.OutputStep | src/port.rs:217-259 | every step keeps: the output is the parts of the writes in the order of the writer lock |
| Invariants.SourcedStep | src/port.rs:386-408 | every step keeps: each write and each label belongs to one snapshot of the active scenario |
| Invariants.ScenariosStep | src/port.rs:153-183 | every step keeps: active, switching and swapped-in scenarios are entries of installed generations |
| Invariants.Step | src/port.rs:153-408 | every enabled step keeps every invariant |
| Invariants.RunKeepsInv | src/port.rs:153-408 | every run keeps every invariant |
| Guarantees.EventsArePrefixOfInput | src/port.rs:328-371 | without stripping, the data of all events ever recorded is at every moment a prefix of the bytes received; between turns the missing suffix is exactly the framing buffer |
| Guarantees.EventsCoverInput | src/port.rs:328-371 | with stripping, the recorded frames with their stripped delimiters are a prefix of the bytes received |
| Guarantees.OutputIsWholeResponses | src/port.rs:217-259 | while writes succeed, the output is whole responses plus part of at most one in progress under the lock, each the answer of one scenario that was active at its snapshot |
| Guarantees.EventsAndWritesAgree | src/port.rs:386-408 | one event per handled frame, in frame order, with consecutive ids; its label and the write for it come from the same snapshot |
| Guarantees.SwitchLatency | src/port.rs:386-408 | from any moment on, at most the one frame in hand is still answered by an older scenario than the one active then: every later frame is answered by a snapshot no older, and by that very scenario as long as `active` is not written again |
| Meaning.AnswersFollowTheConfiguration | src/port.rs:188-259 | in every reachable state each recorded frame carries the label that a declared scenario's first holding rule gives it, each write for a frame is that rule's response, and each write for a trigger is the response declared for it |
| Meaning.ActiveIsDeclared | src/port.rs:153-183 | every scenario that was ever active means for every frame and trigger what a scenario declared in a valid configuration says |
| Meaning.StartsAsConfigured | src/port.rs:90-110 | a port starts with the scenario that its configuration names, meaning what it says there |
| Guarantees.ActiveIsInstalled | src/port.rs:153-183 | in every interleaving the active scenario is an entry of an installed generation |
| Guarantees.FallsBehindExactly | src/port.rs:164-183 | over a whole run, `active` never falls behind `compiled` outside the window between the swap's first two writes if and only if no switch that read an older table commits outside that window |
| Guarantees.ActiveIsCurrentExactly | src/port.rs:153-183 | over a whole run, `active` is the entry of the current table under its own name outside that window if and only if every switch committed outside it commits such an entry |
| Guarantees.ActiveIsCurrent | src/port.rs:153-183 | in a run from the start that commits no such stale switch, `active` is the entry of the current table under its own name, except inside that window |
| Guarantees.NoOverlapIsEnough | src/port.rs:153-183 | if no switch is in flight when a swap installs its table, no stale switch is ever committed |
| Guarantees.StaleSwitch | src/port.rs:172-183 | a switch that overlaps a swap can leave the old scenario active over the new table, and then `active` is the entry of the current table if and only if that table has the very same scenario under the name |
| Guarantees.SwapKeepsTheName | src/port.rs:153-169 | with no switch committed meanwhile, a swap keeps the active name if and only if the new table has it, and takes the initial scenario otherwise |
| Guarantees.WholeSwap | src/port.rs:153-169 | a swap among any steps of the other threads that commit no switch: one whose configuration fails changes nothing; otherwise table, scenario and framing change one after the other, and the end result is the one that `Port.PortState.SwapConfig` promises |
| Guarantees.WholeSwitch | src/port.rs:172-183 | a switch with nothing in between ends in what `Port.PortState.SwitchScenario` promises; an unknown name changes nothing |
| Guarantees.WholeTrigger | src/port.rs:188-229 | a request for a trigger, alone and with writes that succeed, sends exactly the active scenario's response as one write, or nothing if the trigger is unknown, and gives the writer back |
| Guarantees.SwapLatency | src/port.rs:321-371 | after a change of framing at most one framer call uses an older specification |
| Guarantees.BufferSettles | src/port.rs:364-368 | after each push, from a buffer that any specification left behind, the buffer is within bounds and cannot be cut further |
| Guarantees.FramerNeverSticks | src/framing.rs:82-114 | whatever specification a reader holds in any run, its framing loop ends |
| Determinism.AnswersDependOnTheStreamAlone | src/port.rs:321-408 | in every such run without idle flushes, on a stream that forces no flush before its last byte, events, labels and output are at every moment the beginning of what the received stream as a whole calls for, and between two turns all of it |
| Determinism.SameStreamSameAnswers | src/port.rs:321-408 | two such runs that received the same bytes wrote the same bytes and recorded the same frames and labels, however the reads cut the stream |
| Deliveries.ServeAll | src/port.rs:328-371 | every list of chunks that the read buffer can take is what some run of the port reads, and that run emits what their pushes emit |
| Deliveries.LoudStreamsDiffer | src/port.rs:328-371 | if a proper prefix of a stream forces a flush, two runs that receive the stream in small reads record different frames |
| Deliveries.StreamDecidesExactly | src/port.rs:321-408 | all gap-free undisturbed runs that receive a stream answer and record the same if and only if no proper prefix of the stream forces a flush |
| Reload.PortMap.Insert | src/server.rs:37-42 | files the port under its own name and changes no other entry |
| Reload.PortMap.Remove | src/server.rs:44-46 | returns the entry and removes exactly that one |
| Reload.ValidSwapSucceeds | src/port.rs:153-163 | a valid configuration that compiles always offers a scenario to a swap |
| Reload.Spawn | src/port.rs:90-148 | succeeds if and only if the configuration compiles, has its initial scenario and the transport opens; the new port is fresh, empty and in its initial scenario |
| Reload.ReloadOne | src/reload.rs:45-64 | a live port keeps its identity and capture contents and is swapped, another is started if possible, and no other port changes |
| Reload.UpdateAndSpawn | src/reload.rs:45-64 | every declared port is swapped or started; every other port, capture included, is left as it was |
| Reload.DropRemoved | src/reload.rs:67-75 | removes exactly the earlier names that are not declared any more |
| Reload.ValidPortsStart | src/reload.rs:40-76 | in a validated configuration a port that is not live starts if and only if its transport opens |
| Reload.Apply | src/reload.rs:40-76 | the live names are exactly the declared ones that were live or can be opened; those that stay are the same objects with the same capture contents, swapped; new ones are fresh; dropped ones are unchanged |
| Hex.DecodeHex | src/bytes.rs:47-75 | the loop with its lookahead computes the decoded value or the error of the whole literal |
| Hex.DigitExactly | src/bytes.rs:66-68 | a character reads as a number below 16 exactly when it is that digit in lower or upper case |
| Hex.IgnorableExactly | src/bytes.rs:61-64 | the skipped characters are tab, line feed, form feed, carriage return, space, colon and underscore, and no other |
| Hex.ScanReadsTokens | src/bytes.rs:50-71 | digits, fillers and prefixes in any order read as the digits alone; no two tokens run together |
| Hex.ScanExactly | src/bytes.rs:50-71 | a literal has given digits if and only if tokens with those digits spell it |
| Hex.RejectedCharacter | src/bytes.rs:66-68 | the character named by an error stands behind well-formed tokens and is neither digit nor filler |
| Hex.PackedExactly | src/bytes.rs:72-74 | packing digits in pairs gives some bytes if and only if the digits are the halves of those bytes |
| Hex.DecodeExactly | src/bytes.rs:47-75 | a literal decodes to some bytes if and only if it spells their digits, decorated anywhere |
| Hex.OddIsRejected | src/bytes.rs:72-74 | an odd number of digits is rejected with that number |
| Hex.PrefixInsideAByte | src/bytes.rs:51-60 | `10x2` decodes to the byte 0x12 |
| Hex.HexEncode | src/http.rs:428-436 | the loop produces the lower-case Base16 text, two digits a byte |
| Hex.HexPairIsNumber | src/http.rs:431-434 | the two digits of a byte are its quotient and its remainder by sixteen, in that order |
| Hex.HexTextIsLower | src/http.rs:429 | the encoding is in lower case |
| Hex.HexRoundTrip | src/http.rs:428-436 | decoding inverts encoding |
| Json.JsonEscape | src/http.rs:412-426 | the loop produces the escape of each character in order |
| Json.EscapeCharReads | src/http.rs:415-423 | one escaped character reads back as itself, whatever follows |
| Json.EscapeIsShort | src/http.rs:415-423 | quotation mark, backslash, line feed, carriage return and tab take two characters, any other control character six with lower-case digits, and everything else stands for itself |
| Json.JsonRoundTrip | src/http.rs:412-426 | a JSON string reader recovers an escaped and quoted string and stops right behind it |
| Json.EscapedIsInjective | src/http.rs:412-426 | different strings have different escapes |

## Left out

- Machine widths: `usize` and `u64` offsets, lengths and ids are unbounded here; a length field itself is read in 64 bits.
- The operating system: opening the transport, `poll`, symlinks, descriptors and `Drop`. A read yields 1 to 1024 bytes or ends the reader, a wait may time out at any moment, and whether a port opens is a parameter.
- The end of a reader thread after its port is removed: it depends on the operating system, and nothing is claimed about it.
- The regular-expression engine: three uninterpreted functions; that a pattern valid over text is valid over bytes is the explicit assumption `Config.Sound` wherever it is needed.
- YAML and serde, base64, `utf8` and `bytes` literals: the model starts from parsed configurations.
- Transport, HTTP and logging sections of the configuration.
- HTTP sockets, routing, query strings, and the JSON of port summaries.
- The command line, completion scripts, logging and `main`.
- Time: time stamps are arbitrary numbers.
- `flush` after a write: its result is ignored by the source, so a write is complete when `write_all` returns.
- Poisoned locks: no thread of the model panics while it holds a lock.
- Iteration order of hash maps: removal of dropped ports visits the names in any order.
- Port.PortState.ReaderLoop: runs without interference and without a reload; `Determinism.EveryRunIsAReaderRun` and `Invariants.Step` cover interleavings.
- Reload.Apply: runs without interference from HTTP requests; the swap of one port under interference is `Guarantees.WholeSwap`.
- Determinism.AnswersDependOnTheStreamAlone: leaves out idle flushes, whose place in the stream depends on time and not on the bytes; `Determinism.EveryRunIsAReaderRun` has them.
- Determinism.EveryRunIsAReaderRun: compares everything but the time stamps of the events.
