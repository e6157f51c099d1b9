# CSPromator telemetry, modelled and proved

CSPromator turns Game State Integration (GSI) packets and optional supplementary team counts into factual events
(`ROUND_STARTED`, `PLAYER_KILL`, ...) and semantic ones (`ACE`, `CLUTCH_*`), records both inputs, and can replay a
recorded session offline. This project models that whole path, from the bytes of a packet to the batches of events,
and proves what it promises over whole runs.

How it is laid out:

- `Telemetry`, `Text`, `Traces`: the values that flow, decimal text, automata over event traces.
- `Json`, `JsonTables`, `JsonGrammar`, `JsonPrinting`: the parser object with its cursor, the digit and escape tables and
  the grammar of RFC 8259 as concrete syntax trees, UTF-8 (RFC 3629), escapes.
- `GameStates`, `FieldPaths`, `Documents`: the normalizer, its identity gate, the value at every field's path, and a
  document for every state it can produce.
- `EventDetection`: the detector object and its specification; `DetectorReference`: what a stream should be reported as,
  read off its snapshots alone; `DetectorTheorems`, `DetectorLedger`: what holds of its traces.
- `SupplementaryCounts`, `SemanticResolution`: the resolver object and its specification; `ResolverTheorems`,
  `AceTheorems`, `ContextTheorems`: what holds of its histories.
- `Spine`, `Supplements`, `Spectating`, `SpectatedBodies`, `Mirror`, `SourceBlind`: detector and resolver together, and
  theorems about two runs.
- `Limits`: concrete histories that show where a conditional theorem needs its condition.
- `SessionText`, `SessionFiles`, `RowMeanings`, `SessionLoading`, `Storage`: the text formats, the loaders, what they
  read from every text of every schema version, the storage round trip.
- `Recording`, `LivePipeline`, `Gate`, `Interleaving`, `QueueTheorems`, `Acceptance`, `Analysis`, `ReplayTheorem`:
  recorder, live pipeline and ingress gate as objects, all their threads as one state machine over interleaved actions,
  and the theorem that offline analysis reproduces the live batches.

The classes carry the source's fields. Each method is proved to compute a specification function on an immutable
copy of the state (`EventDetection.Detect`, `SemanticResolution.ProcessGsi`, `Json.ParseValue`, ...); the theorems are
lemmas about those functions and their iteration. What such a function computes is also stated without it, in
definitions that share no helper with it: `DetectorReference` for the detector, `FieldPaths` for the normalizer,
`JsonTables` and `JsonGrammar` for the parser, `RowMeanings` for the loaders, team counts named by team in
`SupplementaryCounts` for the resolver. Where a C++ function throws, the model returns `None` or `false`.

Three facts of the code shape the statements. A packet stamped before the last accepted supplement, or one after its age
limit, skips the whole clutch and ace evaluation (`src/semantic_resolver.cpp:368-389`). The clutch flag is then still its
declarative predicate if what the skipped evaluation leaves alone was right anyway, and else it is not, although
`docs/SUPPLEMENTARY_STATE_ARCHITECTURE.md` states the clutch conditions without that proviso:
`ResolverTheorems.ClutchExactly` says for every history exactly when it is, `Limits.ClutchNeedsTimelyPackets` is a run of
detector and resolver in which it is not. The context shows counts from before the known round start exactly when such a
supplement was accepted after the last packet, which takes packet times that go back (`ResolverTheorems.OldCountsExactly`,
`Limits.ContextNeedsOrderedPackets`). And a gap in which no other player is seen does not count as a loss of the local
player (`src/event_detector.cpp:177-188`), so what a counter gains across it is never reported;
`DetectorTheorems.CountersConserved` accounts for exactly that amount.

## Model

| member | source | states |
|---|---|---|
| ReplayTheorem.ReplayEqualsLive | src/main.cpp:268-310 | for every interleaving of producers, both workers and the stopper, once both workers have ended without an error and no enqueue failed, analysing the files yields exactly the event batches that the live worker handed to its handler |
| ReplayTheorem.ReplayAndLiveAgree | src/live_event_pipeline.cpp:73-116 | at every moment without a recorder failure or a refused live enqueue, the batches of analysis and of the live worker are both prefixes, of the stored and the processed length, of one sequence of batches |
| ReplayTheorem.RowsAlwaysLoad | src/session.cpp:226-247 | at every moment of every run, also between the two writes of a record and after a failed write of a body or of a supplementary row, the timeline loads, names exactly the stored snapshots, and each body it names loads with its bytes |
| ReplayTheorem.QueuesKeepEverything | src/session.cpp:130-216 | after every sequence of actions: stored, in-hand and queued records are the accepted ones in order; ingress orders are 1 to n with n the sum of both source counters; the live pipeline took records in that same order and lost none of them |
| ReplayTheorem.CleanStopFinishes | src/session.cpp:179-206 | a worker that ended without an error has persisted everything accepted, or processed everything delivered |
| ReplayTheorem.GateLosesNothing | src/telemetry_ingress.cpp:11-31 | as long as the live pipeline is not stopping and no call is in progress, everything accepted was delivered |
| Acceptance.AcceptedExactly | src/session.cpp:130-177 | in every run the accepted records are, in order and field by field, exactly the submissions that came through a free gate to a recorder that was running and, for a supplement, had possible counts and a tick not before the session start |
| Acceptance.StoredExactly | src/session.cpp:226-269 | each action completes at most one record: the next accepted one, with the clock's reading at its row and, for a body, the offset at which it starts |
| Acceptance.AdmitsExactly | src/session.cpp:154-168 | which submissions the recorder takes, with the counts condition spelled out number by number |
| Acceptance.EveryRunCanFinish | src/session.cpp:179-216 | from every moment of every run without a failure some continuation accepts nothing more and ends both workers cleanly; if the live pipeline was not stopping, with everything accepted delivered |
| Acceptance.RecorderFailureIsFinal | src/session.cpp:211-216 | after the recorder's worker failed no action makes it accept a record or change a file |
| Acceptance.LiveFailureIsFinal | src/live_event_pipeline.cpp:18-50 | after the live worker failed nothing more is delivered to it or handled |
| QueueTheorems.AlwaysInv | src/session.cpp:191-247 | both queue invariants hold in every reachable state |
| QueueTheorems.NextKeepsRecorder | src/session.cpp:191-269 | each single action keeps the recorder's invariant: numbering, nothing lost, rows tile the raw bytes, rows describe stored records |
| QueueTheorems.NextKeepsLive | src/live_event_pipeline.cpp:18-122 | each single action keeps the live pipeline's invariant: first in first out, nothing lost, state equal to the items handled so far |
| LivePipeline.WorkerRunsSpine | src/live_event_pipeline.cpp:73-116 | the guard on the latest state never drops a batch: the handler gets exactly the non-empty batches of detector and resolver, in order |
| LivePipeline.BatchesExactly | src/live_event_pipeline.cpp:92-115 | each batch is handed over with the state of the last usable body up to its item, and the latest state is that one |
| LivePipeline.HandleFromFresh | src/live_event_pipeline.cpp:73-116 | draining a queue in one go ends where the interleaved worker ends |
| LivePipeline.LiveEventPipeline.HandleItem | src/live_event_pipeline.cpp:92-115 | one pass of the worker's loop computes `Handle` |
| LivePipeline.LiveEventPipeline.DrainQueue | src/live_event_pipeline.cpp:73-116 | the loop empties the queue from the front and handles each item once |
| LivePipeline.LiveEventPipeline.Enqueue | src/live_event_pipeline.cpp:18-50 | refused once stopping, stopped or failed, and then nothing changes; else appended at the back |
| LivePipeline.LiveEventPipeline.StopAndFlush | src/live_event_pipeline.cpp:52-71 | everything queued is handled before it returns; a second call changes nothing; a failed worker is reported |
| Gate.TelemetryIngress.EnqueueGsi | src/telemetry_ingress.cpp:11-22 | the recorder numbers the body first; exactly the record it accepted, with its sequence and time, goes to the live queue |
| Gate.TelemetryIngress.EnqueueSupplementary | src/telemetry_ingress.cpp:24-31 | the same for supplements: the live queue gets the snapshot as the recorder numbered it |
| Gate.CallIsTwoActions | src/telemetry_ingress.cpp:15-21 | under the gate's mutex a call amounts to the two gate actions of the interleavings in a row |
| Recording.SessionRecorder.Enqueue | src/session.cpp:130-152 | refused after a worker error or while stopping; else the next sequence and ingress order, at the back of the queue |
| Recording.SessionRecorder.EnqueueSupplementary | src/session.cpp:154-177 | also refused for invalid counts and for ticks before the session start |
| Recording.SessionRecorder.PersistSnapshot | src/session.cpp:226-247 | the body is appended, the row carries the offset at which it starts, the offset advances by its length |
| Recording.SessionRecorder.PersistSupplementary | src/session.cpp:249-269 | one row is appended to the supplementary timeline and nothing else changes |
| Recording.SessionRecorder.Drain | src/session.cpp:191-210 | the stopping worker persists the whole queue in order |
| Analysis.CommandAnalyze | src/main.cpp:255-320 | the command prints the non-empty batches, event counts and input counts of the loaded observations, exits 0 or 3, and fails with 2 exactly when loading throws |
| Analysis.Analyzer.AnalyzeItem | src/main.cpp:268-310 | one pass of the loop feeds one observation to detector and resolver and counts it |
| Analysis.TallyCounts | src/main.cpp:306-309 | the count of a kind is the number of its events, and kinds that never occurred are absent |
| Analysis.TotalsExactly | src/main.cpp:264-295 | the three input counts are the numbers of GSI observations, of supplements and of GSI observations without a usable payload |
| Analysis.InvalidExactly | src/main.cpp:277-319 | invalid payloads are reported exactly when some stored body is not the text of a JSON object |
| SourceBlind.SourcesNeverMatter | src/session.cpp:352-353 | runs whose supplements differ only in their source kind emit the same batches and differ in nothing but that kind |
| Storage.StorageRoundTrip | src/session.cpp:271-416 | for every accepted log of bodies (any bytes) and valid supplements, the files load back to the same records, bodies and recorded sources, in acceptance order, whatever raw bytes follow |
| Storage.SortFacts | src/session.cpp:390-399 | the merged sort is a permutation of what was loaded in which no item precedes an earlier one |
| Storage.SortedOnce | src/session.cpp:391-399 | with distinct ingress orders only one sorted permutation exists, so the other two keys never decide |
| Storage.TimelineRowRead | src/session.cpp:235-246 | a written timeline row parses back to its record |
| Storage.SupplementaryRowRead | src/session.cpp:254-265 | a written supplementary row parses back to its snapshot, live source Replay, recorded source kept aside |
| Storage.HeadersReadable | src/session.cpp:271-279 | the header that is written announces packed bodies and an ingress order to the loader |
| RowMeanings.TimelineRowExactly | src/session.cpp:283-308 | for all four kinds of header and every line: a row is read exactly when it has a cell for every column, and each field of the record is what the cell of its column says; the ingress order defaults to the sequence, the offset to 0; further cells are ignored |
| RowMeanings.SupplementaryRowExactly | src/session.cpp:334-362 | a supplementary row is read exactly when it has eleven cells, numbers where columns want them, a known source and possible counts; an empty optional cell is an absent number |
| RowMeanings.SchemaExactly | src/session.cpp:277-278 | packed exactly when "body_offset" occurs in the header, an ingress order exactly when the header starts with its column |
| RowMeanings.HeadersTold | src/session.cpp:275-278 | the headers of the columns of each schema announce that schema |
| RowMeanings.RecorderHeader | src/session.cpp:111 | the header that the recorder writes names the v3 columns in their order |
| RowMeanings.SupplementHeader | src/session.cpp:323-324 | the header that the supplementary loader insists on names the eleven columns in their order |
| SessionLoading.TimelineExactly | src/session.cpp:271-311 | for every content of the file: the timeline loads exactly when every non-empty line after the header has the cells that the header names, to the records that they show |
| SessionLoading.SupplementsExactly | src/session.cpp:313-365 | no file, no supplements; another header fails; else exactly when every row shows a supplement |
| SessionLoading.StreamExactly | src/session.cpp:367-400 | a session loads exactly when both timelines do, and then to the one sequence in order of ingress order, time and kind that keeps loaded items with equal keys as they were |
| SessionLoading.BodyExactly | src/session.cpp:402-416 | a body is the content of its file, or the bytes of `raw.gsi` at its offset; a short read fails |
| SessionLoading.OldRowRead | src/session.cpp:291-306 | a v1 row with its file name and a v2 row with offset and size parse back to their record |
| SessionLoading.OldSessionLoads | tests/session_storage_tests.cpp:123-179 | every v1 and v2 timeline with increasing sequences loads to its records in that order, with the sequence as ingress order and no supplements |
| SessionLoading.PackedSessionLoads | tests/session_storage_tests.cpp:123-155 | and for v2 each record loads its body from the raw file |
| SessionFiles.ReadTimeline | src/session.cpp:271-311 | the loading loop computes `LoadTimeline` for schemas v1, v2 and v3, including what throws |
| SessionFiles.ReadSupplementaryTimeline | src/session.cpp:313-365 | the loading loop computes `LoadSupplementaryTimeline`, including what throws |
| SessionFiles.ReadReplayStream | src/session.cpp:367-400 | both timelines loaded, joined and sorted |
| SessionText.SplitTsv | src/session.cpp:45-58 | the splitting loop computes `Fields` |
| SessionText.FieldsOfJoined | src/session.cpp:45-58 | fields without tabs, joined by tabs, split back to themselves |
| SessionText.JoinedOfFields | src/session.cpp:45-58 | the fields of any line, joined by tabs, are the line, and none holds a tab |
| SessionText.LinesOfRows | src/session.cpp:282 | rows without line feeds read back line by line |
| SessionText.LinesExactly | src/session.cpp:282 | the lines of any text hold no line feed and, each ended by one, make up the text, except that a non-empty last line may lack it |
| SessionText.ContainsExactly | src/session.cpp:277 | `find` succeeds exactly if the pattern occurs somewhere |
| SessionText.StoullReads | src/session.cpp:291-298 | `stoull` reads back every written `uint64_t` |
| SessionText.StoullExactly | src/session.cpp:291-305 | for every text: `stoull` succeeds exactly on space, sign, digits below 2^64 and any rest; a minus sign negates modulo 2^64 |
| SessionText.StoiExactly | src/session.cpp:68-71 | for every text: `stoi` succeeds exactly on space, sign, digits in the range of `int` and any rest |
| SessionText.StoiReads | src/session.cpp:68-71 | `stoi` reads back every written `int` |
| SessionText.OptionalsRead | src/session.cpp:60-76 | optional numbers, empty when absent, read back |
| Text.IntTextExactly | src/session.cpp:60-66 | the text of an integer is the one decimal text without leading zeros that denotes it |
| Text.DigitsByPlace | src/session.cpp:68-76 | each digit counts by its place from the front |
| JsonGrammar.ParseExactly | src/game_state.cpp:49-307 | `parse` returns a value exactly when the text is a tree of the RFC 8259 grammar, printed with any whitespace between tokens, that denotes the value; tree and denotation use their own tables of blanks, digits and escapes and their own reading of numbers |
| JsonPrinting.TreesParseBack | src/game_state.cpp:49-307 | every tree of objects, arrays, byte strings, `int64_t` integers, booleans and null has a printed form, and with any whitespace around it that form parses back to the tree |
| JsonGrammar.DuplicatesKeepLast | src/game_state.cpp:126 | an object holds exactly the keys written in it, each with its last value |
| JsonGrammar.NumberExactly | src/game_state.cpp:280-295 | the value found by scanning a token is the one its parts denote: an `int64_t` if written as an integer that fits, else a double if the decimal value rounds to a finite one, else nothing |
| JsonTables.HexDigitExactly | src/game_state.cpp:158-163 | the value of a hexadecimal digit is its position among the sixteen lower-case or the sixteen upper-case digits, and no other byte has one |
| JsonTables.FourHexExactly | src/game_state.cpp:183-196 | four digits of any case, most significant first |
| JsonTables.DigitExactly | src/game_state.cpp:255-276 | a decimal digit is one of the ten, and its value is its position |
| JsonTables.EscapeExactly | src/game_state.cpp:217-225 | the eight single-byte escapes and the bytes they stand for |
| JsonTables.BlankExactly | src/game_state.cpp:68-76 | whitespace is space, tab, line feed and carriage return |
| JsonGrammar.NumberRead | src/game_state.cpp:252-295 | a well-formed number token is read whole, whatever terminates it, as what its parts denote |
| JsonGrammar.NumberWritten | src/game_state.cpp:252-295 | whatever is read as a number is a well-formed token, read as what its parts denote |
| Json.JsonParser.ParseText | src/game_state.cpp:53-61 | the cursor-moving parser computes `Parse` and terminates with every index in bounds, on any text |
| Json.JsonParser.ParseAnyValue | src/game_state.cpp:87-105 | the value at the cursor and the cursor behind it, or failure |
| Json.JsonParser.ParseObjectRest | src/game_state.cpp:107-135 | the member loop |
| Json.JsonParser.ParseArrayRest | src/game_state.cpp:137-156 | the item loop |
| Json.JsonParser.ParseStringToken | src/game_state.cpp:198-250 | the string loop |
| Json.JsonParser.ParseUnicodeEscape | src/game_state.cpp:226-242 | one escape or a surrogate pair |
| Json.JsonParser.ParseFourHex | src/game_state.cpp:183-196 | four digits accumulated into one value, or failure |
| Json.JsonParser.ParseNumberToken | src/game_state.cpp:252-295 | integer part, fraction, exponent and the value of the token |
| JsonPrinting.ScalarRoundTrip | src/game_state.cpp:226-242 | every Unicode scalar, escaped (a surrogate pair above U+FFFF) with any mixture of upper-case and lower-case digits, parses to its UTF-8, which decodes back to it |
| JsonPrinting.Utf8Decodes | src/game_state.cpp:165-181 | what is appended for a scalar is its encoding by RFC 3629 section 3 |
| JsonPrinting.Utf8Unique | src/game_state.cpp:165-181 | and the only byte sequence that RFC 3629 decodes to it |
| JsonPrinting.UnpairedRefused | src/game_state.cpp:228-239 | an escape is accepted exactly for a scalar, or for a high surrogate that an escaped low surrogate follows |
| JsonPrinting.JsonEscape | src/session.cpp:27-43 | the escaping loop computes `Escaped` |
| JsonPrinting.EscapedReadsBack | src/session.cpp:27-43 | escaped text between quotes parses to the text with exactly the control bytes other than tab, line feed and carriage return replaced by question marks |
| GameStates.NormalizedIsGated | src/game_state.cpp:386-407 | the local player is recognised exactly when both identities are present and equal, and without that no counter gets through |
| FieldPaths.FieldsExactly | src/game_state.cpp:374-407 | for every packet, whatever else it holds: each field is the text or number stored under its own keys, the counters only when both identities are present and equal |
| FieldPaths.BodyExactly | src/game_state.cpp:359-371 | a body that is not the text of an object leaves every field empty and is marked unusable; any other gives the fields at their paths |
| Documents.DocumentNormalizes | src/game_state.cpp:374-410 | written out as a document, every state the normalizer can produce normalizes back to exactly itself |
| Documents.EveryStateHasABody | src/game_state.cpp:359-410 | and there is a body, with any whitespace around it, that does so |
| Documents.NormalizedIsNormal | src/game_state.cpp:359-410 | conversely, a usable body of any bytes gives only such states: `int` fields within `int`, counters only of the local player |
| GameStates.NarrowFacts | src/game_state.cpp:341-343 | the narrowing to `int` keeps what fits and otherwise the value modulo 2^32 |
| GameStates.FormattingIrrelevant | src/game_state.cpp:359-371 | two bodies that denote the same value normalize to the same state |
| SpectatedBodies.OtherPlayersVeiled | src/game_state.cpp:386-407 | documents that differ only in the object of another observed player normalize to states that differ only in what is said about that player |
| SpectatedBodies.SpectatedBodiesNeverMatter | src/live_event_pipeline.cpp:92-115 | from the bytes on, what packets say about another observed player influences neither batches nor context |
| Spectating.SpectatorNoninterference | src/event_detector.cpp:177-286 | two runs that differ only in which other player is observed and in that player's team, activity and counters have identical events, batches and contexts; round kills need only agree in snapshots that did not pass the identity gate |
| EventDetection.EventDetector.Process | src/event_detector.cpp:136-383 | the object's step computes `Detect` on its fields |
| EventDetection.EventDetector.TrackLocalPlayer | src/event_detector.cpp:172-207 | acquisition, loss and restoration, and the two flags they leave |
| EventDetection.EventDetector.CompareLocal | src/event_detector.cpp:209-286 | the comparison of two adjacent local snapshots |
| EventDetection.EventDetector.CloseRound | src/event_detector.cpp:306-344 | round end and outcome, with the two remembered rounds |
| EventDetection.EventDetector.ComparePhases | src/event_detector.cpp:346-373 | freeze, round start, halftime, team change and game over |
| EventDetection.EventDetector.ClearMatchMemory | src/event_detector.cpp:125-134 | everything but the previous snapshot is forgotten |
| DetectorReference.BatchExactly | src/event_detector.cpp:136-383 | after any usable snapshots the batch of the next is the report read off the snapshots alone: no memory, no flags; which kinds, in which order, with which amounts, values and teams |
| DetectorReference.TraceExactly | src/event_detector.cpp:136-383 | so over every stream, unusable payloads included, which report nothing and leave nothing behind |
| DetectorReference.EventsExactly | src/event_detector.cpp:288-373 | an event is in a batch if and only if its kind is due and it says what that kind tells: a won round by the local team last shown against the winner named now, a round start only from freeze time to live |
| DetectorTheorems.LifecycleGrammar | src/event_detector.cpp:142-207 | over every stream: per match an optional single acquisition, then strictly alternating loss and restoration, and the flags say where the trace is |
| DetectorTheorems.RestoreExcludesPairwise | src/event_detector.cpp:187-209 | the restore path and the pairwise path never both report |
| DetectorTheorems.OutcomeGrammar | src/event_detector.cpp:306-344 | between match boundaries adjacent `ROUND_ENDED` values differ, an outcome carries the latest one, at most one outcome follows each, and a won round names one team, a lost one two |
| DetectorTheorems.EndedRoundsClimb | src/event_detector.cpp:316-326 | with present, non-decreasing round counters the ended rounds strictly increase |
| DetectorTheorems.CountersConserved | src/event_detector.cpp:187-207 | in every match the assists (MVPs) reported, plus those gained across blind gaps, are exactly the positive increments between successive local readings |
| DetectorTheorems.WitnessedGapsLoseNothing | src/event_detector.cpp:252-285 | when local snapshots carry the counter and every gap shows another player, nothing is lost across gaps |
| DetectorTheorems.GainsTelescope | src/event_detector.cpp:252-285 | for a counter that never goes back the gains are last minus first |
| DetectorLedger.LedgersBalance | src/event_detector.cpp:209-250 | within a match the kills, headshots and damage reported are exactly those between adjacent local snapshots |
| DetectorLedger.LedgersTelescope | src/event_detector.cpp:209-250 | while the local player is watched, they are last minus first plus the falls, which are not reported |
| DetectorLedger.SwitchesAlternate | src/event_detector.cpp:288-361 | plantings and clearings alternate, halftimes start and end in turn, and the trace always says what the snapshot says |
| DetectorLedger.TeamsChain | src/event_detector.cpp:363-369 | the team changes of a match lead, one link at a time, from the team known first to the team known now |
| DetectorLedger.AtMostOneCandidate | src/event_detector.cpp:222-242 | while the local player's threshold stays and kills never go back, whoever is watched in between, at most one ace candidate is reported, and then the threshold was reached |
| SemanticResolution.SemanticResolver.ProcessGsiState | src/semantic_resolver.cpp:336-409 | the object's step on a packet computes `ProcessGsi` on its fields |
| SemanticResolution.SemanticResolver.ProcessSupplementary | src/semantic_resolver.cpp:411-444 | the object's step on a supplement computes `ProcessSupplement` on its fields |
| SemanticResolution.SemanticResolver.BeginRound | src/semantic_resolver.cpp:106-134 | a round start forgets the last round and fixes the baseline |
| SemanticResolution.SemanticResolver.ObserveRoster | src/semantic_resolver.cpp:182-200 | a contradiction of the baseline is remembered |
| SemanticResolution.SemanticResolver.EvaluateClutchState | src/semantic_resolver.cpp:234-289 | clutch start, update and end from the evidence at hand |
| SemanticResolution.SemanticResolver.EvaluateAceState | src/semantic_resolver.cpp:291-334 | an ace exactly when all evidence is at hand, at most once |
| SemanticResolution.SemanticResolver.Reset | src/semantic_resolver.cpp:45-64 | every field is back to its initial value |
| AceTheorems.AceExactly | src/semantic_resolver.cpp:291-334 | `ACE` is emitted at an input if and only if evidence is weighed there and a round of the history carries the certificate: a baseline fixed at its start, every snapshot weighed since agreeing with it as the then-local team saw it, fresh evidence of no enemy alive, the enemy total and the kills equal to the baseline total, no ace before; its value is that total. Enemies are the other team's counts by name |
| AceTheorems.FieldsTrackHistory | src/semantic_resolver.cpp:106-200 | at every input of a round the private baseline, churn and ace fields are exactly the history's summary |
| AceTheorems.AtMostOneAcePerRound | src/semantic_resolver.cpp:294-332 | between two aces a round has started |
| AceTheorems.ModeExactly | src/semantic_resolver.cpp:20-25 | an ace takes competitive, casual or retakes mode |
| AceTheorems.BatchesInOrder | src/semantic_resolver.cpp:369-398 | in every batch only the clutch end of a closing round or match comes after an ace |
| ResolverTheorems.ReachableInv | src/semantic_resolver.cpp:336-444 | in every reachable state the exported context agrees with the private flags, a clutch has opponents and usable evidence, a baseline has a known start |
| ContextTheorems.ContextShowsEvidence | src/semantic_resolver.cpp:78-104 | after every input of every history the lifecycle fields are those of the latest packet, and counts are shown only with the time, source and difference of the latest supplement as the local team sees it |
| ContextTheorems.PacketContextExactly | src/semantic_resolver.cpp:336-409 | after a packet counts are on show exactly when the evidence was evaluated and the local team is one of the two; the player is alive by the latest fact or reading and acquired once shown; leaving the match blanks everything |
| ContextTheorems.SupplementContextExactly | src/semantic_resolver.cpp:411-444 | after an accepted supplement exactly when a packet came before and the local team is one of the two; a refused one leaves the context as it was |
| ContextTheorems.LifecycleExactly | src/semantic_resolver.cpp:78-104 | each phase is announced by exactly its packets, the map's phases before the round's |
| ContextTheorems.InitialBlank | src/semantic_resolver.cpp:45-64 | a new resolver, and one after a match was left, knows nothing |
| ResolverTheorems.PacketClutchExactly | src/semantic_resolver.cpp:336-409 | from every reachable state, the clutch flag, opponents and context are right after a packet if and only if a match was entered, the round or match is over, the evidence was evaluated, or the opponents already stored are those that the supplement and the packet's phase, health and team leave |
| ResolverTheorems.ClutchHoldsExactly | src/semantic_resolver.cpp:234-262 | the clutch predicate: live round with a known start and no end, local player alive and last of the own team by name, at least one enemy, counts from that round |
| ResolverTheorems.ClutchExactly | src/semantic_resolver.cpp:336-444 | in every history they are right if and only if the last packet or accepted supplement read the evidence right in that sense |
| ResolverTheorems.ClutchRefinement | src/semantic_resolver.cpp:234-289 | in every history of timely packets the clutch flag, opponents and context are exactly the declarative predicate on the evidence |
| ResolverTheorems.ClutchGrammar | src/semantic_resolver.cpp:216-289 | unconditionally, starts are separated by an end, a round start or a match entry; updates and ends occur only while active; values chain |
| ResolverTheorems.NoClutchAfterRoundEnd | src/semantic_resolver.cpp:391-406 | after the batch that ends a round no clutch starts until the next round start |
| ResolverTheorems.PacketShowsNothingOld | src/semantic_resolver.cpp:364-389 | no packet ever ends with counts from before the known round start on show, whatever its time |
| ResolverTheorems.SupplementShowsOldExactly | src/semantic_resolver.cpp:411-444 | an accepted supplement does if and only if it precedes the known start and the local team sees it |
| ResolverTheorems.OldCountsExactly | src/semantic_resolver.cpp:336-444 | in every history old counts are on show if and only if such a supplement was accepted after the last packet |
| ResolverTheorems.ContextShowsCurrentRound | src/semantic_resolver.cpp:366-389 | with ordered packets the round never starts after the latest packet and the context only shows counts of the current round |
| ResolverTheorems.AcceptsExactly | src/semantic_resolver.cpp:411-424 | a supplement is taken exactly when its counts are possible and neither an accepted supplement nor a packet is newer |
| ResolverTheorems.FreshExactly | src/semantic_resolver.cpp:66-76 | fresh exactly when not stamped later and not beyond the age limit; by default there is none, and an ace takes a roster revision |
| ResolverTheorems.PacketStamps | src/semantic_resolver.cpp:202-232 | every semantic event of a packet is certain, from both sources, under its number and time, with a value |
| ResolverTheorems.SupplementStamps | src/semantic_resolver.cpp:202-232 | and of a supplement, under the latest packet's number and the supplement's time |
| Limits.ClutchNeedsTimelyPackets | src/semantic_resolver.cpp:368-389 | freeze time, a live packet at 10, a supplement at 30, a packet at 20 in which the player dies: run through detector and resolver, the dead player's clutch stays active |
| Limits.ContextNeedsOrderedPackets | src/semantic_resolver.cpp:417-430 | freeze time, a live packet at 100, one at 50, a supplement at 60: the context shows its counts although the known round started at 100 |
| Limits.BlindGapLoses | src/event_detector.cpp:177-188 | a gap in which nobody else is seen: two assists gained in it are never reported |
| Spine.CombinedClutchGrammar | src/semantic_resolver.cpp:216-289 | the clutch grammar of detector and resolver together, over every run |
| Spine.StrictClutchGrammar | src/semantic_resolver.cpp:216-289 | with timely packets and no round phase while detached the trace is exactly (Started Updated* Ended)* with an open tail while the clutch holds |
| Spine.ResolverRunsHistory | src/live_event_pipeline.cpp:92-111 | a run of detector and resolver is the resolver's history of valid packets with the detector's facts, so all theorems about histories hold of runs |
| Spine.RunsExactly | src/semantic_resolver.cpp:336-444 | in every run, the two exact conditions for the clutch and for old counts |
| Spine.AcquisitionAlwaysAgrees | src/semantic_resolver.cpp:346-348 | while attached the resolver's acquisition flag is the detector's |
| Spine.BatchFacts | src/event_detector.cpp:142-180 | which steering facts a batch holds, read off two snapshots |
| Supplements.SupplementsNeverDisturbFacts | src/semantic_resolver.cpp:336-444 | deleting every supplement leaves exactly the factual events, the same detector, and a resolver that differs only in what supplements wrote |
| Supplements.NoSupplementsNoSemantics | src/semantic_resolver.cpp:368-389 | without supplements nothing semantic is emitted |
| Supplements.RejectedLeaveNoTrace | src/semantic_resolver.cpp:414-422 | deleting exactly the rejected supplements changes nothing |
| Supplements.AcceptedTimesNonDecreasing | src/semantic_resolver.cpp:417-424 | within a match accepted supplement times never go back |
| Supplements.MatchLeaveForgets | src/semantic_resolver.cpp:400-406 | two histories that leave a match on the same snapshot have the same states and batches over every common continuation |
| Mirror.MirrorSymmetry | src/supplementary_state.cpp:44-67 | swapping CT and T in every input leaves contexts and semantic events unchanged, and facts but for team names; in retakes mode ace candidates are excepted |
| SupplementaryCounts.PerspectiveMirror | src/supplementary_state.cpp:44-67 | each team sees the counts as the other sees the mirrored ones |
| SupplementaryCounts.PerspectiveExactly | src/supplementary_state.cpp:44-67 | a view exists exactly for valid counts and "CT" or "T"; its alive and total numbers are that team's and the other's by name, each alive count within its own total |
| SupplementaryCounts.ValidExactly | src/supplementary_state.cpp:35-42 | valid exactly without negative numbers and without more alive than there are |
| SupplementaryCounts.SourceNamesAre | src/supplementary_state.cpp:17-25 | the names themselves |
| SupplementaryCounts.SourceNamesRoundTrip | src/supplementary_state.cpp:17-33 | source kinds and names correspond one to one |

## Left out

- Sockets, the accept loop and HTTP responses: each received body is an input of the ingress gate.
- The clock: `relative_us` and every tick are inputs; the floating-point conversion from ticks is not modelled.
- File-system calls, directory naming, metadata layout and stream buffering: a file is a byte sequence, a failed write
  may append a part of a body or of a supplementary row and then stops the worker.
- RowsAlwaysLoad: does not model a timeline row that reaches the disk only in part, because the recorder never checks
  `timeline_` after writing (`src/session.cpp:235-246`); a row is appended whole or, if the worker stopped before it, not at all.
- Counters and offsets that reach 2^64: the replay and storage theorems assume fewer records and raw bytes than that.
- `int` overflow in counter differences (undefined in C++): counters are mathematical integers there.
- Double-valued JSON numbers keep their lexeme; `strtod` enters only through the exact test that the decimal value
  rounds to a finite double. A nesting depth that exhausts the stack is not modelled.
- A body size that cannot be allocated, or an offset beyond the signed range of `seekg`, fails in the source; the model
  fails on it as a short read (except for zero bytes, which it reads as empty).
- `std::stable_sort` is modelled as the insertion sort, which is stable; `stoull`, `stoi`, `getline` and `find` by what
  they return.
- Mutexes and condition variables: their critical sections are the atomic actions of `Interleaving`. Memory-model
  effects of the unguarded `stopped_` flags are not modelled.
- `Interleaving` leaves the handler's own effects out: an exception in it is the action `FailLive`.
- Edition constants, display names, `describe_event`, command-line parsing, replay pacing and signal handling.
- Score, money, armor, equipment and death counters: normalized and carried, never read.
