# Rubezh: a verified model of masking and of the protocols around it

Rubezh stands between users and language models. A sanitizer finds personal data
and secrets in a text and replaces them by pseudonyms; an API rebuilds the map,
decides by policy what may leave, searches documents, calls models, has other
models review the answer and streams it to a browser; a worker turns uploaded
documents into searchable chunks; every step leaves audit rows. This project models
those parts in Dafny and proves what they promise, for all inputs, all runs and all
interleavings.

- **Masking** (`Overlap`, `Names`, `Pseudonymizer`, `Replacer`, `PseudonymMap`,
  `Weave`, `RoundTrip`, `Remask`): the choice among overlapping matches is optimal;
  the pseudonyms one service prints the other one reads back; what restoring gives,
  in every case, and exactly when that is the original; which raw values masking an
  answer again may leave.
- **Queue and worker** (`DocumentQueue`, `QueueProtocol`, `Processor`, `Chunking`):
  the document table with its statements as methods, every interleaving of workers
  as a list of events, reprocessing from any leftover rows, conservation of text.
- **Transport** (`Sse`): printer and incremental reader of the event stream agree for
  every chunking and every truncation.
- **Audit log** (`AuditQuery`, `AuditPages`): compiling a filter keeps its meaning;
  keyset pagination enumerates the log while it grows.
- **Incidents** (`Incidents`, `IncidentRuns`): compare-and-swap without lost updates.
- **Chat** (`ChatRun`, `ChatText`, `ChatMessages`, `ChatRetrieval`, `ReviewLoop`,
  `ChatProtocol`, `ChatStream`, `RagPrompt`, `Throttle`): a run is the list of its
  effects. The world (client, models, database, retriever, throttle) answers by any
  function of the effects so far, so a theorem for all worlds covers all behaviours.
  `ChatProtocol` says which effect may follow which and proves what that implies;
  `ChatStream` proves that the orchestrator keeps to it.
- **Checksums** (`Checksums`): Luhn and INN as error-detecting codes.
- `Bags`, `Ordering`, `Strings`, `Wrappers`, `Entities` hold what several of these share.

Strings are sequences of code points. Loops of the sources are loops here, tables
and per-user state are classes whose methods state the whole new state, and each
such method is tied to a specification about which the lemmas speak.

Where the code and its own comments disagree, the model follows the code:
`Overlap.PriorityDominatesIff`, `Overlap.PriorityAgainstMany`,
`QueueProtocol.ExhaustedFailsIff`, `QueueProtocol.DeletedReturnsIff`,
`Chunking.EmptyChunkIff`, `Chunking.MaxPromiseIff`, `RoundTrip.RestoreIff`,
`Remask.RemaskThenRestore` and `Remask.RemovesAllIff` say by how much.

## Model

| member | source | states |
|---|---|---|
| `Overlap.ResolveOverlaps` | rubezh-sanitizer/app/masking/overlap.py:27-57 | from any list of spans: a part of the input in text order, pairwise disjoint, that no other disjoint part outweighs |
| `Overlap.ResolveIsBestCover` | rubezh-sanitizer/app/masking/overlap.py:28-35 | the recurrence has that property for every input, whatever the ties |
| `Overlap.PlanIsOptimal` | rubezh-sanitizer/app/masking/overlap.py:43-54 | row n of the table weighs at least as much as every disjoint selection among the first n candidates |
| `Overlap.FillTables` | rubezh-sanitizer/app/masking/overlap.py:39-55 | the loop over `best` and `picked` fills exactly the rows of the recurrence |
| `Overlap.BisectRight` | rubezh-sanitizer/app/masking/overlap.py:45-47 | the binary search counts the earlier candidates that end by the given start |
| `Overlap.PermutationInvariant` | rubezh-sanitizer/app/masking/overlap.py:38-57 | the optimum weight does not depend on the order of the input; with distinct (end, start) keys neither does the result |
| `Overlap.DroppedIsOutweighed` | rubezh-sanitizer/app/masking/overlap.py:28-35 | a dropped candidate weighs no more than the chosen ones it overlaps |
| `Overlap.PriorityDominatesIff` | rubezh-sanitizer/app/masking/overlap.py:17-24 | one candidate of a higher category outweighs one of a lower category for all spans up to a length exactly when that length is at most 9990; the comment's bound of 0.002 is not what the code gives |
| `Overlap.KeptWhenHeavier` | rubezh-sanitizer/app/masking/overlap.py:28-35 | a candidate is chosen whenever every disjoint selection of candidates it overlaps weighs less than it does |
| `Overlap.StarIsDecidedByWeight` | rubezh-sanitizer/app/masking/overlap.py:28-35 | one candidate against any number of disjoint ones it overlaps: the heavier side is the result, whole |
| `Overlap.PriorityAgainstMany` | rubezh-sanitizer/app/masking/overlap.py:9-24 | for lengths up to 9990: a candidate survives all it overlaps if their priorities plus one each are at most its own, and is displaced if their priorities are at least its own plus one; so two personal-data spans always displace an overlapping secret, though the comment says that category priority dominates |
| `Overlap.TwoLowerDisplaceOneHigher` | rubezh-sanitizer/app/masking/overlap.py:28-35 | an instance of that with concrete spans |
| `Names.SuffixFree` | rubezh-sanitizer/app/masking/pseudonymizer.py:13-36 | no prefix of the table is the end of another one |
| `Names.NoStraddle` | rubezh-sanitizer/app/masking/pseudonymizer.py:64-66 | a pseudonym that begins in free text cannot run into an inserted one |
| `Names.SamePrefixAtStart` | rubezh-sanitizer/app/masking/pseudonymizer.py:64-66 | where a pseudonym stands only one with the same prefix can be read |
| `Names.FormatInjective` | rubezh-sanitizer/app/masking/pseudonymizer.py:64-66 | a pseudonym tells its prefix and number |
| `Pseudonymizer.NamesInjective` | rubezh-sanitizer/app/masking/pseudonymizer.py:60-67 | equal (type, value) pairs share a pseudonym, different pairs never do |
| `Pseudonymizer.NameMatch` | rubezh-sanitizer/app/masking/pseudonymizer.py:61-75 | one turn of the naming loop: the name its pair has already or the next number of its prefix, with the mapping recorded once |
| `Pseudonymizer.Pseudonymize` | rubezh-sanitizer/app/masking/pseudonymizer.py:43-92 | the masked text is the input with every span replaced by its name; one public entity per match, one mapping per (type, value), decrypting to the value |
| `Pseudonymizer.Restore` | rubezh-sanitizer/app/masking/pseudonymizer.py:95-115 | one longest-first pass over the text with the dictionary of the mappings |
| `Replacer.ScanIsRender` | rubezh-api/internal/chat/pseudonym.go:124-134 | scanning the sorted pairs is the reference substitution: at each place the longest search string, nothing inserted is read again, independent of the order of the map |
| `Replacer.ReplacesIffOccurs` | rubezh-api/internal/chat/pseudonym.go:108-135 | something is replaced iff a search string occurs in the text, and otherwise the text is returned as it was |
| `Replacer.TokensCover` | rubezh-api/internal/chat/pseudonym.go:108-135 | the scan reads the whole text once, piece by piece |
| `PseudonymMap.BuildPseudonymMap` | rubezh-api/internal/chat/pseudonym.go:62-96 | accepts exactly the entity lists that fit the text (in bounds, matching hash, no overlap), names an actual defect otherwise, and maps each pseudonym to the slice of its right-most entity |
| `PseudonymMap.Replace` | rubezh-api/internal/chat/pseudonym.go:111-135 | unmasking is the substitution by the map, masking the substitution by an inverse of it |
| `PseudonymMap.ReplaceRaw` | rubezh-api/internal/chat/pseudonym.go:103-106 | masking an answer again substitutes every raw value by one of its pseudonyms |
| `PseudonymMap.ReplacePseudonyms` | rubezh-api/internal/chat/pseudonym.go:98-101 | restoring is a function of the map and the text alone |
| `PseudonymMap.InverseUnique` | rubezh-api/internal/chat/pseudonym.go:117-129 | with distinct raw values there is only one inverse, so masking does not depend on the map's order either |
| `PseudonymMap.Utf8Ranges` | rubezh-api/internal/chat/pseudonym.go:124-129 | the length that orders the search strings is that of their UTF-8 form (section 3 of RFC 3629) |
| `Weave.GapScansApart` | rubezh-api/internal/chat/pseudonym.go:108-135 | free text is scanned the same whatever pseudonym follows it |
| `Weave.WovenRestores` | rubezh-sanitizer/app/masking/pseudonymizer.py:98-115 | one substitution pass over free text with pseudonyms in it, in every case: the free text by itself, and for each pseudonym the value of the longest one that can be read there, less from the free text what that one took |
| `Weave.TakenIsDigits` | rubezh-sanitizer/app/masking/pseudonymizer.py:64-66 | what a longer pseudonym takes from the free text is digits, and only a number of 1000 or more takes any |
| `Weave.OriginalIff` | rubezh-sanitizer/app/masking/pseudonymizer.py:98-104 | the pass gives the original back if each value read is the one that was meant and nothing else is read in the free text; and only then, where a wrong reading shows: values read in free text have no underscores, and a value read on differs from what was meant before either ends |
| `RoundTrip.RestoreIff` | rubezh-sanitizer/app/masking/pseudonymizer.py:95-115 | restoring a masked text, in every case: the free text substituted by itself and the value of the longest pseudonym that can be read in each place; exactly when that is the original |
| `RoundTrip.SealedIntact` | rubezh-sanitizer/app/masking/pseudonymizer.py:46-51 | while no pseudonym can be read on past the end of an inserted one the condition is that no issued pseudonym occurs outside the matches, and the proviso is that those which do stand for values without underscores |
| `RoundTrip.SealedWhen` | rubezh-sanitizer/app/masking/pseudonymizer.py:64-66 | no pseudonym can be read on if no prefix reaches 1000 numbers or no digit follows a match directly |
| `RoundTrip.EchoIsRestored` | rubezh-sanitizer/app/masking/pseudonymizer.py:98-104 | the proviso is needed: a value that reads like its own pseudonym comes back although the pseudonym occurs outside |
| `RoundTrip.NoUnderscoreOutsideIsClean` | rubezh-sanitizer/app/masking/pseudonymizer.py:43-92 | a text with no underscore outside its matches meets that condition |
| `RoundTrip.LiteralPseudonymIsLost` | rubezh-sanitizer/app/masking/pseudonymizer.py:98-104 | a text that already contains a pseudonym is not restored: the condition is needed |
| `RoundTrip.EntitiesFit` | rubezh-api/internal/chat/pseudonym.go:62-96 | what the sanitizer emits the API accepts |
| `RoundTrip.RightmostIsDictionary` | rubezh-api/internal/chat/pseudonym.go:92-95 | the map the API rebuilds is the dictionary the sanitizer used |
| `RoundTrip.MappingsAreDictionary` | rubezh-sanitizer/app/masking/pseudonymizer.py:107-110 | so is the dictionary of the stored mappings |
| `RoundTrip.AnswerComesBack` | rubezh-api/internal/chat/pseudonym.go:98-106 | with fewer than 1000 numbers per prefix: a model's answer masked again and then restored is the answer if no issued pseudonym stands outside its raw values; and only then, where those that do stand for values without underscores |
| `RoundTrip.SanitizeThenRestore` | rubezh-api/internal/chat/pseudonym.go:58-101 | end to end for any candidates: resolved, masked, rebuilt on the other side, restored by both services with the same result, which is described in every case and is the original text exactly under the condition above |
| `Remask.RemaskThenRestore` | rubezh-api/internal/chat/pseudonym.go:98-106 | restoring what was masked again, in every case and for any map of pseudonyms: exactly when the text comes back |
| `Remask.LeftMeetsPseudonym` | rubezh-api/internal/chat/pseudonym.go:103-135 | a raw value is left in a text masked again only where it shares characters with an inserted pseudonym |
| `Remask.ClearLeavesNothing` | rubezh-api/internal/chat/pseudonym.go:103-135 | if no raw value can share characters with a pseudonym, masking leaves none in any text |
| `Remask.RemovesAllIff` | rubezh-api/internal/chat/pseudonym.go:103-135 | for raw values that cannot share characters with each other that condition is exact: otherwise there is a text in which one is left |
| `Remask.DigitsAreLeft` | rubezh-api/internal/chat/pseudonym.go:124-134 | such a text: the last digits of a pseudonym and the next digit of the text are another raw value |
| `DocumentQueue.DocumentTable.Insert` | rubezh-api/internal/storage/documents.go:67-90 | a new document is pending with no attempts and nothing else changes |
| `DocumentQueue.DocumentTable.RequeueStuck` | rubezh-worker/app/queue.py:41-68 | the rows in processing whose start is before the threshold, and no others, become pending without start and phase; their number is returned, and afterwards none is stuck |
| `DocumentQueue.DocumentTable.ClaimNext` | rubezh-worker/app/queue.py:71-119 | takes the oldest eligible unlocked row, counts the attempt, and takes nothing only if no row is eligible |
| `DocumentQueue.DocumentTable.Heartbeat` | rubezh-worker/app/queue.py:147-162 | moves the start time of a row in processing and of no other |
| `DocumentQueue.DocumentTable.UpdatePhase` | rubezh-worker/app/queue.py:165-177 | sets the phase whatever the status |
| `DocumentQueue.DocumentTable.MarkDone` | rubezh-worker/app/queue.py:180-193 | sets done and clears start, phase and error whatever the status |
| `DocumentQueue.DocumentTable.MarkFailed` | rubezh-worker/app/queue.py:196-212 | sets failed with the message whatever the status |
| `DocumentQueue.DocumentTable.SoftDelete` | rubezh-api/internal/storage/documents.go:245-256 | deletes a row that is not deleted yet, or reports not found |
| `DocumentQueue.DocumentTable.Retry` | rubezh-api/internal/storage/documents.go:260-273 | a failed row starts over with no attempts, or not found is reported |
| `DocumentQueue.OldestExists` | rubezh-worker/app/queue.py:99-104 | among eligible rows there is one to take |
| `DocumentQueue.RowsTell` | rubezh-worker/app/queue.py:41-212 | what each statement leaves in a row, column by column, and what it leaves alone |
| `QueueProtocol.RowsStayOk` | rubezh-worker/app/queue.py:41-212 | in every interleaving attempts never exceed the maximum and a row in processing has a start time |
| `QueueProtocol.AttemptsAreClaims` | rubezh-worker/app/queue.py:95-97 | in every interleaving the attempts counter is the number of claims since creation or the last retry |
| `QueueProtocol.ClaimsAccounted` | rubezh-worker/app/queue.py:71-119 | every claim is in an attempts counter or was wiped by a retry |
| `QueueProtocol.ClaimsBounded` | rubezh-worker/app/queue.py:71-119 | claims are at most the maximum times documents plus retries, however workers interleave and crash |
| `QueueProtocol.StepsAre` | rubezh-worker/app/queue.py:147-212 | only a holder beats, reports, marks or crashes; any live document can be deleted and a failed one retried |
| `QueueProtocol.StepTells` | rubezh-worker/app/queue.py:41-212 | a step moves the clock, the holders and the rows it names, and nothing else |
| `QueueProtocol.NoTwoHolders` | rubezh-worker/app/queue.py:147-162 | while heartbeats keep held documents from going stuck, no document has two holders |
| `QueueProtocol.LateBeatDuplicates` | rubezh-worker/app/queue.py:147-162 | wherever a held document does go stuck with attempts left, two more steps give it two holders |
| `QueueProtocol.AbandonedStays` | rubezh-worker/app/queue.py:76-77 | an exhausted pending document that nobody holds never moves to failed, nor does a deleted one come back; the comment says exhausted ones are moved to failed |
| `QueueProtocol.ExhaustedFailsIff` | rubezh-worker/app/queue.py:196-212 | an exhausted pending document can fail next exactly when a worker still holds it, because the mark is unguarded |
| `QueueProtocol.SlowWorkerExhausts` | rubezh-worker/app/queue.py:41-62 | runs do get to such a document: one attempt allowed and one late heartbeat |
| `QueueProtocol.DeletedReturnsIff` | rubezh-worker/app/queue.py:180-212 | a deleted document can change status again exactly when a worker still holds it, because the marks are unguarded |
| `QueueProtocol.DoneStaysDone` | rubezh-worker/app/queue.py:180-193 | a document marked done is not claimed again, and at most deleted, unless a late worker marks it failed |
| `QueueProtocol.FailedWaitsForRetry` | rubezh-api/internal/storage/documents.go:260-273 | a document that is done, failed or deleted is not claimed before a retry |
| `Processor.AggregateRisk` | rubezh-worker/app/processor.py:127-154 | the highest level of the chunks (critical before high before medium before low), the highest score, union of the classes, all entities in order |
| `Processor.ChunkStore.CleanupPreviousRun` | rubezh-worker/app/queue.py:122-144 | removes the document's chunks and results and no others |
| `Processor.ChunkStore.InsertChunk` | rubezh-worker/app/processor.py:120-122 | fails on a taken (document, index), adds exactly one row otherwise |
| `Processor.ChunkStore.PersistChunks` | rubezh-worker/app/processor.py:105-106 | from a clean slate: no clash; a beginning of the wanted rows, all of them if no call fails |
| `Processor.ChunkStore.ProcessDocument` | rubezh-worker/app/processor.py:49-112 | from any leftover rows a run never violates uniqueness; when it is done there is exactly one row per chunk at 0..n-1, with the sanitizer's text whenever there is one and the chunk's own otherwise, its token count and the vector of that very text, and one aggregate result if there are chunks; a failed run leaves a beginning of that; other documents are untouched |
| `Processor.RawTextLeavesNoTrace` | rubezh-worker/app/processor.py:119-123 | where the sanitizer gave a text for every chunk, the rows of a finished run do not depend on the raw texts |
| `Sse.CutExtends` | rubezh-web/src/api/sse.ts:84-86 | cutting a prefix and carrying the rest over is cutting the whole text once |
| `Sse.ParseBlock` | rubezh-web/src/api/sse.ts:131-167 | the loop over lines keeps the last event and data line and yields an event iff both are present, known and decodable |
| `Sse.KindsAreNamed` | rubezh-web/src/api/sse.ts:131-167 | a name stands for one kind of event, and no other name for any |
| `Sse.SpacesAre` | rubezh-web/src/api/sse.ts:135-135 | the characters that trimming an event name takes off are the white space and line ends of ECMAScript |
| `Sse.Dispatch` | rubezh-web/src/api/sse.ts:87-97 | hands on the events of the complete blocks and keeps the two flags in step |
| `Sse.StreamChat` | rubezh-web/src/api/sse.ts:80-128 | the events delivered are those of the whole text read at once, for every way of cutting it into chunks, plus the synthetic error where one is due |
| `Sse.ClosedStreamIsTerminated` | rubezh-web/src/api/sse.ts:118-131 | a stream that closes normally delivers its events, and the truncation error exactly if none of them is a done or an error |
| `Sse.FailedReadTells` | rubezh-web/src/api/sse.ts:104-117 | a read that fails after a done or an error, or because the caller gave up, adds nothing; otherwise it adds exactly one error that says why |
| `Sse.SseSink.WriteEvent` | rubezh-api/internal/api/chat.go:279-289 | appends one event block; a failing write may leave a beginning of it, a failing marshal leaves nothing |
| `Sse.BodyParses` | rubezh-api/internal/api/chat.go:284-284 | the block printed for an event parses to that event |
| `Sse.ReadsBack` | rubezh-api/internal/api/chat.go:279-289 | reading what was printed recovers exactly the printed events; with a terminal one among them nothing is added (section 9.2 of the WHATWG HTML Living Standard) |
| `Sse.CutPrefix` | rubezh-web/src/api/sse.ts:84-97 | of any beginning of a printed stream the reader delivers the events printed completely |
| `Sse.TruncationIsSeen` | rubezh-web/src/api/sse.ts:73-77 | a response cut short anywhere delivers the complete events and then the truncation error with the last request id, never a false end |
| `AuditQuery.Add` | rubezh-api/internal/storage/audit.go:186-189 | appending a condition with its values keeps the meaning of the earlier ones and adds the new one's |
| `AuditQuery.BuildScalarPart` | rubezh-api/internal/storage/audit.go:190-204 | cursor, time range and user compile to their meaning |
| `AuditQuery.BuildListPart` | rubezh-api/internal/storage/audit.go:205-220 | event types, decisions, risk levels and provider compile to their meaning |
| `AuditQuery.BuildListAuditQuery` | rubezh-api/internal/storage/audit.go:183-247 | for every filter the conditions with their arguments select exactly the rows the filter describes, every placeholder is in range, and the limit is the last argument |
| `AuditPages.ListAuditEvents` | rubezh-api/internal/storage/audit.go:158-179 | one request: the filter is compiled, and rows that answer the query answer the filter |
| `AuditPages.AssembleAuditList` | rubezh-api/internal/api/audit.go:247-263 | summaries in order, each showing its row column by column, and the next cursor of a full page |
| `AuditPages.ShowsWhatWasAsked` | rubezh-api/internal/api/audit.go:247-263 | a row found by a filter shows the user, type, provider, decision, risk and leak mark asked for |
| `AuditPages.VisitedInOrder` | rubezh-api/internal/storage/audit.go:155-157 | the rows visited are in strictly descending (created_at, id) order and all match the filter, while rows are inserted |
| `AuditPages.SeenOrOlder` | rubezh-api/internal/api/audit.go:241-246 | a matching row that was there at the start is visited already or older than everything visited |
| `AuditPages.WalkIsComplete` | rubezh-api/internal/api/audit.go:241-263 | following next_cursor to the end visits every such row exactly once, whatever is inserted meanwhile |
| `AuditPages.VisitsOnlyOld` | rubezh-api/internal/storage/audit.go:155-157 | if inserted rows are newer than all old ones, only old rows are visited |
| `AuditPages.VisitsEarlyOrLate` | rubezh-api/internal/storage/audit.go:155-157 | whatever is inserted and whenever it becomes visible, a visited row was there at the start or lies below the first row shown |
| `AuditPages.WalkBounded` | rubezh-api/internal/api/audit.go:255-261 | the walk ends with no assumption on insertions: the pages before the last hold only matching rows that were there at the start or were committed late below the first row shown |
| `AuditPages.WalkTerminates` | rubezh-api/internal/api/audit.go:255-261 | when rows become visible in the order of their keys, those pages fit into the log as it was |
| `AuditPages.ListingIsComplete` | rubezh-api/internal/storage/audit.go:155-247 | from filter over conditions and arguments to pages and cursors: following the cursors shows every matching row that was there at the start exactly once, newest first, nothing else that does not match, within that bound |
| `Incidents.IncidentTable.ApplyIncidentPatch` | rubezh-api/internal/storage/incidents.go:338-392 | writes the row iff it exists with the named updated_at, and tells not found from conflict |
| `Incidents.AppliedOverwrites` | rubezh-api/internal/storage/incidents.go:338-392 | a field the patch names holds what it says, `assigneeUnset` leaves none, every other field is kept; the closing time is set on entering a closed status, cleared on leaving one, and otherwise kept |
| `Incidents.IncidentTable.PatchIncident` | rubezh-api/internal/storage/incidents.go:307-333 | row and audit rows change together or not at all |
| `Incidents.BuildIncidentPatch` | rubezh-api/internal/api/incidents.go:399-449 | accepts exactly the valid requests; the patch carries their fields; one audit per kind of change |
| `Incidents.EnrichAuditsWithFrom` | rubezh-api/internal/api/incidents.go:451-473 | in place, per event type: a status audit goes from the previous status to the one the patch names, a severity audit likewise, and no other audit changes |
| `IncidentRuns.PatchesFormChain` | rubezh-api/internal/storage/incidents.go:301-303 | no lost updates: in every interleaving, with a strictly increasing updated_at, each successful patch was applied to the version its client named, and its audits carry the values it overwrote (If-Match, section 3.1 of RFC 7232) |
| `IncidentRuns.NoFieldIsLost` | rubezh-api/internal/storage/incidents.go:307-392 | in every interleaving each field of the current version is what the last successful patch that named it says, or the initial value if none did |
| `IncidentRuns.AuditsTellTheTruth` | rubezh-api/internal/api/incidents.go:451-473 | the status and severity audits of a successful patch go from the values of the version it overwrote to those of the version it made |
| `IncidentRuns.CurrentRequestWins` | rubezh-api/internal/storage/incidents.go:307-336 | a request that names the current version and is not overtaken makes the next version from it by its patch |
| `IncidentRuns.OneWinnerPerVersion` | rubezh-api/internal/storage/incidents.go:335-337 | no version is overwritten twice |
| `IncidentRuns.SecondWinsIffSameInstant` | rubezh-api/internal/storage/incidents.go:342-342 | the clock has to move: a second patch of the same version succeeds exactly when the first commit left updated_at unchanged |
| `Throttle.ThrottleReporter.Allow` | rubezh-api/internal/chat/throttle.go:50-71 | the new state and both answers of one call, other users untouched |
| `Throttle.UsersIndependent` | rubezh-api/internal/chat/throttle.go:28-35 | a user's window depends on that user's calls alone |
| `Throttle.AnswerIsOwn` | rubezh-api/internal/chat/throttle.go:50-71 | so does every answer, in any mix of users |
| `Throttle.WindowAt` | rubezh-api/internal/chat/throttle.go:57-61 | the window a call leaves: counted from the call that opened it |
| `Throttle.AnswersByPosition` | rubezh-api/internal/chat/throttle.go:44-49 | within a window `limit` calls are allowed, then one refusal is reported, then silence |
| `Throttle.RateBounded` | rubezh-api/internal/chat/throttle.go:50-71 | any stretch of calls no longer than the window contains at most twice the limit of allowed ones |
| `Checksums.ValidateCardLuhn` | rubezh-sanitizer/app/detectors/pii.py:49-61 | the loop accepts exactly the numbers of 13 to 19 digits, not all equal, whose Luhn sum is a multiple of ten |
| `Checksums.LuhnDetectsOneDigit` | rubezh-sanitizer/app/detectors/pii.py:49-61 | changing one digit of an accepted number makes it rejected (Annex B of ISO/IEC 7812-1) |
| `Checksums.ValidateInn` | rubezh-sanitizer/app/detectors/pii.py:20-35 | accepts exactly the numbers whose control digits agree |
| `Checksums.InnRule` | rubezh-sanitizer/app/detectors/pii.py:20-35 | the rule with its published weights: one control digit for ten digits, two for twelve |
| `Checksums.DigitsAre` | rubezh-sanitizer/app/detectors/pii.py:49-61 | the digits of a text, character by character; anything else is skipped |
| `Checksums.DegenerateIs` | rubezh-sanitizer/app/detectors/pii.py:9-17 | a number of one repeated digit, or of none, counts as degenerate |
| `Checksums.InnMissesIff` | rubezh-sanitizer/app/detectors/pii.py:26-30 | a changed digit of an accepted ten-digit number goes unnoticed exactly when it is one of the first nine, the two weighted sums are 0 and 10 modulo 11, and the digits are not all equal |
| `Checksums.Inn12DetectsOneDigit` | rubezh-sanitizer/app/detectors/pii.py:31-34 | a changed digit of an accepted twelve-digit number never goes unnoticed: no change confuses both control sums at once |
| `Chunking.ChunkUnits` | rubezh-worker/app/chunking.py:50-69 | the loop yields the greedy groups, the last one only if it reaches the minimum; each chunk has its units' texts in order and whole, two newlines between neighbours and nothing else, and their tokens |
| `Strings.JoinLays` | rubezh-worker/app/chunking.py:59-59 | joining puts each part at its offset, exactly the separator between neighbours, and nothing else |
| `Chunking.GroupsConserve` | rubezh-worker/app/chunking.py:53-66 | the groups put together are the units in order |
| `Chunking.TextConserved` | rubezh-worker/app/chunking.py:53-69 | the units behind the chunks, followed by a dropped tail below the minimum, are the input |
| `Chunking.ChunkSizes` | rubezh-worker/app/chunking.py:54-68 | every chunk has at least the minimum and at most the larger of the target and minimum - 1 plus the largest unit |
| `Chunking.GroupsAreGreedy` | rubezh-worker/app/chunking.py:54-66 | a chunk closes only before a unit that overruns the target once the minimum is reached, and takes every unit it may |
| `Chunking.OverMaxCause` | rubezh-worker/app/chunking.py:53-68 | a chunk runs over the maximum only by its last unit, added to a part below the minimum |
| `Chunking.MaxPromiseIff` | rubezh-worker/app/chunking.py:3-8 | with a counter that has texts of one token and of the maximum, no document gets a chunk over the promised maximum exactly when the minimum is at most one and no cut of an oversize sentence is over the maximum |
| `Chunking.DefaultsOverrun` | rubezh-worker/app/chunking.py:27-29 | with the default values 800, 1024 and 50 a document of 50 paragraphs gets a chunk of 1073 tokens |
| `Chunking.EmptyChunkIff` | rubezh-worker/app/chunking.py:45-45 | with a positive minimum no chunk is without text; otherwise one is produced exactly when the first unit is over the target or a unit without text stands where neither neighbour can join it; the docstring promises none |
| `Chunking.CutPieces` | rubezh-worker/app/chunking.py:94-97 | the loop cuts an oversize sentence into pieces of the step |
| `Chunking.PiecesConserve` | rubezh-worker/app/chunking.py:94-97 | those pieces are not empty, no longer than the step, and concatenate to the sentence |
| `Chunking.ExplodeSentences` | rubezh-worker/app/chunking.py:88-99 | the units' texts concatenate to the sentences; each unit is a sentence within the maximum or a cut of at most four characters per allowed token from one that is not; counts are those of the texts |
| `Chunking.ExplodeOversize` | rubezh-worker/app/chunking.py:72-100 | paragraph by paragraph: itself if it is within the maximum, else units made of its sentences |
| `Chunking.ChunkParagraphs` | rubezh-worker/app/chunking.py:32-69 | end to end from paragraphs to chunks: the units of the chunks are the units of the paragraphs in order but for a tail below the minimum; each chunk's text is its units' texts, whole and in order, so that every unit outside the tail stands in a chunk; token sums, size bounds, greediness and non-empty texts |
| `RagPrompt.FilterHighRiskForExternal` | rubezh-api/internal/chat/rag.go:172-185 | for an external model the hits are split by risk, otherwise all are kept |
| `RagPrompt.FilterSplits` | rubezh-api/internal/chat/rag.go:164-171 | what is kept is every hit that is not high risk; kept and dropped together are all hits |
| `RagPrompt.TruncateByBudget` | rubezh-api/internal/chat/rag.go:224-239 | a beginning of the hits within the budget that the next hit would overrun |
| `RagPrompt.TruncationIsLongest` | rubezh-api/internal/chat/rag.go:221-223 | no longer beginning fits the budget |
| `RagPrompt.EscapeRagContent` | rubezh-api/internal/chat/rag.go:140-145 | the loop applies the six replacements in order |
| `RagPrompt.ReplaceRemoves` | rubezh-api/internal/chat/rag.go:141-143 | replacing one control token removes it and brings in no other |
| `RagPrompt.NoControlTokens` | rubezh-api/internal/chat/rag.go:138-145 | whatever the snippet, none of the six control tokens is left after all replacements |
| `RagPrompt.EscapingKeepsText` | rubezh-api/internal/chat/rag.go:138-145 | escaping keeps every character of a snippet but blanks, in order |
| `RagPrompt.PlainIsUntouched` | rubezh-api/internal/chat/rag.go:140-145 | a snippet without control tokens is left as it is |
| `RagPrompt.BuildRagSystemPrompt` | rubezh-api/internal/chat/rag.go:196-212 | header and one delimited block per hit; empty for no hits |
| `RagPrompt.PromptTells` | rubezh-api/internal/chat/rag.go:196-212 | the prompt is the header and then one source per hit, in order and numbered from one: tag with document, chunk and number, the whole snippet without control tokens, closing tag; and nothing else |
| `RagPrompt.HeaderTells` | rubezh-api/internal/chat/rag.go:189-204 | the header says, word by word, that the sources are data and no instructions, and how to cite them |
| `RagPrompt.BlocksCount` | rubezh-api/internal/chat/rag.go:205-210 | the blocks contain one closing tag per hit and no other control token |
| `RagPrompt.PromptDelimiters` | rubezh-api/internal/chat/rag.go:189-195 | the whole prompt contains exactly one closing tag per hit and no other control token, as long as the document ids bring none |
| `ChatText.ChunkText` | rubezh-api/internal/chat/records.go:194-209 | pieces of exactly the size, the last one shorter, that concatenate to the text |
| `ChatText.SplitJoined` | rubezh-api/internal/chat/orchestrator_review.go:378-388 | splitting what was joined gives the same text and files, up to blanks, for every answer but blanks before a block of files with no text, and files alone with a second block among them |
| `ChatText.IndexOfIsFirst` | rubezh-api/internal/chat/orchestrator_review.go:380-380 | the marker found is the first one |
| `ChatRetrieval.MaxHitRiskLevel` | rubezh-api/internal/chat/orchestrator_rag.go:187-201 | the loop finds the highest risk level among the hits, unknown levels aside |
| `ChatRetrieval.MaybeRevisePolicy` | rubezh-api/internal/chat/orchestrator_rag.go:213-271 | the revised outcome and its audit entry, throttled as the reporter answers |
| `ChatRetrieval.RevisionIsOneStep` | rubezh-api/internal/chat/orchestrator_rag.go:203-212 | the decision changes iff a hit is riskier than the request, by one step only; no chunk turns an allowed request into a denied one, only a summary-only request can be escalated |
| `ChatRetrieval.RevisionTable` | rubezh-api/internal/chat/orchestrator_rag.go:213-301 | decision by decision what a riskier hit makes of a request, with the reason that names the highest level; a revised decision never sends raw text; nothing else changes one |
| `ChatRetrieval.KeptAreSafe` | rubezh-api/internal/chat/orchestrator_rag.go:86-90 | a model in the cloud, Russian or foreign, gets no high or critical hit and otherwise the longest beginning within the budget; for one on the premises no hit is dropped for its risk; a blocked request keeps none |
| `ChatRetrieval.FittingIsLongest` | rubezh-api/internal/chat/orchestrator_rag.go:124-125 | the hits kept are the longest beginning within the budget |
| `ChatRetrieval.ChunkEntries` | rubezh-api/internal/chat/orchestrator_rag.go:91-122 | one audit entry per dropped hit and one per suspicious hit that passed |
| `ChatRetrieval.TrailTells` | rubezh-api/internal/chat/orchestrator_rag.go:62-132 | exactly which audit entries a search leaves: the search itself at the end, each hit withheld from a cloud model, each suspicious hit that passed, a revision as far as the throttle lets it, or the failure |
| `ChatRetrieval.RunRetrieval` | rubezh-api/internal/chat/orchestrator_rag.go:36-132 | retrieval takes place exactly when it is enabled and the decision does not block; the query is the sanitized text; outcome, kept hits, prompt and audit trail follow from the answer, and a failing retriever leaves the request as it was |
| `ChatMessages.BuildLlmMessages` | rubezh-api/internal/chat/decision.go:34-49 | administrator's prompt, summary instruction, user message, in that order |
| `ChatMessages.ApplyRagToMessages` | rubezh-api/internal/chat/orchestrator_rag.go:303-317 | the source prompt goes in after the leading system messages |
| `ChatMessages.UserMessageIsSanitized` | rubezh-api/internal/chat/decision.go:19-49 | a model gets the administrator's prompt if there is one, the summary instruction iff the decision asks for a summary, the sources if any, and last the one user message: the message itself or what a preview token stands for where raw text is allowed, else the sanitized text |
| `ChatMessages.ShownTells` | rubezh-api/internal/chat/records.go:166-182 | decision by decision what the answer becomes: masked unless raw text is allowed, without echoes if there were sources |
| `ChatMessages.NoticeTells` | rubezh-api/internal/chat/records.go:184-192 | the notice of a blocked request says whether it waits for approval or is refused and gives the reasons in order |
| `ReviewLoop.MaxRounds` | rubezh-api/internal/chat/orchestrator_review.go:252-260 | between 1 and 5, 3 by default, the requested number in between |
| `ReviewLoop.AskReviewers` | rubezh-api/internal/chat/orchestrator_review.go:77-115 | each reviewer is asked once, in order, about the same draft; the findings are those of the replies that do not accept |
| `ReviewLoop.ReviseDraft` | rubezh-api/internal/chat/orchestrator_review.go:135-175 | the author is asked with the findings, and the next draft is the masked, trimmed, non-blank reply |
| `ReviewLoop.RunRound` | rubezh-api/internal/chat/orchestrator_review.go:69-176 | one round: every reviewer is asked, then the review ends or the author revises, with the progress reported in order |
| `ReviewLoop.ReviewRounds` | rubezh-api/internal/chat/orchestrator_review.go:45-178 | an answer is returned only if every reviewer accepted that very draft in the last round, or wrapped after the last round allowed; no answer only if the client or a model was lost or a revision was blank |
| `ReviewLoop.RevisedForCause` | rubezh-api/internal/chat/orchestrator_review.go:116-175 | a draft is revised only after every reviewer answered and one did not accept, and the next draft is what the author then wrote |
| `ReviewLoop.ReviewCallCount` | rubezh-api/internal/chat/orchestrator_review.go:69-176 | a review of r rounds takes r times the reviewers plus r - 1 model calls, r at most the clamped maximum |
| `ReviewLoop.OnlyMaskedDrafts` | rubezh-api/internal/chat/orchestrator_review.go:45-65 | every call of a review, also of one that fails, shows the draft of its round with the files of that draft, or that draft with the findings of the same round; text, decoded previews and verdicts all came out of Remask |
| `ReviewLoop.QuestionsSay` | rubezh-api/internal/chat/orchestrator_review.go:192-250 | every question of a review holds the request and the draft of its round: for a reviewer with name, type, size and preview of each file, for the author with every remark that is not blank |
| `ReviewLoop.CleanedKeepsAll` | rubezh-api/internal/chat/orchestrator_review.go:151-163 | a draft is the masked reply cut where its block of files begins: the text without blanks around it, the files as they are |
| `ReviewLoop.FallbackTells` | rubezh-api/internal/chat/orchestrator_review.go:124-133 | the wrapped answer ends with the last draft and lists every open remark that is not blank |
| `ReviewLoop.ReviewShowsNoRaw` | rubezh-api/internal/chat/orchestrator_review.go:45-65 | with the map's own Remask, and where no raw value can share characters with a pseudonym: no draft, attached block or decoded preview of a review contains a raw value |
| `ReviewLoop.ReviewIsBlind` | rubezh-api/internal/chat/orchestrator_review.go:36-178 | two reviews in which the models wrote the same up to masking put the same questions to the same models: no raw value that masking removes reaches one through draft, files or findings |
| `ReviewLoop.EveryCallIsRuled` | rubezh-api/internal/chat/orchestrator_review.go:192-250 | whatever prompts are configured and however the review goes, the system message of every call begins with the configured prompt and ends with the platform's rules, and one user message follows |
| `ChatProtocol.CallsAreCleared` | rubezh-api/internal/chat/orchestrator.go:495-552 | no model is called under a decision to deny or escalate; the decision announced last is the one due after the run's own search and does not change afterwards; the first call carries the messages it allows with the sources kept from that search: for a model in the cloud, Russian or foreign, none high or critical, for one on the premises none missing but for the budget |
| `ChatProtocol.DeliveredIsSaved` | rubezh-api/internal/chat/orchestrator.go:660-684 | at most one attempt to record the end of a run; nothing of an answer is delivered before it succeeded, and then a beginning of what was recorded |
| `ChatProtocol.RecordsAreDue` | rubezh-api/internal/chat/orchestrator.go:660-736 | an answer is recorded only after a call and under a decision that allows one; a notice only without any call, under the blocking decision due after the run's own search, and it is the notice of that outcome |
| `ChatProtocol.MetaIsDue` | rubezh-api/internal/chat/orchestrator.go:495-531 | the first event announces the request's own outcome; a decision is announced again only after the search, only if the search changed it, before any call, and then it is the one due |
| `ChatProtocol.ProgressIsTrue` | rubezh-api/internal/chat/orchestrator.go:533-608 | the progress a client is told of is true at that moment: searching only if it may, blocked or calling as the decision announced says, streaming only what is recorded, reviewing only if that is switched on |
| `ChatProtocol.EndsOnce` | rubezh-api/internal/chat/orchestrator.go:679-702 | a done or error event is the last thing a run does; a client that got done got the whole recorded answer and its id |
| `ChatProtocol.FailureIsAudited` | rubezh-api/internal/chat/orchestrator.go:623-625 | an error event follows the audit entry that records it |
| `ChatProtocol.NothingAfterLoss` | rubezh-api/internal/chat/orchestrator.go:604-607 | once the client fails to take an event no model is called, nothing is recorded as an answer and nothing more of an answer is sent |
| `ChatProtocol.ShownHitsAreSafe` | rubezh-api/internal/chat/orchestrator.go:517-521 | sources are shown at most once and never by a run that ends up blocked; they come from the run's own search, with a cloud model none high or critical, with one on the premises none missing but for the budget |
| `ChatStream.GiveUp` | rubezh-api/internal/chat/orchestrator.go:612-626 | the audit entry of an error, then the error event |
| `ChatStream.FinishBlocked` | rubezh-api/internal/chat/orchestrator.go:706-736 | a blocked run records the notice once and ends in done or error without a model call |
| `ChatStream.Deliver` | rubezh-api/internal/chat/orchestrator.go:660-702 | records the answer first, then streams exactly it and ends with its id; or ends in an error |
| `ChatStream.StreamOut` | rubezh-api/internal/chat/orchestrator.go:674-684 | a recorded answer is delivered piece by piece and ended with its id |
| `ChatStream.SendDeltas` | rubezh-api/internal/chat/orchestrator.go:679-683 | the deltas sent are the pieces of the recorded answer in order |
| `ChatStream.ReviewKeepsStage` | rubezh-api/internal/chat/orchestrator.go:631-649 | a review leaves a run where it was unless the client is lost |
| `ChatStream.FirstDraft` | rubezh-api/internal/chat/orchestrator.go:602-630 | the first call is made once, with the messages the announced decision allows; a failed or empty reply ends the run in its own error |
| `ChatStream.SendAnswer` | rubezh-api/internal/chat/orchestrator.go:651-684 | what is recorded is the answer, masked unless raw text is allowed, without echoes of source tags if there were sources |
| `ChatStream.RunLlm` | rubezh-api/internal/chat/orchestrator.go:593-703 | what is recorded is the first reply, or what the review made of it, masked unless raw text is allowed; each error has its own cause |
| `ChatStream.Settle` | rubezh-api/internal/chat/orchestrator.go:495-531 | announce, search, show the sources, announce a changed decision: only then may the run go on |
| `ChatStream.Stream` | rubezh-api/internal/chat/orchestrator.go:480-552 | every run in every world keeps the protocol, effect by effect; it ends in a taken done or error event iff it reports success, and always does if the client takes every event; its calls and its record are explained by one story of drafts and reviews; every question of the review begins with the sanitized request, or without pseudonyms with the text sent to the first model; a review takes place exactly if it is switched on and has reviewers; and unless raw text is allowed what is recorded came out of masking |

## Left out

- RoundTrip.RestoreIff: where a value with underscores stands for a pseudonym that also occurs outside, or one value read on is a beginning of what was meant, a wrong substitution can by chance give the same text; the restored text is stated there too, but not exactly when it is the original.
- Remask.RemovesAllIff: for raw values that can share characters with each other the condition is sufficient and not always needed.
- ReviewLoop.OnlyMaskedDrafts: `Remask` is a parameter of a run, as are `Restore` and the stripping of source tags; `Remask` and `ReviewLoop.ReviewShowsNoRaw` say what the map's own leaves.
- Chunking.ChunkParagraphs: requires a positive maximum, because the source's range has no step otherwise and raises.
- ChatStream.Stream: status events carry their stage; their wording, provider and model names are not modelled.
- PseudonymMap.BuildPseudonymMap: which of several defects is reported is open where two entities start at the same place, because the sort is not stable.
- PseudonymMap.ReplaceRaw: which pseudonym is written for a raw value that has several is open, as in the source.
- AuditQuery.BuildListAuditQuery: the two cursor columns are one optional pair; SQL text is a list of conditions with their positions.
- Throttle.ThrottleReporter.Allow: the mutex and the nil receiver (always allowed) are not modelled; the clock is a parameter.
- Checksums.ValidateCardLuhn: digits are the ASCII digits; other Unicode digits are not modelled. SNILS and OGRN are not modelled.
- Processor.AggregateRisk: the risk classes are a set; their sorted order in the result row is not modelled.
- Overlap.ResolveOverlaps: weights are exact reals; floating-point rounding is not modelled.
- Overlap.StarIsDecidedByWeight: a tie between the two sides is decided by the order of the ends and is not stated.
- SHA-256, AES-GCM, regular expressions, JSON decoding, token counting, sentence splitting, leak detection and the parsing of attached files are parameters.
- The UTF-8 decoder of the browser is not modelled: the chunks of the stream are text.
- The encoding of the audit cursor (base64 of JSON) and the CSV export.
- Preparing a chat request (cache, sanitizing of prompts, the first transaction), the automatic incident after a run, metrics and logging.
- The policy rules themselves, roles, HTTP handlers and PostgreSQL: each statement or transaction is one atomic step.
