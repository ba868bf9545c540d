# Verified model of learn_pg's data paths

Dafny models of the seven parts of learn_pg that carry its data, with proofs of what they promise on every input
and over every run:

| part | files |
|---|---|
| WAL segment readers, Go and Rust, with block references and LSN text | `Options`, `Sets`, `Bytes`, `LsnText`, `BlockRefs`, `WalTape`, `WalPages`, `GoWalReader`, `RustWalReader`, `WalRecords` |
| the segment layout both readers accept, its round trips, and reading from the middle | `WalLayout`, `WalRoundTrip`, `WalResume` |
| polling for new WAL records | `WalPoll`, `WalPollCap` |
| WebSocket hub | `Hub`, `HubSafety`, `HubDelivery`, `HubPeers`, `HubForwarding`, `HubMembers`, `HubPumps` |
| deadlock-cycle search | `CycleFinder` |
| token-bucket limiter | `RateLimit`, `RateLimitRuns`, `LimiterRuns` |
| telemetry store | `TelemetryStore`, `TelemetryHistory` |
| commit-log reader | `Clog` |

`dafny verify dfyconfig.toml` checks the whole project.

## How the parts are modelled

**WAL readers.** The readers iterate over pages, strip headers and keep a buffer for records that cross pages. They are
methods with those loops. The specification, `WalTape.Tape.Scan`, has neither pages to iterate over nor a buffer: a *tape*
is the file with the page headers cut out, and a record is a slice of it. Each method returns exactly the records of the
scan. `WalPages` holds one lemma per branch of a page-by-page reader, used by both. `WalLayout.Write` is a writer for the
format as the readers take it, independent of either reader; reading back what it writes gives back the records.
A Go LSN is the segment number over the offset *within the page* (reader.go:231), so no order is claimed for Go LSNs. After
a record that spans pages both readers go on without re-aligning, and the layout follows that.

**Hub.** A transition system: one action per statement of `Run`, `ServeWs`, `readPump` and `writePump` that touches shared
state, program counters for every goroutine, and the RWMutex as state. Sending on or closing a closed channel is allowed
by the model and sets `panicked`. The mutex admits a reader whenever no writer holds it, which allows more
interleavings than Go's.

Each message taken from a client is followed to the others' channels, and each turn of `Run` to what it leaves in the map.

**Cycle search.** The search also keeps, as ghost state, the path on which it came to each node and which of the edges it
followed led back; the lists are explained by that.

**Limiter.** Time and tokens are reals; the clock read for a request and the clock read when its bucket is created are
separate inputs, as in the source (ratelimit.go:161-162, 189), and either may run backwards. `RateLimitRuns` is about one
bucket and about whole-limiter decisions, `LimiterRuns` about one key's requests among everybody else's.

**Telemetry store.** Fingerprints and clock readings are inputs. The steps are relations that allow every outcome of an
unstable sort on equal times; with strictly increasing times the state is a function of the history.

## What turned out false

- *Deleting rejected requests changes no other decision.* Not when the rejected request created its bucket: the bucket is
  created full at a clock read after the request's own, so the request can be refused and still leave a bucket that later
  admits more than one created then. `RateLimitRuns.CreatorVisible` gives the run that shows it for every such request;
  `RateLimitRuns.InvisibleExactly` states when it does hold: the bucket existed, or its capacity is below one.
- *Waiting the Retry-After header suffices.* The header truncates (ratelimit.go:167), so it does exactly when the retry time
  is at most one second or a whole number (`RateLimitRuns.HeaderExact`); `HeaderTooShort` is an input for which it does not.
  At one token a second or more it always does while the clocks of a key are read in order, the two clocks of a request
  that creates its bucket included (`HeaderSuffices`, and for interleaved runs `LimiterRuns.WaitingSuffices`): such a
  request may leave its bucket in debt, but only up to the clock the bucket was created with (`CreatingInCredit`), and if
  it is turned away the next one is admitted without any wait (`CreatingRejected`). `HeaderBehind` is an input at that rate
  with a clock behind an earlier take's.
- *Go and Rust parse the same block references.* Exactly when the payload does not open with a complete reference that
  asks for the previous relation (`BlockRefs.ParsersAgree`): Go then reads twelve bytes of relation, Rust none.
  `OrphanDiffers` is such a payload.
- *The telemetry store keeps what is not older than the largest purge cutoff.* A cutoff in the future also removes
  newer events at that moment but not events recorded afterwards; `TelemetryHistory.CutoffAhead` is a run in which an event
  recorded at five survives a purge at ten. It holds throughout a history if and only if no record comes before a cutoff
  already used (`CutoffsPastExactly`). `KeptInClosedForm` then gives the store's contents; `Survivors` is exact for all cutoffs.
- *The set of seen LSNs stays within 50,000.* A poll of a non-empty directory breaks it if and only if the limit is zero
  or above 50,000 and the two segments hold more than 50,000 LSNs not seen before (`WalPoll.SeenCap`).
  `WalPollCap.CapOutgrown` is a segment file of at most sixteen megabytes that does; `WalPoll.SeenStaysBounded` covers
  runs with limits from 1 to 50,000.

## Model

| member | source | states |
|---|---|---|
| WalTape.Tape.ScanSlices | backend/pkg/wal/reader.go:148-248 | the slices a scan returns are in order, disjoint, at least a header long, as long as their own first four little-endian bytes say, however many pages they span |
| WalTape.BodiesExact | backend/pkg/wal/reader.go:148-187 | the tape is exactly the body bytes of the accepted whole pages, first-page header size included |
| WalPages.Segment.StepComplete | backend/pkg/wal/reader.go:189-206 | a record collected over any number of pages is the slice of the tape from where it started |
| WalPages.Segment.StepSpill | backend/pkg/wal/reader.go:232-238 | a record running past its page leaves a buffer of at least 24 bytes and fewer than its length |
| WalPages.Segment.StopPending | backend/pkg/wal/reader.go:189-252 | a record whose end is not in the file is not returned and nothing follows it |
| GoWalReader.ReadRecords | backend/pkg/wal/reader.go:130-253 | for all bytes, start offsets and limits: the first limit records of the scan of the file's tape, all of them when the limit is not positive |
| GoWalReader.ReadPage | backend/pkg/wal/reader.go:218-247 | the in-page loop moves along the tape record by record, up to the limit or a record left pending |
| GoWalReader.Resume | backend/pkg/wal/reader.go:189-211 | continuing a pending record either completes the next record or leaves it pending one page further |
| GoWalReader.RecordsAreSlices | backend/pkg/wal/reader.go:218-247 | every Go record is a tape slice starting at or after the start offset, with the payload, lengths, page offset and LSN of that slice |
| GoWalReader.TapeIsBodies | backend/pkg/wal/reader.go:148-187 | a file position is on the tape if and only if it is a body byte of a whole page with magic 0xD118; tape order is file order |
| WalRecords.RecordSpellsBack | backend/pkg/wal/reader.go:327-359 | header fields and payload of a Go record spell back its bytes, but for two bytes of padding |
| WalRecords.RecordTextsParse | backend/pkg/wal/reader.go:341-353 | the LSN and previous-LSN texts of a record parse back to their values |
| WalRecords.ReadersAgree | collector/src/wal_file.rs:148-171 | for the same bytes and LSN both readers report the same fields, and the same references if and only if none is orphaned |
| WalRecords.FirstReference | collector/src/wal_file.rs:165-166 | the Rust event names a block if and only if the payload opens with a reference, and a relation unless that one is orphaned |
| RustWalReader.ReadRecords | collector/src/wal_file.rs:75-146 | for all bytes: the records of the scan of the file's tape, whatever the rem_len fields hold |
| RustWalReader.ReadPage | collector/src/wal_file.rs:123-142 | the in-page loop moves along the tape record by record |
| RustWalReader.Resume | collector/src/wal_file.rs:102-115 | continuing a pending record completes it or leaves it pending; the bytes still needed are always more than none |
| RustWalReader.LsnIsPosition | collector/src/wal_file.rs:99-134 | with page addresses base + 8192 k, a record's LSN is base plus the file position of its first byte |
| RustWalReader.LsnsIncrease | collector/src/wal_file.rs:82-143 | then LSNs strictly increase in emission order, spanned records included |
| WalLayout.ScanWritten | backend/pkg/wal/reader.go:189-247 | a scan of a tape written by the layout finds exactly the written records at the places they were written |
| WalLayout.WrittenHeld | backend/pkg/wal/reader.go:189-247 | each written record stands at its place, padded when it fits its page and bare when it spills |
| WalRoundTrip.GoRoundTrip | backend/pkg/wal/reader.go:130-253 | reading a written file gives exactly the list of records written, for any records of 24 bytes or more and any header bytes besides the magic |
| WalRoundTrip.RustRoundTrip | collector/src/wal_file.rs:75-146 | the same for Rust, with rem_len zero on pages that do not continue a record and anything on those that do |
| WalResume.GoResumes | backend/pkg/wal/reader.go:218-222 | for any file, reading from the file position of any record gives exactly the records from that one on |
| WalResume.RemLenSteppedOver | collector/src/wal_file.rs:116-121 | the Rust reader starts no record among the bytes rem_len counts, unless a record it is reading runs on into the page |
| BlockRefs.GoParseBlockReferences | backend/pkg/wal/reader.go:361-435 | the complete references of a payload, up to the first id above 32 or the first cut short |
| BlockRefs.GoParseRef | backend/pkg/wal/reader.go:370-431 | one turn of the loop: a reference and where it ends, or none if any part is missing |
| BlockRefs.GoRoundTrip | backend/pkg/wal/reader.go:361-435 | any encodable list of references, inherited relations, images and data included, parses back wherever it stands |
| BlockRefs.GoTruncation | backend/pkg/wal/reader.go:361-435 | parsing a truncated payload gives a prefix of parsing the whole |
| BlockRefs.RustParseBlockRefs | collector/src/wal_file.rs:173-249 | the references the Rust parser finds, where a same-relation reference never spells a relation |
| BlockRefs.RustParseRef | collector/src/wal_file.rs:178-246 | one turn of the Rust loop |
| BlockRefs.RustTruncation | collector/src/wal_file.rs:173-249 | truncation gives a prefix for the Rust parser too |
| BlockRefs.RustRoundTrip | collector/src/wal_file.rs:173-249 | references encoded without a relation when they share one, orphans included, parse back wherever they stand |
| BlockRefs.ParsersAgree | collector/src/wal_file.rs:211-229 | the two parsers give the same references if and only if the payload does not open with an orphaned same-relation reference |
| BlockRefs.OrphanDiffers | collector/src/wal_file.rs:211-229 | eight bytes from which Rust reads a reference without a relation and Go reads none |
| LsnText.ParseFormat | backend/pkg/wal/reader.go:292-306 | parsing a formatted LSN gives back both halves, for all 32-bit pairs |
| LsnText.FormatInjective | collector/src/wal_file.rs:275-279 | two LSN texts are equal exactly when the 64-bit values are; both programs format alike |
| LsnText.FormatShape | collector/src/wal_file.rs:275-279 | the text is a high part without leading zeros, a slash and exactly eight digits, upper case throughout |
| LsnText.SplitParts | backend/pkg/wal/reader.go:292-296 | the text is split into one part more than it has separators, so it is accepted exactly with one slash |
| WalPoll.Collector.Collect | collector/src/wal_file.rs:12-53 | what is reported and remembered after a poll: the events last read among the first reads of unseen LSNs, as many as the limit allows, in read order; all LSNs read, or those of the reported events once there are more than 50,000 |
| WalPoll.Collector.Absorb | collector/src/wal_file.rs:35-39 | one segment's records: all LSNs remembered, the unseen ones reported in read order |
| WalPoll.FreshFirsts | collector/src/wal_file.rs:35-39 | the fresh events are the batch's own events, exactly those at the places where an LSN neither seen before nor earlier in the batch is read, in read order |
| WalPoll.ReportsLast | collector/src/wal_file.rs:42-44 | cutting the fresh events to the limit leaves those whose LSNs were first read last |
| WalPoll.TwoNewest | collector/src/wal_file.rs:22-34 | of any number of segments only the newest two are read, the older one first |
| WalPoll.PollReports | collector/src/wal_file.rs:35-50 | a poll reports no LSN twice, none it has seen, at most the limit, and remembers all it reports |
| WalPoll.NoRepeats | collector/src/wal_file.rs:12-53 | over any run, two polls with no clearing poll strictly between them report no LSN in common |
| WalPoll.SeenCap | collector/src/wal_file.rs:42-50 | the remembered set exceeds 50,000 after a poll if and only if the limit allows it and the batch holds more unseen LSNs than that |
| WalPoll.SeenStaysBounded | collector/src/wal_file.rs:42-50 | with limits between 1 and 50,000 it never does, over any run |
| WalPoll.TextIsValue | collector/src/wal_file.rs:36 | deduplicating by LSN text is deduplicating by LSN value |
| WalPollCap.WrittenCap | collector/src/wal_file.rs:12-53 | a first poll without a limit of a written segment with addressed pages exceeds the cap if and only if more than 50,000 records were written |
| WalPollCap.CapOutgrown | collector/src/wal_file.rs:45-50 | a segment file of at most sixteen megabytes that makes one poll exceed the cap |
| HubSafety.NextSafe | backend/internal/ws/hub.go:63-248 | every step of Run and the pumps keeps the lock, map and channel invariant |
| HubSafety.ForwardSafe | backend/internal/ws/hub.go:226-246 | while a pump forwards, no channel it sends on can be closed |
| HubSafety.NeverPanics | backend/internal/ws/hub.go:63-110 | in every interleaving nothing is sent on a closed channel, no channel is closed twice, a client in the map has an open channel, and no pump reads the map while Run writes it |
| HubSafety.AfterExit | backend/internal/ws/hub.go:67-76 | once Run has exited the map is empty and every client it added had its channel closed exactly once |
| HubDelivery.NextFed | backend/internal/ws/hub.go:93-108 | every step keeps what each channel holds equal to what is due to its client |
| HubDelivery.GapFree | backend/internal/ws/hub.go:93-108 | consumed plus queued broadcasts are exactly those taken since the client was added, in order; for a removed client a prefix |
| HubPeers.ForwardingKeepsOrder | backend/internal/ws/hub.go:221-246 | no client gets its own message back; from another it gets a subsequence of what that one sent; the channel is a queue |
| HubForwarding.EveryoneGetsIt | backend/internal/ws/hub.go:221-246 | between taking and releasing the lock a read pump puts its text exactly once in the channel of every other client in the map, unless it met 256 items there, and in nobody else's |
| HubForwarding.QueuesBounded | backend/internal/ws/hub.go:93-108 | no channel ever holds more than 256 items |
| HubForwarding.TakesOneByOne | backend/internal/ws/hub.go:168-180 | a write pump takes one item each time it receives from a channel that holds any |
| HubMembers.TurnLeaves | backend/internal/ws/hub.go:63-110 | one turn of Run adds the client registered, takes out the one unregistered, those for which a broadcast met 256 queued items, or at a stop everyone, and changes the map in no other way |
| HubMembers.OutIsClosed | backend/internal/ws/hub.go:67-105 | between turns everyone who was in the map and is not has had its channel closed exactly once |
| HubPumps.PumpsUnregister | backend/internal/ws/hub.go:168-206 | a read pump ends only by unregistering its client, a write pump by unregistering it or when its channel was closed |
| HubPeers.BroadcastsInOrder | backend/internal/ws/hub.go:93-127 | Run takes broadcasts in publication order and skips none |
| CycleFinder.DetectCycle | frontend/src/components/lock/LockGraphView.tsx:31-61 | every reported list is a simple directed cycle of two or more nodes, and a node is in a reported list if and only if it lies on such a cycle; root by root there is exactly one list for each edge its search followed back to another node of its path, running from the edge's target to its source; with distinct edges no two lists of a root share both ends; the search terminates |
| CycleFinder.Search.Dfs | frontend/src/components/lock/LockGraphView.tsx:43-53 | what a visit adds is closed under edges, every edge back to the root is reported, every reported list is a cycle, and there is one list for each edge followed back |
| CycleFinder.ListEndsDiffer | frontend/src/components/lock/LockGraphView.tsx:43-53 | if no edge is given twice, no two lists of one root start at the same node and end at the same node |
| CycleFinder.CycleReturns | frontend/src/components/lock/LockGraphView.tsx:52-58 | a visited set closed under edges holds the predecessor of each of its nodes on a cycle |
| RateLimit.Bucket.Take | backend/internal/ratelimit/ratelimit.go:48-66 | decision, retry time and new state of one take, as functions that AdmissionExact and RetryExact pin down |
| RateLimit.Limiter.GetOrCreate | backend/internal/ratelimit/ratelimit.go:179-193 | the bucket of a key, created full if new, all others untouched |
| RateLimit.Limiter.Serve | backend/internal/ratelimit/ratelimit.go:159-174 | decision and the whole new state of the limiter for one request, and a Retry-After of the whole seconds of the retry time, at least one |
| RateLimit.Limiter.constructor | backend/internal/ratelimit/ratelimit.go:113-134 | capacity and rate are always positive, with defaults 60 and 20 |
| RateLimitRuns.AdmissionExact | backend/internal/ratelimit/ratelimit.go:48-66 | for any clocks a take is admitted if and only if, counting it, what was admitted since the start is covered by what the bucket held and what flowed in since, and what was admitted since any take by the capacity and what flowed in since |
| RateLimitRuns.BurstAdmitted | backend/internal/ratelimit/ratelimit.go:48-66 | from a full bucket on, with no clock behind, the first whole capacity of takes is admitted |
| RateLimitRuns.AdmissionBound | backend/internal/ratelimit/ratelimit.go:48-66 | between take i and an admitted take j at most capacity + rate (t_j - t_i) takes are admitted, for any clocks |
| RateLimitRuns.OneBucket | backend/internal/ratelimit/ratelimit.go:159-164 | the limiter's decisions on one key are those of a run of takes on the bucket its first request finds or creates |
| RateLimitRuns.RetryExact | backend/internal/ratelimit/ratelimit.go:57-65 | after a rejection a take is admitted if and only if it comes at or after the announced time and the bucket can hold a token |
| RateLimitRuns.HeaderExact | backend/internal/ratelimit/ratelimit.go:164-171 | waiting the header's seconds suffices if and only if the retry time is at most one second or whole |
| RateLimitRuns.HeaderSuffices | backend/internal/ratelimit/ratelimit.go:164-171 | with a rate of at least one per second it always suffices, from any bucket in credit at a clock no take is behind |
| RateLimitRuns.CreatingInCredit | backend/internal/ratelimit/ratelimit.go:161-189 | the take that creates a bucket, its clock read first, leaves it in credit from its creation clock on |
| RateLimitRuns.CreatingRejected | backend/internal/ratelimit/ratelimit.go:161-189 | if that take is turned away, one at any clock from the creation on is admitted |
| RateLimitRuns.HeaderTooShort | backend/internal/ratelimit/ratelimit.go:167-171 | an input for which it does not |
| RateLimitRuns.HeaderBehind | backend/internal/ratelimit/ratelimit.go:51-65 | another, at one token a second, with a clock behind an earlier take's |
| RateLimitRuns.RejectedInvisible | backend/internal/ratelimit/ratelimit.go:51-65 | leaving out any set of rejected requests whose buckets existed changes no other decision, for any clocks |
| RateLimitRuns.CreatorVisible | backend/internal/ratelimit/ratelimit.go:161-162 | a rejected request that created its bucket changes a later decision |
| RateLimitRuns.InvisibleExactly | backend/internal/ratelimit/ratelimit.go:159-193 | a rejected request is invisible to all later runs if and only if its bucket existed or can never admit |
| RateLimitRuns.KeysIndependent | backend/internal/ratelimit/ratelimit.go:179-193 | the decisions on one (client, route) are those of its own requests run alone |
| LimiterRuns.LimiterExact | backend/internal/ratelimit/ratelimit.go:159-193 | the same equivalence for every request of any interleaved run of the limiter, buckets born in it included |
| LimiterRuns.BurstGranted | backend/internal/ratelimit/ratelimit.go:159-193 | with clocks in order the first requests of a new key, up to its capacity, are all admitted, the creating one unless its clock was too far behind the bucket's |
| LimiterRuns.LimiterBound | backend/internal/ratelimit/ratelimit.go:48-66 | in any interleaved run of any limiter, buckets born in it and backward clocks included, a key is admitted at most capacity + rate (t_j - t_i) between its request i and its admitted request j |
| LimiterRuns.FoundInCredit | backend/internal/ratelimit/ratelimit.go:159-193 | with a key's clocks read in order no request on it finds its bucket in debt, over any interleaved run |
| LimiterRuns.WaitingSuffices | backend/internal/ratelimit/ratelimit.go:159-174 | with a rate of at least one per second, whoever is turned away and waits as announced is admitted next, in any interleaved run with the key's clocks in order; whoever created the bucket need not wait |
| TelemetryStore.Store.Record | backend/internal/telemetrystore/store.go:151-183 | one report merged or added, then the cap |
| TelemetryStore.Store.EnforceCap | backend/internal/telemetrystore/store.go:238-254 | exactly the cap is kept and nothing kept is older than anything dropped; needs that each event carries its own key |
| TelemetryStore.Store.PurgeBefore | backend/internal/telemetrystore/store.go:217-234 | exactly the events older than the cutoff go, and their number is returned |
| TelemetryStore.Store.Maintain | backend/internal/telemetrystore/store.go:333-340 | retention purge, then cap |
| TelemetryStore.Store.TopSince | backend/internal/telemetrystore/store.go:194-212 | the newest matching events, newest first, at most the limit, none left out newer than one let in |
| TelemetryHistory.StoreIsHistory | backend/internal/telemetrystore/store.go:151-254 | over any run with strictly increasing times the store holds exactly the cap's worth of most recently recorded fingerprints no later purge has reached |
| TelemetryHistory.SmallerCapHoldsSubset | backend/internal/telemetrystore/store.go:238-254 | on the same operations a smaller cap holds a subset of what a larger one holds |
| TelemetryHistory.ExpiredExactly | backend/internal/telemetrystore/store.go:225-234 | with no record before a cutoff already used, expired means last recorded before the largest cutoff so far |
| TelemetryHistory.CutoffsPastExactly | backend/internal/telemetrystore/store.go:217-234 | it means that at every point of a history if and only if no record of it comes before a cutoff already used |
| TelemetryHistory.CutoffAhead | backend/internal/telemetrystore/store.go:217-234 | a run of the store in which an event older than a purge cutoff survives |
| TelemetryHistory.KeptInClosedForm | backend/internal/telemetrystore/store.go:151-254 | over such a run with strictly increasing times the keys are the fingerprints last recorded no earlier than the largest cutoff that are among the cap's worth of most recent ones |
| TelemetryHistory.CountIsStreak | backend/internal/telemetrystore/store.go:155-173 | an event's count is the number of reports since the store last did not hold it |
| TelemetryHistory.CountsEverything | backend/internal/telemetrystore/store.go:151-183 | without cap and purge the store holds a bug if and only if it was ever reported, with the number of reports as its count, whatever the clock shows |
| TelemetryHistory.EventTells | backend/internal/telemetrystore/store.go:151-183 | whatever the clock shows and the cap evicts, a stored event has first-seen time, message, url and stack of the report that began its stay, last-seen time, id and timestamp of the last report, and the last level and user agent given since |
| TelemetryHistory.TopIsSmallerStore | backend/internal/telemetrystore/store.go:194-212 | the newest limit events are exactly what a store with that cap would hold |
| Clog.ParsePage | backend/pkg/clog/reader.go:105-132 | every transaction of a page with its id modulo 2^32 and its two bits |
| Clog.PageRepacks | backend/pkg/clog/reader.go:117-129 | packing four parsed statuses gives back the byte |
| Clog.UnpackPack | backend/pkg/clog/reader.go:121 | any four statuses can be read back from the byte they pack to |
| Clog.ReadPage | backend/pkg/clog/reader.go:81-103 | a page is read exactly when its file exists and reaches to its end |
| Clog.ReadRange | backend/pkg/clog/reader.go:135-159 | for all bounds up to 2^32 - 1: the known transactions of the range, each addressed directly; no wrap, and the loop ends |
| Clog.UptoExact | backend/pkg/clog/reader.go:135-159 | which is ascending, without repeats, complete, and holds nothing else |
| Clog.PageAddresses | backend/pkg/clog/reader.go:70-74 | the page and segment arithmetic of the scan agrees with the file a transaction id names and with its direct address |
| Clog.FileNamesSegment | backend/pkg/clog/reader.go:70-79 | the file of a transaction is named by the four upper-case digits of its segment number |
| Clog.GetStatistics | backend/pkg/clog/reader.go:194-217 | the four counts are the numbers of places with status in-progress, committed, aborted and subtrans, and add up to the total |

## Left out

- WalRecords: operation names, resource-manager names, hex dumps and `ParseRMgrData` are display lookups.
- GoWalReader.ReadRecords: what a start offset inside a record finds; the reader takes the bytes there for a header.
- GoWalReader: `TailRecords`, which sorts on in-page LSNs that collide across pages.
- RustWalReader.ReadRecords: LSN addition wraps at 2^64, as in a release build; a debug build would stop there.
- LsnText.ParseFormat: `fmt.Sscanf` also skips white space before the digits of a part; here a part that starts with a blank scans as 0.
- WalPoll.Collector.Collect: listing the directory and reading files; a file that cannot be read is an input.
- Hub: the per-client mutex around the connection, pings that succeed, deadlines, `ClientCount` and logging.
- Hub: liveness; after `Stop`, pumps may wait forever to unregister.
- RateLimit.Limiter.Serve: exempt paths, key extraction and `RouteBucket`; the key and route are inputs.
- RateLimit.Bucket.Take: floating-point rounding and truncation of durations to nanoseconds; the bucket's own mutex.
- TelemetryStore: loading, flushing and the SHA-256 fingerprint. Events are values in the map rather than shared pointers; the
  source hands out copies only.
- TelemetryHistory.StoreIsHistory: assumes strictly increasing times; with equal times an unstable sort decides, and only `Step` is claimed.
- Clog: `DumpPage` and `SubtransReader`; which of `pg_xact` and `pg_clog` exists is part of the directory given.
- CycleFinder: drawing; the graph built from snapshots has edges only from backends to locks and so no cycles.
- Workspace editing, provisioning, connection management, the reporter queue, eBPF probes and the rest of the front end.
