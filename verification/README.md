# Models and proofs for the network prober

Dafny models of the parts of the prober that carry state across many steps,
and proofs about every run of them. `dafny verify dfyconfig.toml` checks all of it.

Code that updates an object in place is a class whose methods are proved
against a function on values (`Step`, `AddCycle`, `RunHop`, `Write`, ...). The
theorems are lemmas about these functions over whole runs: histories of the
aggregator's locked calls, traces against an arbitrary network, write, flush,
upload and crash steps in any order, observations of arbitrary polls.

| file | what it models |
|---|---|
| `Summaries.dfy` | minute statistics: percentiles, jitter, rounding |
| `Aggregator.dfy` | the minute aggregator, one atomic step per locked region, and its in-place flush |
| `AggregatorHistory.dfy` | the aggregator recomputed from the history of calls, and conservation of records |
| `FlushReports.dfy` | every field of an emitted aggregate, told of the records behind it |
| `ShortLoop.dfy` | what short connections record, and the agreement of their books under interleaving |
| `IdleConnection.dfy` | the idle session: growing silences, survival, death |
| `LongConnection.dfy` | the long session: PING results, ticks, retransmits, giving up |
| `Resolver.dfy` | measurements started and stopped as a host's addresses change |
| `Tracer.dfy` | the route tracer with its shrinking MTU and an adversarial error queue |
| `TraceReplies.dfy` | a trace told by the fields of the queued errors |
| `Store.dfy` | day files, buffer, rollover, listing, upload and rename |
| `StoreHistory.dfy` | every run of the store and its uploader, crashes and late records included |
| `LongPoll.dfy` | the long-poll truncation detector against the polls that really took place |
| `RunReport.dfy` | the run accumulator and the two summary blocks' counts |
| `Durations.dfy` | the duration printer, with a reader for its output |
| `SctList.dfy` | the walk over the list of embedded certificate timestamps |
| `Download.dfy` | reading a download piece by piece, and its verdict |
| `Prelude.dfy` | shared definitions |

Where the code falls short of what it says, the code is modelled as it is:

- A record written after its day's file was read for upload can be renamed away
  unsent (`LateRecordIsLost`), and one written after the rename starts a second
  file that replaces the first one sent (`LateRecordReopensDay`). A post is
  complete if and only if the conditions of `PostIsWholeIff` hold, and a sent
  day is listed again if and only if that of `SentDayListedAgainIff` does.
- Starting below the minimum, `lower` raises the probe size
  (`LoweringNeedsTheMinimum`).
- A target registered again with fewer modes leaves buckets that are filled but
  never reported (`StrandedByFewerModes`, `MixedModesStrandRecords`).
- A target listed twice, in one cycle or in the run, has its results counted
  twice (`CumulativeCountsEveryResult`, `OverallCountsEveryResult`,
  `SummaryCountsEveryResult`).
- `observe` counts only certain truncations (`CountedIsCertain`,
  `TruncationsAreReal`) and misses some of them, exactly when `UncountedIff`
  says (`CertainButNotCounted`, `NotFoundAndNotCounted`).

## Model

| member | source | states |
|---|---|---|
| Summaries.Summarise | internal/netcheck/agg.go:562-587 | No samples give no summary; else min, p50, p95, p99 and max are the rounded 1st, nearest-rank and n-th smallest samples, by counts on the unsorted samples, and jitter the rounded mean of neighbour differences |
| Summaries.OneDescription | internal/netcheck/agg.go:562-587 | No other numbers meet that description |
| Summaries.PercentileIsNearestRank | internal/netcheck/agg.go:589-594 | A value is the percentile if and only if at least rank samples are at most it and at least n-rank+1 are at least it, counted on the unsorted samples |
| Summaries.SummaryIsOrdered | internal/netcheck/agg.go:578-586 | min <= p50 <= p95 <= p99 <= max, after rounding |
| Summaries.ArrivalOrderOnlyMovesJitter | internal/netcheck/agg.go:562-587 | Two arrival orders of the same samples give the same summary but for the jitter |
| Summaries.JitterBounds | internal/netcheck/agg.go:567-574 | jitter <= max-min <= (n-1) jitter for n >= 2 samples |
| Summaries.RoundIsNearest | internal/netcheck/agg.go:602-604 | Rounding gives a whole number of microseconds, at most half of one away |
| Summaries.HalvesLeaveZero | internal/netcheck/agg.go:602-604 | Halves are rounded away from zero |
| Summaries.RoundKeepsOrder | internal/netcheck/agg.go:602-604 | Rounding never swaps two values |
| Aggregator.Agg.RegisterModes | internal/netcheck/agg.go:296-313 | A registration undoes a pending removal, appends a new target once and adds only missing buckets, for any list of modes |
| Aggregator.Agg.Remove | internal/netcheck/agg.go:317-322 | A removal only marks the target: its buckets stay for the next flush |
| Aggregator.Agg.With | internal/netcheck/agg.go:325-332 | A record changes its own bucket only, and nothing if there is no such bucket |
| Aggregator.Agg.NoteInterception | internal/netcheck/agg.go:352-374 | The two locked regions in order, and news exactly when the fingerprint is not the last one of that target |
| Aggregator.Agg.IdleSurvived | internal/netcheck/agg.go:461-468 | The gap is kept only for a target with an idle bucket |
| Aggregator.Agg.FlushMinute | internal/netcheck/agg.go:491-533 | Filtering targets over the slice being read emits every bucket in order, empties it and forgets exactly the removed targets; FlushReports says what is in each aggregate |
| Aggregator.KeptElements | internal/netcheck/agg.go:494-530 | What stays after the in-place filter: exactly the targets not removed, still distinct |
| Aggregator.FlushKeepsValid | internal/netcheck/agg.go:491-533 | After a flush every remaining target still has a list of modes and a bucket for each of them |
| AggregatorHistory.RecountIsUpdate | internal/netcheck/agg.go:335-486 | Updating a bucket record by record equals recounting all its records from scratch: counters, sample lists, maps, last readings and the wrapped sum of retransmits |
| AggregatorHistory.TargetAgrees | internal/netcheck/agg.go:296-322 | Which targets are registered, removed and with which modes, read off the history of calls alone |
| AggregatorHistory.OrderAgrees | internal/netcheck/agg.go:296-322 | Targets are kept in the order of registration, an undone removal keeping its place |
| AggregatorHistory.BucketAgrees | internal/netcheck/agg.go:325-332 | After any history a bucket exists just when it should and holds the recount of its records since its last report |
| AggregatorHistory.SurvivedAgrees | internal/netcheck/agg.go:461-468 | The reported idle survival is the last value set since the target was registered |
| AggregatorHistory.FingerprintAgrees | internal/netcheck/agg.go:364-374 | The remembered fingerprint is the last one noted, unknown targets included, until a flush forgets the target |
| AggregatorHistory.FlushReportsHistory | internal/netcheck/agg.go:491-557 | After any history a flush emits, in order, exactly the aggregates recomputed from the history |
| FlushReports.FlushPortrays | internal/netcheck/agg.go:491-557 | After any history a flush emits on each reported key an aggregate whose minute, summaries of connect, handshake and round-trip times, counts, entries, last readings and idle survival are each told of the records since the last report |
| FlushReports.FlushEmitsReported | internal/netcheck/agg.go:491-533 | It emits on no other key and for no other minute |
| FlushReports.OnePortrait | internal/netcheck/agg.go:536-557 | No other numbers meet that description |
| AggregatorHistory.NothingLostOrCountedTwice | internal/netcheck/agg.go:491-557 | For every key, counter and history, emitted plus current counts equal the accepted records, through removals, last minutes and removals undone |
| AggregatorHistory.MinutesPartitionRecords | internal/netcheck/agg.go:491-557 | The records behind a key's aggregates, end to end with the unreported ones, are its accepted records in order |
| AggregatorHistory.BucketsAreTargetsTimesModes | internal/netcheck/agg.go:296-313 | With one list of modes per target the buckets are exactly targets times modes |
| AggregatorHistory.ReportsCoverOneMinute | internal/netcheck/agg.go:491-557 | With one list of modes per target each report covers exactly the records since the previous flush |
| AggregatorHistory.StrandedByFewerModes | internal/netcheck/agg.go:296-313 | A step leaves accepting buckets no flush reports if and only if it registers a target without a mode it already has |
| AggregatorHistory.MixedModesStrandRecords | internal/netcheck/agg.go:296-313 | A concrete history whose accepted record is in no report |
| AggregatorHistory.ContinuedRecords | internal/netcheck/agg.go:325-332 | Among any other calls and flushes, one loop's records reach its bucket, all and in order, if and only if the bucket was there at each |
| ShortLoop.SynRetrans | internal/netcheck/short.go:132-143 | The number of lost SYNs by the connect time |
| ShortLoop.BookConnection | internal/netcheck/short.go:42-72 | One connection makes exactly the calls the theorems interleave, in that order |
| ShortLoop.SplitNeverRunsAhead | internal/netcheck/short.go:38-73 | However flushes and other threads fall between the calls, SNI samples exceed samples by 0 or 1; so do SNI failures and failures class by class, and resets and reset failures |
| ShortLoop.SplitAgreesBetweenConnections | internal/netcheck/short.go:38-73 | Between two connections these differences are 0 |
| ShortLoop.CountsConnections | internal/netcheck/short.go:42-72 | Over all minutes every counter is the sum of what each connection has to add, by its outcome, phase, connect time and place |
| ShortLoop.EveryOtherSendsSNI | internal/netcheck/short.go:80-87 | A hostname is sent as SNI by every other connection beginning with the first, a bare IP by none, and every connection is one sample |
| ShortLoop.TimesAreThrough | internal/netcheck/short.go:42-72 | The connect and handshake times are those of the connections that got through, intercepted ones included, in order and in milliseconds |
| ShortLoop.RemembersInterception | internal/netcheck/short.go:191-203 | A fingerprint and a certificate are recorded if and only if the connection was intercepted, and then its own |
| IdleConnection.Ended | internal/netcheck/long.go:200-228 | A failure counts as a server close or a drop, and a reset drop also under its phase |
| IdleConnection.IdlePing | internal/netcheck/idle.go:109-131 | What a PING records: a round trip, a loss on timeout, nothing when the connection broke or the loop was cancelled before |
| IdleConnection.IdleSession | internal/netcheck/idle.go:59-105 | The loop over gap and survived makes the calls and ends with the event given in closed form by the number of answered PINGs |
| IdleConnection.GapsGrow | internal/netcheck/idle.go:59-105 | The silences only grow, so the last survived is the longest |
| IdleConnection.SessionEffect | internal/netcheck/idle.go:59-131 | Whatever other calls and flushes fall in between, as long as the bucket is there, a session adds one sample per answered PING and what the last one adds, for every counter, and leaves the survival given in closed form if the target remains |
| IdleConnection.SessionEndsOnce | internal/netcheck/idle.go:59-105 | A death adds exactly one to drops or server closes and resets survived; a session that did not die adds neither |
| IdleConnection.DeathReportsGap | internal/netcheck/idle.go:59-105 | The fatal gap and the survival by the number of answers, survival at most the gap, a phase only for a reset |
| IdleConnection.SessionEndTold | internal/netcheck/idle.go:59-105 | Whether a session dies, as what, in which phase and with which gaps, and the survival it leaves, told of its PINGs |
| IdleConnection.SessionRecords | internal/netcheck/idle.go:59-131 | The records of a session in order: its round trips, what the last PING records, and a death's drop or close, reset and gaps |
| LongConnection.LongSession | internal/netcheck/long.go:134-184 | The select loop over lastAnswer and lastRetrans makes exactly the calls, and the end, the lemmas below speak about, for any sequence of ticks and results |
| LongConnection.RetransmitsTelescope | internal/netcheck/long.go:149-169 | The uint32 differences a session records add up to the last count read minus the first, plus 2^32 for every time it was read below the one before |
| LongConnection.RetransmitsExactIff | internal/netcheck/long.go:149-169 | They add up exactly if and only if the kernel's count was never read below the one before |
| LongConnection.SessionReachesBucket | internal/netcheck/agg.go:476-486 | Whatever other calls and flushes fall in between, as long as the bucket is there, it accepts exactly those retransmits |
| LongConnection.SessionEffect | internal/netcheck/long.go:134-184 | Whatever falls in between, as long as the bucket is there, a session adds to every counter what its turns up to the end add |
| LongConnection.SessionEndsOnce | internal/netcheck/long.go:200-228 | One drop or one server close if the session ended by itself, a reset in the transfer phase exactly for a reset drop, none of them if it was stopped |
| LongConnection.DeadAfterSilence | internal/netcheck/long.go:158-162 | At a tick the connection is given up if and only if it started and every PING was answered more than 30 seconds ago |
| LongConnection.SessionTold | internal/netcheck/long.go:134-228 | The end of a session and all its records in order, told of its ticks and results: it lives until stopped, broken, or at a tick last answered too long ago |
| Resolver.Measurements.Apply | internal/netcheck/resolve.go:31-67 | Adding new addresses and stopping unwanted ones, in any order of the map, leaves exactly the resolved ones running and makes the matching registrations and events |
| Resolver.Measurements.ResolveAll | internal/netcheck/resolve.go:81-108 | The object driven through any lookups ends with the addresses, the events and the aggregator state of the run the lemmas speak about |
| Resolver.RunningIsResolved | internal/netcheck/resolve.go:31-98 | In every run, adding new addresses and dropping unwanted ones, in any order, leaves exactly those of the last successful lookup |
| Resolver.EventsAlternate | internal/netcheck/resolve.go:31-98 | Every address's events alternate, added first, and it runs just when their number is odd |
| Resolver.RequestsFollowRunning | internal/netcheck/resolve.go:31-67 | The last request made about an address is a registration if and only if it is running |
| Resolver.RequestsMirrorEvents | internal/netcheck/resolve.go:46-66 | In every run each event goes with one request about its address on port 443, a registration with the three modes for an added one |
| Resolver.LookupEvents | internal/netcheck/resolve.go:31-67 | A lookup adds exactly the new addresses, then removes exactly those that are gone |
| Resolver.AggregatorFollowsResolver | internal/netcheck/resolve.go:31-67 | Whatever flushes and other hosts' calls fall in between, the aggregator collects exactly the running addresses |
| Tracer.Tracer.Lower | internal/netcheck/trace_linux.go:319-329 | Reports true exactly when the probe size strictly fell |
| Tracer.Tracer.Drain | internal/netcheck/trace_linux.go:333-346 | The advised size is that of the last too-big error in the queue |
| Tracer.Tracer.Wait | internal/netcheck/trace_linux.go:352-394 | The first queued error that is a reply quoting this probe, or quoting too little to tell |
| Tracer.Tracer.ProbeHop | internal/netcheck/trace_linux.go:245-293 | The retry loop makes the attempts, drops and result of the recursive description, against any network |
| Tracer.Tracer.Run | internal/netcheck/trace_linux.go:209-241 | The loop over TTLs makes the run the theorems here and in TraceReplies speak about |
| Tracer.TraceIsBounded | internal/netcheck/trace_linux.go:209-293 | Whatever comes back, a whole trace makes at most 30 tries-per-hop attempts plus the starting size's distance to the minimum |
| Tracer.HopBound | internal/netcheck/trace_linux.go:245-293 | Attempts at one TTL are paid for by its tries and by the drop of the shared probe size |
| Tracer.TraceIsWellShaped | internal/netcheck/trace_linux.go:209-241 | TTLs 1 to n <= 30 without gaps, five silent in a row only at the end, an error-free end for one of the four reasons |
| Tracer.PathMTUOnlyShrinks | internal/netcheck/trace_linux.go:209-241 | From at least 576 the size of probes never rises and never falls below 576; the result is the last size |
| Tracer.LoweringNeedsTheMinimum | internal/netcheck/trace_linux.go:319-329 | Lowering does not raise the size if and only if it was at least the minimum |
| Tracer.RepliesStayAtTheirTTL | internal/netcheck/trace_linux.go:245-394 | A hop's address comes from a reply quoting a probe of that very TTL, the only attempt with that number, or quoting under 4 bytes |
| Tracer.HopIsCredited | internal/netcheck/trace_linux.go:245-293 | An answered hop names the attempt and the queued error that answered it |
| TraceReplies.AttemptIs | internal/netcheck/trace_linux.go:297-394 | What one attempt comes to, by the fields of the first entry that counts, the writes and the last advised size |
| TraceReplies.AwaitIff | internal/netcheck/trace_linux.go:352-394 | Waiting returns exactly the first entry that counts, times out exactly when there is none, and fails exactly when cut off before one |
| TraceReplies.TraceIsTold | internal/netcheck/trace_linux.go:209-293 | In every trace the attempts fall into one stretch per hop, each attempt moves the probe size as its answer says, a silent hop used up exactly two tries, and the last hop says how the trace ended |
| TraceReplies.ReachedIff | internal/netcheck/trace_linux.go:81-94 | The trace reached the destination if and only if the last attempt was answered by an entry with an errno other than 90, origin 2, type 3 and code 3 |
| TraceReplies.EndsWherePathDoes | internal/netcheck/trace_linux.go:226-232 | An error-free trace that ends otherwise before 30 hops and five silent ones ends at an entry of type 3 and another code |
| TraceReplies.FailedIff | internal/netcheck/trace_linux.go:213-224 | A trace fails if and only if the last attempt broke off or the next TTL could not be set |
| TraceReplies.EarlierHopsAreRouters | internal/netcheck/trace_linux.go:81-94 | Every earlier hop with an address was answered by an entry of origin 2 and type 11 from that address |
| Store.DayStore.CloseLocked | internal/netcheck/store.go:218-231 | Closing writes the buffer out and forgets the file |
| Store.DayStore.OpenDayFile | internal/netcheck/store.go:146-187 | Opening another day closes the old one and buffers the header only for an empty file |
| Store.DayStore.WriteRecord | internal/netcheck/store.go:124-142 | A record goes to its own day's file, any part of the buffer spilling to disk |
| Store.DayStore.FlushBuffer | internal/netcheck/store.go:191-208 | A flush writes the buffer out and closes a day that is over |
| Store.DayStore.Finished | internal/netcheck/store.go:235-266 | A finished day is closed first; a day is returned if and only if it is before today and has an unsent file, in ascending order |
| Store.DayStore.UploadDay | internal/netcheck/upload.go:92-145 | Posts the file as it is and renames it exactly when accepted; a missing file is not posted and fails |
| Store.DayStore.UploadPending | internal/netcheck/upload.go:63-87 | Takes the listed days in order until cancelled, whatever the receiver answers to each, and reports success as Succeeds says |
| Store.UploadPostsEachDay | internal/netcheck/upload.go:63-87 | Without interference the posts are exactly the listed days' files, each once, up to a cancellation |
| Store.UploadSucceeds | internal/netcheck/upload.go:63-87 | Success means that every post was accepted and none cancelled |
| StoreHistory.OneHeaderFirst | internal/netcheck/store.go:146-231 | In every run every file is empty or one header followed by records only |
| StoreHistory.RunIsSound | internal/netcheck/store.go:124-266 | In every run the open descriptor leads to the latest file of its day, through renames under it |
| StoreHistory.StepWhole | internal/netcheck/store.go:124-187 | In every run only a record of the day adds to its lines, only a crash takes away, and only a day without a file of its own or with an empty one gets a header |
| StoreHistory.WholeIsWritten | internal/netcheck/store.go:124-187 | Without a crash a day's latest file and its buffer are the header and the records written to it, in order |
| StoreHistory.LatestIsEnd | internal/netcheck/store.go:146-187 | The latest file got the last of its day's records, and all of them if and only if none was sent before |
| StoreHistory.PostIsWholeIff | internal/netcheck/upload.go:92-145 | A post is the header and exactly all its day's records if and only if, when it was read, no file of that day was sent and nothing of it buffered, and nothing was written since |
| StoreHistory.ReadingIsWholeIff | internal/netcheck/upload.go:92-108 | The same for what is about to be posted |
| StoreHistory.PostsAreComplete | internal/netcheck/upload.go:63-145 | If no record arrives for a listed day, every post is the whole file of a past day that is not open; the condition above holds |
| StoreHistory.SentDayListedAgainIff | internal/netcheck/store.go:235-266 | A sent, past day is listed again if and only if a record has started a new file since |
| StoreHistory.ListedIff | internal/netcheck/store.go:235-266 | In every run a day is listed if and only if it is over and a record was written to its latest file, which was not sent since |
| StoreHistory.UploadClears | internal/netcheck/upload.go:63-87 | A successful upload leaves no unsent file of a day that is over, and sends each whole |
| StoreHistory.AcceptedOnce | internal/netcheck/upload.go:63-145 | A day accepted once is never posted again unless a record started a new file after a rename |
| StoreHistory.UploaderIsSound | internal/netcheck/upload.go:63-145 | In every run the uploader holds only listed, past days that have their files, and what was accepted is sent |
| StoreHistory.LateRecordIsLost | internal/netcheck/upload.go:92-145 | A concrete run whose late record ends in the renamed file, never posted |
| StoreHistory.LateRecordReopensDay | internal/netcheck/upload.go:136-138 | A concrete run whose late record starts a second file, which is posted too and replaces the first one sent |
| StoreHistory.CrashKeepsFlushedPrefix | internal/netcheck/store.go:191-231 | In every run what survives a crash in a day's latest file is a prefix of what each process wrote there, with everything written before buffers were last written out |
| StoreHistory.StepFile | internal/netcheck/store.go:124-266 | In every run files only grow, and a flush, close or day change writes out everything buffered |
| LongPoll.Poller.ObserveResponse | internal/probe/temporal.go:303-338 | The loop over pollers finds the longest age of ours, and the three fields are updated together or not at all |
| LongPoll.HeldIsOldest | internal/probe/temporal.go:309-325 | With a truthful response, held is the age of our oldest open poll and found means there is one |
| LongPoll.RemembersLastListing | internal/probe/temporal.go:303-338 | In every run, whatever the responses, lastSeen and lastHeld are the time of the last observation that lists one of our pollers and the longest age in it |
| LongPoll.TruncationsAreFalls | internal/probe/temporal.go:303-338 | In every run the truncations are exactly the observations whose longest age fell below that of the last listing, and that age and the time since are below 60 seconds |
| LongPoll.OldestWasTruncated | internal/probe/temporal.go:330-334 | When a truncation is counted, the poll last seen oldest has ended before 60 seconds since |
| LongPoll.TruncationsAreReal | internal/probe/temporal.go:296-338 | In every run each counted truncation is charged to a different poll of ours that really ended early |
| LongPoll.NeverMoreThanCutShort | internal/probe/temporal.go:296-338 | Truncations never exceed the number of polls cut short |
| LongPoll.StillOpenIffAged | internal/probe/temporal.go:330-334 | The oldest poll is still open if and only if the observed age grew by exactly the time that passed |
| LongPoll.CountedIsCertain | internal/probe/temporal.go:330-334 | At a count every poll that was the oldest when last seen has ended early |
| LongPoll.UncountedIff | internal/probe/temporal.go:309-337 | A certain truncation goes uncounted if and only if no poll of ours is open now, or one is already as old as the one cut short was |
| LongPoll.CountsIff | internal/probe/temporal.go:303-338 | Since the last observation that listed ours: one counts if and only if the oldest poll was certainly cut short, a poll of ours is open, and none as old |
| LongPoll.CertainButNotCounted | internal/probe/temporal.go:330-334 | A concrete run missing one because the next poll is seen older |
| LongPoll.NotFoundAndNotCounted | internal/probe/temporal.go:323-325 | A concrete run missing one because none of ours is open until it is too late to tell |
| RunReport.TallyCycle | internal/report/report.go:274-305 | The loop gives the order and the tallies whose meaning TallyCounts states |
| RunReport.TallyCounts | internal/report/report.go:274-305 | A target's tally is its results and passes in the cycle, and how often it is listed |
| RunReport.TallyOrder | internal/report/report.go:274-305 | A block lists the configured targets in their order, then the others as they first turn up |
| RunReport.TallyFailed | internal/report/report.go:299-301 | A target's failed stages are listed once each, as they first failed |
| RunReport.Run.Add | internal/report/report.go:135-173 | The fields after a cycle and the overall counts of its block |
| RunReport.Run.IsClean | internal/report/report.go:83-91 | True exactly when every result passed |
| RunReport.RunFlags | internal/report/report.go:135-149 | After any cycles clean + degraded = cycles, clean counts the clean ones, failed means some cycle failed, failingSince starts the current streak |
| RunReport.FailingSinceIsStreakStart | internal/report/report.go:141-149 | With proper times failingSince is the start of the unbroken failing streak the run ends in, zero exactly when the last cycle was clean |
| RunReport.CumulativeCountsEveryResult | internal/report/report.go:151-161 | A target's cumulative count is the number of its results if and only if no cycle lists it twice where it has results |
| RunReport.CumulativeCountsPasses | internal/report/report.go:151-161 | Then its passes are counted exactly too |
| RunReport.LastColumns | internal/report/report.go:163-169 | lastOK is the outcome in the last cycle listing the target, lastFail the start of the last cycle it failed in |
| RunReport.OverallCountsEveryResult | internal/report/report.go:176-203 | The overall row counts every result of the cycle once if and only if no target with a result is listed twice |
| RunReport.Run.SummaryOrder | internal/report/report.go:212-226 | The summary lists the configured targets first as they are and every other one once, in any map order |
| RunReport.Run.Summary | internal/report/report.go:212-254 | The rows, and the last row's counts as the sums over them |
| RunReport.SummaryCountsEveryResult | internal/report/report.go:212-254 | The last row counts every result and pass of every cycle once if and only if neither the run nor any cycle lists a target with results twice |
| RunReport.CleanIffAllPassed | internal/report/report.go:83-91 | A cycle is clean if and only if passes equal results |
| Durations.PrintedReadsBack | internal/report/report.go:383-408 | For every duration, reading the text as a sum of units gives exactly the rounded duration |
| Durations.PrintedIsClose | internal/report/report.go:383-408 | The text is off by at most half the rounding unit |
| Durations.PrintedAlike | internal/report/report.go:383-408 | Two durations print alike if and only if they round alike |
| Durations.PrintedForm | internal/report/report.go:383-408 | The text itself: 0s, whole milliseconds, seconds with a fraction that ends in no zero, or hours, minutes and seconds without the trailing zero ones |
| Durations.RoundedIsNearest | internal/report/report.go:388-395 | Rounding gives a multiple of the unit at most half of it away, across the 1s and 1m boundaries |
| Durations.TrimmedIsCompact | internal/report/report.go:397-407 | Trimming leaves out exactly the trailing zero units and never part of a number |
| SctList.EmbeddedSCTs | internal/probe/chain.go:117-134 | The walk terminates in bounds with the count of whole entries |
| SctList.RoundTrip | internal/probe/chain.go:117-134 | On any serialised list the count is the number of its entries |
| SctList.SerialisedAreCounted | internal/probe/chain.go:117-134 | Entries in front of any bytes are all counted |
| SctList.EveryBodyIsEntriesAndRest | internal/probe/chain.go:117-134 | Any bytes are as many entries as counted and a rest that starts with none |
| SctList.CountIsLargest | internal/probe/chain.go:117-134 | No split of the bytes has more whole entries in front than the count |
| Download.ReadBody | internal/netcheck/throughput.go:327-358 | For any chunking the byte count is min(body, payload+1) and the head is the body's first 64 KiB of that |
| Download.Judge | internal/netcheck/throughput.go:297-318 | A download is OK if and only if the status is 200, the certificate good, no error came and the body is exactly the payload's size; else the fault named is the first of error, certificate, status and size |

## Left out

- Sockets, TLS, HTTP/2, gRPC, DNS, certificates, gzip and JSON: their results are arbitrary inputs.
- Floating point: statistics are exact reals, and the percentile's rank is (p*n+99)/100.
- Clocks: instants are integers given with each step; duration overflow beyond 64 bits is not modelled.
- Locking: each locked region is one atomic step; that the mutex makes it so is assumed.
- Aliasing of a bucket's maps by the aggregate it emitted: buckets are values here; the code drops the bucket when it hands the maps over.
- Reconnect backoff, its doubling up to a minute, and the wait after midnight: short arithmetic.
- StoreHistory.CrashKeepsFlushedPrefix: speaks of a day's latest file, as an earlier one may be replaced by a rename; a process that crashes before its first flush may leave an empty file, which is then posted empty; partial lines and I/O errors are not modelled.
- Store.DayStore.WriteRecord: how much of the buffer spills to disk is arbitrary, in whole records; day names are ordered integers.
- Failing reads and renames of existing files: I/O errors are not modelled.
- Round-trip times, carriers and the route-change comparison of traces; stalls, timings and the block hint of downloads.
- Tracer.RepliesStayAtTheirTTL: the starting MTU is below 2^31, as a kernel's MTU is, so that sequence numbers do not wrap.
- Line layout, padding and the remaining columns of the summary blocks: presentation only.
- Decoding of the certificate extension around the timestamp list: its bytes are the input.
