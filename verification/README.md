# A model of the chaos harness

The harness drives a small blockchain fleet into trouble and reports what happens. This project models
the parts of it that are state machines, protocols and codecs, and proves what their comments promise.

| module | models |
|---|---|
| LogScan, LogCursor, LogPage | folding container log lines into entries, the cursor, building a page (internal/logs) |
| LogTail, LogStream, LogPolls | following a log poll by poll with the cursor of each page (internal/logs) |
| SendController, SendProperties, SendBooks, SendService | the sustained-send run: producer, queue, workers, start, stop (internal/walletsvc/send.go) |
| Tracker, TrackerService, TrackerFairness, TrackerHistory, TrackerDivergence, TrackerBound | the bounded transaction table and its poll queue (internal/walletsvc/tracker.go) |
| AlertLog, AlertHistory, AlertHost, AlertSync | the alert publisher and its sync protocol with a set of peers (bsv-regtest/alerts) |
| Partitions, ScenarioSteps, ScenarioRun, ScenarioEngine | one scenario run, its record of partitions and cleanup; runs side by side (internal/scenario) |
| Expression | the expressions of scenario files (internal/scenario/executor.go) |
| Demux | unframing container logs and cutting them to whole lines (internal/chaos/runtime.go) |
| HealthWalk, HealthTable | flattening a health document (bsv-regtest/teranode/health.go) |
| FundCodec | the payload of freeze and unfreeze alerts (bsv-regtest/alerts/wire.go) |
| Fleet, DiagRules | the fleet context and the verdict table (internal/diag) |
| Spend | building a transaction from a requested amount (bsv-regtest/wallet/raw.go, internal/api/server.go) |
| Metronome | the auto-miner's schedule (internal/automine/automine.go) |
| Basics, Decimal, Lexical | results, base-10 integers and string order as Go has them |

Code that updates fields or runs loops is a class or a method with a specification function beside it; the
lemmas are about those functions. Concurrent code is a transition system: one event is what a goroutine
does between two points at which another can interfere, and the theorems hold for every interleaving.
Times are integers, in nanoseconds, of a clock that does not go back. The network, the container engine,
a miner, a wallet and the alert peers appear as parameters that may answer anything.

`dafny verify dfyconfig.toml` checks the project.

Where a promise fails, the model keeps the code's behaviour, shows an input and says exactly when the
promise holds:

- A later line with the stamp and mark of the cursor's line is taken for it. Following a growing log is
  complete exactly when that never happens (`LogStream.CompleteIffNoRepeats`, `LogPolls.RewindingTails`,
  `LogPolls.RepeatSkipsForward`). With windows that may also end earlier than the last one it is complete
  exactly when every poll so mistaken delivers nothing and a later window reaches the line it was mistaken for
  (`LogStream.CompleteIffNothingSkipped`).
- A continuation is delivered exactly when the first window that reaches its entry reaches it too
  (`LogStream.ContinuationDeliveredIff`, `LogStream.TailIsLost`).
- A push delivers latest+1 to upTo exactly when the log has no gap there (`AlertHost.PushDeliversAll`,
  `AlertHost.GapStopsPush`).
- The log compares hashes only. Stored bytes stay exactly when an append is for another number, is refused
  or brings the same bytes (`AlertLog.WireStaysIff`, `AlertLog.WireMayChange`); over any run they are those of
  the last alert with the number and its hash (`AlertHistory.WireIsLast`).
- A wallet sweep evicts nothing. It keeps the tracker's bound exactly when it brings no new row into a full
  table (`Tracker.SweepDoesNotEvict`); in a run the table is over its bound by the rows swept in since the last
  first note, and the next one brings it back (`TrackerBound.OverBoundBySweeps`, `TrackerBound.TwoSweeps`).
- An abort that arrives before the run's cancel function is stored only hands out a token. It stops the run
  exactly when it finds the function stored and the run not already passing (`ScenarioEngine.AbortStopsIff`,
  `ScenarioEngine.LostAbortPasses`, `ScenarioEngine.AbortReleasesPause`).
- A byte limit inside a frame header leaks header bytes, and they survive the cut to whole lines exactly
  when they hold a newline or the payload before them does not (`Demux.TruncatedIsPayload`,
  `Demux.LeakedNewline`).
- Fund payloads round-trip exactly when ids are in lower case, output indexes fit 32 bits and flags are
  0 or 1 (`FundCodec.RoundTrip`, `FundCodec.EncodeDecoded`, `FundCodec.CapitalsComeBackLower`,
  `FundCodec.OtherFlagComesBackOne`).
- A confident verdict names evidence that was not obtained exactly when the node catches up, its state was
  read and its catchup status was not (`DiagRules.ConfidentEvidence`, `DiagRules.CatchupUnread`).
- The fee is the one asked for, plus dust at most, exactly when inputs and outputs pass 2^64 equally often
  (`Spend.FeeIsAsAsked`, `Spend.WrapMintsValue`).
- A change of the mining schedule can be followed by a fire before the new interval is over exactly when it
  finds the timer gone off, or set to go off by then (`Metronome.EarlyFireIff`). One that switches mining off
  can be followed by a call of the miner exactly when it finds the loop anywhere from its wait to that call
  with mining on, the gap between moving the deadline and the call included (`Metronome.SwitchOffMinesIff`,
  `Metronome.MinesWhenSwitchedOff`, `Metronome.CallsWhenSwitchedOff`).
- An expression is summed as it reads, a term that is a sign included, exactly when a plus follows every term
  "+" that stands between operators. Any other is an error, so long as no name has a space in it
  (`Expression.SummedIffFollowed`, `Expression.SignIsNoTerm`).

## Model

| member | source | states |
|---|---|---|
| LogScan.Scan | internal/logs/parse.go:83-126 | the loop over a window's physical lines yields exactly the entries of the specification and counts every line |
| LogScan.EntriesPartition | internal/logs/parse.go:83-126 | every entry owns one run of physical lines, the runs follow each other without gap or overlap, all but the first open on a structured line, and each number is the start plus the lines before it |
| LogScan.EntriesRawCount | internal/logs/parse.go:129 | the entries' raw counts add up to the physical lines: none lost, none counted twice |
| LogScan.EntriesSplit | internal/logs/parse.go:83-126 | scanning xs followed by ys, where ys opens on a structured line, is scanning each and joining |
| LogScan.EntriesShifted | internal/logs/parse.go:83-126 | renumbering a window's entries is scanning it from another start |
| LogScan.RawTextIsWindow | internal/logs/parse.go:83-126 | with raw text kept, the entries' texts joined are the window's lines joined |
| LogCursor.SplitAtSeparator | internal/logs/cursor.go:44-65 | splitting at the separator undoes joining with it |
| LogCursor.CursorRoundTrip | internal/logs/cursor.go:39-65 | decoding an encoded cursor gives it back if and only if its stamp fits 64-bit nanoseconds and its count is one the decoder takes |
| LogCursor.WireParts | internal/logs/cursor.go:39-42 | a cursor is written as stamp, mark and count in decimal, in that order, with colons between |
| LogCursor.DecodedHasTwoColons | internal/logs/cursor.go:44-65 | the empty text is the beginning; any other that is decoded has exactly two colons and a count that is not negative |
| LogCursor.Locate | internal/logs/cursor.go:89-96 | the backward loop finds the last entry with the cursor's stamp and mark, or reports none |
| LogCursor.LastMatchIs | internal/logs/cursor.go:89-96 | an entry that matches and has no match behind it is the one located |
| LogPage.Limit | internal/logs/page.go:53-109 | the effective line limit lies within its bounds and keeps a request that does |
| LogPage.ResumeWindow | internal/logs/page.go:53-109 | what is unseen of a window, the renumbering offset and whether the stream was reset |
| LogPage.ResetIff | internal/logs/page.go:53-80 | a stream is reset if and only if there is a cursor and no entry of the window has its stamp and mark |
| LogPage.RotatedIff | internal/logs/page.go:53-80 | of a window in the order of its stamps a reset is put down to rotation if and only if all of it is later than the cursor |
| LogPage.Collect | internal/logs/page.go:53-109 | the loop over unseen entries renumbers all, keeps those the filter keeps, and tallies levels and services |
| LogPage.Cap | internal/logs/page.go:53-109 | the last of the hits, as many as the limit admits, and how many earlier ones that leaves out |
| LogPage.TallyCounts | internal/logs/page.go:53-109 | a facet map holds each label that occurs with how often it occurs |
| LogPage.LevelFacets | internal/logs/page.go:53-109 | the facet of a level is the number of entries with it, those without one counted as RAW |
| LogPage.ServiceFacets | internal/logs/page.go:53-109 | the facet of a service is the number of entries that name it, and there is none for no name |
| LogPage.KeptConcat | internal/logs/page.go:53-109 | filtering two runs of entries is filtering their concatenation |
| LogPage.KeptAre | internal/logs/page.go:53-109 | just what the filter keeps is kept, each as often as it occurs |
| LogPage.FindLastStamped | internal/logs/page.go:126-133 | the backward loop finds the last entry with a runtime stamp |
| LogPage.Advance | internal/logs/page.go:113-124 | the next cursor: the last stamped new entry, else the previous cursor when it is kept, else the window's last stamped entry |
| LogPage.Build | internal/logs/page.go:53-142 | a page lists, counts and resumes as promised: matched is listed plus dropped, the lines are the last of the kept unseen entries up to the limit, and the cursor names the place reached |
| LogTail.MovedWellPlaced | internal/logs/page.go:113-124 | the place a poll moves to is again a structured line with nothing structured unread before it |
| LogTail.ResumeAt | internal/logs/page.go:53-109 | resuming leaves exactly the entries behind the cursor's line, or its last repetition, numbered from the cursor's count |
| LogTail.CursorMoves | internal/logs/page.go:113-124 | the cursor a poll mints names the last entry it delivered and counts the lines scanned |
| LogStream.NothingTwice | internal/logs/page.go:53-142 | whatever the windows and however often lines repeat, delivered positions only rise: nothing comes twice |
| LogStream.ExactlyOnce | internal/logs/page.go:53-142 | without repetitions the polls together deliver every structured line behind the first place, once and in order |
| LogStream.CompleteIffNoRepeats | internal/logs/cursor.go:86-96 | on a growing log the stream is complete if and only if no window repeats the cursor's stamp and mark behind its line |
| LogStream.CompleteIffNothingSkipped | internal/logs/cursor.go:86-96 | whatever the windows, the stream is complete if and only if every poll that takes another line for its cursor's delivers nothing and a later window ends behind that line |
| LogStream.SkippedForGood | internal/logs/cursor.go:86-96 | a line the cursor moved past is never delivered again |
| LogStream.LateContinuationIsLost | internal/logs/cursor.go:70-84 | a continuation written behind a delivered entry is part of no later page |
| LogStream.ContinuationDeliveredIff | internal/logs/cursor.go:70-84 | whatever the windows, without repetitions a line of an entry not read yet is delivered if and only if the first window that ends behind the entry's first line ends behind it |
| LogStream.TailIsLost | internal/logs/cursor.go:70-84 | a concrete log and two polls that deliver an entry's first line and never its second |
| LogStream.KeptRise | internal/logs/page.go:62-109 | filtering keeps numbers rising |
| LogStream.StreamContents | internal/logs/page.go:53-109 | the delivered entries carry the stamps and fields of the delivered lines |
| LogStream.StreamNumbered | internal/logs/page.go:62-124 | across pages the numbers rise strictly from the cursor's count |
| LogPolls.PollLists | internal/logs/page.go:53-109 | a page with a cursor in its window is not reset, lists the newest kept entries, and its scanned count is the lines behind the place |
| LogPolls.PollCarries | internal/logs/page.go:113-124 | the page's cursor is the encoding of the next place |
| LogPolls.IdlePoll | internal/logs/page.go:113-124 | the next count is the old one plus the page's; a poll that finds nothing new lists nothing and keeps the cursor |
| LogPolls.PageKeepsNewest | internal/logs/page.go:95-109 | every listed entry is unseen and kept by the filter, numbers rise, no kept entry left out has a higher number than a listed one, and something is left out only when the limit is reached |
| LogPolls.PagesAreTheStream | internal/logs/page.go:53-142 | following the encoded cursors, for every filter and limit: no page is reset, the pages list each poll's newest kept entries, what they drop is what the filtered stream has more, and they are the filtered stream if and only if they drop nothing |
| LogPolls.ShownRise | internal/logs/page.go:62-124 | what pages list has rising numbers, whatever filter, limit and repetitions |
| LogPolls.NoLineTwice | internal/logs/page.go:53-142 | over any series of pages numbers rise strictly: no line comes twice |
| LogPolls.TailingIsExactlyOnce | internal/logs/page.go:53-142 | without repetitions, following the cursors lists every new entry the filter keeps once and in order, with rising numbers, but for as many as the pages say they dropped |
| LogPolls.SeedPage | internal/logs/page.go:53-142 | the first page delivers its whole window and leaves the client at its last structured line |
| LogPolls.RewindReachesCursor | internal/logs/cursor.go:36-68 | a window fetched from the cursor's rewound time is every line from one second before the cursor's line on, and contains it |
| LogPolls.FetchedSee | internal/logs/cursor.go:36-68 | in a run on a growing log every window fetched from the rewound cursor contains the line the cursor then names |
| LogPolls.RewindingTails | internal/logs/page.go:53-142 | following a growing log by rewinding, for every filter and limit: no page is reset, no line comes twice, and the polls deliver every entry up to the log's last length, once and in order, if and only if no window repeats its cursor's line |
| LogPolls.RepeatSkipsForward | internal/logs/cursor.go:86-96 | three concrete lines of which the middle one is never delivered |
| SendController.Workers | internal/walletsvc/send.go:148-162 | the worker count is within bounds and is the requested one when that is |
| SendController.Rate | internal/walletsvc/send.go:148-162 | the same for the rate |
| SendController.StepKeepsInv | internal/walletsvc/send.go:86-265 | every step of producer, worker, start, stop and teardown keeps the books of the live run |
| SendBooks.CountersTellOutcomes | internal/walletsvc/send.go:217-265 | in every reachable state each of the four counters is the number of sends of the run last started that were answered with that outcome, and attempted the number it attempted, told from the trace |
| SendBooks.RunsAreBooked | internal/walletsvc/send.go:164-215 | and what each run enqueued and took, and of it after cancellation, is what the trace tells |
| SendBooks.OneTurnSends | internal/walletsvc/send.go:164-265 | a started run does send: one turn of producer and worker enqueues, takes, attempts and counts one |
| SendProperties.SendConservation | internal/walletsvc/send.go:164-265 | in every reachable state attempted is the sum of the four outcomes and the workers between the two; in flight never exceeds the pool |
| SendProperties.OneLiveRun | internal/walletsvc/send.go:86-146 | draining implies running, at most one run is live, and the generation check at teardown is always true |
| SendProperties.StartFindsQuiet | internal/walletsvc/send.go:86-146 | an accepted start finds no live worker, no queued job and nothing in flight; the draining refusal is never given |
| SendProperties.DrainIsBounded | internal/walletsvc/send.go:164-215 | after cancellation at most one more job is enqueued and at most the pool plus one are taken |
| SendProperties.EndedRunIsAccounted | internal/walletsvc/send.go:164-215 | when a run ends every enqueued job was attempted and every attempt classified |
| SendProperties.StepWindsDown | internal/walletsvc/send.go:164-215 | each of its own steps brings a cancelled run closer to its end, and no other step takes it further away |
| SendProperties.WindsDownWithin | internal/walletsvc/send.go:164-215 | in any interleaving a cancelled run has at most 11 + 10 per worker steps left |
| SendProperties.NeverStuck | internal/walletsvc/send.go:164-215 | until it has ended, a cancelled run can always take a step of its own |
| SendProperties.CancelWindsDown | internal/walletsvc/send.go:302-322 | a cancelled run winds down, and nothing calls that off |
| SendService.Controller.constructor | internal/walletsvc/send.go:80-84 | a controller starts idle |
| SendService.Controller.Start | internal/walletsvc/send.go:86-146 | the locked part of Start is the transition system's start step, with its refusals in order |
| SendService.Controller.Stop | internal/walletsvc/send.go:302-322 | Stop is the stop step |
| SendService.Controller.Teardown | internal/walletsvc/send.go:195-210 | the end of run is the teardown step |
| SendService.Controller.SendOne | internal/walletsvc/send.go:217-265 | one attempt, one more of the counter of its outcome and no other, and nothing left in flight |
| Tracker.OneEvicted | internal/walletsvc/tracker.go:59-82 | dropping the oldest row keeps order and rows in agreement |
| Tracker.EvictionAgrees | internal/walletsvc/tracker.go:59-82 | evicting down to the bound keeps order and rows in agreement and changes no row that stays |
| Tracker.NotingAgrees | internal/walletsvc/tracker.go:59-82 | noting a transaction keeps the agreement, keeps the new row and respects the bound |
| Tracker.NotedRows | internal/walletsvc/tracker.go:59-82 | a first note adds a row with what it says and nothing known; another changes the wallet status, if it gives one; other rows stay as they are or are evicted |
| Tracker.StatusAgrees | internal/walletsvc/tracker.go:85-104 | setting a wallet status keeps the agreement |
| Tracker.StatusRows | internal/walletsvc/tracker.go:85-104 | a wallet status reaches its row or makes a new one, and changes no other |
| Tracker.UnaskedStays | internal/walletsvc/tracker.go:163-185 | a sweep asks no further once cancelled, and rows it does not ask about stay as they are |
| Tracker.SweepDoesNotEvict | internal/walletsvc/tracker.go:85-104 | a wallet sweep keeps the bound if and only if it brings no new row into a full table |
| TrackerBound.SizeAfter | internal/walletsvc/tracker.go:59-104 | only a first note and a sweep of an unknown transaction change the size, the first up to the bound and the second by one |
| TrackerBound.OverBoundBySweeps | internal/walletsvc/tracker.go:59-104 | every reachable table holds what it held behind the last first note (the start, if there was none), at most the bound, and the rows swept in since: it is within its bound if and only if those fit |
| TrackerBound.NoteBringsBack | internal/walletsvc/tracker.go:59-82 | a first note brings the table back to its bound, however far over it is |
| TrackerBound.TwoSweeps | internal/walletsvc/tracker.go:85-104 | a concrete run whose table is over its bound |
| Tracker.Collect | internal/walletsvc/tracker.go:134-160 | the candidates are exactly the rows that are not terminal, each once |
| Tracker.SortByAge | internal/walletsvc/tracker.go:134-160 | the in-place exchange sort orders the candidates by last poll and keeps them |
| Tracker.Due | internal/walletsvc/tracker.go:134-160 | min(limit, n) distinct rows that are not terminal, none polled later than one left out |
| TrackerService.Service.constructor | internal/walletsvc/tracker.go:51-57 | an empty table with the given or default bound |
| TrackerService.Service.Note | internal/walletsvc/tracker.go:59-82 | the whole new table after a note, eviction included |
| TrackerService.Service.Evict | internal/walletsvc/tracker.go:59-82 | the eviction loop drops the oldest rows over the bound |
| TrackerService.Service.SetWalletStatus | internal/walletsvc/tracker.go:85-104 | the whole new table after a wallet status |
| TrackerService.Service.Touch | internal/walletsvc/tracker.go:187-193 | an unanswered poll moves only the time of last poll |
| TrackerService.Service.Judge | internal/walletsvc/tracker.go:195-255 | a record's fields and the switch on its status give the row of the specification, and whether it diverges |
| TrackerService.Service.Ruled | internal/walletsvc/tracker.go:221-239 | the switch on the status: settled, rejection streak, grace periods, recovery |
| TrackerService.Service.Apply | internal/walletsvc/tracker.go:195-271 | the whole new table after a record, and a divergence is published only when the row starts to diverge |
| TrackerService.Service.Poll | internal/walletsvc/tracker.go:163-185 | a sweep asks the due rows in order, takes their answers up to a cancellation, and publishes a divergence for exactly the rows it makes diverge |
| TrackerFairness.PassedOver | internal/walletsvc/tracker.go:134-185 | a complete poll that passes a row over takes limit rows from ahead of it |
| TrackerFairness.AskedWithinCeiling | internal/walletsvc/tracker.go:134-185 | among n rows every row that stays worth polling is asked within ceil(n/limit) complete polls |
| TrackerFairness.SweepIsCompletePoll | internal/walletsvc/tracker.go:163-193 | an uncancelled sweep with an increasing clock is such a complete poll |
| TrackerFairness.AskedInRounds | internal/walletsvc/tracker.go:134-193 | over any run of sweeps of a table, a row not terminal after k of them, k times the limit at least the rows to poll, was asked about in one |
| TrackerHistory.MarkIsFirstRejection | internal/walletsvc/tracker.go:195-255 | the rejection mark is the first rejection of the standing streak, which NOT_FOUND does not break |
| TrackerHistory.TerminalIffJustified | internal/walletsvc/tracker.go:195-255 | replaying answers, a row is terminal if and only if it is settled, rejected past the grace without recovery, or not found past its grace |
| TrackerHistory.TerminalRowsAreJustified | internal/walletsvc/tracker.go:59-255 | the same for every row of every reachable table, with the status it then shows |
| TrackerHistory.TerminalStays | internal/walletsvc/tracker.go:134-255 | a terminal row keeps its fate while it is in the table and is never asked about again |
| TrackerDivergence.DivergedIffContradicted | internal/walletsvc/tracker.go:195-271 | over every interleaving, a row just answered diverges if and only if a conflicting spend was seen; or it is rejected, the rejection stands longer than its grace and the wallet counts on it; or it was mined and the wallet gave up on it |
| TrackerDivergence.SweptIffContradicted | internal/walletsvc/tracker.go:85-104 | a wallet sweep makes a row diverge if the status it brings contradicts the answers now, and takes no divergence back |
| TrackerDivergence.DivergenceStays | internal/walletsvc/tracker.go:59-193 | nothing else changes whether a row diverges |
| TrackerHistory.IndexAlwaysAgrees | internal/walletsvc/tracker.go:59-104 | in every reachable table the order is duplicate-free and lists exactly the rows |
| AlertHistory.HashWrittenOnce | bsv-regtest/alerts/log.go:62-82 | over any run of appends the hash stored at a number never changes, and a free number is taken by the first alert appended with it |
| AlertHistory.WireIsLast | bsv-regtest/alerts/log.go:62-82 | over any run of appends the bytes at a number are those of the last alert with that number and its hash, or unchanged if there was none |
| AlertLog.WireStaysIff | bsv-regtest/alerts/log.go:62-82 | an append leaves the bytes at a number if and only if it is for another number, is refused for its hash or brings the same bytes |
| AlertLog.WireMayChange | bsv-regtest/alerts/log.go:65 | two alerts with one hash and different bytes: appending the second replaces the bytes |
| AlertLog.InsertedAscends | bsv-regtest/alerts/log.go:115-124 | inserting keeps a list ascending and adds exactly the entry |
| AlertLog.Log.constructor | bsv-regtest/alerts/log.go:38-60 | a new log is empty |
| AlertLog.Log.Append | bsv-regtest/alerts/log.go:62-82 | a different hash at a used number is refused and changes nothing; anything else is stored |
| AlertLog.Log.Wire | bsv-regtest/alerts/log.go:93-99 | the stored bytes of a number, or none |
| AlertLog.Log.Latest | bsv-regtest/alerts/log.go:102-112 | the greatest number stored, or 0 |
| AlertLog.Log.List | bsv-regtest/alerts/log.go:115-124 | every entry once, ascending by number |
| AlertHost.ServeNeverExceedsCap | bsv-regtest/alerts/host.go:266-300 | no reply of a session names a number above its cap or carries other bytes than the log's |
| AlertHost.ServesInOrder | bsv-regtest/alerts/host.go:266-300 | messages are answered in order, the question for the latest with the cap and its bytes, a request with the alert asked for, up to the first that is neither or asks for what is not stored or above the cap |
| AlertHost.PushReportsWhatItSent | bsv-regtest/alerts/host.go:209-263 | the delivered list is exactly the numbers answered, none above upTo |
| AlertHost.PushesInOrder | bsv-regtest/alerts/host.go:209-263 | on a push requests are answered in order up to the first that may not be; whatever else the peer says changes nothing of that |
| AlertHost.ReportsPeerLatest | bsv-regtest/alerts/host.go:209-263 | the peer's own report of where it stood is kept, and the last one counts |
| AlertHost.PushDelivers | bsv-regtest/alerts/host.go:209-263 | a push to a peer at latest delivers latest+1 up to upTo or the first gap |
| AlertHost.PushDeliversAll | bsv-regtest/alerts/host.go:209-263 | it delivers latest+1..upTo if and only if the log holds all of those |
| AlertHost.GapStopsPush | bsv-regtest/alerts/host.go:209-263 | a concrete log with a gap and the push it stops |
| AlertHost.SyncDelivers | bsv-regtest/alerts/host.go:266-300 | a peer that opens a sync is told the cap with its bytes and then gets the alerts behind its own, up to the cap or the first gap, each with the log's bytes |
| AlertHost.SyncDeliversAll | bsv-regtest/alerts/host.go:266-300 | it gets all of them if and only if the log has no gap there |
| AlertHost.Unbroken | bsv-regtest/alerts/host.go:209-263 | how far the log goes on without a gap |
| AlertHost.Host.constructor | bsv-regtest/alerts/host.go:57-99 | a host starts without watermarks and with default 0 |
| AlertHost.Host.SetDefaultWatermark | bsv-regtest/alerts/host.go:116-120 | only the default changes |
| AlertHost.Host.SetWatermark | bsv-regtest/alerts/host.go:123-127 | only the peer's watermark changes |
| AlertHost.Host.Serve | bsv-regtest/alerts/host.go:266-300 | the loop answers as specified, under the peer's own watermark if it has one and else the default, read once when the stream opens |
| AlertHost.Host.Converse | bsv-regtest/alerts/host.go:209-263 | the push loop gives exactly the replies and the report of the specification |
| AlertHost.Host.Push | bsv-regtest/alerts/host.go:209-263 | a number not in the log or a failed connection changes nothing; else the watermark is raised to upTo before anything is told, and stays so if the stream then fails |
| AlertSync.StepKeepsInv | bsv-regtest/alerts/host.go:209-300 | every append, watermark, session, request, reply and read keeps what peers may know |
| AlertSync.NothingAboveTheCap | bsv-regtest/alerts/host.go:266-300 | in every reachable state no message in a session is above the session's cap |
| AlertSync.StoresArePrefixes | bsv-regtest/alerts/host.go:209-300 | each peer holds alerts 1..latest without a gap, by hash the log's, and none no session of its own could tell it |
| AlertSync.FleetAgrees | bsv-regtest/alerts/log.go:62-82 | wherever two peers both hold an alert it has the same hash |
| AlertSync.PeersMoveByOne | bsv-regtest/alerts/host.go:266-300 | only reading moves a peer, by one alert at most, and what it holds stays |
| AlertSync.SyncIsCappedByMark | bsv-regtest/alerts/host.go:116-127 | over every interleaving, a sync is capped by the mark last set for the peer, by hand or by a push, and else by the default last set |
| AlertSync.SyncBringsUpToDate | bsv-regtest/alerts/host.go:266-300 | a peer that carries a sync through holds every alert up to the cap or the first gap, byte for byte the log's, and what it held before |
| AlertSync.ClosedIsSilent | bsv-regtest/alerts/host.go:209-300 | a closed session stays closed and nothing more is sent on it |
| AlertSync.SessionIsConversation | bsv-regtest/alerts/host.go:209-300 | what is sent on a session is what the host's loops send for the same messages |
| Partitions.TrackedTidy | internal/scenario/executor.go:912-930 | tracking a switch keeps the record free of duplicates and of empty lists |
| Partitions.TrackedIs | internal/scenario/executor.go:912-930 | a switch decides its own pair and leaves every other as it was |
| Partitions.RecordIsLastOn | internal/scenario/executor.go:912-930 | over a whole run the record is tidy and holds exactly the pairs whose last switch was on |
| Partitions.CutIsLastOn | internal/scenario/executor.go:450-458 | cut is what was last switched on, and what was cut before and not switched since |
| Partitions.CutIsRecorded | internal/scenario/executor.go:450-458 | whatever is cut during a run was cut before it or is in its record |
| ScenarioSteps.EffectsStep | internal/scenario/executor.go:450-458 | partition calls take effect in order and the first error ends them |
| ScenarioSteps.StepPassesIff | internal/scenario/executor.go:269-301 | a step passes if and only if it can be resolved, its action succeeds and every assertion passes or is a mere should; one whose action failed asserts nothing |
| ScenarioSteps.RunShape | internal/scenario/engine.go:322-389 | the final statuses are passed ones, at most one failed, then skipped ones, and the status tells which; passed needs all passed and no cancellation, aborted is cancellation noticed between steps |
| ScenarioSteps.ResultsAre | internal/scenario/engine.go:326-389 | steps that began have the results of carrying them out, the others are skipped |
| ScenarioSteps.SwitchesAre | internal/scenario/engine.go:326-374 | the switches of a run are those of the steps that began, in order |
| ScenarioSteps.StatusMatchesSteps | internal/scenario/engine.go:322-389 | a run failed if and only if one of its steps did, and passed only if all did |
| ScenarioSteps.RecordedTo | internal/scenario/executor.go:286-299 | a step records its assertions up to and including the first failing one that is not a mere should |
| ScenarioSteps.FindingsCount | internal/scenario/executor.go:286-299 | there are as many findings as recorded failing should assertions |
| ScenarioSteps.FindingsAre | internal/scenario/executor.go:286-299 | a finding names the step, the check and the detail of a failing should, and every one has its finding |
| ScenarioRun.Stack.Partition | internal/scenario/executor.go:450-458 | a partition call takes effect as a whole or, on an error, not at all |
| ScenarioRun.Run.constructor | internal/scenario/engine.go:244-262 | a new run has all its steps pending, no finding and no open partition |
| ScenarioRun.Run.TrackPartition | internal/scenario/executor.go:912-930 | the loop that rebuilds a node's list gives the record of the specification |
| ScenarioRun.Run.SwitchNodes | internal/scenario/executor.go:450-458 | the partition action changes record and stack by exactly the calls answered before the first error |
| ScenarioRun.Run.CheckAll | internal/scenario/executor.go:286-299 | the assertion loop records, finds and stops as specified |
| ScenarioRun.Run.RunStep | internal/scenario/executor.go:269-301 | a step's result, findings, record and effect on the stack |
| ScenarioRun.Run.PauseBefore | internal/scenario/engine.go:328-343 | in step mode a pause is announced before every step but the first, and the run is active again behind it |
| ScenarioRun.Run.Turn | internal/scenario/engine.go:326-374 | one turn of the loop: pause, look whether the run is cancelled, take the step; the status it leaves with, if it does |
| ScenarioRun.Run.RunAll | internal/scenario/engine.go:322-375 | the step loop stops at the first failure or cancellation with the results so far |
| ScenarioRun.Run.Cleanup | internal/scenario/engine.go:499-529 | with the parameter cleanup false nothing is touched; with any other value, or none, the record is emptied and of what is cut exactly the recorded pairs whose heal succeeds are healed |
| ScenarioRun.Run.SkipPending | internal/scenario/engine.go:380-386 | waiting steps become skipped, others stay |
| ScenarioRun.Run.Execute | internal/scenario/engine.go:322-389 | the whole run is as specified; unless the parameter cleanup is false it leaves cut only what was cut before or would not heal, and nothing new if every heal succeeds; with it false, what the switches left |
| ScenarioRun.RunLeavesNothingCut | internal/scenario/engine.go:497-529 | a run that does not keep its partitions ends, however it ends, with nothing cut but what was cut before it or would not heal |
| ScenarioEngine.AtMostOneLive | internal/scenario/engine.go:226-302 | over every interleaving at most one run has not ended |
| ScenarioEngine.RestartIsInOrder | internal/scenario/engine.go:183-202 | an engine that comes up with ended runs is in order |
| ScenarioEngine.StartAcceptedIff | internal/scenario/engine.go:226-262 | a start is accepted if and only if the scenario is known and every run has ended |
| ScenarioEngine.PauseHolds | internal/scenario/engine.go:328-343 | a paused run stays without a token unless it is cancelled, and goes on with one |
| ScenarioEngine.StepsAreReleased | internal/scenario/engine.go:264-343 | over every interleaving, an uncancelled run in step mode is let through to a step only after as many requests as steps before it |
| ScenarioEngine.AbortIsFinal | internal/scenario/engine.go:289-302 | after an abort of a run under way no step begins but one already let through by its look at the context, and it ends aborted, or failed if that step fails |
| ScenarioEngine.AbortStopsIff | internal/scenario/engine.go:226-302 | whatever happens after an abort, no step is let through any more and the run does not pass, if and only if the abort finds its cancel function stored and the run neither passed nor cleaning up after passing |
| ScenarioEngine.AbortReleasesPause | internal/scenario/engine.go:264-302 | a concrete run that leaves its pause uncancelled and unreleased, by an abort that came too early |
| ScenarioEngine.LostAbortPasses | internal/scenario/engine.go:264-302 | a concrete run that passes after such an abort |
| ScenarioEngine.GoroutineIsExecute | internal/scenario/engine.go:322-389 | a goroutine driven to its end has the status that carrying out its steps gives |
| ScenarioEngine.AbortedRunEnds | internal/scenario/engine.go:322-389 | every move of a cancelled run brings it closer to its end; a pause does not hold it |
| ScenarioEngine.Engine.constructor | internal/scenario/engine.go:129-202 | an engine comes up in order with the runs it finds, ended as they are, and nothing live |
| ScenarioEngine.Engine.Start | internal/scenario/engine.go:226-273 | an unknown scenario is refused first, then any live run; else exactly the new run is added |
| ScenarioEngine.Engine.Next | internal/scenario/engine.go:276-286 | the run gets its one token |
| ScenarioEngine.Engine.Abort | internal/scenario/engine.go:289-302 | the run is cancelled if it can be and gets its token |
| Expression.LastIndex | internal/scenario/executor.go:79-85 | the greatest index at which the operator occurs, or -1 |
| Expression.ToInt | internal/scenario/executor.go:152-169 | what converts to an integer converts to one of 64 bits |
| Expression.Truncated | internal/scenario/executor.go:163-164 | a floating-point number within 64 bits loses its fraction towards zero |
| Expression.ToIntOf | internal/scenario/executor.go:152-169 | integers and texts of integers convert to themselves, unsigned ones modulo 2^64, anything else not at all |
| Expression.TrimIs | internal/scenario/executor.go:79-80 | what is trimmed is blank, and nothing blank is left at either end |
| Expression.WordIs | internal/scenario/executor.go:103-150 | a word written as a 64-bit number is that number whatever else goes by the name; any other is looked up |
| Expression.ChainIsSummed | internal/scenario/executor.go:79-102 | a chain of terms evaluates to its left-to-right signed sum modulo 2^64, and is an error if and only if a term is no integer; terms may be signs, but for a "+" between operators that no plus follows |
| Expression.SummedIffFollowed | internal/scenario/executor.go:79-102 | of all chains, those with terms that are signs included, the ones with a "+" between operators that no plus follows are errors and all others are so summed, so long as words with a space stand for nothing |
| Expression.LastSignWritten | internal/scenario/executor.go:79-85 | in a text of words with single spaces the operator found last is the last of the words that is that sign, the first and the last word apart |
| Expression.SignIsNoTerm | internal/scenario/executor.go:79-102 | a concrete expression with a sign for a term that is no such sum |
| Demux.DemuxLogStream | internal/chaos/runtime.go:307-326 | the consuming loop computes the specification |
| Demux.Unframe | internal/chaos/runtime.go:307-326 | never longer than the body, and the body itself if it has no valid first header |
| Demux.NoHeaderIsKept | internal/chaos/runtime.go:307-326 | a body that does not begin with eight bytes, a kind up to 2 and three zeros first, is passed on as it is |
| Demux.UnframeStream | internal/chaos/runtime.go:307-326 | unframing any frames gives their payloads joined, whatever follows |
| Demux.CutStream | internal/chaos/runtime.go:307-326 | a stream cut at byte k gives the payload bytes before k and the piece of a header the cut went through |
| Demux.KeptIsPrefix | internal/chaos/runtime.go:307-326 | the payload bytes before a cut are a prefix of the whole text |
| Demux.ReadLogs | internal/chaos/runtime.go:240-302 | a body over the limit is cut, unframed and reduced to whole lines; any other only unframed |
| Demux.WholeLines | internal/chaos/runtime.go:246-252 | a text with a newline is cut behind its last one, any other kept |
| Demux.TruncatedIsPayload | internal/chaos/runtime.go:240-254 | a truncated read holds nothing but payload if and only if the cut went through no header, or the piece holds no newline and the payload does |
| Demux.LeakedNewline | internal/chaos/runtime.go:310 | concrete frames whose leaked header piece survives the cut to whole lines |
| HealthWalk.WalkTabulates | bsv-regtest/teranode/health.go:107-148 | rows and distinct (resource, status, error) checks correspond one to one; a row shows its check, the first message and, once each, exactly the services it was reached through |
| HealthWalk.VisitHasPath | bsv-regtest/teranode/health.go:111-148 | every check visited lies at the end of a path and carries the nearest service on it |
| HealthWalk.PathIsVisited | bsv-regtest/teranode/health.go:111-148 | every check at the end of a path is visited |
| HealthWalk.NearestIsLast | bsv-regtest/teranode/health.go:114-116 | the service a node is seen in is the last one named on the way to it |
| HealthWalk.ServicesFirst | bsv-regtest/teranode/health.go:111-148 | a node is walked before its services and they before its dependencies: of a check all three report the row has the first one's message |
| HealthTable.ContainsStr | bsv-regtest/teranode/health.go:160-167 | whether a list holds a string |
| HealthTable.Collector.Record | bsv-regtest/teranode/health.go:117-141 | what a node with a check does to rows and index |
| HealthTable.Collector.Walk | bsv-regtest/teranode/health.go:113-148 | the recursive walk adds exactly the visits of the document |
| HealthTable.SortIsStable | bsv-regtest/teranode/health.go:150-156 | the result is in order, has as many rows, and rows that sort alike stand as they did |
| HealthTable.FailuresFirst | bsv-regtest/teranode/health.go:150-156 | no healthy row stands before a failing one |
| HealthTable.ThenByResource | bsv-regtest/teranode/health.go:150-156 | among failing rows, and among healthy ones, resources ascend by their first difference |
| Lexical.LessIs | bsv-regtest/teranode/health.go:150-156 | a string is less than another if and only if it is a proper prefix of it or has the smaller character where they first differ |
| HealthTable.FlattenHealth | bsv-regtest/teranode/health.go:107-158 | walking and sorting gives the sorted table of the document's visits |
| HealthTable.SortPermutes | bsv-regtest/teranode/health.go:150-156 | sorting moves every row to its one place |
| HealthTable.FlattenedHealth | bsv-regtest/teranode/health.go:107-158 | the rows returned for a document correspond one to one to its distinct checks, all of a named resource, and are in order |
| FundCodec.FundsPayload | bsv-regtest/alerts/wire.go:83-107 | encoding succeeds if and only if the list is not empty and every id is 32 bytes of hex; the payload is 57 bytes a fund |
| FundCodec.Funds | bsv-regtest/alerts/wire.go:234-260 | decoding succeeds if and only if the payload is a positive multiple of 57 bytes |
| FundCodec.GoodTxidIsHex | bsv-regtest/alerts/wire.go:93-96 | an id is accepted if and only if it is 64 hexadecimal digits of either case |
| FundCodec.BytesOfHex | bsv-regtest/alerts/wire.go:93-96 | hex decodes if and only if it is an even number of digits |
| FundCodec.HexOfBytes | bsv-regtest/alerts/wire.go:252 | hex of bytes decodes to them and is in lower case |
| FundCodec.DigitsAre | bsv-regtest/alerts/wire.go:93-96 | the sixteen digits and their values in either case, and no other character is one |
| FundCodec.HighDigitFirst | bsv-regtest/alerts/wire.go:93-96 | the first of two digits is the higher |
| FundCodec.WrittenRead | bsv-regtest/alerts/wire.go:234-260 | writing a record that was read gives it back if and only if its output index fits 32 bits and its flag is 0 or 1 |
| FundCodec.WrittenLayout | bsv-regtest/alerts/wire.go:83-107 | a record is the id's bytes, output index, start and stop with the lowest byte first, and the flag, each in its place |
| FundCodec.ReadLayout | bsv-regtest/alerts/wire.go:234-260 | and is read from there; of the output index only the four low bytes count |
| FundCodec.DecodeEncoded | bsv-regtest/alerts/wire.go:83-107 | decoding an encoded list gives it back with ids in lower case |
| FundCodec.RoundTrip | bsv-regtest/alerts/wire.go:83-107 | it is the same list if and only if all ids were in lower case |
| FundCodec.EncodeDecoded | bsv-regtest/alerts/wire.go:234-260 | encoding a decoded payload gives it back if and only if every record is canonical |
| FundCodec.CapitalsComeBackLower | bsv-regtest/alerts/wire.go:83-107 | a concrete list that does not come back as it was |
| FundCodec.OtherFlagComesBackOne | bsv-regtest/alerts/wire.go:234-260 | a concrete payload that does not |
| Fleet.Survey | internal/diag/probe.go:391-410 | the first loop: the highest reachable height, the votes for every tip, the nodes by name |
| Fleet.BuildFleetContext | internal/diag/probe.go:391-421 | the majority tip is, of the tips held at the highest height, the one with most votes, then the least hash; none if there is none |
| Fleet.MajorityIs | internal/diag/probe.go:391-421 | the majority tip is held by a reachable node at the highest height, and no tip so held has more votes, or as many and a smaller hash |
| Fleet.VotesAreVoters | internal/diag/probe.go:405-407 | the votes for a tip are the number of reachable nodes holding it |
| Fleet.OrderDoesNotMatter | internal/diag/probe.go:391-421 | any two contexts of uniquely named nodes listed in different orders are equal |
| DiagRules.Succeeded | internal/diag/rules.go:24-31 | whether a source is listed and succeeded |
| DiagRules.Finish | internal/diag/rules.go:278-297 | the loops that gather missing sources give the verdict of the specification |
| DiagRules.Failed | internal/diag/rules.go:33-41 | the names of the failed sources; none if and only if nothing failed |
| DiagRules.CountConnected | internal/diag/rules.go:379-387 | no peer is counted if and only if none is connected |
| DiagRules.RelevantRejections | internal/diag/rules.go:329-338 | exactly the rejections above the node's tip and at most one above the fleet |
| DiagRules.Evaluate | internal/diag/rules.go:60-274 | the chain of rules gives the highest-ranking explanation that applies, no higher-ranking one applying, with its severity, evidence, missing sources and confidence |
| DiagRules.OneVerdict | internal/diag/rules.go:60-274 | there is no other verdict so described |
| DiagRules.ExplanationTells | internal/diag/rules.go:71-133 | the conditions of unreachable, down, partitioned and idle, in the terms of the report, in their order |
| DiagRules.CatchupTells | internal/diag/rules.go:133-197 | those of a stalled, a running and a failed catchup |
| DiagRules.TipTells | internal/diag/rules.go:197-254 | and those of no peers, a minority tip, a lag and a failing check |
| DiagRules.SeverityTells | internal/diag/rules.go:60-274 | which explanations are good, mere information, warnings and unclear; every other is bad |
| DiagRules.EvidenceTells | internal/diag/rules.go:60-274 | which explanations name which source as evidence |
| DiagRules.InSyncMeansClear | internal/diag/rules.go:60-274 | with every source reported, a node is in sync if and only if all succeeded, it holds the majority tip (if any) with a lag of at most one, is RUNNING, has a peer and no plane cut, and no other rule applies |
| DiagRules.MissingIsHonest | internal/diag/rules.go:278-297 | only sources that did not succeed are missing, all of them when the verdict is unknown; confidence is low if and only if something is missing |
| DiagRules.ConfidentEvidence | internal/diag/rules.go:147-164 | a confident verdict names a source that did not succeed if and only if the node is found catching up without a stall, by no higher-ranking rule, its state was read and its catchup status was not |
| DiagRules.CatchupUnread | internal/diag/rules.go:147-164 | a concrete node for which it does |
| Spend.SumInputs | bsv-regtest/wallet/raw.go:93-113 | inputs are accepted if and only if all have a source, a key and an output in range; their sum is modulo 2^64 |
| Spend.ValuesAre | bsv-regtest/wallet/raw.go:93-113 | what is spent is the value of the output each input names, in order |
| Spend.SumOutputs | bsv-regtest/wallet/raw.go:114-132 | outputs are accepted if and only if all can be paid; their sum is modulo 2^64 |
| Spend.SpendTx | bsv-regtest/wallet/raw.go:89-145 | a transaction is built if and only if inputs and outputs are accepted and balance in 64 bits; its outputs are the requested ones and the change |
| Spend.RequestedFirst | bsv-regtest/wallet/raw.go:133-141 | the requested outputs are a prefix; one to the spender with the change is added if and only if the change is above dust |
| Spend.FeeIsAsAsked | bsv-regtest/wallet/raw.go:133-141 | the real fee lies in [fee, fee+546] if and only if the two sides of the balance pass 2^64 equally often |
| Spend.WrapMintsValue | bsv-regtest/wallet/raw.go:133-141 | a concrete spend that balances and pays out more than went in |
| Spend.SmallSumsConserve | bsv-regtest/wallet/raw.go:133-141 | with sums below 2^64 a spend balances if and only if outputs and fee do not exceed inputs, and then the real fee lies in [fee, fee+546] |
| Spend.PlanOutputs | internal/api/server.go:702-743 | which requests are accepted, and the outputs they become |
| Spend.AcceptedIff | internal/api/server.go:702-743 | a request is refused for an unknown target, and for asking for all when the fee leaves nothing; no fee means 500 |
| Spend.ExplicitAre | internal/api/server.go:702-716 | explicit outputs are paid as listed, each to its target with its amount |
| Spend.SharedAre | internal/api/server.go:717-743 | otherwise as many outputs as asked for, at least one, share the amount alike but for a remainder below one unit each |
| Spend.ServerSpend | internal/api/server.go:679-753 | a request is built if and only if it is accepted, payable and balances; the transaction it becomes |
| Spend.SharesFit | internal/api/server.go:739-742 | the shares add up to the amount less a remainder below one unit each |
| Spend.SpendAllBalances | internal/api/server.go:717-747 | with satoshis 0 and no explicit outputs an accepted request always balances, for any number of outputs, and the real fee lies in [fee, fee+546] |
| Metronome.Clamp | internal/automine/automine.go:94-110 | interval and block count stay as they are within bounds and end at the nearer bound beyond them; an interval of zero or less becomes the default |
| Metronome.DeadlinesSpaced | internal/automine/automine.go:141-151 | a deadline is at least an interval after the last and not past when it is set |
| Metronome.FireBound | internal/automine/automine.go:112-158 | by time t at most 1 + floor((t - first)/interval) fires, none before the first deadline |
| Metronome.ExactUnlessLate | internal/automine/automine.go:141-151 | every deadline is first + k intervals if and only if no fire was late enough to skip |
| Metronome.ScheduleHolds | internal/automine/automine.go:116-224 | for every interleaving of loop and requests: of all fires since the last change at most one for each whole interval since it, and one more if a stale fire was among them; the deadlines follow the schedule, from one interval behind the change if and only if none was; the miner is called at most once for each of them, and once more if the change found a call about to be made; behind a switch-off it is called at most once, for a stale fire or such a call |
| Metronome.FireCommitsIff | internal/automine/automine.go:153-157 | a fire leads to a call of the miner if and only if mining was on, for some node, as the loop read it |
| Metronome.CountersTell | internal/automine/automine.go:141-199 | runs and blocks are the calls that ended and the blocks they mined since the start |
| Metronome.EarlyFireIff | internal/automine/automine.go:116-224 | until the next change, a fire can come before a new interval is over if and only if the change finds the loop past its timer, or waiting for one due by then |
| Metronome.SwitchOffMinesIff | internal/automine/automine.go:116-224 | behind a switch-off the miner can be called if and only if the change finds the loop waiting, past its timer or past the move of the deadline but not yet in the call, with mining on, and never twice |
| Metronome.MinesWhenSwitchedOff | internal/automine/automine.go:116-224 | a concrete run that calls the miner after it was switched off between timer and move |
| Metronome.CallsWhenSwitchedOff | internal/automine/automine.go:141-176 | a concrete run that calls it after it was switched off between move and call |
| Metronome.ChangeDuringFire | internal/automine/automine.go:141-151 | a change between the timer and the move of the deadline is moved on by the old interval |
| Metronome.Service.constructor | internal/automine/automine.go:85-92 | a service starts with a clamped configuration and no runs |
| Metronome.Service.Configure | internal/automine/automine.go:203-207 | the clamped configuration takes over, the countdown restarts from now, and this is the change of the transition system |
| Metronome.Service.Advance | internal/automine/automine.go:143-151 | the deadline moves one interval on, or one interval from now if that is past, which is the move of the transition system |
| Decimal.ParseFormatInt | internal/logs/cursor.go:39-65 | parsing a written integer gives it back if and only if it fits 64 bits |
| Decimal.NumberIsDigits | internal/logs/cursor.go:44-65 | a text is a number if and only if it is one digit or more |
| Decimal.AtoiIs | bsv-regtest/teranode/health.go:117-141 | the number of a status text: its value brought into 64 bits, and 0 for what is no number |

## Left out

- Log texts: splitting a body into lines, carriage returns, reading RFC 3339 stamps and the five fields of a structured line. A physical line comes with its stamp and fields.
- The FNV hash behind the mark and the filter's match are arbitrary functions; counts and numbers do not overflow 64 bits in the model of pages.
- Root-cause extraction, headlines, details, suggestions, log hints and every other rendered text.
- LogPage.Build: the truncation flags a page copies from its request are not modelled, because they are passed through.
- SendController.StepKeepsInv: the stop reason, the rate limiter, the coin watch and the rate sampler are not modelled; whether the producer goes on is a free choice at each turn.
- AlertLog.Log.Append: a failed write to disk is an outcome, but what the file then holds is not modelled.
- AlertSync.StepKeepsInv: connections, deadlines and frames of the stream; a session is a list of messages, and it may end at any point by never being continued. Alert signatures and gossip are not modelled.
- TrackerService.Service.Poll: rows are listed for callers in an order that is not modelled.
- ScenarioRun.Stack.Partition: a call that cuts part of a plane and then answers an error is not modelled; calls are atomic.
- ScenarioRun.Run.RunStep: actions other than switching planes only succeed or fail, and an assertion comes with the result its polling ended with. Variables, parameters and template strings are not modelled beyond expressions.
- ScenarioRun.Run.Execute: saving and publishing.
- ScenarioEngine.Engine.Start: merging roles and parameters, and making the id, which is a parameter.
- Expression.ChainIsSummed: a floating-point number too large for 64 bits converts to the least integer, as on common processors; the language leaves it open. Words of dots and live tips are a parameter.
- HealthTable.FlattenHealth: the HTTP request and the JSON around it. The library's stable sort is the stable insertion sort.
- FundCodec.Funds: the alert around the payload, which another library parses. Its record layout is taken from the comments and the decoder.
- DiagRules.Evaluate: the node that is no teranode, and the cache of reports.
- Spend.SpendTx: scripts, signatures and size; a key or script can be had or not.
- LogPolls.RewindingTails: a read that reaches the byte ceiling ends before the log does, and may end before the last one did. `LogStream.CompleteIffNothingSkipped` and `LogStream.ContinuationDeliveredIff` cover it.
- Metronome.ScheduleHolds: how the timer and the scheduler of the runtime behave beyond not firing early.
- The command-line container runtime, HTTP handlers, the event bus, Kafka, the React UI, compose files and command-line tools.
