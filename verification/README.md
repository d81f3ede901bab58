# Verification model

A Dafny model of the parts of a desktop usage monitor that carry state, budgets or money:
the incremental import of session logs, budget notifications, price estimates, billing cycles
and pacing, organisation reports, spending anomalies and superseded forecast workers. What the
program changes step by step is an object or a loop here, specified by functions; what those
functions promise over all inputs and all runs is stated as lemmas.

## How it is organised

- **Session import.** `Jsonl` reads a growing file record by record under byte budgets, from
  committed cursors. `SessionStore` says what one record does to the tables;
  `SessionReplay`, `SessionLedger`, `SessionMerge`, `SessionSpans` and `SessionClear` hold the
  results about replay, cumulative counters, field-wise merging, the sessions' spans and
  clearing, `SessionRebaseline` follows stored totals through clears and trims, and
  `SessionImporter` is the table object.
- **Contexts and whole imports.** `CodexContext` folds context lines. `CacheRuns` describes runs
  of file visits over the context cache, `CacheSoundness` says exactly when a remembered
  context is right, `CacheReuse` which contexts are used and kept, `CacheWitness` shows where one
  is wrong, and `ContextCache` is the object, whose history is such a run. `ImportHistory` and `ImportPrefix` say what a history of visits
  imports, and `ImportRuns` puts them on top of the cache: however files are visited, the store
  ends as if each record had been imported once. `ScanOrder` is the order of the files.
- **Budget notifications.** `BudgetTables` computes what each call does to the tables,
  `BudgetCalls` says it on the rows before and after, `BudgetRuns` what holds in every reachable
  state and over whole runs, and `BudgetRepository` is the object.
- **Prices.** `Decimal`, `MoneyText`, `CostEngine` and `CostEstimate`: text, rounding, and the
  computation of whole estimates; `CostTariff` reads the price off the tables and relates the
  estimate to it.
- **Cycles and pacing.** `Calendar`, `BillingCycle`, `Observations`, `DailyBaseline`,
  `BudgetPacing`, `PacingNumbers`, which ties a result to the observations, and
  `ForecastContract`.
- **Reports.** `AdminParser` folds pages, `AdminRefresh` is the paginated protocol over whole
  runs, `AnthropicProvider` the object and the published sums, `AdminTotals` what these are sums
  of.
- **Analysis.** `SpendingDays` folds costs into days and drivers, `Anomalies` selects unusual
  days.
- **Forecast workers.** `GuardrailRuns` is the state machine, `GuardrailModel` the object.
- `Options`, `Lists`, `Bounds` and `Sums` are shared.

## Results worth knowing

- Two snapshots of equal time can disturb the store when they are replayed; which pairs do is
  said exactly (`SessionReplay.EqualTimesIff`). Strictly increasing times per session suffice.
- The importer applies an unterminated last line to the remembered context although the cursor
  stays before it. A resumed scan therefore can start in a context its prefix does not have
  (`CacheWitness.ResumesAhead`), exactly when such lines say something new
  (`CacheSoundness.ResumeIsRereadIff`). While lines that already were context records are only
  completed, no terminated usage record is attributed wrongly
  (`CacheSoundness.UsageIsReadInContext`); without that the error can stay
  (`CacheWitness.MeaningMatters`).
- An unterminated last line that already is a usage record is imported at once, and again when
  it is complete; that it counts once is part of `ImportRuns.RunImportsOnce`.
- The subtotal re-reads printed amounts and skips those it cannot read. It is the exact sum if
  and only if the whole part of every amount fits 64 bits (`CostEstimate.SubtotalExactIff`); a huge
  usage can be offered as free (`CostEstimate.HugeUsageIsFree`).
- Report rows are looked up by their names joined with bars, so names that contain bars can be
  folded into the row of others; `AdminTotals.EveryResultHasRowIff` says exactly when, and
  `AdminTotals.BarsMerge` gives all splits of one text into model and project. Published totals
  are not affected.
- At most a fifth of the days of any series can be anomalies (Cantelli's inequality), and the
  bound is reached.
- A forecast worker's cancellation flag and its generation always agree, so the second half of
  the guard in `finish` never decides.

## Model

| member | source | states |
|---|---|---|
| Jsonl.ReadRecord | plugin/localsessionparser.cpp:62-106 | one read under a byte budget ends in a `ReadOutcome`: it never passes a newline, discards exactly what starts inside a record or exceeds 1 MiB, and is interrupted only by a cancellation, a device failure or a used-up budget |
| Jsonl.ReadIsChunkIndependent | plugin/localsessionparser.cpp:62-106 | however `readLine` cuts its chunks, an uninterrupted read has one possible end and one possible result |
| Jsonl.SplitLosesNothing | plugin/localsessionparser.cpp:62-106 | the reference split of a file loses no byte and changes no order |
| Jsonl.SplitIsUnique | plugin/localsessionparser.cpp:62-106 | the reference split of a file is the only one: newline-terminated records followed by an unbroken rest are found again from their concatenation |
| Jsonl.KeptAreRecords | plugin/localsessionparser.cpp:62-106 | what an importer must deliver are exactly the newline-terminated records of at most 1 MiB |
| Jsonl.ReadKeeps | plugin/localsessionparser.cpp:62-106 | a read from a safe cursor ends at a safe cursor and yields exactly the kept record it passed, if any |
| Jsonl.ScanFile | plugin/localsessionmodel.cpp:980-1011 | a scan moves the cursor only forward over the records it delivered, ends at a safe cursor and delivers all of the file when it finishes; only a disturbance or a used-up budget ends it early, with one record's budget left it advances unless disturbed, and it skips something only where it starts inside a record or meets one above 1 MiB |
| Jsonl.DeliveredExactly | plugin/localsessionmodel.cpp:980-1011 | over every history of scans of an append-only file (budgets, interruptions, rollbacks, restarts from 0, resumed cursors) the delivered records are exactly the kept records before the stored cursor, in order, and all kept records after a scan that finished |
| SessionReplay.AllSettled | plugin/localsessionmodel.cpp:1046-1320 | after importing a run whose snapshots are strictly ordered in time per session, every item of the run is settled: importing it again would do nothing |
| SessionReplay.ReplayIsHarmless | plugin/localsessionmodel.cpp:1046-1320 | replaying any items of such a run, in any order and number, leaves events, counters, conflicts, sessions and coverage unchanged |
| SessionReplay.EqualTimesIff | plugin/localsessionmodel.cpp:1046-1320 | for any store and any two snapshots of one session and instant, every replay of them is harmless if and only if they are cleared or too old to count, one is skipped, of unverified lineage or stored as an event, or they agree on the fields both have |
| SessionReplay.EqualTimesAreNotHarmless | plugin/localsessionmodel.cpp:1046-1320 | a concrete pair outside retention that is not harmless |
| SessionLedger.AddsIsMovement | plugin/localsessionmodel.cpp:1178-1320 | what a record adds to the stored deltas of a session and field is the movement of the saved counter, said on the record, the saved counter, cutoff and boundary; nothing when the record decreases a field or lies outside retention |
| SessionLedger.StoredTelescopes | plugin/localsessionmodel.cpp:1178-1320 | for every run, stored deltas plus dropped movements equal the saved counter minus the field's baseline, and a counter is known exactly when a baseline is; the baseline is zero if the field is in the session's first counted snapshot and nothing was cleared or the creation time proves the session newer, and the first value read otherwise |
| SessionLedger.StoredIsCounterMinusBaseline | plugin/localsessionmodel.cpp:1178-1320 | with no decrease and nothing outside retention the stored deltas sum to the saved counter minus that baseline |
| SessionLedger.StoredCountsNonNegative | plugin/localsessionmodel.cpp:1178-1320 | no stored count is ever negative |
| SessionLedger.EventOfSnapshot | plugin/localsessionmodel.cpp:1178-1320 | a counted snapshot leaves an event with the movement of each field that moved or starts at zero, with its session, time and model, and touches no other event; it leaves none if it is too old, changes nothing, or moves nothing after a clear |
| SessionLedger.FirstSnapshotDecides | plugin/localsessionmodel.cpp:1204-1262 | over every run, each field of a session's first counted snapshot counts from zero if and only if there was neither cutoff nor flag or the creation time proves the session newer, and from its first value otherwise |
| SessionLedger.FullCounterIsStored | plugin/localsessionmodel.cpp:1204-1262 | over every undisturbed run a session whose first counted snapshot counts from zero stores exactly its saved counter, for each field of that snapshot |
| SessionLedger.UnclearedStoresCounter | plugin/localsessionmodel.cpp:1204-1262 | with nothing cleared, every undisturbed run stores of a new session exactly its saved counter, for each field of its first snapshot of trusted lineage |
| SessionSpans.SessionOfSnapshot | plugin/localsessionmodel.cpp:1178-1320 | a snapshot later than the cutoff and not yet stored widens its session's time span by its own time and notes retention, lineage, rebaseline or reset on it; any other leaves the whole store alone |
| SessionSpans.SessionOfMessage | plugin/localsessionmodel.cpp:1058-1164 | a message later than the cutoff widens its session's span and notes identity, conflict or partial usage on it; a cleared one, and an old or quarantined one with an id, leave the whole store alone |
| SessionMerge.MessagesMerge | plugin/localsessionmodel.cpp:1058-1164 | after any run the store holds for a message id exactly what its records say: quarantine if two of them disagree on the model or a shared field, otherwise the union of their fields |
| SessionMerge.ClashWithUnion | plugin/localsessionmodel.cpp:1078-1091 | comparing a record with the merged event finds a conflict exactly when it disagrees with one of the records merged so far |
| SessionMerge.MergeIgnoresOrder | plugin/localsessionmodel.cpp:969-1164 | two runs with the same records for an id, whatever their order, repetition or grouping, agree on quarantine, model and tokens |
| SessionMerge.EventIsOfFirst | plugin/localsessionmodel.cpp:1092-1164 | over every run a message's event keeps the session and the time of the first record that reached it |
| SessionMerge.MessageIsKept | plugin/localsessionmodel.cpp:1058-1164 | every recent message after the cutoff is stored or quarantined |
| SessionMerge.SnapshotsStay | plugin/localsessionmodel.cpp:1058-1164 | messages never remove snapshot events |
| SessionClear.ClearedNeverReturns | plugin/localsessionmodel.cpp:1030-1032 | over every interleaving of imports, clears and retention trims, each stored event is later than the cutoff of its tool, and rows refer only to existing sessions |
| SessionClear.TrimKeepsRecent | plugin/localsessionmodel.cpp:437-455 | retention keeps exactly the recent events of sessions seen since, and marks every surviving session that loses one |
| SessionClear.TrimKeepsSessions | plugin/localsessionmodel.cpp:437-455 | retention deletes exactly the sessions not seen since, with their counters, and changes nothing about the others but noting on those that lose events that they did |
| SessionClear.LaterIsImported | plugin/localsessionmodel.cpp:1030-1032 | whatever was cleared before, an import takes in every record that is later than the cutoff of its tool |
| SessionClear.QuarantineIsPermanent | plugin/localsessionmodel.cpp:1058-1164 | over every run of imports, retention trims and clears that do not get the lock, a quarantined message id stays quarantined and never regains an event |
| SessionRebaseline.AccountsBalance | plugin/localsessionmodel.cpp:1178-1320 | over every run of imports, clears and trims, what is stored of a session's field and what was lost to resets, to records outside retention and to trims add up to the counter's movement since its start; an unknown counter has nothing stored |
| SessionRebaseline.CutoffsStay | plugin/localsessionmodel.cpp:505-521 | after a clear every import, whatever follows, carries a cutoff |
| SessionRebaseline.NothingFromBeforeTheClear | plugin/localsessionmodel.cpp:505-521 | until something is cleared again, everything stored is later than the clear |
| SessionRebaseline.BaseWasRead | plugin/localsessionmodel.cpp:1204-1262 | from then on the start of a counter is a value that an imported file gave, unless a row proves the session to be created after the cutoff of its import |
| SessionRebaseline.ClearedStaysOut | plugin/localsessionmodel.cpp:1178-1320 | for every run containing a clear: afterwards the stored counts of a session never proven to be newer are its counter's movement since a value read after the clear, less what was lost, through later imports, clears and trims |
| SessionRebaseline.FirstSnapshotStoresNothing | plugin/localsessionmodel.cpp:1204-1262 | after a clear and any further steps, the first snapshot that such a session counts stores nothing, also once retention has deleted the session |
| SessionRebaseline.TrimSplits | plugin/localsessionmodel.cpp:437-455 | a session's stored total splits into what retention keeps and what it removes |
| SessionImporter.CompareFields | plugin/localsessionmodel.cpp:1222-1240 | the loop over the four counter fields computes the deltas, whether anything changed, and whether a field decreased |
| SessionImporter.Importer.CountSnapshot | plugin/localsessionmodel.cpp:1178-1320 | the delta logic on the tables has the effect of the specified snapshot import, which `SessionLedger.EventOfSnapshot` and `SessionLedger.FirstSnapshotDecides` pin down on the rows |
| SessionImporter.Importer.ImportRecords | plugin/localsessionmodel.cpp:980-1322 | importing the records of one visit changes the tables like the specified import of the items, one after the other |
| SessionImporter.Importer.ClearSessions | plugin/localsessionmodel.cpp:2040-2071 | clearing empties sessions, events, counters, conflicts, file checkpoints, project aliases and the scan cursors of all four queues, and sets the cutoff of both tools |
| SessionImporter.Importer.TrimRetention | plugin/localsessionmodel.cpp:437-455 | trimming marks sessions that lose events, deletes old events and then old sessions with everything that refers to them |
| CodexContext.ContextIsLast | plugin/localsessionparser.cpp:262-305 | the context of lines is exactly the model and the session that they name last |
| CodexContext.LaterLinesMatter | plugin/localsessionmodel.cpp:1013-1015 | applying further lines changes the context if and only if they name last a model or session that the lines before do not name last |
| CodexContext.FirstRecordHeals | plugin/localsessionparser.cpp:262-305 | if the first of the following records means what the unterminated lines applied before it meant, the context after it is the one without those lines |
| CacheRuns.RunIsWellKept | plugin/localsessionmodel.cpp:1351-1375 | over every run of visits and prunes the cache holds at most 16 entries, one per file, each for a safe prefix with its digest |
| CacheRuns.StoredPrefix | plugin/localsessionmodel.cpp:1351-1375 | a digest that is remembered covers exactly the file's prefix up to the new cursor |
| CacheReuse.VisitStarts | plugin/localsessionmodel.cpp:835-953 | a visit starts over from the first byte if nothing was recorded or the file shrank or was rewritten; otherwise, unless it gives up, behind the recorded offset, in the context of an entry with this file, offset, stamp, node and prefix if and only if there is one, and else in that of the records before the offset |
| CacheReuse.VisitLeaves | plugin/localsessionmodel.cpp:835-1375 | a visit leaves other files' entries in their order, and of its own file only what its committed scan learned, put first, or the entry it reused; a seventeenth entry pushes out the last |
| CacheReuse.CleanScanIsRemembered | plugin/localsessionmodel.cpp:1351-1375 | every committed scan from the start of a line that knows a context and met no oversized record is remembered, with its stamp, node, cursor, prefix and context |
| CacheSoundness.EntryIsExactIff | plugin/localsessionmodel.cpp:835-1375 | over every run, and whatever lines mean, an entry equals reading its prefix from byte 0 if and only if the lines applied to it and the prefix's records last name the same model and session |
| CacheSoundness.EntryIsFoldIff | plugin/localsessionmodel.cpp:835-1375 | while unterminated context lines are only completed, an entry equals reading its prefix if and only if the unterminated last lines stored with it say nothing new about model or session |
| CacheSoundness.ResumeIsRereadIff | plugin/localsessionmodel.cpp:835-953 | a visit starts in the context of re-reading from byte 0 if and only if it does not reuse an entry whose unterminated lines say something new |
| CacheSoundness.UsageIsReadInContext | plugin/localsessionmodel.cpp:980-1025 | however contexts were remembered, every terminated line that is not a context record is read in the model and session that the lines before it in the file name |
| CacheSoundness.NewlineEndedIsExact | plugin/localsessionmodel.cpp:835-1375 | if the stored scans of a file all ended at a newline, all its entries equal reading their prefixes and every visit starts as from byte 0, whatever happens to other files |
| CacheWitness.NextVisitResumes | plugin/localsessionmodel.cpp:842-899 | what a committed scan stored is what the next visit of the grown file starts with, unless that visit gives up |
| CacheWitness.ResumesAhead | plugin/localsessionmodel.cpp:1013-1015 | a concrete run: a terminated session record followed by an unterminated turn context makes the next visit start, at a non-zero cursor, in a context its prefix does not have |
| CacheWitness.MeaningMatters | plugin/localsessionmodel.cpp:1013-1015 | a concrete run: if such a line is completed to one that means nothing, an entry of a scan that ended at a newline differs from its prefix |
| ContextCache.Cache.Find | plugin/localsessionmodel.cpp:842-865 | the entry found is the one about exactly this file, offset, stamp and node with a context, and none is found only if there is none |
| ContextCache.Cache.HashPrefix | plugin/localsessionmodel.cpp:868-895 | the prefix is read in chunks up to the cursor; falling short is noticed and happens only by a device failure or a used-up budget |
| ContextCache.Cache.RebuildContext | plugin/localsessionmodel.cpp:910-938 | re-reading the prefix record by record folds exactly its complete records into the context, and hashes exactly the prefix if that ends with a line and no oversized record is in it; it gives up only on a disturbance or a used-up budget |
| ContextCache.Cache.Resume | plugin/localsessionmodel.cpp:835-953 | a matching entry with the prefix's digest is used and kept; otherwise the file's entry is dropped and the prefix is re-read, from the start of the file if it names no context |
| ContextCache.Cache.OpenFile | plugin/localsessionmodel.cpp:790-953 | a shrunk or rewritten file loses its entry and is read from the start; otherwise the visit resumes behind the recorded offset |
| ContextCache.Cache.Learn | plugin/localsessionmodel.cpp:1351-1375 | a committed scan leaves exactly the specified entries: the new one in front if it knows a context and the digest covers the prefix, the old ones otherwise |
| ContextCache.Cache.VisitFile | plugin/localsessionmodel.cpp:790-1375 | a whole visit is one step of the run of visits, leaves exactly the specified entries, reads its file to the end unless disturbed or out of budget, and starts as from byte 0 if the file's stored scans ended at newlines |
| ContextCache.Cache.Prune | plugin/localsessionmodel.cpp:680-692 | after a discovery exactly the entries of the found files remain |
| ContextCache.Cache.Clear | plugin/localsessionmodel.cpp:1994-1997 | clearing, like a change of settings, forgets every context |
| ContextCache.Refold | plugin/localsessionmodel.cpp:911-934 | reading one more record applies exactly that record to the context |
| ImportHistory.ResumedIsOneShot | plugin/localsessionmodel.cpp:980-1350 | every sequence of resumed, repeated, rolled back and interleaved imports whose distinct items are in time order leaves the store that importing each item once, where it was first read, leaves |
| ImportPrefix.OwnOnceIsPrefix | plugin/localsessionmodel.cpp:980-1350 | the distinct items imported from a file are those of its prefix up to the furthest cursor, in file order and in the context at each place, followed by what unterminated lines there already meant |
| ImportPrefix.VisitRepeatsThenAdds | plugin/localsessionmodel.cpp:980-1350 | a visit reads old items, then exactly those between the furthest cursor and its own, then what its unterminated last line already means |
| ImportPrefix.PendingComesFirst | plugin/localsessionmodel.cpp:1005-1012 | an item imported from an unterminated line is the first new item once the line is passed |
| ImportPrefix.WholeFileOnce | plugin/localsessionmodel.cpp:980-1350 | once a scan has read the file to its end behind a newline, exactly the file's distinct items have been imported, in file order |
| ImportRuns.HistoryIsLawful | plugin/localsessionmodel.cpp:790-1375 | every run of visits over the context cache, seen from a file that is only appended to, is a lawful import history: cursors, contexts and unterminated lines are those the cache supplied |
| ImportRuns.RunImportsOnce | plugin/localsessionmodel.cpp:790-1375 | over every such run, among imports of other files, the store is that of importing each item of the file once, and these items are those of its prefix |
| ImportRuns.PiecesAreOneRead | plugin/localsessionmodel.cpp:980-1350 | a file scanned to its end behind a newline, in however many pieces, leaves the store of reading it in one go |
| ScanOrder.RotateAfterCursor | plugin/localsessionmodel.cpp:693-703 | the in-place rotation continues the queue after its cursor and leaves it alone when the cursor is unknown |
| ScanOrder.DealCandidates | plugin/localsessionmodel.cpp:712-723 | the dealing loop produces the specified four-to-one order |
| ScanOrder.DealtIsPermutation | plugin/localsessionmodel.cpp:712-723 | the scan order is a permutation of both queues |
| ScanOrder.DealtKeepsOrder | plugin/localsessionmodel.cpp:712-723 | each queue appears whole and in its own order |
| ScanOrder.ChangedAt | plugin/localsessionmodel.cpp:712-723 | the k-th changed file, from zero, stands right after the first 4(k+1) new files, or after all of them |
| ScanOrder.NewAt | plugin/localsessionmodel.cpp:712-723 | the i-th new file stands behind one changed file per four new ones before it, while there are any |
| ScanOrder.FrontOfBoth | plugin/localsessionmodel.cpp:715-723 | the first five candidates, or all of them, include the front of both queues |
| ScanOrder.ScanServesBoth | plugin/localsessionmodel.cpp:731-736 | processing five candidates or all of them processes a non-empty front of each queue |
| ScanOrder.RotationAdvances | plugin/localsessionmodel.cpp:1379-1384 | the next rotation moves exactly the processed front to the back |
| ScanOrder.EveryFileIsProcessed | plugin/localsessionmodel.cpp:693-736 | if each scan processes some of a queue, every file of it is processed within as many scans as its place in the queue |
| ScanOrder.NobodyStarves | plugin/localsessionmodel.cpp:693-736 | if both queues stay unchanged and each scan processes five candidates or all, every file is processed within as many scans as its queue is long |
| BudgetTables.ActiveFollowsContract | plugin/forecastcontract.cpp:424-440 | the repository announces what the forecast contract's transition rule says, treating the first forecast of a period as following an unavailable one |
| BudgetRuns.AnnounceKeepsPending | plugin/budgetpolicyrepository.cpp:818-960 | after an announcement all pending events of the policy belong to the stored period, at most one of them besides a period reset |
| BudgetRuns.AnnounceKeepsRisk | plugin/budgetpolicyrepository.cpp:705-816 | a risky stored level always has its event row |
| BudgetRuns.RecordMany | plugin/budgetpolicyrepository.cpp:731-816 | recording transitions never makes a second row for a policy, period and transition, and changes existing rows only by closing them |
| BudgetRuns.HardSuppressionClearsPending | plugin/budgetpolicyrepository.cpp:716-891 | a disabled, snoozed or otherwise hard-suppressed policy keeps no pending event |
| BudgetRuns.AnnounceKeepsSound | plugin/budgetpolicyrepository.cpp:629-977 | an announcement keeps all event and delivery invariants |
| BudgetRuns.LeaseKeepsSound | plugin/budgetpolicyrepository.cpp:1082-1199 | preparing deliveries keeps them |
| BudgetRuns.ReportKeepsSound | plugin/budgetpolicyrepository.cpp:1205-1252 | completing a delivery keeps them |
| BudgetRuns.ReachableIsSound | plugin/budgetpolicyrepository.cpp:629-1252 | in every state reachable with a clock that never runs backwards: events have unique keys, closed events have no open delivery, delivery rows count their leases, and an event settled by deliveries failed if one of its rows was given up, was delivered if none was and one was accepted, and was suppressed if neither happened |
| BudgetCalls.SettledEventsFollowRows | plugin/budgetpolicyrepository.cpp:1186-1237 | in every reachable state an event that the deliveries settled failed if and only if one of its rows was given up, was delivered if and only if none was given up and one was accepted, and was suppressed if and only if neither happened |
| BudgetCalls.SettlesWhenClosed | plugin/budgetpolicyrepository.cpp:1184-1237 | after a preparation or a report that touched it, a pending event is settled if and only if none of its rows is open |
| BudgetCalls.SettledByRows | plugin/budgetpolicyrepository.cpp:1184-1237 | either call gives an event only the status its rows call for, and only when no row is open |
| BudgetCalls.TransitionsAre | plugin/budgetpolicyrepository.cpp:700-816 | exactly these transitions are announced: a reset when the stored period differs, a risk when its level is new in the period, a recovery when a risk ended in it |
| BudgetCalls.StateIsForecast | plugin/budgetpolicyrepository.cpp:629-700 | exactly the forecasts of a known contract and policy, from its source and with a period, change anything; they become the policy's state and end a snooze that is over |
| BudgetCalls.AnnouncementIsRecorded | plugin/budgetpolicyrepository.cpp:731-801 | every announced transition without a row in the period gets one, pending unless the policy is silenced, and nothing else gets a row |
| BudgetCalls.EventAfterAnnouncement | plugin/budgetpolicyrepository.cpp:818-960 | pending events of the policy are closed as stale outside the period, as superseded by another announcement, and for the policy's reason while it is silenced; all other events stay |
| BudgetCalls.DeliveriesFollowEvents | plugin/budgetpolicyrepository.cpp:818-960 | open deliveries follow their event into suppression, with its reason; all others stay |
| BudgetCalls.ChannelsAreChosenOnce | plugin/budgetpolicyrepository.cpp:1083-1105 | the first preparation of a current event gives it one row per known enabled channel; no other adds a row, and none removes one |
| BudgetCalls.PreparedRow | plugin/budgetpolicyrepository.cpp:1121-1183 | what a preparation does to each row, on the row itself: closed rows stay, open ones are muted when the event is over or the channel off, wait for their time and the cooldown, are given up after three attempts, and are sent otherwise, with the next attempt at least 75 seconds later |
| BudgetCalls.CooldownHolds | plugin/budgetpolicyrepository.cpp:1135-1160 | a row is sent for the first time only if the last acceptance for its policy and channel lies at least the cooldown back |
| BudgetCalls.ReportedRow | plugin/budgetpolicyrepository.cpp:1205-1233 | a report closes an in-flight row as sent, or as given up after three attempts or a final failure, or lets it wait at least a minute, the cooldown and the time asked for; any other report changes nothing |
| BudgetRuns.StepIsMonotone | plugin/budgetpolicyrepository.cpp:961-1247 | each call only lowers the rank of delivery rows, never changes the channels of a prepared event, never touches an event that is no longer pending, and gives rows only to pending events |
| BudgetRuns.DeliverySettles | plugin/budgetpolicyrepository.cpp:1120-1233 | over every run a delivery changes at most seven times, is leased at most three times at least 60 seconds apart, and has rank zero exactly when it is closed |
| BudgetRuns.NoChannelNoDelivery | plugin/budgetpolicyrepository.cpp:1082-1199 | over every run, an event whose first preparation finds no known channel is suppressed by it and never gets a delivery |
| BudgetRepository.DeliverIsPending | plugin/budgetpolicyrepository.cpp:804-906 | without suppression the events marked for delivery are exactly the policy's pending events |
| BudgetRepository.Repository.RecordTransition | plugin/budgetpolicyrepository.cpp:731-801 | one transition inserts its row or closes the existing one, and touches no other row |
| BudgetRepository.Repository.CloseRemaining | plugin/budgetpolicyrepository.cpp:842-906 | the remaining pending rows of the period are listed, and closed under a hard suppression |
| BudgetRepository.Repository.PrepareTransitions | plugin/budgetpolicyrepository.cpp:629-992 | an acceptable forecast changes the tables as specified and returns the policy's rows as they now are; an unacceptable one changes nothing |
| BudgetRepository.Repository.ChooseChannels | plugin/budgetpolicyrepository.cpp:1083-1105 | the first preparation inserts one row per known enabled channel, ignoring duplicates |
| BudgetRepository.Repository.LeaseRow | plugin/budgetpolicyrepository.cpp:1121-1183 | one row is muted, skipped, given up or leased as its event, channel, wait, cooldown and attempts say |
| BudgetRepository.Repository.PrepareChannelDeliveries | plugin/budgetpolicyrepository.cpp:1052-1203 | returns exactly the leased rows and changes the tables as specified, in whatever order rows are visited; `BudgetCalls.PreparedRow` and `BudgetCalls.SettlesWhenClosed` say what that is |
| BudgetRepository.Repository.SettleEvent | plugin/budgetpolicyrepository.cpp:1184-1196 | a pending event without open rows gets the given status, which `BudgetCalls.SettledByRows` ties to its rows |
| BudgetRepository.Repository.CompleteChannelDelivery | plugin/budgetpolicyrepository.cpp:1205-1252 | succeeds exactly for an in-flight row and then changes the tables as specified: `BudgetCalls.ReportedRow` for the row and `BudgetCalls.SettlesWhenClosed` for the event |
| Decimal.RoundedIsHalfUp | plugin/costengine.cpp:100-122 | looking at one dropped digit rounds the whole decimal to the nearest unit, ties upwards |
| MoneyText.WideToString | plugin/costengine.cpp:18-35 | the digit loop prints the decimal text of any integer |
| MoneyText.ScaledToText | plugin/costengine.cpp:153-174 | the padding and chopping loops produce the shortest decimal text of a scaled amount |
| MoneyText.ParseScaledText | plugin/costengine.cpp:51-123 | the parser's steps compute sign, parts, range check and rounding as specified |
| MoneyText.ParseUndoesPrint | plugin/costengine.cpp:51-174 | parsing a printed amount gives it back exactly when its whole part fits 64 bits, and refuses it otherwise |
| MoneyText.DecimalIsParsed | plugin/costengine.cpp:51-123 | a text of at most one sign and digits with at most one point becomes its value rounded half away from zero at the given place, and is refused exactly when its integer part does not fit 63 bits |
| MoneyText.OnlyDecimals | plugin/costengine.cpp:51-123 | every other text is refused |
| CostEngine.RoundDivideIsHalfAway | plugin/costengine.cpp:125-136 | division is rounded to the nearest integer, half away from zero, for every sign and parity |
| CostEstimate.SelectTier | plugin/costengine.cpp:364-378 | the first tier whose bounds contain the context is selected |
| CostEstimate.MergeRates | plugin/costengine.cpp:243-248 | later tables override earlier rates, key by key |
| CostEstimate.TierIsFirst | plugin/costengine.cpp:364-378 | rates come from the first tier that applies |
| CostEstimate.NoTier | plugin/costengine.cpp:364-378 | without an applicable tier the base rates stay |
| CostEstimate.LastTableWins | plugin/costengine.cpp:243-248 | a rate is taken from the last table that has it |
| CostEstimate.FeesChargeTheExcess | plugin/costengine.cpp:494-524 | charged and covered quantities add up to the requested one, the allowance is used up before anything is charged, and never beyond what the period left of it |
| CostEstimate.AddUp | plugin/costengine.cpp:528-533 | the subtotal loop adds the amounts that their printed text gives back |
| CostEstimate.EstimatePrice | plugin/costengine.cpp:252-575 | the whole estimate computes the specified outcome, which the `CostTariff` results tie to the price tables |
| CostEstimate.SubtotalLosesUnprinted | plugin/costengine.cpp:528-533 | the subtotal is the sum of the component amounts minus those that do not survive printing |
| CostEstimate.SubtotalExactIff | plugin/costengine.cpp:528-533 | with non-negative amounts the subtotal is exact if and only if the whole part of every amount fits 64 bits |
| CostEstimate.AllPrintableIff | plugin/costengine.cpp:463-533 | every amount can be read back if and only if each quantity times its rate, read off the price and the usage, is below 64 bits of whole units |
| CostEstimate.HugeUsageIsFree | plugin/costengine.cpp:528-565 | for a concrete price and usage the estimate is available and zero although its exact price is 9 times 10^34 |
| CostEstimate.TotalIsNear | plugin/costengine.cpp:463-480 | rounding costs at most half a nano-unit per component |
| CostTariff.RatesAreOffered | plugin/costengine.cpp:321-430 | the merged table has under each key what the last overlay with the key has, else the first tier whose bounds contain the context, else the base table |
| CostTariff.RateIsOffered | plugin/costengine.cpp:440-480 | a rate is the parsed text under the first key of its kind that the tables offer, and there is none if they offer none or the text cannot be parsed |
| CostTariff.LinesAre | plugin/costengine.cpp:440-526 | every component is a token, fee or unit line: its quantity comes from the counts or the allowance left, its rate from the tables under the keys of its kind, and its amount is their product rounded to the nearest nano-unit |
| CostTariff.ExactIsPrice | plugin/costengine.cpp:440-526 | when nothing is missing, the exact total of the components is the price of the usage under the tables |
| CostTariff.EstimateIsNearPrice | plugin/costengine.cpp:528-575 | if each quantity times its rate fits, an available estimate with a discount of 0 to 100 percent fits 64 bits and differs from the price that the tables give, less the discount, by at most half a minor unit, half a nano-unit, and half a nano-unit per line; a minor unit is 10^(9 - digits) nano-units |
| CostTariff.EstimateIsNearPriceIff | plugin/costengine.cpp:528-575 | with no negative rate, a discount below 100 percent and at most 64 bits of fees, an available estimate is that near if and only if each quantity times its rate fits |
| CostTariff.OverflowIsOutOfRange | plugin/costengine.cpp:552-575 | an estimate overflows only when an amount that near to the price does not fit 64 bits |
| CostTariff.IncompleteIff | plugin/costengine.cpp:252-526 | an estimate is refused as incomplete if and only if something that the usage needs is missing, unreadable or inconsistent: currency digits, counts that split the input, a rate for every count, a fee's numbers and what was consumed of its allowance, or a batch discount |
| CostEstimate.InputIsPartitioned | plugin/costengine.cpp:463-480 | in an available token-priced estimate the input, cache-read and cache-write quantities sum to the input tokens |
| Calendar.NextMonthAhead | plugin/billingcycleresolver.cpp:61-72 | the same day of the next month lies exactly one month length ahead, over year ends and leap years |
| Calendar.DateOfNumber | plugin/billingcycleresolver.cpp:52-75 | dates and day numbers determine each other |
| BillingCycle.PeriodsAreCells | plugin/billingcycleresolver.cpp:52-75 | days, ISO weeks, months and anchored months partition the days: each day lies in its period, and all days of the period share it |
| BillingCycle.ResolvesAround | plugin/billingcycleresolver.cpp:48-81 | a local period resolves to a cycle that contains the instant, in every zone with strictly increasing midnights |
| BillingCycle.ResolvesIff | plugin/billingcycleresolver.cpp:31-81 | a local request resolves if and only if the zone is known and the period is known with an anchor from 1 to 28, a provider period if and only if it is stable, authenticated, supported and contains the instant |
| BillingCycle.SameCycleThroughout | plugin/billingcycleresolver.cpp:31-81 | a cycle contains the instant it was resolved for, and every instant of it resolves to the same cycle |
| BillingCycle.CyclesTile | plugin/billingcycleresolver.cpp:84-97 | the previous cycle is valid and ends exactly where the current one starts |
| BillingCycle.ResolvesToPeriod | plugin/billingcycleresolver.cpp:31-81 | a resolved cycle runs between local midnights of a day, of seven days from a Monday, or of a month from its first or its anchor to the same day of the next, or it is the provider's own period |
| AdminParser.NumeralIsRounded | plugin/anthropicadminparser.cpp:199-231 | a numeral becomes its value times 10,000 rounded half away from zero, and is refused exactly when that magnitude exceeds the signed 64-bit maximum |
| AdminParser.OnlyNumerals | plugin/anthropicadminparser.cpp:199-208 | nothing but an optionally signed decimal numeral is accepted |
| AdminParser.ParseBucket | plugin/anthropicadminparser.cpp:43-122 | a bucket is folded up to its first invalid result, and is fine exactly when it has none; `AdminTotals.BucketIsValidIff` says which are valid |
| AdminParser.ParsePage | plugin/anthropicadminparser.cpp:26-125 | a page folds exactly the results before its first invalid one onto the rows, and succeeds exactly when it is valid; `AdminTotals.PageIsValidIff` says which are, the row results of `AdminTotals` what is folded |
| AdminParser.FoldedSplits | plugin/anthropicadminparser.cpp:26-125 | any split of the results into pages gives the rows of one page |
| AdminParser.FoldedConserves | plugin/anthropicadminparser.cpp:110-121 | joined texts stay unique, and the row of a text holds the sum of its results |
| AdminParser.RowsIgnoreOrder | plugin/anthropicadminparser.cpp:110-121 | the rows of a text do not depend on the order in which results arrive |
| AdminTotals.BucketIsValidIff | plugin/anthropicadminparser.cpp:43-96 | a bucket is valid if and only if it has a period of positive length and every result has all its token counts, none negative, or a readable amount in US dollars |
| AdminTotals.PageIsValidIff | plugin/anthropicadminparser.cpp:29-125 | a page is valid if and only if it has data, says whether more follows, and all its buckets are valid |
| AdminTotals.UsageRowIsReceived | plugin/anthropicadminparser.cpp:97-121 | the usage row of a joined text holds, field by field, the sums of the uncached, cached, cache-creating and output counts of the decoded results with that period, model, project and tier text |
| AdminTotals.CostRowIsReceived | plugin/anthropicadminparser.cpp:168-196 | the cost row of a joined text holds the sum of the rounded amounts of the decoded results with that period, model, project, tier and line item text |
| AdminTotals.EveryResultHasRowIff | plugin/anthropicadminparser.cpp:16-24 | every result keeps a row under its own period and names if and only if no two results that differ in them have the same joined text |
| AdminTotals.BarFreeNamesStayApart | plugin/anthropicadminparser.cpp:16-24 | names without a bar in model, project and tier never share a joined text |
| AdminTotals.BarsMerge | plugin/anthropicadminparser.cpp:16-24 | with bars in their names, results of one model and project are folded into the row of another, for every such split of a text |
| AdminRefresh.LastChangesOnlyWhenComplete | plugin/anthropicprovider.cpp:261-307 | the last rows change only by the final page of a valid report of the current refresh |
| AdminRefresh.FailureKeepsLast | plugin/anthropicprovider.cpp:261-303 | a capability that ends without its last page keeps the last rows and is partial exactly when rows had arrived |
| AdminRefresh.RunIsSound | plugin/anthropicprovider.cpp:190-307 | over every run of refreshes, cancellations and replies, the last rows of a capability are the folded results of all replies of one generation that form a complete report of at most 64 valid pages |
| AdminRefresh.PageOutcomes | plugin/anthropicprovider.cpp:190-259 | a page is followed by a request for the next if and only if it is valid, announces one and fewer than 64 were asked for; a valid last page makes the folded rows the last ones, any other outcome keeps them |
| AdminRefresh.RunKeepsComplete | plugin/anthropicprovider.cpp:190-307 | over every run: once all pages of the current report have come, it has succeeded and its folded results are the last rows |
| AdminRefresh.RunWaits | plugin/anthropicprovider.cpp:309-345 | a refresh that shows as loading always has an unanswered request of its generation for every pending part |
| AnthropicProvider.Backend.Refresh | plugin/anthropicprovider.cpp:49-97 | a refresh starts a generation, forgets pending rows and keeps the last ones |
| AnthropicProvider.Backend.HandleModelsReply | plugin/anthropicprovider.cpp:163-188 | a connectivity reply of the current generation ends that part of the refresh, a superseded one changes nothing |
| AnthropicProvider.Backend.HandleAdminReply | plugin/anthropicprovider.cpp:190-259 | a reply of a superseded generation changes nothing; a current one folds its page and asks again, completes or fails |
| AnthropicProvider.Backend.FinishCapability | plugin/anthropicprovider.cpp:261-307 | completion publishes the pending rows as the last ones, failure keeps the last ones |
| AnthropicProvider.PublishCost | plugin/anthropicprovider.cpp:461-529 | each period has the sum of its rows, period costs sum to the total, and the daily and monthly costs are those of the rows of that day and month |
| AnthropicProvider.PublishUsage | plugin/anthropicprovider.cpp:347-459 | period totals sum to the published input, which includes cached tokens, and to the published output; `AdminTotals.UsageIsReceived` ties both to the decoded results |
| AnthropicProvider.FoldedKeepsTotal | plugin/anthropicadminparser.cpp:110-121 | folding keeps the grand total of all results in every field |
| AdminTotals.UsageIsReceived | plugin/anthropicprovider.cpp:347-459 | for a complete report the published input is the sum of the uncached, cached and cache-creating counts of all decoded results, and the published output that of their output counts, in all and for the buckets of each period |
| AdminTotals.CostIsReceived | plugin/anthropicprovider.cpp:461-529 | for a complete report the published cost is the sum of the rounded amounts of all decoded results, in all and for the buckets of each period |
| AdminTotals.TodaysCostIsReceived | plugin/anthropicprovider.cpp:475-481 | the published cost of today is the sum over the buckets that start between the two midnights of today in UTC |
| AdminTotals.MonthsCostIsReceived | plugin/anthropicprovider.cpp:475-484 | the published cost of this month is the sum over the buckets that start between the first midnights of this month and the next in UTC |
| AdminTotals.RunPublishesUsage | plugin/anthropicprovider.cpp:190-459 | after every run the published usage is that of the decoded results of one complete report |
| AdminTotals.RunPublishesCost | plugin/anthropicprovider.cpp:190-529 | after every run the published cost is that of the decoded results of one complete report |
| SpendingDays.GaugesAreLatest | plugin/analystquery.cpp:345-361 | a gauge, told apart by date, provider, model, currency, quality, source, scope and window, counts by its last observation and by no other |
| SpendingDays.CollectEffective | plugin/analystquery.cpp:345-362 | the observations that count are the plain ones and one per gauge, with that total |
| SpendingDays.FoldCosts | plugin/analystquery.cpp:363-385 | days and drivers hold the sums and counts of their own observations, and both split the whole spending without loss |
| SpendingDays.PlainIsPart | plugin/analystquery.cpp:345-361 | the plain observations that count are exactly those of the currency that are no gauges, in their order |
| SpendingDays.FoldedMeans | plugin/analystquery.cpp:363-385 | a day's estimated amount and count are those of its observations marked as estimated, its actual ones those of all others, and a driver's are those of its provider, its model or, without one, its provider again, and its quality |
| Anomalies.FindAnomalies | plugin/analystquery.cpp:454-491 | the three passes answer exactly from seven days on; the answer lists, in order, the days that stand out against the mean and the root of the mean squared distance from it, at most a fifth of all |
| Anomalies.AnomaliesStandOut | plugin/analystquery.cpp:468-478 | the days reported are exactly those that lie above the mean by one unit, half the size of the mean and two deviations, each once and in order |
| Anomalies.AtMostAFifth | plugin/analystquery.cpp:454-491 | however costs are spread, at most a fifth of the days are anomalies |
| Anomalies.AFifthIsReached | plugin/analystquery.cpp:454-491 | eight idle days and two days of ten units reach the bound |
| GuardrailRuns.KeysAgreeIff | plugin/guardrailmodel.cpp:263-274 | two queries share a key if and only if all their fields agree and neither has a time or both lie in the same minute, minutes being cut off towards the epoch |
| GuardrailRuns.MinutesAreShort | plugin/guardrailmodel.cpp:263-274 | such times are less than a minute apart, around the epoch less than two |
| GuardrailRuns.EvictionKeepsListed | plugin/guardrailmodel.cpp:243-248 | eviction keeps exactly the last 16 keys of the order, with their answers, and the order lists exactly the cached keys without repeats |
| GuardrailRuns.RunIsSound | plugin/guardrailmodel.cpp:94-107 | over every interleaving of start, cancel, cache invalidation and worker reports: published generations strictly increase, the pending count equals the outstanding workers, a worker is cancelled exactly when its request is not the latest, and the cache order is exact |
| GuardrailRuns.AtMostOneUncancelled | plugin/guardrailmodel.cpp:192-198 | at most one worker is uncancelled |
| GuardrailRuns.StartOutcome | plugin/guardrailmodel.cpp:192-228 | a request supersedes every worker; a cached answer is announced at once, otherwise one worker runs and nothing is announced |
| GuardrailRuns.FinishPublishesIffLatest | plugin/guardrailmodel.cpp:230-261 | a worker's answer is announced, shown and cached exactly when its request is still the latest one |
| GuardrailRuns.AnswersAreExplained | plugin/guardrailmodel.cpp:192-261 | after every run each cached answer was reported for a query with its key since the cache was last cleared, and the forecasts shown answer the request announced last |
| GuardrailRuns.ShownServesRequest | plugin/guardrailmodel.cpp:192-261 | after every run the forecasts shown were reported for a query with the same fields and no time or the same minute as the request announced last |
| GuardrailRuns.CachedServesQueries | plugin/guardrailmodel.cpp:192-261 | after every run a cached answer was reported, since the cache was last cleared, for a query with the fields and the minute of every query that it answers |
| GuardrailModel.Guardrail.Start | plugin/guardrailmodel.cpp:192-228 | a request supersedes all workers and answers from the cache or starts one worker; whose answers it may show is `GuardrailRuns.CachedServesQueries` |
| GuardrailModel.Guardrail.Finish | plugin/guardrailmodel.cpp:230-261 | a report is one step of the state machine and removes that worker only |
| GuardrailModel.Guardrail.Cancel | plugin/guardrailmodel.cpp:94-101 | cancelling advances the generation and sets the flag of every worker |
| GuardrailModel.Guardrail.Evict | plugin/guardrailmodel.cpp:246-248 | the loop drops the oldest entries down to the capacity |
| Observations.CollectLatest | plugin/budgetpacingquery.cpp:115-128 | the loop keeps the latest matching observation per interval and notices other scopes |
| Observations.LatestIsLatest | plugin/budgetpacingquery.cpp:115-128 | an interval is kept exactly when it has a matching observation, and no other was observed after the kept one |
| Observations.EarliestIsKept | plugin/budgetpacingquery.cpp:125-127 | of several observations at the latest time the first in the list is kept |
| Observations.LatestIgnoresOrder | plugin/budgetpacingquery.cpp:115-128 | neither order nor repetition matters when latest times are unique |
| Observations.OnlyLatestMatter | plugin/budgetpacingquery.cpp:115-128 | nothing but the latest observation of each interval matters |
| Observations.SumWithin | plugin/budgetpacingquery.cpp:76-90 | the sum within a cycle does not depend on the unknown order of the hash |
| DailyBaseline.CollectDays | plugin/budgetpacingquery.cpp:152-158 | the baseline holds the value of exactly the complete UTC days |
| DailyBaseline.CoverageIsPercentage | plugin/budgetpacingquery.cpp:159-167 | coverage lies between 0 and 100, since no more days are covered than there are |
| DailyBaseline.MedianIsMiddle | plugin/budgetpacingquery.cpp:16-26 | half of the values are at most the median and half at least, and it lies midway between the two in the middle |
| BudgetPacing.Evaluate | plugin/budgetpacingquery.cpp:93-268 | a result is available exactly when the latest observations allow one, then it is the one they determine; otherwise its reason names something that they, or the request, really lack, and with a named currency and period type every result of a ready request meets the forecast contract |
| BudgetPacing.OnlyLatestCount | plugin/budgetpacingquery.cpp:115-268 | available results depend only on the latest observation per interval, in any order |
| BudgetPacing.PacingKeepsToLimit | plugin/budgetpacingquery.cpp:178-205 | on the numbers of every available result: the remainder is what the limit leaves; spend plus safe-today is the smaller of the limit and the largest whole amount in proportion to the time until the end of today, and safe-today is zero if the spend is beyond one of them; the daily allowance times the remaining days is the remainder up to less than one unit a day |
| PacingNumbers.LatestAreKept | plugin/budgetpacingquery.cpp:65-128 | kept are, of every interval observed in the scope, observations of that scope that none came after, and no others; the scope is matched by kind and identity, or by having none |
| PacingNumbers.SpendIsSum | plugin/budgetpacingquery.cpp:76-90 | the spend of an available result is the sum of the kept values of intervals within the cycle, the previous spend that of the previous cycle, present exactly if that is valid and has any |
| PacingNumbers.PercentagesAreShares | plugin/budgetpacingquery.cpp:182-250 | the consumed percentage times the limit is a hundred times the spend, and the change times the previous spend a hundred times the difference |
| PacingNumbers.ProjectionFollowsDays | plugin/budgetpacingquery.cpp:150-180 | every available result follows from at least five observed whole days that are over, covering at least 70 percent of those from the first to the last: its samples and coverage count them, the projection adds their median for each day left to the nearest whole amount, and the predicted instant is the last whole millisecond at which that median leaves the limit unspent |
| PacingNumbers.StateFollowsSpend | plugin/budgetpacingquery.cpp:252-259 | the state is exceeded if and only if the spend reaches the limit, else critical or warning if and only if it reaches that percentage of the limit, or for warning an overrun is predicted, up to a billionth of a percent |
| PacingNumbers.ValuesAreMajor | plugin/budgetpacingquery.cpp:220-226 | the values shown are the minor amounts in units of the currency |
| BudgetPacing.AllowancesFit | plugin/budgetpacingquery.cpp:181-205 | what is safe today reaches exactly the limit or what is due, whichever comes first, and nothing is safe beyond them; daily allowances use up the remainder to less than a unit a day |
| BudgetPacing.TodayLiesInCycle | plugin/budgetpacingquery.cpp:186-204 | with a consistent clock today ends inside the cycle, the pro-rata part lies within the limit, and the remaining days include today |
| BudgetPacing.ProjectionIsNearest | plugin/budgetpacingquery.cpp:173-180 | the projection is the nearest whole amount to the exact run rate and never below the spend |
| BudgetPacing.PredictionIsExact | plugin/budgetpacingquery.cpp:261-266 | the predicted instant is the last whole millisecond at which the baseline is within the limit |
| BudgetPacing.PredictionInPeriod | plugin/budgetpacingquery.cpp:261-266 | it lies in the period exactly when the unrounded projection, a millisecond later, exceeds the limit |
| BudgetPacing.StatesFollowThresholds | plugin/budgetpacingquery.cpp:252-259 | warning and critical are reached at their percentages of the limit, from below only within the tolerance |
| BudgetPacing.SeverityIsMonotone | plugin/budgetpacingquery.cpp:252-259 | more spend or a predicted overrun never lowers the severity |
| BudgetPacing.SafeMeansNoPrediction | plugin/budgetpacingquery.cpp:252-266 | safe implies no predicted time, no overrun and a spend below the limit; exceeded means exactly that the limit is spent |
| BudgetPacing.ValidIffPeriodNamed | plugin/forecastcontract.cpp:133-219 | an available result passes `isValid` if and only if its period type is not blank |

## Left out

- JSON decoding, regular expressions, localisation, HTTP, SQL and files: the model starts from decoded records, decoded numbers and tables as maps; a call commits as one step, and a failed call changes nothing.
- Database write errors and lock files during an import: a scan either commits or is rolled back as a whole.
- SHA-256, HMAC identities, and the keys that spending and forecast queries join or hash: digests, identities and these keys are injective constructors and tuples. The joined texts of report rows are modelled.
- Unicode: texts are sequences of characters, trimming and upper-casing of currency codes, model names and suppression words are done before the model's inputs.
- 64-bit and 128-bit intermediates of sums and products: integers are unbounded, except where a limit is compared in the source (amount parsing, the minor amount of an estimate).
- Floating point: pacing, analysis and percentages use exact rationals or reals, with the source's rounding functions made explicit; the square root is an exact one.
- Discovery of candidate files, prefix checks of file identity and the choice which files are new or changed: `ScanOrder` starts from the two queues.
- `requestImport` scheduling flags (`m_pending`, `m_importAgain`): an import run is a sequence of file visits that may be superseded at any record.
- Device failures between restoring a cursor and the first read of a scan are treated as a read that delivers nothing.
- ImportHistory.ResumedIsOneShot: cutoff, retention boundary and parser results of a record are the same each time it is read in the same context; the history contains no clear.
- ImportPrefix.OwnOnceIsPrefix: assumes that an unterminated line which was already a context or usage record is only completed later, within 1 MiB, to a line of the same meaning; a writer that turns it into something else is `CacheWitness.MeaningMatters`.
- ImportRuns.RunImportsOnce: for files that are only appended to; a file that is rewritten in place is imported anew and keeps what its old contents left.
- A failed seek to the start of a readable file, and a stale import whose cache is discarded because settings changed meanwhile: the run goes on from the cleared cache.
- Coverage texts and reason lists shown for a tool, project aliases, exports, daily summaries: presentation.
- Other owners' policies: one owner's tables are modelled.
- `markEventDelivered` and `markEventFailed`: they bypass the delivery rows, so the agreement of events and deliveries is about the three calls that do not.
- The `delivered_at_utc` of events: only the deliveries' own acceptance times are modelled; history columns `settled` and `leases` are added for the statements about runs.
- Policy creation, update, deletion, validation texts and schema migration.
- CostEngine: numbers given as floating point or in exponent notation, and the selection of modality, service tier, route and region tables, which are given as found tables and a flag for missing ones.
- CostTariff.EstimateIsNearPrice: needs each product to fit, because the code drops the other amounts; `CostTariff.EstimateIsNearPriceIff` says that this is needed and `CostEstimate.HugeUsageIsFree` is such a case.
- BillingCycle.CyclesTile: for local periods; a provider's own reset period has no previous cycle in the code.
- Time zone data: a zone is any strictly increasing function from local days to instants; days without a local midnight and invalid dates are not modelled.
- BudgetPacing.Evaluate: which of several reasons an unavailable result names can depend on the order of a hash in the code, so only that it is a true one is promised.
- `toVariantMap`, `fromVariantMap`, stable identifiers and the diagnostic texts of `isValid`.
- Runway forecasts computed by the workers, and the decoration of their results: a worker reports any forecasts.
- Status texts, connection state and data quality of a provider, retries and rate limits; the list of metrics other than the sums.
- The order in which a map of days is listed for the anomaly series: the series is given, and the bound holds for every order.
- Driver ranking: its comparison is a fuzzy one and no order.
- Weekly comparison, ratios and activity series of the analysis.
