# inferbus: a verified model

inferbus is a NATS-based LLM gateway: an event-sourced control plane for orgs, keys and aliases,
gateways that decide from KV snapshots, workers that stream responses back, and a harvester that
accounts for usage and enforces budgets. This project models the parts of it that keep promises
across failures and proves those promises with Dafny 4.11.

| files | what they model |
|---|---|
| `LedgerModel`, `LedgerWorld`, `LedgerTheorems`, `LedgerQuiet`, `BudgetLedger` | the budget ledger: its functions, every interleaving of its actors, what holds over all runs, convergence as a run, and the object itself |
| `Sink`, `HarvesterModel`, `HarvesterTheorems`, `Harvester`, `UsageDrift` | usage batching: held, in flight, acked after insert; its reports against the ledger's usage |
| `ApiKeys`, `Aliases`, `Orgs`, `EventLog`, `Commands`, `CommandAnswers`, `KeyFacts` | the deciders, the log they produce, concurrent commands with optimistic append and what their callers are told, and what a log says of a key |
| `KeysProjector`, `KeysRestart`, `KeysRuns`, `KeysRecovery`, `KeysEmptied`, `AliasProjector`, `AliasesEmptied`, `Projections`, `KvProjectors`, `KvStart` | the KEYS and ALIASES projectors: folds, restarts, every run, the objects, start and resync, also a resync cut short |
| `ReadModel`, `SqlProjector`, `SqlTables`, `SqlProjectorObject` | the admin read model, its projector, and what its tables show |
| `Kviam`, `EndToEnd` | the gateway's watched snapshots, and its decisions in terms of the log and the ledger |
| `Wire`, `Worker`, `Relay`, `FrameTheorems`, `FrameAnswers` | response frames from engine to client |
| `Slugs`, `AliasIds`, `Base62` | the codecs |

Each protocol is a state machine whose actions are one critical section, one KV, store or sink call,
or one delivery; a run is any sequence of actions, and a call may fail having taken effect or not.
Each object of the program is a class whose methods are proved to compute the functions the state
machines are made of.

Assumptions. A KV call takes effect, if at all, between call and return. BUDGETS starts empty and
only the ledger writes it. An append succeeds only if the stream's version is unchanged. Key hashes
are fresh and not empty. Consumers deliver new positions in log order, with any duplicates. A KV
watcher first replays the keys of one instant, then says so, then tells every later change of that
bucket in order until it dies. A request id determines its usage row. The SHA-256 of a credential,
clocks, sink answers and engine behaviour are parameters.

What the proofs found. These promises in the source's comments hold only under a condition, which is
proved for all inputs:

- a restart of the keys projector from its marker is said to be safe because of the warm-up
  (`internal/controlplane/kvproj.go:16-23`), but the warm-up runs ahead of the replay and stops it when
  a change is followed by a rotation after the marker; a crash between a rotation's delete and its
  marker stops it as well. `KeysRecovery.StartRecoversIff` says that these are the only cases,
  `KeysRecovery.WedgedForGood` that no restart gets past them, `KvStart.ResyncKV` that a resync does;
  `KeysRestart.RestartCanWedge` is an instance;
- a month rollover is said to rewrite every live entry's month, but a row marked for deletion at the
  rollover and wanted again later goes live on the old month: exactly then, by
  `LedgerTheorems.MonthsStayCurrentIff`; `LedgerTheorems.StaleResurrectionHappens` is an instance;
- a sequence gap is said to expose lost frames, but a redelivered request can fill it: frames of two
  attempts are accepted exactly when frame k of one arrives right after frames 0 to k-1 of the other,
  by `FrameTheorems.OneAttemptIff`. Either fault alone never leads there
  (`FrameTheorems.LossNeverCorrupts`, `FrameTheorems.AttemptsAreNeverSpliced`); both together can
  (`FrameTheorems.LossAndRedeliveryCanSplice`);
- OnRow is said to fire once per row actually inserted (`internal/harvester/harvester.go:350`), but a
  request stored before is reported again with each committed batch that is told of it
  (`HarvesterTheorems.ReportedOncePerBatch`), and until the next re-baseline the ledger is off by the
  tokens reported less those stored (`UsageDrift.DriftIsReportedLessStored`).

A resync that is cut short after emptying a bucket and before setting its marker back is repaired by the
next resync. An ordinary start after it says nothing and serves only what came after the marker, or
stops: exactly when, by `KeysEmptied.EmptiedStartIff` and `AliasesEmptied.YoungIsFoldIff`.

## Model

| member | source | states |
|---|---|---|
| LedgerTheorems.CleanRowsArePublished | internal/harvester/budget.go:947-1034 | in every reachable state of any interleaving of usage, KEYS snapshots, baseline loads, rollovers and a half-finished flush with failing KV calls, a live, baselined, non-dirty row is in BUDGETS with exactly its usage, budget and month, exceeded iff usage has reached the budget, and the budget is positive |
| LedgerTheorems.LiveRowsFollowKeys | internal/harvester/budget.go:637-721 | in every reachable state an id has a live row iff some entry of the last KEYS snapshot gives it a positive budget, and its budget is the largest of those entries |
| LedgerTheorems.DeletionsAreNeverForgotten | internal/harvester/budget.go:681-721 | in every reachable state a row marked for deletion is dirty, and every dirty id and every BUDGETS key has a row |
| LedgerTheorems.PublishedUsageIsExact | internal/harvester/budget.go:768-805 | every entry a flush ever decides to publish counts one answer the sink gave for the entry's own id and month plus exactly the tokens accepted since that answer landed |
| LedgerTheorems.BudgetsHoldOnlyDecidedEntries | internal/harvester/budget.go:956-1034 | whatever is in BUDGETS is an entry some flush decided to publish |
| LedgerTheorems.RotationKeepsFold | internal/controlplane/kvproj.go:424-429 | writing a rotated key under its new hash and then deleting the old one changes no id's budget at either intermediate snapshot |
| LedgerTheorems.MonthsStayCurrentIff | internal/harvester/budget.go:900-928 | live rows are on the ledger's month throughout a run iff no snapshot in it revives a row that was marked for deletion when the month turned |
| LedgerTheorems.StepKeepsMonthsExactly | internal/harvester/budget.go:681-721 | one step keeps all live rows on the ledger's month iff it is not such a snapshot |
| LedgerTheorems.StaleResurrectionHappens | internal/harvester/budget.go:916-921 | a concrete run in which a revived row is live on the old month |
| LedgerTheorems.QuietSpellConverges | internal/harvester/budget.go:814-890 | from any reachable state with no flush in progress, one re-baseline and two flush ticks whose calls succeed end with nothing dirty and BUDGETS, as a whole map, what KEYS and the sink call for |
| LedgerQuiet.QuietRunConverges | internal/harvester/budget.go:814-890 | every run with no flush in progress goes on, through loads and flushes that are actions of the same state machine, to a state with nothing to publish and BUDGETS exactly what KEYS and the sink call for |
| LedgerTheorems.RebaselineSettles | internal/harvester/budget.go:814-826 | a re-baseline with no interference puts every baselined row on the sink's total and leaves it dirty or already in BUDGETS |
| LedgerTheorems.TickSettles | internal/harvester/budget.go:871-890 | one undisturbed flush tick removes what was to be deleted, baselines every live row and leaves dirty only the rows it has just loaded |
| LedgerWorld.StepKeepsInv | internal/harvester/budget.go:272-1034 | every action of every actor keeps the ledger's invariant |
| LedgerWorld.RunInv | internal/harvester/budget.go:272-1034 | the invariant holds after every sequence of actions |
| LedgerWorld.StandingIsLastLandingPlusAccepted | internal/harvester/budget.go:272-286 | an id's standing usage is its last landed answer plus everything accepted since |
| LedgerWorld.FlushBeginKeepsInv | internal/harvester/budget.go:947-972 | the snapshot a flush takes keeps the invariant, and what it decides to publish is the standing usage |
| LedgerWorld.FlushEndKeepsInv | internal/harvester/budget.go:979-1034 | reconciling after the KV call keeps the invariant whatever the call reported and whatever happened in between |
| LedgerWorld.LoadLandKeepsInv | internal/harvester/budget.go:788-805 | a baseline that lands late, on a changed row or on a row of another month keeps the invariant |
| LedgerWorld.SnapshotKeepsInv | internal/harvester/budget.go:681-721 | a KEYS snapshot keeps the invariant, a flush in flight included |
| LedgerModel.IsFoldUnique | internal/harvester/budget.go:637-665 | the per-id maximum does not depend on the order in which the snapshot is walked |
| BudgetLedger.BudgetLedger.AddUsage | internal/harvester/budget.go:272-286 | computes AddUsage: a live row gains the prompt and completion tokens and is dirty, its exceeded flag says whether the budget is reached; an empty id, an unknown one and a row marked for deletion are ignored |
| BudgetLedger.BudgetLedger.ApplyKeysSnapshot | internal/harvester/budget.go:637-665 | folds a snapshot to per-id maxima and reconciles the table with it |
| BudgetLedger.BudgetLedger.ReconcileKeys | internal/harvester/budget.go:681-721 | both loops together compute Reconcile |
| BudgetLedger.BudgetLedger.LandBaseline | internal/harvester/budget.go:788-805 | computes Land: only a live row still on the month asked for takes the answer |
| BudgetLedger.BudgetLedger.LoadBaseline | internal/harvester/budget.go:768-805 | reads the row's month, asks the sink, lands the answer |
| BudgetLedger.BudgetLedger.LoadBaselines | internal/harvester/budget.go:834-855 | the loads of a set of ids, in any order, compute LoadPass |
| BudgetLedger.BudgetLedger.RebaselineAll | internal/harvester/budget.go:814-826 | reloads exactly the live baselined rows |
| BudgetLedger.BudgetLedger.CheckMonthRollover | internal/harvester/budget.go:900-928 | rolls every live row to the new month, un-baselined, and reloads those rows |
| BudgetLedger.BudgetLedger.FlushOne | internal/harvester/budget.go:947-1034 | performs the begin, the KV call and the end of a flush, for every outcome of the call |
| BudgetLedger.BudgetLedger.FlushTick | internal/harvester/budget.go:871-890 | flushes the dirty ids in any order, then loads the rows that had no baseline |
| BudgetLedger.LoadPassStep | internal/harvester/budget.go:834-855 | loading one more id extends a load pass, so the order of the pool's answers is immaterial |
| BudgetLedger.FlushPassStep | internal/harvester/budget.go:871-890 | flushing one more id extends a flush pass, so the order of the dirty ids is immaterial |
| BudgetLedger.AppliedFoldStep | internal/harvester/budget.go:681-710 | reconciling one more id extends the first loop, in any order |
| HarvesterTheorems.EveryDeliveryIsInOnePlace | internal/harvester/harvester.go:249-417 | at every moment each delivery is in exactly one place, once: held, owed a call by a flush, disposed of, or lost in a crash |
| HarvesterTheorems.OnlyGarbageIsTerminated | internal/harvester/harvester.go:249-270 | in every run exactly the deliveries that do not decode or have an empty request id are terminated, and every other one is, once, held, owed a call, acked or nak'd, or lost in a crash |
| HarvesterTheorems.AtMostOneFlush | internal/harvester/harvester.go:299-322 | at most one flush runs, flushing says so, and inFlight is its batch |
| HarvesterTheorems.HeartbeatsCoverTheUndisposed | internal/harvester/harvester.go:405-417 | a heartbeat reaches every delivery that is held or still owed a call |
| HarvesterTheorems.AckedMeansStoredOnce | internal/harvester/harvester.go:356-396 | an acked delivery's request is in the sink, and no request has two rows |
| HarvesterTheorems.ReportsMatchFlushes | internal/harvester/harvester.go:380-396 | at every moment OnRow was given, batch by batch, the first occurrences among the messages the loop has got to; all of a committed batch's iff none lies after the point reached, or at which the process died; so always for a batch that ran to its end |
| HarvesterTheorems.DeadReportsAreFinal | internal/harvester/harvester.go:380-396 | what a crash leaves of a batch's reports is never added to, and the batch's record never changes |
| HarvesterTheorems.AckedEventsAreCountedOnce | internal/harvester/harvester.go:356-396 | once all events are acked, whatever was duplicated, failed or lost meanwhile, MonthToDate counts each event exactly once |
| HarvesterTheorems.ShutdownLeavesNothing | internal/harvester/harvester.go:207-223 | whatever crashed before, the order Stop, Closed, Wait, final flush by itself leaves nothing held, in flight or running when Run returns; every delivery since the last crash had exactly one Ack, Nak or Term, every older one too unless a crash lost it |
| HarvesterTheorems.ReportedOncePerBatch | internal/harvester/harvester.go:380-396 | OnRow is given a request once for each committed batch told of it, so more than once iff two were |
| UsageDrift.RowGainsItsUsage | internal/harvester/budget.go:272-286 | between two baselines a live row, based or not, gains exactly the tokens it was fed, whatever the ledger's other actors do |
| UsageDrift.DriftIsReportedLessStored | cmd/inferbus/roles.go:323-328 | with OnRow wired to AddUsage, a row based on the sink's total stands, after any stretch of the harvester with crashes and failures, above the sink's total by the tokens reported less those stored for the row's month |
| UsageDrift.FaithfulUsageIsExact | internal/harvester/harvester.go:348-355 | with no crash, no commit reported as a failure and no request stored before, OnRow is given exactly the rows the sink stored, in order, and the row is the sink's total again |
| HarvesterTheorems.StepKeepsInv | internal/harvester/harvester.go:249-417 | every step keeps conservation, the single flush, the reports and the store |
| Harvester.Harvester.HandleMsg | internal/harvester/harvester.go:249-270 | terminates what does not decode or has no request id, holds the rest, and starts a flush at the batch size |
| Harvester.HandleMsgIsSteps | internal/harvester/harvester.go:249-322 | a delivery and the flush it may start are steps of the state machine that leave what HandleMsg leaves |
| Harvester.Harvester.TriggerFlush | internal/harvester/harvester.go:299-322 | hands the held batch over iff there is one and no flush runs |
| Harvester.Harvester.DoFlush | internal/harvester/harvester.go:356-396 | inserts the first occurrences, then acks every message in order if the insert succeeded and naks every one if not, and reports each first occurrence once |
| Harvester.Harvester.DedupBatch | internal/harvester/harvester.go:357-371 | finds the first occurrence of every request id |
| Harvester.Harvester.FinalFlush | internal/harvester/harvester.go:328-346 | flushes whatever is still held |
| Harvester.Harvester.HeartbeatHeld | internal/harvester/harvester.go:405-417 | marks held and in-flight messages in progress |
| Harvester.ShutdownReturns | internal/harvester/harvester.go:207-223 | a shutdown with no flush running comes to its end, whatever the last insert does, having acked or nak'd all that was held |
| Harvester.FlushStepsAreDoFlush | internal/harvester/harvester.go:356-396 | the steps of one flush, taken to the end, are the whole of DoFlush |
| Sink.FakeSink.InsertBatch | internal/harvester/sink.go:144-176 | a committed batch adds the first row of each request id the sink does not have |
| Sink.FakeSink.QueryMonthToDate | internal/harvester/sink.go:193-212 | sums the rows of the key and month, or reports the injected error |
| Sink.InsertedProperties | internal/harvester/sink.go:144-176 | a committed batch adds exactly its ids, keeps what was there and never makes two rows of one id |
| Sink.MonthToDateCountsEachRequestOnce | internal/harvester/sink.go:193-212 | with one row per request the sum is the total over distinct requests |
| Sink.MonthToDateIsPromptAndCompletion | internal/harvester/sink.go:44-47 | the month's total is the key's prompt tokens of the month plus its completion tokens; cached tokens do not count |
| Sink.DedupKeepsFirsts | internal/harvester/harvester.go:357-371 | of several rows of one request the first is kept |
| Sink.DedupKeepsIds | internal/harvester/harvester.go:357-371 | deduplication keeps every id and only given rows, once each |
| Slugs.ComputeSlug | internal/wire/subjects.go:31-46 | the loop with its dash flag computes Slug |
| Slugs.SlugYieldsSlug | internal/wire/subjects.go:31-46 | a slug uses only a-z, 0-9 and dash, with no leading, trailing or doubled dash |
| Slugs.SlugFixpointIff | internal/wire/subjects.go:31-46 | Slug leaves a string as it is iff it already is a slug |
| Slugs.SlugIdempotent | internal/wire/subjects.go:31-46 | Slug is idempotent |
| Slugs.SlugKeepsLetters | internal/wire/subjects.go:31-46 | the letters and digits of the input survive, in order, each capital in lower case, and nothing else does |
| Slugs.SlugJoins | internal/wire/subjects.go:31-46 | between two letters or digits of the input the slug has one dash iff anything else stood there |
| AliasIds.SplitInvertsIff | internal/controlplane/kvproj.go:144-170 | for exactly which pairs the parser undoes the printer |
| AliasIds.PrintInvertsSplit | internal/controlplane/admin.go:303-308 | whatever the parser accepts, the printer prints back |
| AliasIds.ValidAliasRoundTrip | internal/controlplane/admin.go:303-308 | every pair the admin API admits survives printing and parsing |
| AliasIds.StreamIdsInjective | internal/controlplane/admin.go:303-308 | two admitted pairs never share a stream |
| AliasIds.BucketKeysInjective | internal/controlplane/kvproj.go:243-243 | two scopes without a slash never share a bucket key |
| AliasIds.PairsApart | internal/controlplane/kvproj.go:238-243 | admitted pairs that differ share neither stream nor bucket key |
| AliasIds.SlugsHaveNoSeparators | internal/controlplane/admin.go:261-263 | a valid slug has no underscore and no slash and is not the global scope |
| Base62.Encode | internal/controlplane/keys.go:54-74 | the digits decode to the big-endian value of the bytes, and up to 32 bytes give exactly 43 characters |
| Base62.Divide | internal/controlplane/keys.go:55-63 | the division loop yields the base-62 digits, least significant first, with no leading zero |
| Base62.ReverseInPlace | internal/controlplane/keys.go:70-72 | the swap loop reverses the array |
| Base62.KeyLenIsTight | internal/controlplane/keys.go:46-48 | 42 digits are too few for 32 bytes and 43 are enough |
| Base62.StringOrderIsNumericOrder | internal/controlplane/keys.go:17-17 | the order of two keys of equal length as strings is the order of their values |
| Base62.AlphabetIsNumerals | internal/controlplane/keys.go:17-17 | the alphabet is 0-9, A-Z, a-z, in that order |
| Base62.RenderInjective | internal/controlplane/keys.go:54-74 | two digit strings render alike only if they are the same |
| Orgs.OwnerCount | internal/controlplane/org/decider.go:240-248 | counts the members whose role is owner |
| ApiKeys.DecisionsTakeEffect | internal/controlplane/apikey/decider.go:54-176 | a key command is refused for exactly the reason its state gives, and otherwise its events, evolved, make the key what the command asks and change nothing else |
| Orgs.DecisionsTakeEffect | internal/controlplane/org/decider.go:61-216 | the same for orgs: exactly an unknown org, a taken id, an invalid role, the last owner or an unknown project is refused, and an accepted command changes what it names and nothing else |
| Aliases.DecisionsTakeEffect | internal/controlplane/alias/decider.go:130-201 | the same for aliases: exactly a target without a slug or a reserved parameter is refused |
| Aliases.ReservedIff | internal/controlplane/alias/decider.go:87-95 | a parameter is reserved iff it is model or stream in any case, the long s included |
| CommandAnswers.AnswersAreTrue | internal/controlplane/admin.go:269-275 | however requests interleave: an accepted command has taken its stream from a state that allows it to what it asks, a refused one met a state that forbids it, and one that gives up saw two foreign appends to its stream |
| CommandAnswers.RetriesOnce | internal/controlplane/admin.go:269-275 | a request that loses its first race is reloaded and tried again, once, and one that meets no race is answered at once |
| Orgs.DecideKeepsOrgOk | internal/controlplane/org/decider.go:61-216 | whatever the decider emits leaves an org with an owner, only the three roles, and projects that only appear or get archived |
| AliasProjector.AliasLifeCycle | internal/controlplane/alias/decider.go:130-201 | over any decided log an alias is live iff the last thing that happened to it is a set, and then exactly as that set gave it; only a live alias is ever deleted |
| KeysRestart.KeyLifeCycle | internal/controlplane/apikey/decider.go:54-176 | a key keeps its org, project and name for ever, and once disabled never changes again |
| KeysProjector.KeyEventDecided | internal/controlplane/apikey/decider.go:57-104 | in a decided log a key is created once and under its own id, nothing follows its disable, and rotations and disables name its current hash |
| KeyFacts.KeyShowsItsEvents | internal/controlplane/apikey/decider.go:140-176 | a key exists iff it was created, and its state is, field by field, what its creation and its last limits, allowlist and rotation events gave it; it is disabled iff an event disabled it |
| KeyFacts.FoldShowsEvents | internal/controlplane/kvproj.go:365-494 | KEYS as the fold has one entry for every created and not disabled key, under the last hash it was given, and each entry shows its key's events field by field |
| AliasProjector.FoldShowsEvents | internal/controlplane/kvproj.go:238-273 | ALIASES as the fold has an entry under scope/name iff the pair's last event is a set, with the target and parameters of that set |
| AliasProjector.StoredAliasesAreWellFormed | internal/controlplane/alias/decider.go:130-170 | no stored alias is live with a target that has no slug or with a reserved parameter |
| EventLog.DecideIsSingle | internal/controlplane/admin.go:269-275 | no command appends more than one event |
| EventLog.SameVersionSameEmission | internal/controlplane/admin.go:269-275 | an unchanged stream version means an unchanged decision |
| Commands.ConcurrentCommandsGiveValidLogs | internal/controlplane/admin.go:269-275 | however requests load, conflict, reload and retry once, the log is one the deciders could have produced in order, with fresh hashes |
| Commands.OrgsKeepAnOwner | internal/controlplane/org/decider.go:61-170 | under any interleaving of commands an org with an id has an owner and only valid roles |
| Commands.ProjectsAreCreatedOnce | internal/controlplane/org/decider.go:61-170 | no project id is created twice in an org |
| Commands.ArchivedStaysArchived | internal/controlplane/org/decider.go:61-216 | an archived project is archived in every longer log |
| KeysProjector.ReplayFromStart | internal/controlplane/kvproj.go:365-494 | replaying any decided log from its start, whatever the map was warmed up with, never stops and leaves one entry per live key under its current hash, with its current fields |
| KeysProjector.EventKeepsImage | internal/controlplane/kvproj.go:365-494 | one event applied to the fold of what precedes it gives the fold that includes it, if the map knows the key's hash |
| KeysProjector.ImageUnique | internal/controlplane/kvproj.go:365-494 | at most one bucket is the fold of a log |
| KeysProjector.HashesApart | internal/controlplane/keys.go:27-39 | distinct keys have distinct, non-empty current hashes |
| KeysRestart.RestartReachesFoldIff | internal/controlplane/kvproj.go:598-619 | a restart at marker m on the fold of m events reaches the fold of the log iff no allowlist or limits event after m, of a key that existed at m, comes before that key's first rotation after m; otherwise the projector stops |
| KeysRestart.RestartThenLiveIff | internal/controlplane/kvproj.go:610-667 | with the log still growing, only such an event among those the warm-up saw matters |
| KeysRestart.RedoIsNoOpIff | internal/controlplane/kvproj.go:400-433 | redoing an event after some of its writes is a no-op, except after a rotation has deleted the old entry, where it stops |
| KeysRestart.CrashRecoversIff | internal/controlplane/kvproj.go:338-433 | a process that died among an event's writes recovers on restart iff neither of the two happens |
| KeysRestart.RestartCanWedge | internal/controlplane/kvproj.go:16-23 | a concrete three-event log on which a restart stops |
| KeysRestart.WarmUpKnowsFinalHash | internal/controlplane/kvproj.go:301-330 | the warm-up ends with every key's final hash |
| KeysRuns.MarkerNeverAhead | internal/controlplane/kvproj.go:338-363 | at every moment of every run, with duplicates, failing calls and crashes, KEYS is the fold of what the marker covers plus the first few writes of the next key event |
| KeysRuns.RunInv | internal/controlplane/kvproj.go:338-433 | the projector's invariant holds after every sequence of actions |
| KeysRuns.PlanIsDue | internal/controlplane/kvproj.go:365-494 | after a crash an event is planned again exactly as due, or refused; never differently |
| KeysRuns.BatchIsRun | internal/controlplane/kvproj.go:338-363 | after any run a whole call of apply is a continuation of the run |
| AliasProjector.MarkerNeverAhead | internal/controlplane/kvproj.go:211-236 | at every moment of every run ALIASES is exactly the fold of what the marker covers, or of that and the next alias event |
| AliasProjector.CaughtUpIsFold | internal/controlplane/kvproj.go:211-273 | with the marker at the end of the log, ALIASES is the log's fold |
| AliasProjector.OnlyCallsFail | internal/controlplane/kvproj.go:238-273 | delivering an event of a decided log never stops the projector |
| AliasProjector.RedoIsNoOp | internal/controlplane/kvproj.go:238-273 | redoing an alias event changes nothing |
| AliasProjector.EventKeepsImage | internal/controlplane/kvproj.go:238-273 | one alias event turns the fold before it into the fold after it |
| AliasProjector.BatchIsRun | internal/controlplane/kvproj.go:211-236 | after any run a whole call of apply is a continuation of the run |
| AliasProjector.DownIsResting | internal/controlplane/kvproj.go:601-616 | wherever a run goes down, what it leaves is what a start on the log so far can find |
| KvProjectors.AliasProjector.Apply | internal/controlplane/kvproj.go:211-236 | the loop with its skip, sticky failure and marker computes ApplyBatch |
| KvProjectors.AliasProjector.ApplyOne | internal/controlplane/kvproj.go:238-273 | makes the one call the event asks for, under the parsed key |
| KvProjectors.KeysProjector.Apply | internal/controlplane/kvproj.go:338-363 | the loop with its skip, sticky failure and marker computes ApplyBatch |
| KvProjectors.KeysProjector.ApplyOne | internal/controlplane/kvproj.go:365-494 | each arm reads, writes and deletes in the source's order, and learns a hash only once every call succeeded |
| KvProjectors.KeysProjector.Warmup | internal/controlplane/kvproj.go:301-330 | the write-free replay learns every hash of the log, in order |
| KvProjectors.KeysProjector.DeleteEntry | internal/controlplane/kvproj.go:522-530 | skips an empty hash, else deletes |
| KeysRecovery.StartRecoversIff | internal/controlplane/kvproj.go:598-619 | from whatever any run leaves when it goes down, a start with no failing call reaches the fold iff no change after the marker was overtaken and the next event is no rotation whose old entry is gone |
| KeysRecovery.WedgedForGood | internal/controlplane/kvproj.go:338-363 | where a start would stop, no restarts, redeliveries or growth of the log ever bring the marker past that event |
| KeysRecovery.DownIsResting | internal/controlplane/kvproj.go:598-610 | wherever a run goes down, what it leaves is what a start on the log so far can find |
| KvStart.StartKeys | internal/controlplane/kvproj.go:598-619 | marker, warm-up and replay on the real objects, from what a run leaves when it goes down or from a bucket emptied without its marker: with no failing call it succeeds iff no way of stopping applies; success means KEYS is the fold, in the second case iff every key from before the marker is disabled |
| KeysEmptied.EmptiedStartIff | internal/controlplane/kvproj.go:598-619 | on a bucket emptied without its marker a start stops iff an event after the marker changes or rotates a key from before it; otherwise KEYS holds exactly the live keys created since, the fold iff every older key is disabled |
| AliasesEmptied.YoungIsFoldIff | internal/controlplane/kvproj.go:614-616 | on a bucket emptied without its marker a start leaves the live aliases with an event since the marker, the fold iff every alias live there has had one |
| KvStart.ReplayAliases | internal/controlplane/kvproj.go:614-616 | the alias replay fails only if a call does; from what a run leaves when it goes down it ends with ALIASES the fold, from a bucket emptied without its marker with the aliases that have had an event since |
| KvStart.ResyncKV | internal/controlplane/kvproj.go:714-750 | from any contents and any markers, also those of a resync cut short, emptying, resetting and replaying ends with both buckets the fold; it fails only if one of its calls does, the re-creations and marker resets included |
| ReadModel.MemReadStore.UpsertOrg | internal/controlplane/readmodel.go:157-162 | changes exactly the one row the call names, in orgs |
| ReadModel.MemReadStore.UpsertMember | internal/controlplane/readmodel.go:164-174 | changes exactly the one row the call names, in members, creating the org's inner map if needed |
| ReadModel.MemReadStore.RemoveMember | internal/controlplane/readmodel.go:176-181 | changes exactly the one row the call names, in members |
| ReadModel.MemReadStore.UpsertProject | internal/controlplane/readmodel.go:183-193 | changes exactly the one row the call names, in projects |
| ReadModel.MemReadStore.UpsertKey | internal/controlplane/readmodel.go:195-206 | changes exactly the one row the call names, in keys |
| ReadModel.MemReadStore.UpsertAlias | internal/controlplane/readmodel.go:208-214 | changes exactly the one row the call names, in aliases under scope/name |
| ReadModel.MemReadStore.DeleteAlias | internal/controlplane/readmodel.go:216-221 | changes exactly the one row the call names, in aliases |
| ReadModel.ApplyOpAt | internal/controlplane/readmodel.go:157-221 | a store call changes its own cell and no other, alias keys that could run together included |
| SqlProjector.CaughtUpIsFold | internal/controlplane/readmodel.go:660-821 | once the log is applied to its end, all five tables are its fold and hold nothing else, for any growth between a load and its write, any crash and any restart |
| SqlTables.KeysShow | internal/controlplane/readmodel.go:769-791 | on the caught-up tables there is a key row iff the key was created; org, project and name are as created, allowlist and limits as last given, and disabled is set iff the log disables it |
| SqlTables.OrgsShow | internal/controlplane/readmodel.go:696-722 | on the caught-up tables each org shows its id and its name |
| SqlTables.MembersShow | internal/controlplane/readmodel.go:696-722 | on the caught-up tables exactly the members of an org are shown, each under its role |
| SqlTables.ProjectsShow | internal/controlplane/readmodel.go:723-758 | on the caught-up tables exactly the projects of an org are shown, with name and archived mark |
| SqlTables.AliasesShow | internal/controlplane/readmodel.go:793-821 | on the caught-up tables an alias is shown iff its last event is a set, with what that set gave it |
| SqlProjector.CatchesUp | internal/controlplane/readmodel.go:660-694 | from wherever a run stands, up and not failed, it goes on to the end of the log if its calls go well |
| SqlProjector.CellsReachTheMarker | internal/controlplane/readmodel.go:660-821 | at every moment each cell is the fold of some prefix that includes all the marker covers |
| SqlProjector.EventOps | internal/controlplane/readmodel.go:696-821 | whatever later head its load sees, a decided event is never refused, its writes fit some prefix past it, and it changes nothing they leave out |
| SqlProjector.ArchiveOps | internal/controlplane/readmodel.go:724-750 | the archived project is still in the org loaded at the head, under the same name |
| SqlProjector.OnlyCallsFail | internal/controlplane/readmodel.go:660-694 | only a failed call or load stops the projector |
| SqlProjector.RedoIsNoOp | internal/controlplane/readmodel.go:660-694 | redoing an event after a crash among its calls, its load seeing any later head, leaves what doing it once at that head leaves |
| SqlProjector.BatchIsRun | internal/controlplane/readmodel.go:660-694 | after any run a whole call of apply, the log growing between its loads, is a continuation of the run |
| SqlProjectorObject.SqlProjector.Apply | internal/controlplane/readmodel.go:660-694 | the loop with its skip, sticky failure and marker computes ApplyBatch |
| SqlProjectorObject.SqlProjector.ApplyOrgEvent | internal/controlplane/readmodel.go:696-758 | each arm makes the source's calls in order, an archive after a load at the head |
| SqlProjectorObject.SqlProjector.ApplyApiKeyEvent | internal/controlplane/readmodel.go:769-791 | upserts the row of the key as loaded at the head |
| SqlProjectorObject.SqlProjector.ApplyAliasEvent | internal/controlplane/readmodel.go:793-821 | upserts or deletes under the parsed scope and name |
| Kviam.ServedSnapshotsAreWhole | internal/gateway/kviam.go:467-498 | once ready, what is served is the whole content of the bucket at one past instant, across watcher deaths, reconnects and re-created buckets |
| Kviam.SnapshotsNeverGoBack | internal/gateway/kviam.go:346-404 | the instant served never moves back and readiness is never withdrawn |
| Kviam.CaughtUpServesThePresent | internal/gateway/kviam.go:467-498 | a client that has read all a living watcher has serves the present content |
| Kviam.KvWatch.ConsumeKV | internal/gateway/kviam.go:467-498 | the loop computes the fold of one connection's updates: a snapshot at nil and after every later update |
| Kviam.KvWatch.WatchKV | internal/gateway/kviam.go:346-404 | connection attempts one after the other, each from an empty working map |
| Kviam.ReconnectServesThePresent | internal/gateway/kviam.go:346-404 | from wherever a run stands, a client that reconnects and reads on while nothing changes is ready and serves the present content |
| Kviam.RunIsAttempts | internal/gateway/kviam.go:346-404 | every run of bucket, watcher and client is a sequence of connection attempts and updates read, and leaves what watchKV and consumeKV leave after them |
| Kviam.ReadyServesBoth | internal/gateway/kviam.go:264-285 | once the gateway reports ready both snapshots are whole past contents of their buckets, and stay so whatever happens to either; it does report ready once both watches are |
| EndToEnd.KVIAM.ApplyKeys | internal/gateway/kviam.go:221-233 | turns every row of a KEYS snapshot that decodes into a config with its id, name, org, project and allowlist, and skips the others |
| EndToEnd.KVIAM.AuthenticateKey | internal/gateway/kviam.go:296-301 | looks the hash up in the snapshot |
| EndToEnd.KVIAM.ResolveAlias | internal/gateway/kviam.go:309-318 | org scope first, then the global one |
| EndToEnd.KVIAM.BudgetExceeded | internal/gateway/kviam.go:328-332 | absent means not exceeded |
| EndToEnd.AuthenticatesLiveKeysOnly | internal/gateway/kviam.go:296-301 | on the fold of a log a hash authenticates iff it is the current hash of a live key, and as a config with that key's id, org, project, name and allowlist |
| EndToEnd.BucketNeverInvents | internal/controlplane/kvproj.go:365-494 | at every instant of every run KEYS holds a hash only if some prefix of the log makes it a live key's current one, with that key's fields |
| EndToEnd.GatewayNeverInvents | internal/gateway/kviam.go:296-301 | so no snapshot the gateway serves accepts any other credential, or one as another key, org or project |
| EndToEnd.CommandsDecideAuthentication | internal/controlplane/admin.go:269-275 | from concurrent commands through a replay to authentication: exactly the live keys get in |
| EndToEnd.ResolvesOrgThenGlobal | internal/gateway/kviam.go:309-318 | on the fold of a log ResolveAlias answers the org's own live alias, else the global one, else nothing, for every requested name |
| EndToEnd.KeyOrgsAreSlugs | internal/controlplane/admin.go:833-898 | the org of every key is a slug, so the last row covers every authenticated request |
| EndToEnd.BlocksWhenBudgetIsUsedUp | internal/gateway/kviam.go:328-332 | for a live id with nothing left to publish the gateway blocks iff usage has reached the budget |
| EndToEnd.LedgerFollowsLog | internal/harvester/budget.go:637-721 | with KEYS the fold of a log, a key has a live budget row iff it was created, is not disabled and was last given a positive budget, and with that budget |
| EndToEnd.QuietSpellBlocksExactly | internal/gateway/kviam.go:328-332 | after a quiet spell it blocks exactly the ids KEYS budgets whose sink total has reached the budget |
| Worker.Attempt.Handle | internal/worker/worker.go:156-329 | publishes the numbered frames of the call, acks and meters, for every outcome of the engine, its panics, and a panic of handle itself at any point after it |
| Worker.ExactlyOnceIff | internal/worker/worker.go:227-236 | one ack iff handle does not panic after its ack, one usage event iff not after that event, well-framed frames iff not after a terminal frame; so exactly one of each on every outcome of the engine, panics included |
| Worker.FramesAreWellFramed | internal/worker/worker.go:208-217 | frames are numbered 0, 1, 2, ... with a terminal one only last, and their chunks are the engine's |
| Worker.FramesMatchUsage | internal/worker/worker.go:244-329 | a done or result frame goes out iff the engine finished, an error frame iff the usage event says error, with the same code |
| Worker.UsageIsBilled | internal/worker/worker.go:166-329 | the event bills the engine's usage unless the request was expired or panicked; it is estimated, says ok, canceled or error, and names a code exactly as the end of the call demands |
| Worker.PanicIsTold | internal/worker/worker.go:227-236 | a panic of handle itself is told by a last error frame and a last usage event, after what was sent before it |
| Relay.Listener.Next | internal/relay/relay.go:86-120 | hands on the next number or reports a gap, an unreadable frame, the end of its context, a worker's error, or EOF after a terminal frame |
| Relay.Response.RenderStream | internal/gateway/gateway.go:429-496 | the SSE loop computes StreamOut |
| Relay.Response.RenderResult | internal/gateway/gateway.go:498-527 | the result loop computes ResultOut |
| FrameTheorems.LossNeverCorrupts | internal/gateway/gateway.go:429-496 | with frames dropped but not reordered the client is shown a prefix of the chunks sent, and a [DONE] with no error event only after all of them |
| FrameTheorems.CleanStreamIsTheEnginesAnswer | internal/worker/worker.go:286-329 | from engine to client: a prefix of the engine's chunks, and a clean end only if the engine finished and all were shown |
| FrameTheorems.ResultIsTheEnginesAnswer | internal/gateway/gateway.go:498-527 | a result body is the engine's response to that very call |
| FrameAnswers.ResultAnswer | internal/gateway/gateway.go:498-527 | with nothing lost and a client that waits, a non-streaming request gets exactly one body: the engine's response iff it finished, its error with status, code and message iff it failed or panicked, a time-out iff it was stopped |
| FrameAnswers.StreamAnswer | internal/gateway/gateway.go:429-496 | with nothing lost and a client that waits, a stream shows all the engine's chunks, then [DONE] alone iff the engine finished, its error iff it failed or panicked, and neither iff it was stopped |
| FrameAnswers.ResultOutcome | internal/gateway/gateway.go:498-527 | whatever the channel holds, what a waiting client gets is decided by the last frame accepted |
| FrameAnswers.StreamOutcome | internal/gateway/gateway.go:429-496 | whatever the channel holds, a waiting client is shown every accepted chunk and then the end the last accepted frame calls for |
| FrameAnswers.StreamCutOff | internal/gateway/gateway.go:429-496 | a client whose context ends is shown the chunks accepted so far and no [DONE] |
| FrameTheorems.AttemptsAreNeverSpliced | internal/relay/relay.go:100-120 | for any lossless interleaving of any number of attempts, what Next accepts is the beginning of one of them |
| FrameTheorems.RedeliveryNeverMixesAnswers | internal/relay/relay.go:86-120 | so a redelivered request shows chunks of one attempt only, and all of them if it ends cleanly |
| FrameTheorems.OneAttemptIff | internal/relay/relay.go:100-107 | whatever is lost of however many attempts, all accepted frames are of one attempt iff no frame k of another attempt arrives right after frames 0 to k-1 of the first with none of them terminal |
| FrameTheorems.UnsplicedShowsOneAnswer | internal/gateway/gateway.go:429-496 | without that, the client is shown chunks of one attempt only, from its first on, and a clean end only after all of them |
| FrameTheorems.SpliceNeedsLoss | internal/relay/relay.go:100-107 | at such a splice the second attempt has lost its first k frames for good |
| FrameTheorems.LastingClientSeesAll | internal/gateway/gateway.go:429-496 | a client whose context lasts is shown every accepted chunk, so at a splice those of both attempts |
| FrameTheorems.LossAndRedeliveryCanSplice | internal/relay/relay.go:100-107 | two runs of the worker that meet the condition, under a clean [DONE] |
| FrameTheorems.StreamIsFaithful | internal/gateway/gateway.go:429-496 | whatever the channel holds, the stream shows a prefix of the accepted chunks and ends cleanly only after all of them and a done or result frame |

## Left out

- Global positions are dense in the model (index plus one); gaps in the store's numbering only widen the skips already modelled.
- Machine integers are unbounded: a row's `uint64` version does not wrap and 64-bit token sums do not overflow.
- Encoding and decoding of events, KV values and frames, and the failures of decoding an event or a KV value; frames that do not unmarshal are modelled.
- Events, commands and operations of a kind the code does not know.
- External deletion of BUDGETS, and the ledger's re-creation of it, which does not re-dirty clean rows.
- The connection to JetStream, Postgres and HTTP; retry delays, log lines, metrics and the budget gauge; `KVIAM`'s identity probe appears as a watcher that may be dropped at any time.
- `KEYS` rows carry no disabled flag: the projector deletes the row of a disabled key.
- Rows stored before key entries had an id: the backfill is modelled, the older rows are not.
- Usage rows keep only what the accounting reads: request, key, month and token counts.
- The list queries of the read store, which filter and sort what the tables hold, and its Postgres implementation.
- Sharing of Go maps and slices between commands, events and states, which the source prevents by copying.
- `alias.StreamID`, which only its own test calls.
- Admission control, role checks, parameter merging, advertising, engine adapters and provider names in usage events.
- Worker.Attempt.Handle: a panic before the recovery is installed, or in it, ends the process and is not modelled; what the client sees of frames published after a terminal one is not followed further.
- KvStart.StartKeys: a start on an emptied bucket is followed to its end, a crash in the middle of that start is not; a resync repairs both.
- Kviam.ReadyServesBoth: the end of the gateway's context, after which it never reports ready, is not an action.
- Harvester.Harvester.HeartbeatHeld: the calls on one list are modelled as one step, and the return of Run when its consumer is closed from outside as a crash.
- Relay.Listener.Next: the 256-frame channel is modelled by the frames that reach it, dropped ones being absent.
