# A model of NodePassDash's control plane

NodePassDash keeps a fleet of tunnel endpoints in view: it listens to their event streams, rolls their traffic
counters up by the hour, deletes old history, keeps caches beside its database and edits its own `.env` file. This
project models the parts of it that are algorithms or protocols and proves what they are for. Nothing here is
executed; the claims are those the Dafny verifier accepts. `dafny verify dfyconfig.toml` checks the whole project.

## What is modelled

* **Traffic roll-up** (`TrafficModel`, `TrafficProofs`, `TrafficRefresh`, `TrafficGaps`, `TrafficService`,
  `TrafficDashboard`). Tables are maps and sequences of rows, time is counted in minutes, hours are numbered.
  `TrafficService.Service` runs the roll-up the way the program does; its methods are proved against functions on
  tables, and the theorems are about those functions. A run is any sequence of arriving snapshots and committed
  refreshes of single hours, each with the tunnels of its moment; a refresh that fails is rolled back and does not
  appear. For every instance and every run the theorems say up to which hour its rows are those of one pass over the
  final history (`Upto`), that its traffic is conserved up to there across hour boundaries, counter resets and quiet
  hours, and exactly what is lost when hours are skipped. The dashboard row and today's total are tied to the last
  values and to the traffic of the instances.
* **History worker** (`HistoryWorker`). Data points become windows of twelve, windows become rows, rows are written
  in batches. Joined with the roll-up it gives an end-to-end statement about counters that never reset.
* **Tunnel URLs** (`QueryEscape`, `AddressPort`, `TunnelUrl`, `TunnelUrlProofs`, `TunnelUrlReading`,
  `TunnelUrlPrinting`, `TunnelUrlCodec`). The parser and the printer as functions and, in `TunnelUrlCodec`, as the
  loops of the source. What the parser makes of any URL is stated on its text, what the printer makes of any tunnel on
  its fields. The round trip is characterised: it holds exactly for well-formed tunnels, a condition on the fields
  alone. Percent-encoding follows section 2.1 of RFC 3986 with a space written as `+`.
* **History cleanup** (`CleanupTable`, `CleanupService`, `CleanupLifecycle`). One table in batches, one run over five
  tables, and the lifecycle of any number of services as a state machine whose steps are the lock-held sections.
* **Event-stream connections** (`SseManager`). Heap objects for contexts, connections and the manager. Stale
  connection objects held by the daemon are real references, and `AnyRun` interleaves every kind of step, the
  daemon's look at an object and the two halves of its reconnect being steps of their own.
* **Service references** (`ServicesCascade`). Cleaning by instance and by endpoint, and relinking.
* **Env file** (`EnvFile`, `EnvStore`). The merge on lines, the escaping of values, and the file as bytes.
* **Endpoint caches** (`EndpointShared`, `EndpointPersist`, `EndpointService`). Two caches and the invariants that tie
  them to the endpoints table. `EndpointPersist` takes the write-back apart into the steps between which the cache may
  change.

Where the program can fail, the outcome is an input: `commits` and `attempts` in the roll-up, a plan of outcomes in the
history worker, and elsewhere a flag `calm` under which no statement fails and nobody cancels.

`Options` and `Text` hold the option type and the few string operations of Go's library that the program relies on.

## Where the code does not do what one would expect

Each of these is stated as an exact condition, and the named lemma or method shows a case; the model keeps the code
as it is.

* A refresh leaves summary rows that have lost their source in place, with their total and no increment
  (`RefreshEqualsScratchIff`, `LeftoverRow`; `DeletedTunnelLeavesItsRow`).
* When no refresh succeeds for more than two hours, or the program is down for more than a day, the hours that are
  never refreshed are not charged, and the first snapshot after them is charged against what the hour before it
  happens to hold. The traffic of an instance is conserved across such a gap if and only if the loss is zero, a value
  of its snapshots and of the rows before the gap (`GapConservesIff`, `GapLosesExactly`; `GapLosesTraffic` has a
  reset in the gap, receives 120 and stores none of it).
* A tunnel survives the URL round trip only if it is well-formed; a password with an `@` is cut
  (`RoundTripIff`; `PasswordWithAtIsCut`).
* A bare IPv6 address among the further targets gains a colon on every pass (`EntryFixedIff`; `BareIPv6Grows`).
* Cleaning an endpoint in bulk differs from cleaning its instances one by one when a row refers to the endpoint
  without naming an instance (`BulkEqualsOneByOneIff`; `UnnamedInstanceIsMissed`). The comment on the bulk cleanup
  says that both follow the same rule. The events of `internal/sse/service.go:590-767` and the relink set both names,
  as does `internal/services/service.go:511-686`, so such a row needs an event whose instance id is empty
  (`UpsertKeepsWellLinkedIff`); `internal/servicecache/shared.go:448-494` writes cached names back, can so
  restore a reference that was cleaned, and is not one of the runs here.
* Writing and reading the env file loses a blank last line (`RereadIff`; `BlankLastLineIsLost`).
* A saved configuration does not come back at the next start where a value was empty but the default is not, or
  where the environment already sets the variable to something else (`SaveThenLoadIff`; `EmptySslModeIsLost`,
  `ExportedDriverWins`).
* Connecting an endpoint that has an entry keeps the entry's address: the entry has the given one if and only if it
  is new or had it before (`ConnectEndpoint`).
* A manual disconnect lasts until a caller connects again if and only if the daemon has not already looked at the
  flag of one of the endpoint's objects, or has been stopped (`DisconnectLasts`; `DisconnectDuringReconnect`).
* An `update` request that changes only the API path leaves the API client's cache stale, and so do a row that
  cannot be read again after an update and a deletion whose commit fails (`UpdateEndpoint`, `DeleteEndpoint`;
  `PathAloneGoesStale`).
* A change of an endpoint that falls between its statement in a write-back and the removal of the marks is not
  written, and its mark is removed (`RowAgreesIff`, `WriteBackAgreesIff`; `ChangeIsLost`).
* The delete loop of the cleanup never stops for a batch size that is not positive (`LoopStopsIffPositive`).

## Model

| member | source | states |
|---|---|---|
| TrafficProofs.WindowProjectsToStream | internal/dashboard/traffic_service.go:233-254 | the hour's ordered, deduplicated snapshots of all instances contain, for each instance, exactly its stream of last values per minute |
| TrafficProofs.StoredTotalEndsStream | internal/dashboard/traffic_service.go:61-117 | the total that the upsert stores (newest row of the hour) is the last element of the stream that the increments fold |
| TrafficProofs.ChargedTelescopes | internal/dashboard/traffic_service.go:256-282 | the charge over any stream, with or without a baseline, is last minus first plus the sum of all pre-reset values, for each counter |
| TrafficProofs.ChargedSplit | internal/dashboard/traffic_service.go:256-282 | charging two streams one after the other, the second from the baseline the first leaves, charges their concatenation |
| TrafficProofs.RefreshedRow | internal/dashboard/traffic_service.go:51-196 | exactly which row an hour holds for each instance after its refresh: with snapshots, carried forward, left over, or none |
| TrafficProofs.BatchFollowsStream | internal/dashboard/traffic_service.go:119-182 | after an ascending pass the stored total of a present instance is the last value seen so far and its increments are the charge of the whole stream |
| TrafficProofs.HourlyIncrementsConserveTraffic | internal/dashboard/traffic_service.go:119-300 | over any range of hours the increments of each counter sum to last minus first plus the pre-reset values of the instance's deduplicated stream, wherever hour boundaries and quiet hours fall |
| TrafficRefresh.RefreshIsIdempotent | internal/dashboard/traffic_service.go:51-196 | refreshing an hour twice changes nothing |
| TrafficRefresh.RefreshEqualsScratchIff | internal/dashboard/traffic_service.go:61-182 | refreshing over existing rows equals computing the hour from scratch if and only if every existing row still has a snapshot or a previous row to carry forward |
| TrafficRefresh.LeftoverRow | internal/dashboard/traffic_service.go:61-182 | a row that has lost its source keeps its total and is charged nothing, where a computation from scratch has no row |
| TrafficRefresh.DeletedTunnelLeavesItsRow | internal/dashboard/traffic_service.go:137-164 | a concrete case: the row carried forward for a quiet tunnel stays when the tunnel is then deleted, where a computation from scratch has none |
| TrafficRefresh.BatchUnaffected | internal/dashboard/traffic_service.go:51-196 | snapshots of other instances, or for later hours, do not change the row of an instance |
| TrafficRefresh.AggregateRepairsHour | internal/dashboard/traffic_service.go:51-196 | one refresh makes an instance's row of the hour right if its row of the hour before is, whatever rows other instances have, leaves no row without a source, and touches no other hour |
| TrafficRefresh.ArrivalKeepsUpToDate | internal/dashboard/traffic_service.go:61-117 | snapshots that arrive leave an instance right up to the hour before the earliest of its own, and no later row without a source |
| TrafficRefresh.RefreshKeepsUpToDate | internal/dashboard/traffic_service.go:51-196 | a refresh of any hour keeps an instance right as far as it was, and one of the next hour takes it an hour further |
| TrafficRefresh.OnlineEqualsBatch | internal/dashboard/traffic_service.go:41-196 | over any sequence of arriving snapshots and committed refreshes, of whichever hours and in whatever order, the rows of an instance are, up to the hour `Upto`, those of one ascending pass over the final history; other tunnels may come and go, and rows of other instances may be anything |
| TrafficRefresh.RoundReachesIff | internal/dashboard/traffic_service.go:41-47 | a round of the scheduler brings an instance up to the current hour if and only if both refreshes succeed and it was right up to two hours before, or it was there already |
| TrafficRefresh.TimelyReaches | internal/dashboard/scheduler.go:111-146 | on the undisturbed schedule, every round succeeding within two hours of the one before, every instance is right up to the hour of the last round |
| TrafficRefresh.RunShowsHours | internal/dashboard/traffic_service.go:304-352 | over any run every hour that was ever refreshed has the dashboard row that its summary rows call for; `TrafficDashboard.DashboardAddsTotals` says which one that is |
| TrafficRefresh.OnlineTablesEqualBatch | internal/dashboard/traffic_service.go:41-196 | where no row lacks a source, both tables are those of one ascending pass over the final history |
| TrafficDashboard.DashboardAddsTotals | internal/dashboard/traffic_service.go:304-352 | after any run that refreshes an hour the dashboard has a row for it if and only if some instance has one; each of its columns is the sum of that column of the totals over the instances in any order, and its count is their number |
| TrafficDashboard.DashboardAddsLastValues | internal/dashboard/traffic_service.go:41-352 | where every instance is right, that sum is the sum of the last values that were ever recorded of the instances, and the count is the number of those of which any is known |
| TrafficRefresh.InitializeEstablishes | internal/dashboard/traffic_service.go:356-391 | a start-up pass without failures brings every instance whose own rows have sources up to date |
| TrafficRefresh.ValidDashboardRows | internal/dashboard/traffic_service.go:393-406 | exactly the dashboard rows that count no instance are removed at start-up |
| TrafficRefresh.RunConservesTraffic | internal/dashboard/traffic_service.go:41-300 | after any run, up to the hour `Upto`, the stored increments of a present instance sum to last minus first plus pre-reset values over all that was ever recorded |
| TrafficGaps.GapLosesExactly | internal/dashboard/traffic_service.go:41-300 | when hours are skipped, what the tables hold for an instance over the whole range and what was lost make up the charge of everything recorded; the loss is the charge of the skipped hours from the last total, less what was stored for them, and the difference in the charge of the first later snapshot |
| TrafficGaps.GapConservesIff | internal/dashboard/traffic_service.go:41-300 | across skipped hours a counter of a present instance is conserved, as without them, if and only if its part of that loss is zero |
| TrafficGaps.GapLosesTraffic | internal/dashboard/traffic_service.go:41-300 | a concrete table and run: refreshes fail for hours in which the counter is reset, and nothing is stored of 120 received |
| TrafficService.SumIsAnyOrder | internal/dashboard/traffic_service.go:307-334 | the sums of the dashboard row do not depend on the order of the rows |
| TrafficService.IncrementsNonNegative | internal/dashboard/traffic_service.go:256-282 | with non-negative counters no increment is negative, resets included |
| TrafficService.RunIsNonNegative | internal/dashboard/traffic_service.go:256-282 | with non-negative counters no row of an hour that a run has refreshed has a negative increment, whatever rows there were before |
| TrafficService.TodayDropsNothing | internal/dashboard/traffic_service.go:547-565 | over non-negative counters the `> 0` filter of today's total drops nothing in hours that a run has refreshed, leftover rows included |
| TrafficService.TodaySinceStartUp | internal/dashboard/traffic_service.go:356-391 | the same from start-up on, whatever tables were found, if each hour of today was refreshed by the start-up pass or after it |
| TrafficDashboard.TodayAddsUp | internal/dashboard/traffic_service.go:547-565 | where no increment is negative, each column of today's total is the sum over any list of the instances of what is stored for them |
| TrafficDashboard.TodayConservesTraffic | internal/dashboard/traffic_service.go:41-565 | after any run that leaves every listed instance right up to the current hour, today's total is what the instances received since the day began: last minus first plus pre-reset values, counter by counter |
| TrafficService.Service.ChargeSnapshots | internal/dashboard/traffic_service.go:256-282 | the loop over all snapshots charges every instance what its own stream is charged |
| TrafficService.Service.CalculateIncrements | internal/dashboard/traffic_service.go:199-300 | every row of the hour gets the charge of its own stream from the previous hour's total; an empty hour is left alone |
| TrafficService.Service.AggregateDashboardTraffic | internal/dashboard/traffic_service.go:304-352 | the dashboard row of the hour becomes the one that its summary rows call for, as `TrafficDashboard.DashboardAddsTotals` characterises it, and goes when there are none |
| TrafficService.Service.RefreshHour | internal/dashboard/traffic_service.go:58-195 | upsert, carry-forward, increments and dashboard together are one refresh of the hour |
| TrafficService.Service.AggregateTrafficDataForHour | internal/dashboard/traffic_service.go:51-196 | the transaction is one refresh of the hour if it commits, and leaves both tables as they were if not |
| TrafficService.Service.AggregateTrafficData | internal/dashboard/traffic_service.go:41-47 | the previous hour is refreshed before the current one, which is not tried if the previous one fails: the tables are those of the run of the refreshes that were committed |
| TrafficService.Service.InitializeRecentTrafficData | internal/dashboard/traffic_service.go:356-391 | after the invalid dashboard rows are removed, the tables are those of the run that refreshes the 24 hours before now in ascending order, without exactly those hours of which no attempt of up to three committed after others that found the database locked; without that removal nothing happens |
| HistoryWorker.DataKeyInjective | internal/sse/history_worker.go:413-415 | no two (endpoint, instance) pairs share a buffer key, whatever the instance id contains |
| HistoryWorker.WindowsPartitionInput | internal/sse/history_worker.go:206-283 | for every instance, its windows followed by its pending buffer are its input in order; every window has twelve points and fewer than twelve are pending |
| HistoryWorker.PersistedRowsAscend | internal/sse/history_worker.go:286-311 | for counters that never reset, the rows of an instance ascend in time and value |
| HistoryWorker.WindowsToIncrements | internal/sse/history_worker.go:206-311 | for counters that never reset, the hourly increments sum to the last persisted value minus the one kept for the first recorded minute, however the windows fall |
| HistoryWorker.EveryTwelfthPoint | internal/sse/history_worker.go:206-311 | whatever arrives in between, the rows written for an instance repeat every twelfth point of its own input, at the minute of that point |
| HistoryWorker.Worker.ProcessMonitoringData | internal/sse/history_worker.go:206-257 | one data point moves the buffers as the specification of one step says |
| HistoryWorker.Worker.TriggerBatchWrite | internal/sse/history_worker.go:261-283 | a full buffer is handed over whole and emptied; a shorter one is left alone |
| HistoryWorker.Worker.ProcessStream | internal/sse/history_worker.go:135-149 | the processing loop over any input keeps every instance's windows and buffer a partition of its input |
| HistoryWorker.Worker.Enqueue | internal/sse/history_worker.go:190-196 | a row joins the batch, and a full batch is written or, when the write fails, dropped whole |
| HistoryWorker.BatchesAreIndependent | internal/sse/history_worker.go:151-201 | from a moment at which no row is waiting, what was written stays and what follows is decided as by a writer that has just started |
| HistoryWorker.BatchOutcome | internal/sse/history_worker.go:190-196 | up to 199 rows wait; the 200th decides for all of them |
| HistoryWorker.Worker.WriteQueue | internal/sse/history_worker.go:151-201 | for any sequence of rows, ticks and outcomes of writes, the table receives once and in order exactly the rows whose batch was written, all of them when no write fails |
| QueryEscape.UnescapeEscape | internal/nodepass/parse.go:765-798 | decoding undoes encoding for every string of bytes |
| QueryEscape.EscapeFixedIff | internal/nodepass/parse.go:765-798 | encoding leaves a string alone if and only if it holds nothing but letters, digits and the four unreserved marks |
| QueryEscape.UnescapeIs | internal/nodepass/parse.go:174-241 | decoding from the front: `%` with two hexadecimal digits of either case is a byte, `+` a space, anything else itself, and a `%` without two digits an error |
| AddressPort.PrintThenParse | internal/nodepass/parse.go:647-705 | a printed address and port is parsed back if and only if the pair is in one of the printable classes |
| AddressPort.ParseSpaced | internal/nodepass/parse.go:647-705 | white space around an address and port does not matter |
| AddressPort.ParseBracketed | internal/nodepass/parse.go:647-705 | a bracketed address is read up to its bracket, with what follows a colon right after it as the port |
| AddressPort.ParseNamed | internal/nodepass/parse.go:647-705 | with one colon, the address is before it and the port after it |
| AddressPort.ParseBare | internal/nodepass/parse.go:647-705 | without a colon, a 64-bit number is a port and anything else an address |
| AddressPort.ParseSeveralColons | internal/nodepass/parse.go:647-705 | with several colons and no brackets, the last group is the port if and only if it is a number from 1 to 65535 |
| AddressPort.EntryFixedIff | internal/nodepass/parse.go:117-127 | a further target is stored as it was written if and only if it is canonical |
| AddressPort.BareIPv6Grows | internal/nodepass/parse.go:117-127 | a bare IPv6 entry without a port gains exactly one colon on each of any number of passes |
| TunnelUrlProofs.ReadPrintedParams | internal/nodepass/parse.go:131-263 | each query parameter is read back from its own pair, whatever is printed around it |
| TunnelUrlProofs.QueryReadBackIff | internal/nodepass/parse.go:752-841 | the printed query is read back if and only if every value is one its parameter accepts |
| TunnelUrlProofs.BodyHasAtIff | internal/nodepass/parse.go:720-841 | what is printed after the password holds an `@` if and only if one of the printed fields does |
| TunnelUrlProofs.SeparableRoundTripIff | internal/nodepass/parse.go:44-296 | with no separator inside a field, the round trip holds if and only if addresses are printable and enumerations known |
| TunnelUrlProofs.RoundTripIff | internal/nodepass/parse.go:44-296 | parsing a built URL gives the tunnel back, normalised, if and only if it is well-formed: a known mode, no separator in a field, printable addresses, known enumerations |
| TunnelUrlProofs.PrintedInjective | internal/nodepass/parse.go:709-844 | two well-formed tunnels with the same URL agree on every serialised field |
| TunnelUrlProofs.PasswordWithAtIsCut | internal/nodepass/parse.go:75-81 | a concrete tunnel that does not survive: its password holds an `@` |
| TunnelUrlReading.UrlIsRead | internal/nodepass/parse.go:44-129 | for any URL in parts, mode, password, tunnel, target and further targets are those parts, read one by one; an unknown scheme or an empty password counts as none |
| TunnelUrlReading.HasParts | internal/nodepass/parse.go:61-90 | every URL has such parts, each separator being the first of its kind from where it counts |
| TunnelUrlReading.ParametersAreRead | internal/nodepass/parse.go:131-263 | every parameter of any URL is what the last value of its name in the query says, or the last acceptable one |
| TunnelUrlReading.ListenTypeIsRead | internal/nodepass/parse.go:267-293 | a transport is disabled if and only if its flag is there with 1 as its last value; without flags there is no listen type, and otherwise it names the transports that are left |
| TunnelUrlPrinting.PrintedParts | internal/nodepass/parse.go:709-844 | the printed URL of any tunnel has the scheme, password, tunnel, targets and, in a fixed order, the parameters that the fields call for, and nothing else |
| TunnelUrlCodec.ReadQueryLoop | internal/nodepass/parse.go:131-263 | the loop over the pairs is the fold that the proofs are about, malformed pairs skipped |
| TunnelUrlCodec.ParseTunnelURL | internal/nodepass/parse.go:44-296 | the step-by-step parser computes the function that `RoundTripIff` is about |
| TunnelUrlCodec.BuildTunnelURLs | internal/nodepass/parse.go:709-844 | the step-by-step printer computes the printed form, and what it returns is parsed back if and only if the tunnel is well-formed |
| CleanupTable.OldestPrecedes | internal/dashboard/cleanup_service.go:313-320 | what the DELETE selects has the size of the limit or of the rest, and precedes everything it leaves in (time, id) order |
| CleanupTable.PrefixIsOldest | internal/dashboard/cleanup_service.go:313-320 | a set that precedes the rest is determined by its size |
| CleanupTable.BatchExtendsPrefix | internal/dashboard/cleanup_service.go:322-338 | a batch taken after a prefix has gone extends the prefix |
| CleanupTable.CleanedLeavesTheRetained | internal/dashboard/cleanup_service.go:303-352 | after success exactly the expired rows are gone, and DeletedCount is their number |
| CleanupTable.CleanedIsPrefix | internal/dashboard/cleanup_service.go:303-352 | however the loop ended, no row went while an older expired one stayed, and no row that was not expired went |
| CleanupTable.LoopStopsIffPositive | internal/dashboard/cleanup_service.go:322-351 | for every table the loop ever stops if and only if the batch size, any integer, is positive |
| CleanupTable.OddSizes | internal/dashboard/cleanup_service.go:303-350 | with a batch size of zero no round removes anything, and with a negative one a round removes everything that is expired |
| CleanupTable.PositiveStops | internal/dashboard/cleanup_service.go:322-351 | it then stops within the number of expired rows over the batch size, and its last batch is all that is left |
| CleanupService.NormalizeFixedIff | internal/dashboard/cleanup_service.go:96-122 | normalisation leaves a configuration alone if and only if all its numbers are positive; its result is positive, and a valid configuration is a fixed point |
| CleanupService.NormalizedFields | internal/dashboard/cleanup_service.go:48-136 | every number that is not positive becomes its default, and nothing else changes |
| CleanupService.BatchMakesProgress | internal/dashboard/cleanup_service.go:322-338 | one batch keeps the loop's invariant while rows arrive, and a short batch means that nothing expired is left |
| CleanupService.CleanupService.UpdateConfig | internal/dashboard/cleanup_service.go:420-437 | an update is accepted if and only if it is valid, otherwise nothing changes; the batch size stays positive |
| CleanupService.CleanupService.CleanTable | internal/dashboard/cleanup_service.go:303-352 | the loop terminates; stopped anywhere, it has deleted a prefix of the expired rows and counted it; on success all of them |
| CleanupService.CleanupService.ExecuteFullCleanup | internal/dashboard/cleanup_service.go:243-288 | the five tables are cleaned in their order; errors are empty if and only if every table was reached and has none, only an interruption ends the run early, every failed table is reported, and a run in which nothing fails has no error |
| CleanupService.RunOverTables | internal/dashboard/cleanup_service.go:243-350 | each table that was reached, under its own name and number of days, keeps every row that is not older, and if it has no error keeps no older one; the count is the number of rows that are gone; an absent table is no error |
| CleanupService.CleanRunLeavesTheRetained | internal/dashboard/cleanup_service.go:243-288 | a table whose result has no error holds no expired row and every other one |
| CleanupService.RecoveryWindowIsProtected | internal/dashboard/cleanup_config_store.go:67-91 | under a valid configuration no run, however it ends, takes a minute row younger than two days or an hourly row younger than eight |
| CleanupLifecycle.StepKeepsInv | internal/dashboard/cleanup_service.go:145-241 | every step keeps the lock, the wait groups, the status flags and closedness consistent |
| CleanupLifecycle.AtMostOneRuns | internal/dashboard/cleanup_service.go:217-241 | on every interleaving over any number of services at most one run executes, and it holds the process-wide lock |
| CleanupLifecycle.RefusedIffExecuting | internal/dashboard/cleanup_service.go:217-225 | in every reachable state a registered run that tries the lock executes and holds it if and only if no run executes, in whichever service; otherwise it is on its way out, the executing run keeps the lock, and no other run moves |
| CleanupLifecycle.RegisteredCanRun | internal/dashboard/cleanup_service.go:206-240 | from every reachable state in which nothing executes, any registered run can be brought to run |
| CleanupLifecycle.RegistersIff | internal/dashboard/cleanup_service.go:206-215 | a new run joins its service's wait group if and only if the service is not cancelled, and leaves no trace otherwise |
| CleanupLifecycle.CancelledIffClosed | internal/dashboard/cleanup_service.go:447-455 | a service is cancelled if and only if somebody has called Close |
| CleanupLifecycle.UndisturbedRun | internal/dashboard/cleanup_service.go:181-240 | a run that nothing comes between is marked while it runs and leaves nothing but its finished self |
| CleanupLifecycle.AbandonedRun | internal/dashboard/cleanup_service.go:145-180 | a run that checks its context, and only such a run, can give up before it has the lock, and then has never executed |
| CleanupLifecycle.WaitGroupIsUnfinishedRuns | internal/dashboard/cleanup_service.go:206-215 | each wait-group count is the number of that service's registered unfinished runs, and IsRunning is true exactly while one of them runs |
| CleanupLifecycle.CloseIsFinal | internal/dashboard/cleanup_service.go:447-452 | after Close has returned no run of the service is active, and whatever happens later none is ever registered |
| CleanupLifecycle.CloseCanReturn | internal/dashboard/cleanup_service.go:447-452 | from every reachable state a pending Close can be brought to return by at most five steps per unfinished run of its service |
| SseManager.Manager.ConnectEndpoint | internal/sse/manager.go:283-329 | the old listener is cancelled and one new one listens, unless the daemon is stopped; the entry has the given address if and only if it is new or had it before |
| SseManager.Manager.DisconnectEndpoint | internal/sse/manager.go:332-352 | the entry goes, its listener is cancelled, no other listener is touched |
| SseManager.Manager.CancelOld | internal/sse/manager.go:195-201 | the first half of a reconnect, on a stale object too, only cancels that object's context |
| SseManager.Manager.CheckConnection | internal/sse/manager.go:159-205 | when nothing comes between, the daemon reconnects if and only if the object was not disconnected by hand, is not connected and its last attempt is 30 seconds old; otherwise nothing changes |
| SseManager.Manager.CheckAfterDisconnect | internal/sse/manager.go:159-205 | after a manual disconnect the daemon leaves the endpoint alone at whichever of its objects it looks |
| SseManager.DaemonStep | internal/sse/manager.go:144-205 | what each step of the daemon does to the objects it holds: listing, looking at the flag, giving up, cancelling and reconnecting |
| SseManager.Manager.CloseConnections | internal/sse/manager.go:501-509 | every listener context is cancelled, every entry marked and the map emptied |
| SseManager.Manager.Close | internal/sse/manager.go:495-510 | afterwards nothing listens and the daemon's context is cancelled |
| SseManager.AtMostOneListener | internal/sse/manager.go:283-352 | in every reachable state an endpoint has at most one uncancelled listener context: the current one of its map entry, which is not marked as disconnected |
| SseManager.NoEntryNoListener | internal/sse/manager.go:332-352 | an endpoint without an entry has no listener, and all its objects are marked as disconnected by hand |
| SseManager.AnyStep | internal/sse/manager.go:149-510 | one step of a caller, a listener, the daemon or Close keeps the invariant; unless a caller connects the endpoint, a disconnected endpoint none of whose objects has passed the daemon's look stays so |
| SseManager.DisconnectLasts | internal/sse/manager.go:332-352 | over any number of steps without a caller's connect, a disconnected endpoint has no entry if none of its objects had passed the daemon's look at the flag, and no listener if none had or the daemon is stopped |
| SseManager.DisconnectDuringReconnect | internal/sse/manager.go:164-205 | conversely any object that had passed can bring the endpoint back: it then listens if and only if the daemon has not been stopped |
| SseManager.ListenerReports | internal/sse/manager.go:375-452 | a listener sets the connected flag; only a failure, not a cancelled context, and only without a manual disconnect resets the time of the last attempt |
| SseManager.AnyRun | internal/sse/manager.go:149-510 | every interleaving of callers, listeners, the daemon's steps on stale objects and Close keeps the invariant; once the daemon is stopped nothing ever listens |
| ServicesCascade.RowAfterInstances | internal/models/services_cascade.go:26-62 | what is left of a row after cleaning a list of instances depends on which were cleaned, not on when |
| ServicesCascade.OrderDoesNotMatter | internal/models/services_cascade.go:13-62 | cleaning the same instances in any order, or twice, leaves the same table |
| ServicesCascade.BulkEqualsOneByOneIff | internal/models/services_cascade.go:77-123 | cleaning an endpoint equals cleaning all its instances, in any order, if and only if every row that refers to it names an instance of it |
| ServicesCascade.UnnamedInstanceIsMissed | internal/models/services_cascade.go:89-121 | a concrete row that the two ways of cleaning treat differently |
| ServicesCascade.CleanedRow | internal/models/services_cascade.go:13-62 | what is left of a row after cleaning an instance: the matching sides are emptied, the others kept, and the row goes if and only if no side is left that names an instance |
| ServicesCascade.CleanedRowOfEndpoint | internal/models/services_cascade.go:77-123 | the same for cleaning an endpoint |
| ServicesCascade.RelinkedRow | internal/models/services_cascade.go:131-160 | a relink writes the tunnel's side of a row that is there, and nothing else |
| ServicesCascade.UpsertedRow | internal/sse/service.go:590-767 | an event creates the row if need be and writes the tunnel's side for the known types, unless it is skipped |
| ServicesCascade.RunsKeepWellLinked | internal/models/services_cascade.go:13-160 | over any run of relinks, cleanups and harmless events every row keeps its sides paired and at least one instance |
| ServicesCascade.UpsertKeepsWellLinkedIff | internal/sse/service.go:590-767 | an event keeps every row well linked if and only if it is skipped, names its instance and a known peer type, or finds the row and an unknown type |
| ServicesCascade.BulkEqualsOneByOneAfterRuns | internal/models/services_cascade.go:77-123 | after any such run the two ways of cleaning an endpoint agree |
| ServicesCascade.InstanceIsGone | internal/models/services_cascade.go:26-62 | no reference to a cleaned instance remains, and rows without one are untouched |
| ServicesCascade.EndpointIsGone | internal/models/services_cascade.go:89-121 | no reference to a cleaned endpoint remains, and rows without one are untouched |
| ServicesCascade.CleanUndoesRelinkIff | internal/models/services_cascade.go:131-160 | cleaning an instance undoes the relink that introduced it if and only if the side was empty and the other side holds an instance |
| ServicesCascade.Store.CleanupServicesForInstance | internal/models/services_cascade.go:13-71 | the loop over the selected rows leaves the specified table, and the tunnel no longer names its service |
| ServicesCascade.Store.CleanupServicesForEndpoint | internal/models/services_cascade.go:77-123 | the loop over the selected rows leaves the specified table |
| ServicesCascade.Store.RelinkServiceForInstance | internal/models/services_cascade.go:131-160 | one side of an existing row is replaced; a missing row or an empty argument changes nothing |
| ServicesCascade.Store.UpsertService | internal/sse/service.go:590-767 | the side of the tunnel is set in the row, which is created if need be; a server of a client-only type is refused |
| EnvFile.TwoReplacementsAreOneEscape | internal/db/config.go:491-496 | the two successive replacements are one simultaneous escape |
| EnvFile.ReadFormattedValue | internal/db/config.go:490-510 | every value, quoted or not, is read back from its formatted form |
| EnvFile.QuotedIff | internal/db/config.go:490-510 | a value stands in quotes if and only if it holds a control character, a space, `#`, a quote or a backslash |
| EnvFile.FormatLineInjective | internal/db/config.go:490-498 | lines of one key are equal only for equal values |
| EnvFile.ParseFormatted | internal/db/config.go:514-533 | the key of a formatted line is the key it was formatted with |
| EnvFile.AssignedKey | internal/db/config.go:514-533 | the key of a line is what stands before the first `=`, without the white space around it and without `export` |
| EnvFile.NoAssignment | internal/db/config.go:514-533 | blank lines, comments and lines without a key assign nothing |
| EnvFile.MergedKeepsUserLines | internal/db/config.go:437-466 | unmanaged, comment and blank lines stay verbatim and in order; a heading is added if and only if some key had to be appended |
| EnvFile.AppendedUnderHeading | internal/db/config.go:458-475 | appended keys stand under the heading, after a blank line if and only if the file was there and does not end in one |
| EnvFile.MergedValues | internal/db/config.go:437-475 | every managed key has its new line, or none if its value is empty; every other key keeps its line |
| EnvFile.MergedReadsBack | internal/db/config.go:437-498 | every managed value can be read back from the merged lines |
| EnvFile.MergeIsIdempotent | internal/db/config.go:437-475 | saving the same settings again changes nothing |
| EnvFile.LastSaveWins | internal/db/config.go:437-475 | saving one configuration and then another assigns every key as saving the second alone does |
| EnvStore.RereadIff | internal/db/config.go:421-485 | written lines are read back unchanged if and only if the last one is not an extra blank line |
| EnvStore.BlankLastLineIsLost | internal/db/config.go:421-485 | a concrete case of a blank last line that is lost |
| EnvStore.SavedReadsBack | internal/db/config.go:406-485 | from the bytes of the saved file every managed key reads as configured and every other key as before |
| EnvStore.SavedSettings | internal/db/config.go:358-393 | from the bytes of the saved file each of the ten settings reads as the configuration says for its driver, and the others are not there |
| EnvStore.LineEndings | internal/db/config.go:421-429 | a line ends at a line feed or the end of the file, and loses one carriage return before it |
| EnvStore.LoadedFields | internal/db/config.go:147-213 | a field is replaced by its variable if that is set, the port only by a number |
| EnvStore.SwitchingDriverCleans | internal/db/config.go:358-385 | after a change of driver no setting of the other driver is left |
| EnvStore.SaveThenLoadIff | internal/db/config.go:147-213 | saving a configuration and starting again in any environment gives it back if and only if, for every key the driver uses, the environment leads to the saved value, or does not set the key and the value is empty only where the default is; the file is read with `ReadSetting`, not with the start-up library |
| EnvStore.EmptySslModeIsLost | internal/db/config.go:147-213 | a concrete case: an empty SSL mode comes back as the default |
| EnvStore.ExportedDriverWins | cmd/server/main.go:35-53 | a concrete case: an exported driver is not overridden by the saved one |
| EnvStore.LoadFromEnv | internal/db/config.go:147-213 | the step-by-step loading of the ten managed settings computes the function that `SaveThenLoadIff` is about |
| EnvStore.SaveToEnvFile | internal/db/config.go:406-485 | the loops over lines, missing keys and output compute the merged content |
| EndpointShared.WriteAgreesIff | internal/endpointcache/shared.go:391-431 | writing the known columns makes row and cache agree if and only if the cache does not lack what the row has |
| EndpointShared.Sorted | internal/endpointcache/shared.go:92-111 | the sorted list is a permutation of the map's endpoints, newest first |
| EndpointShared.ValidMeans | internal/endpointcache/shared.go:92-111 | the invariant in plain terms: the sorted list is the list, newest first and without repetition, and every column of the row of a clean endpoint is what the cache holds |
| EndpointShared.Endpoint.SetText | internal/endpointcache/shared.go:312-336 | exactly the named text field changes |
| EndpointShared.EndpointShared.UpdateInfo | internal/endpointcache/shared.go:273-299 | the reported columns change, everything else stays, and the endpoint becomes dirty |
| EndpointShared.EndpointShared.UpdateField | internal/endpointcache/shared.go:302-345 | one address field and the time change and the endpoint becomes dirty, except for an unknown field |
| EndpointShared.EndpointShared.WriteDirty | internal/endpointcache/shared.go:383-439 | the transaction writes the known columns of the dirty, still listed endpoints and nothing else |
| EndpointShared.EndpointShared.PersistIfNeeded | internal/endpointcache/shared.go:358-452 | undisturbed, when due and successful every listed row agrees and nothing is dirty; when it fails the database and the dirty set are unchanged |
| EndpointShared.EndpointShared.ForcePersist | internal/endpointcache/shared.go:454-465 | success leaves full agreement, failure keeps the dirty set; the interval is restored |
| EndpointShared.EndpointShared.Reload | internal/endpointcache/shared.go:546-563 | the list is the table again, in new objects, with nothing dirty |
| EndpointShared.EndpointShared.Get | internal/endpointcache/shared.go:116-127 | a caller receives a fresh copy with the same contents |
| EndpointShared.AnyRun | internal/endpointcache/shared.go:190-563 | after any sequence of operations of the cache, failed ones included, every listed endpoint that is not dirty agrees with its row and the sorted list is in order |
| EndpointPersist.RowAgreesIff | internal/endpointcache/shared.go:358-452 | over any interleaving of changes and steps of the write-back, a row agrees with the cache if and only if a transaction that committed wrote it after the last change, and the endpoint is marked if and only if it changed after the marks were last removed |
| EndpointPersist.WriteBackAgreesIff | internal/endpointcache/shared.go:365-446 | a write-back that succeeds leaves no mark, and the row of an endpoint it wrote agrees with the cache if and only if the endpoint did not change between its statement and the removal of the marks |
| EndpointPersist.UnwrittenAgreesIff | internal/endpointcache/shared.go:365-446 | an endpoint that the write-back did not write agrees afterwards if and only if it did before and did not change during it |
| EndpointPersist.MarkedIsWritten | internal/endpointcache/shared.go:365-431 | every endpoint that is marked when a write-back begins is written by it, if it commits |
| EndpointPersist.ChangeIsLost | internal/endpointcache/shared.go:383-446 | a concrete run after which a change is neither written nor marked |
| EndpointService.RowArrives | internal/nodepass/cache.go:83-92 | a row and its entry added together keep the cache in step |
| EndpointService.RowLeaves | internal/nodepass/cache.go:109-114 | a row and its entry removed together keep the cache in step |
| EndpointService.RowChangesAloneIff | internal/endpoint/service.go:239-242 | a row that changes while the cache does not leaves it in step if and only if its URL with path and its key are the same |
| EndpointService.ClientSeesTheTable | internal/nodepass/cache.go:72-80 | a cache in step answers for exactly the endpoints of the table, with their URL, path and key |
| EndpointService.InStepIffSame | internal/nodepass/cache.go:28-57 | a cache in step with one table is in step with another if and only if ids, URLs with path and keys are the same |
| EndpointService.UpdatedInStepIff | internal/endpoint/service.go:185-330 | a row written and reported as the request says leaves the cache in step if and only if the request is not an update of the path alone; unreported, if and only if the cache shows no change |
| EndpointService.UpdateKeepsUnique | internal/endpoint/service.go:170-300 | no request that is not refused makes two endpoints share a name or a URL |
| EndpointService.RepeatedRequest | internal/endpoint/service.go:160-338 | a request that was accepted is accepted again and then changes nothing |
| EndpointService.PathAloneGoesStale | internal/endpoint/service.go:239-242 | a concrete update that leaves the cache stale |
| EndpointService.Cache.InitializeCache | internal/nodepass/cache.go:28-57 | the cache is in step with the table afterwards, whatever it held |
| EndpointService.Service.CreateEndpoint | internal/endpoint/service.go:114-157 | a duplicate name or URL is refused, in that order, and otherwise the row is added; the cache stays in step |
| EndpointService.NewFields | internal/endpoint/service.go:160-338 | the row after an accepted request, field by field: what is requested and not empty replaces, the rest stays, and the host name follows the URL where none is given |
| EndpointService.Refused | internal/endpoint/service.go:160-338 | when a request is refused, and why |
| EndpointService.Service.CollectUpdates | internal/endpoint/service.go:185-330 | the collected columns give the row of `NewFields`, and the cache is reported to exactly when the specification says |
| EndpointService.Service.UpdateEndpoint | internal/endpoint/service.go:160-338 | a request is refused for its reason, in order, or changes the named fields of its row and no other row; the cache's entry shows the new row if and only if the request reports it; a cache in step stays so if and only if the request was not an update of the path alone, or, when the row cannot be read again, the cache shows no change |
| EndpointService.AnyRun | internal/endpoint/service.go:114-406 | over any run, failures included, the cache shows the rows it was last told, so it is in step if and only if the table has the same ids and no row has since changed in what the cache shows |
| EndpointService.Service.DeleteEndpoint | internal/endpoint/service.go:341-406 | row and entry go together, a missing endpoint is an error; a cache in step stays so if and only if the commit does not fail |

## Left out

- HTTP handlers, routing, authentication, the setup wizard's pages, self-update and the web interface: plumbing.
- GORM and the SQL dialects: statements are modelled by their effect on rows; locking retries, pools and migrations are not.
- Widths of integers: counters and sums are unbounded, except where a 64-bit parse decides something (ports and numbers in a URL).
- Text: a character is a byte; white space and case folding beyond ASCII are not modelled.
- TrafficRefresh.OnlineEqualsBatch: the instance's own tunnel is there in every refresh of the run or in none; a run in which it is created or deleted is several runs.
- TrafficGaps.GapConservesIff: the tables hold no row of the instance at or after the first hour that is refreshed again, and no snapshot of it arrives for an earlier hour after that.
- TrafficService.Service.InitializeRecentTrafficData: sums are never NULL in the model, so the removal of invalid dashboard rows is that of rows without instances.
- HistoryWorker.WindowsToIncrements: the goroutines that aggregate windows are taken to enqueue in the order of the windows, and drops from a full queue are left out.
- Averages of ping, pool, connections and speed in a history row: floating point, and not used by the roll-up.
- ParseTunnelConfig and BuildTunnelConfigURL: they rest on the URL parser of Go's library and split on every colon, so there is no clean inverse.
- Command line, status and times of a tunnel: ParseTunnelURL sets them without reading the URL.
- CleanupService.CleanupService.CleanTable: rows that arrive in the table meanwhile are modelled if they are not expired; writes to the other tables during its loop are not.
- Texts of errors, durations and the times of the last run in the cleanup status, and panics inside a run.
- SseManager: the health check, which only counts, the network, timers, event decoding, the event queue and the endpoint status written to the database; nothing is claimed about the connected flag following the live listener.
- EndpointShared.EndpointShared.PersistIfNeeded: one undisturbed call; the interleaving with other operations is in `EndpointPersist`.
- EndpointShared.AnyRun: the table changes only by persisting. The program also writes `status` and `updated_at` (`internal/sse/manager.go:549-612`, `internal/endpoint/service.go:228`) and the reported columns (`internal/endpoint/service.go:437-513`) past this cache, so that a clean entry can differ from its row.
- EndpointPersist.RowAgreesIff: one write-back at a time, no endpoint is added or removed meanwhile, other writers of the table are left out, and of two changes of an endpoint the later one has the later time.
- EndpointShared.EndpointShared.UpdateField: names, addresses and keys are never written back by the cache and are outside its invariant.
- EndpointService.Service.DeleteEndpoint: the rows of other tables that a deletion removes are not part of this module.
- EndpointService.Service.CreateEndpoint: what is extracted from a URL as host name is a parameter.
- ServicesCascade: a database error in the middle of a loop, which the caller's transaction rolls back.
- EnvStore.LoadFromEnv: pool sizes, lifetimes, log level and deduplication, which are never saved; the flags that follow are not defined by the program.
- EnvStore.SavedReadsBack: values hold no line break, and no line of the file ends in two carriage returns.
- EnvStore: directories, permissions, read and write errors and the length limit of the line scanner; the reader of the program's start-up library is replaced by the unescaping defined here.
- The per-tunnel memory state, the service cache, metrics aggregation and the older cleanup strategies.
