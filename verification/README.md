# Verification of the SRX detection probe

A Dafny model of the parts of the probe whose correctness is a matter of protocol, bounded state or text formats, with
proofs of what they promise. `dafny verify dfyconfig.toml` checks everything. Automatic induction is switched off on
every lemma, so that no proof rests on a hypothesis it does not write out.

| component | files | source |
|---|---|---|
| run log, replay and streaming | `RunLog`, `Stream`, `StreamSafety`, `DashboardRun` | `srx-dashboard/dashboard.py` |
| admission, workers and stop | `Admission`, `AdmissionSafety`, `DashboardAdmission`, `WholeDashboard` | `srx-dashboard/dashboard.py` |
| summary printer and parser | `Summary`, `SummaryRows`, `Batch`, `BatchRoundTrip`, `BatchCounts`, `SuiteRun`, `SuiteAccounting` | `deploy/srx_workload.py`, `srx-dashboard/dashboard.py` |
| syslog records and collector | `StructuredData`, `SyslogParser`, `SyslogRoundTrip`, `SyslogGrammar`, `SyslogLegacy`, `Collector` | `collectors/syslog_collector.py` |
| correlation | `Matching`, `Correlator` | `validation/correlator.py` |
| ping buckets and charts | `PingStore`, `PingSeries` | `pingapp/server.py` |
| crawler | `Crawler`, `CrawlerPages`, `CrawlBody` | `generators/web_crawler.py` |
| flood pacing | `Pacing` | `generators/load_gen.py` |
| shared vocabulary | `Common`, `Text`, `Sorting`, `Telemetry` | |

Where the source updates an object in place, the model has a class whose methods are proved equal to functions on
values; the properties are then proved of those functions, over every input and every run.

How the main models are built:

* **Streaming** is a state machine (`Stream.Apply`). Everything under the run's lock is one step: emit, finish, connect,
  unsubscribe. A handler's dequeue, the network and the browser take steps of their own, and clients disconnect and
  reconnect at will with the last id they saw. The eviction drain runs under the lock while the reader's `get` does not
  take it; the dequeues that fall into a drain are given by an arbitrary schedule per client (`Stream.Grabbed`).
* **Admission** is a state machine (`Admission.Apply`) over every run ever admitted, with the registry as an ordered
  dictionary, the worker's steps, and stops from outside; `log` records what happened in which order. Reading the runs'
  `ended` one after the other is one step: it only ever turns from unset to set, so a late reading rejects at most.
* **The whole dashboard** (`WholeDashboard.Apply`) is the admission machine with one streaming machine per run. Each
  stream in it does what the streaming machine does by itself, so that every result about streams holds there too.
* **Syslog records** are read by scanners that follow the regular expressions; `StructuredData.ElementIff` says exactly
  which texts the element scanner accepts. Decoding, line splitting, upper-casing, integer conversion and address syntax
  are parameters.
* **Times** are reals or tenths of a second; sequences are unbounded unless the source bounds them.

What the proofs found:

* If a reader dequeues between two gets of the eviction drain, it loses events that it never sees again before a reset,
  although ids still increase: `StreamSafety.InterleavedDrainLosesAnEvent` has the run, `StreamSafety.EvictionGaplessIff`
  the exact condition, and `StreamSafety.MissedForGood` shows that reconnecting does not repair it.
* A printed summary is not read back for every single-line error: trailing white space, a carriage return, or a row of
  more than 4096 characters spoils it. `BatchRoundTrip.SpoiledTable` has three such errors and
  `BatchRoundTrip.TableRoundTripIff` the exact condition.
* The recorded counts are not always those of the return codes, although the heading is retained: an error whose second
  line looks like a row is counted as another workload, and one whose first line is blank loses its workload's row.
  `BatchCounts.MiscountedSuites` has one of each, `BatchCounts.CountsIff` the exact condition, and
  `BatchCounts.UnmarkedIsCounted` says that errors of any length and number of lines are harmless as long as their first
  line is visible, without the heading, and `: rc=` is nowhere in them.
* A retry key identifies a run only while the run is registered: `AdmissionSafety.LateRetryStartsAnew` has a schedule
  after which a retry starts a second run, and `AdmissionSafety.RetryReturnsSameRun` is an equivalence.
* The bounded event buffer can change a correlation: `Correlator.EvictionChangesAnswer` has a history, and
  `Correlator.SnapshotSufficesIff` says, from the snapshot alone, exactly when it cannot. Events are taken in order of
  arrival there, with receive times that do not run backwards.

## Model

| member | source | states |
|---|---|---|
| RunLog.PublishBounds | srx-dashboard/dashboard.py:241-257 | publishing keeps the ring the tail of the history, keeps every queue within its size and adds no subscriber |
| RunLog.EmitKeepsValid | srx-dashboard/dashboard.py:259-265 | emitting to an unfinished run appends exactly one numbered log event with the clipped text and keeps lines and events the bounded tails of all emitted; emitting to a finished run changes nothing |
| RunLog.FinishKeepsValid | srx-dashboard/dashboard.py:267-281 | the first finish appends one end event, which tells the code, the passed, failed and total counts of a saved batch and nothing of any other, and the failure to save one; finishing again changes nothing |
| RunLog.SubscribeKeepsValid | srx-dashboard/dashboard.py:283-299 | an admitted reader gets an empty queue of its own, subscribed iff the run is unfinished; every other queue, the subscriber limit and all of the log's invariant stay |
| RunLog.UnsubscribeKeepsValid | srx-dashboard/dashboard.py:301-303 | unsubscribing keeps the log's invariant |
| RunLog.EventsAfterIsSuffix | srx-dashboard/dashboard.py:288 | filtering the ring by id gives the suffix of the history behind that id |
| RunLog.BacklogIs | srx-dashboard/dashboard.py:283-297 | the backlog for any last id: the missing suffix if the ring has it, reset plus ring if it does not or the id was never issued, and at least the terminal event of a finished run |
| RunLog.BacklogEndsInTerminal | srx-dashboard/dashboard.py:293-296 | whatever last id is claimed, the backlog of a finished run ends in the one terminal event |
| Stream.GrabbedIncreases | srx-dashboard/dashboard.py:248-257 | what a reader gets of a queue during a drain has increasing ids, under any interleaving |
| Stream.GrabbedGaplessIff | srx-dashboard/dashboard.py:248-257 | it has no gap iff no dequeue of the reader falls behind one of the drain |
| Stream.StepKeepsInv | srx-dashboard/dashboard.py:241-303 | every step of run, handler, network and browser keeps the streaming invariant, without gaps if the drains are clean |
| Stream.RunKeepsInv | srx-dashboard/dashboard.py:241-303 | so does every run |
| StreamSafety.ViewsAreGapless | srx-dashboard/dashboard.py:241-303 | over every interleaving with clean drains, the events a client shows since its last reset are one contiguous block of the published history ending at its last id |
| StreamSafety.ViewsIncrease | srx-dashboard/dashboard.py:241-303 | over every interleaving at all, they are published events with strictly increasing ids |
| StreamSafety.LiveStreamIsComplete | srx-dashboard/dashboard.py:283-299 | for a subscribed client, shown, written and queued events together are exactly everything from its start to the newest event |
| StreamSafety.FinishedRunIsFrozen | srx-dashboard/dashboard.py:259-281 | after the terminal event no schedule publishes anything more |
| StreamSafety.TerminalIsUnique | srx-dashboard/dashboard.py:267-281 | only the last event of the history can be an end event, and then it is the terminal one |
| StreamSafety.EveryStreamEnds | srx-dashboard/dashboard.py:267-299 | after finish, what is left of every connection ends in the terminal event or in the marker |
| StreamSafety.MarkerIsLast | srx-dashboard/dashboard.py:248-257 | over every interleaving at all, what is left of a connection is published events with strictly increasing ids, with the marker at most at the end |
| StreamSafety.ReadToEnd | srx-dashboard/dashboard.py:926-938 | a client that reads its connection to the end of a finished run learns the result, unless it was evicted |
| StreamSafety.ResultIsReachable | srx-dashboard/dashboard.py:283-299 | from every reachable state of a finished run, also with every subscriber slot taken, a client gets to the end event by readers reading on, handlers whose connection is gone returning, and at most one reconnect |
| StreamSafety.WholeLogWithinCapacity | srx-dashboard/dashboard.py:283-292 | while nothing was evicted from the ring, no client is ever reset and each shows the whole log up to its last id |
| StreamSafety.EvictionGaplessIff | srx-dashboard/dashboard.py:246-257 | an eviction keeps a connection free of gaps iff no dequeue falls behind one of the drain |
| StreamSafety.MissedForGood | srx-dashboard/dashboard.py:283-292 | an event a client has passed unseen stays unseen until a reset, whatever it does |
| StreamSafety.InterleavedDrainLosesAnEvent | srx-dashboard/dashboard.py:248-257 | a concrete run in which an interleaved drain makes a client show events 1 and 3 but not 2 |
| DashboardRun.EventQueue.Evict | srx-dashboard/dashboard.py:250-257 | the drain loop leaves exactly the marker |
| DashboardRun.BatchHistory.Append | srx-dashboard/dashboard.py:213-217 | the kept batches are the last `HISTORY_MAX` of everything ever recorded |
| DashboardRun.TallyCounts | srx-dashboard/dashboard.py:195-210 | passed and failed are the numbers of rows that are ok and that are not |
| DashboardRun.Run.OfferAll | srx-dashboard/dashboard.py:246-257 | every subscriber's queue gets the event or, if full, is replaced by the marker and dropped; no other queue changes |
| DashboardRun.Run.PublishEvent | srx-dashboard/dashboard.py:241-257 | the in-place publication is the log's `Publish` |
| DashboardRun.Run.EmitLine | srx-dashboard/dashboard.py:259-265 | the in-place emit is the log's `Emit` |
| DashboardRun.Run.RecordBatch | srx-dashboard/dashboard.py:195-218 | one entry is recorded, also when saving fails: the rows parsed from the retained lines, their counts, whether there are any, the code and whether it is zero, and start, end and the time between |
| DashboardRun.Run.FinishRun | srx-dashboard/dashboard.py:267-281 | the in-place finish is the log's `Finish`, sets the code once and records a batch only for the whole suite; the end event tells the code and, for a saved suite, the numbers of rows read from the retained lines that are ok, that are not, and of all; otherwise no batch, and the error flag iff saving the suite's failed |
| DashboardRun.Run.Replay | srx-dashboard/dashboard.py:288-296 | the backlog computed from the ring is the log's `Backlog` |
| DashboardRun.Run.SubscribeFrom | srx-dashboard/dashboard.py:283-299 | a new queue, backlog and done flag, or a refusal exactly at the limit that changes nothing |
| DashboardRun.Run.UnsubscribeQueue | srx-dashboard/dashboard.py:301-303 | the in-place unsubscribe is the log's |
| Admission.NewMeansIdle | srx-dashboard/dashboard.py:443-448 | a run is admitted only when every run ever admitted has ended and no registered one holds the request id |
| Admission.EmptyKeyIsNone | srx-dashboard/dashboard.py:443 | an empty request id is none at all: it finds no run and is in conflict with none |
| Admission.PutTakesItsPlace | srx-dashboard/dashboard.py:453 | assigning to the registry replaces the run in the first place of its id and moves nothing, or adds a new id at the end |
| Admission.AdmitKeepsInv | srx-dashboard/dashboard.py:441-455 | admission keeps the registry bounded, with distinct runs and distinct request ids, holding the newest run, and all but the newest run ended |
| Admission.MoveKeepsInv | srx-dashboard/dashboard.py:457-515 | every step of a worker and every stop keeps that invariant and the lawful order of the log |
| Admission.StepKeepsInv | srx-dashboard/dashboard.py:438-515 | so does every step |
| AdmissionSafety.AtMostOneActive | srx-dashboard/dashboard.py:441-455 | over every schedule at most one run is un-ended, counting dropped ones; it is the newest and registered |
| AdmissionSafety.EvictionSparesActive | srx-dashboard/dashboard.py:454-455 | no step drops an un-ended run from the registry |
| AdmissionSafety.AnswerIs | srx-dashboard/dashboard.py:441-448 | the answer to a request, exactly: the one holder of its id if the arguments agree, a conflict if not, and a new run iff there is no holder and every run has ended |
| AdmissionSafety.RetryReturnsSameRun | srx-dashboard/dashboard.py:442-446 | any later retry with the same arguments is answered with the same run, starting nothing, iff that run is still registered |
| AdmissionSafety.LateRetryStartsAnew | srx-dashboard/dashboard.py:442-455 | a concrete schedule after which a retry of a dropped key is admitted as a new run, for any request |
| AdmissionSafety.RegistryIsNewest | srx-dashboard/dashboard.py:449-455 | while run ids do not collide, the registry is exactly the last `MAX_RUNS` runs in order |
| AdmissionSafety.SpawnProtocol | srx-dashboard/dashboard.py:457-515 | over every schedule: at most one process per run, none after a stop, between processes of two runs the first has finished, one finish per run with nothing after it |
| AdmissionSafety.NeverStuck | srx-dashboard/dashboard.py:457-496 | from every reachable state and whatever process creation and process answer, at most three steps of the run's own worker, each due when it is taken, end the run |
| AdmissionSafety.DueStepsCountDown | srx-dashboard/dashboard.py:457-496 | over every schedule the due steps a worker has taken and what its phase still needs together never exceed what it needed before, at most three |
| AdmissionSafety.OneFinishPerEnd | srx-dashboard/dashboard.py:267-272 | over every schedule a run has exactly one effective finish if it has ended and none if not |
| AdmissionSafety.EveryWorkerFinishes | srx-dashboard/dashboard.py:457-496 | from every reachable state and whatever the other runs do, three rounds that each hold a due step of a run's worker (unless it has ended) end the run with exactly one effective finish, and a run without process has the code of its failure |
| AdmissionSafety.EveryPathFinishes | srx-dashboard/dashboard.py:457-496 | each of the worker's paths by itself (thread not started, stopped first, process not created, process run to its end, reader broken) ends the run with that path's own code, one effective finish and nothing else changed |
| DashboardAdmission.Dashboard.FindExisting | srx-dashboard/dashboard.py:442-446 | the loop finds the first registered run with a non-empty request id |
| DashboardAdmission.Dashboard.IsBusy | srx-dashboard/dashboard.py:447 | the loop tells whether a registered run is un-ended |
| DashboardAdmission.Dashboard.Register | srx-dashboard/dashboard.py:453 | assignment to the ordered dictionary: in place for a known key, else at the end |
| DashboardAdmission.Dashboard.EvictOldest | srx-dashboard/dashboard.py:454-455 | the eviction loop leaves the newest `MAX_RUNS` entries |
| DashboardAdmission.Dashboard.SpawnRun | srx-dashboard/dashboard.py:438-455 | the in-place admission is the model's admission step and its answer |
| DashboardAdmission.Dashboard.EnterWorker | srx-dashboard/dashboard.py:461-470 | the worker's block under the lock: stopped first, process created, or creation failed |
| DashboardAdmission.Dashboard.KillRun | srx-dashboard/dashboard.py:499-505 | a stop marks an un-ended run, and reports pending iff the run has not ended and no process was created |
| DashboardAdmission.Dashboard.FinishWorker | srx-dashboard/dashboard.py:267-272 | the effective finish happens once |
| WholeDashboard.StepKeepsInv | srx-dashboard/dashboard.py:241-515 | every step of registry, workers, stops, handlers, network and browsers keeps the registry's and every stream's invariant, and each record in agreement with its log |
| WholeDashboard.EndedIffTold | srx-dashboard/dashboard.py:267-281 | over every schedule a run has ended iff its log has published its end event, which tells the run's code |
| WholeDashboard.TellsItsFinish | srx-dashboard/dashboard.py:267-281 | over every schedule what a run's readers are told at the end is what one finish of its own worker recorded: the code, the batch's counts and the error flag |
| WholeDashboard.EarlierRunsAreTold | srx-dashboard/dashboard.py:441-455 | over every schedule the log of every run but the newest is closed by its end event and never changes again, so that a run is admitted only after every earlier one was told to its readers |
| WholeDashboard.StreamsRunTheirMachine | srx-dashboard/dashboard.py:222-303 | in the whole dashboard each run's stream does exactly what the streaming machine does by itself under the steps that concern it |
| WholeDashboard.EveryViewIsGapless | srx-dashboard/dashboard.py:241-303 | with clean drains every client of every run shows one contiguous block of that run's events |
| Summary.ScanLineOf | srx-dashboard/dashboard.py:71-73 | status, name, code and elapsed tenths of a printed line are scanned back as printed, whatever follows |
| Summary.RowRoundTripIff | srx-dashboard/dashboard.py:170-192 | parsing one printed row returns the result iff name and error are clean: stripped, colon-free, visible end, no newline in the error |
| Summary.RowErrorIsSuffix | srx-dashboard/dashboard.py:71-73 | an error that was read is the end of the line behind the dash |
| Summary.EmptyNameUnread | srx-dashboard/dashboard.py:71-73 | a row with an empty name is never read |
| SummaryRows.RowIff | srx-dashboard/dashboard.py:71-73 | a stripped line is read as a row iff it is the text of one in the grammar, older status words, whole seconds and a missing detection word included; it is ok iff its status claims so and its code is zero |
| Batch.ParseBatchFromLines | srx-dashboard/dashboard.py:170-192 | the loop returns the rows behind the first heading |
| Batch.NoHeadingNoRows | srx-dashboard/dashboard.py:170-179 | without a heading nothing is recorded |
| BatchRoundTrip.UniversalOfLines | srx-dashboard/dashboard.py:473-480 | lines are read as printed whichever of newline, return and newline, or return ends each |
| Batch.TruncationGivesSuffix | srx-dashboard/dashboard.py:170-192 | parsing any suffix of the lines yields a suffix of the full parse |
| Batch.TruncationAllOrNothing | srx-dashboard/dashboard.py:170-192 | with one heading line a suffix yields the whole batch if it holds the heading and nothing if not |
| BatchRoundTrip.LineSeen | srx-dashboard/dashboard.py:473-480 | a plain line within the reader's bound is emitted as it is, with an empty line behind it when it fills the bound |
| BatchRoundTrip.SeenAppend | srx-dashboard/dashboard.py:473-480 | texts that end a line are read independently of what follows |
| BatchRoundTrip.OwnOfSurvivor | deploy/srx_workload.py:503-510 | a result whose row fits contributes exactly its own row |
| BatchRoundTrip.OwnOfCasualty | deploy/srx_workload.py:503-510 | a result whose row does not fit is not recorded as it was |
| BatchRoundTrip.ExactIffAllSurvive | deploy/srx_workload.py:503-510 | the rows read for a list of results are the results' iff every row fits |
| BatchRoundTrip.DoneTitleTells | deploy/srx_workload.py:621 | the closing title tells the duration in tenths of a second and whether the run failed |
| BatchRoundTrip.ClosingHasNoRows | deploy/srx_workload.py:620-624 | the lines printed behind the table add no row |
| BatchRoundTrip.TableRoundTripIff | deploy/srx_workload.py:503-510 | whatever heading-free output came before and whatever the closing lines are, the whole printed table is read back in order iff every error fits |
| BatchRoundTrip.SpoiledTable | deploy/srx_workload.py:503-510 | for each of three concrete error texts (trailing blank, carriage return, 4096 characters) the table is not read back, whatever heading-free output came before |
| BatchRoundTrip.TableIsOwnRows | deploy/srx_workload.py:503-510 | whatever the errors are, the batch is exactly the rows that the results' printed rows give one by one, in order |
| BatchCounts.RowLines | srx-dashboard/dashboard.py:473-480 | the lines read of one printed row, for any error: its own line with as much of the error as fits before its first newline, and the lines of the rest |
| BatchCounts.OwnIs | srx-dashboard/dashboard.py:170-192 | the rows recorded of one result, for any error: its own with the cut and stripped error unless nothing visible or the heading follows the dash, then whatever rows the rest of the error looks like |
| BatchCounts.CountedIff | srx-dashboard/dashboard.py:170-192 | a result is recorded as exactly one row, right in all but the error, iff its own line is read and no line below is a row, or the error repeats the row that its own line lost |
| BatchCounts.SurvivorIsCounted | srx-dashboard/dashboard.py:170-192 | a result whose error fits is counted |
| BatchCounts.RepeatedRow | srx-dashboard/dashboard.py:170-192 | a concrete error of the last kind: its own line is lost, and its second line repeats the row |
| BatchCounts.UnmarkedIsCounted | srx-dashboard/dashboard.py:71-73 | an error of any length and any number of lines without `: rc=` adds no row |
| BatchCounts.NothingElseIsCounted | srx-dashboard/dashboard.py:195-210 | recorded and lost rows together have the counts of the results and of the rows found in errors together |
| BatchCounts.CountsIff | srx-dashboard/dashboard.py:195-210 | the recorded counts are those of the return codes iff lost rows and rows found in errors have the same counts |
| BatchCounts.CountedTable | srx-dashboard/dashboard.py:170-210 | a table of counted results is recorded row by row in order, right in all but the errors, with the right counts |
| BatchCounts.SmuggledRow | srx-dashboard/dashboard.py:170-192 | an error whose second line is the printed row of any other result adds that result's row |
| BatchCounts.MiscountedSuites | srx-dashboard/dashboard.py:195-210 | two concrete suites of one failed workload, one recorded as a failed and a passed one and one as nothing |
| SuiteRun.ResultOf | deploy/srx_workload.py:431-457 | every ending of a workload gives one result with its name and time; its code is the returned one, 1, the subprocess's, 124, 127 or 1 by the kind of ending, its error is the returned text or names the exception with its message, and a failure always has one |
| SuiteRun.ResultsPermute | deploy/srx_workload.py:478-490 | any completion order gives the same results, each once |
| SuiteRun.RunConcurrently | deploy/srx_workload.py:460-490 | nothing is started unless limit and every preflight pass; then exactly the workloads are, in order, and there is one result per workload in completion order |
| SuiteRun.Collect | deploy/srx_workload.py:487-490 | the collecting loop gives one result per finished workload |
| SuiteRun.PrintTable | deploy/srx_workload.py:502-510 | the printing loop prints heading and one row per result |
| SuiteRun.DoAll | deploy/srx_workload.py:494-511 | the code is 0 iff every workload returned 0 (or its subprocess did), and the table is the results sorted by name |
| SuiteRun.StringLeIff | deploy/srx_workload.py:503 | the order of names: a beginning comes first, otherwise the first different characters decide |
| SuiteRun.OrderIndependent | deploy/srx_workload.py:503 | with one name per result the printed table does not depend on the completion order |
| Sorting.SortIsStable | deploy/srx_workload.py:503 | sorting keeps the order of equal elements |
| SuiteAccounting.EmitAllKeepsTail | srx-dashboard/dashboard.py:259-265 | the retained lines are the bounded tail of all lines the worker emitted |
| SuiteAccounting.RetainedHeading | srx-dashboard/dashboard.py:170-192 | a log that still holds the heading yields the whole batch |
| SuiteAccounting.SuiteIsAccounted | deploy/srx_workload.py:460-511 | end to end, whatever the errors of the workloads and however much heading-free output came before: while the bounded log retains the heading, the batch is the rows that the results' own lines and errors give; its counts are those of the return codes iff lost rows and rows found in errors have the same counts, and always if every result is counted, with one row per workload in name order, right in all but the error text; the errors are exact iff every one fits; once the heading is pushed out the batch is empty, unless an error holds a heading |
| SuiteAccounting.FailureIsCounted | deploy/srx_workload.py:511 | a run is told as failed iff the counts of the return codes have a failure |
| SuiteAccounting.SurvivorsAreRetained | srx-dashboard/dashboard.py:35-39 | a table whose errors fit takes at most two lines per workload and six more behind the heading, so that the dashboard's default bounds retain it for the default number of workloads |
| StructuredData.KeyCharIff | collectors/syslog_collector.py:40 | the characters of a key, by their ASCII codes: letters, digits, underscore, dot and hyphen, and no others |
| StructuredData.EscapeRoundTrip | collectors/syslog_collector.py:130 | undoing the three escapes of an escaped value returns it, for every value |
| SyslogGrammar.OthersStay | collectors/syslog_collector.py:130 | a text without an escape stays as it is, other backslashes included |
| SyslogGrammar.UnescapeAppend | collectors/syslog_collector.py:130 | texts that no escape joins are unescaped one by one |
| SyslogGrammar.PlainValueEnds | collectors/syslog_collector.py:40-42 | a value without quote and backslash ends at the next quote, within an element only if it has no closing bracket |
| StructuredData.EscapedEnd | collectors/syslog_collector.py:41-42 | an escaped value is never ended early |
| StructuredData.QuotedEndAgrees | collectors/syslog_collector.py:41-43 | a value the element grammar accepts ends at the same quote for the pair scan, whatever follows |
| StructuredData.ElementIff | collectors/syslog_collector.py:44 | the element scanner accepts exactly the texts of well-formed elements |
| StructuredData.ElementsIff | collectors/syslog_collector.py:108-114 | the same for a whole body |
| StructuredData.ExtractIsParams | collectors/syslog_collector.py:127-132 | over the joined elements the pair scan finds exactly their parameters in order: never inside an identifier or a value |
| SyslogParser.FindTagIsFirst | collectors/syslog_collector.py:121-124 | the search finds the first family word that starts a word |
| SyslogParser.CollectElements | collectors/syslog_collector.py:103-117 | the loop over elements accepts and joins what the grammar says, and rejects the rest |
| SyslogParser.CollectFields | collectors/syslog_collector.py:126-132 | the loop assigns every pair of the scan in turn (what the scan finds is stated by `StructuredData.ExtractIsParams` and `SyslogLegacy.FieldsAreRead`) |
| SyslogParser.First | collectors/syslog_collector.py:69-73 | the value of the first key with a non-empty one; none iff no key has one |
| SyslogParser.FindRecord | collectors/syslog_collector.py:97-124 | header, structured data or older form, with every rejection |
| SyslogParser.ParseSyslogLine | collectors/syslog_collector.py:83-152 | the parser computes the model's event, which `SyslogRoundTrip.RecordIsParsed`, `SyslogGrammar.RecordIff` and `SyslogLegacy.LegacyRoundTrip` describe |
| SyslogRoundTrip.ScanHeaderOf | collectors/syslog_collector.py:45-48 | a well-formed header gives its message id and body iff the body is one line, and is never taken for an older line |
| SyslogRoundTrip.RecordIsParsed | collectors/syslog_collector.py:97-152 | for any message id, any well-formed structured data and any message, the record is parsed to exactly its parameters, the last value of a key winning, iff the id is a tag and the body is one line; otherwise it is rejected |
| SyslogRoundTrip.NilIsParsed | collectors/syslog_collector.py:105-106 | the nil value gives an event without fields |
| SyslogRoundTrip.PrintedRecordRoundTrip | collectors/syslog_collector.py:103-139 | printing any newline-free values with the escapes of section 6.3.3 of RFC 5424 and parsing returns event type and exactly the field map |
| SyslogRoundTrip.LastValueWins | collectors/syslog_collector.py:126-132 | a field is there iff a pair has its key, with the last such pair's value |
| SyslogRoundTrip.TupleIs | collectors/syslog_collector.py:54-79 | each component of the tuple is the first of its aliases that is given, in order; numeric protocols get the table's names, others are upper-cased, and ports are converted |
| SyslogRoundTrip.TagIff | collectors/syslog_collector.py:52 | a message id is a tag iff it is two or more upper-case words joined by underscores, the first of two characters at least |
| SyslogRoundTrip.LegacyTagBeforeFields | collectors/syslog_collector.py:118-125 | the tag of an older line is its first family word, before any bracket or equals sign, and the fields are looked for behind it |
| SyslogLegacy.LegacyRoundTrip | collectors/syslog_collector.py:118-139 | an older line of any untagged text, a tag of a known family and any fields, quoted or bare, gives that tag, exactly the fields' map with the last value of a key winning, and its tuple |
| SyslogLegacy.FieldsAreRead | collectors/syslog_collector.py:40-43 | the pair scan over blank-separated fields finds exactly them, in order, quoted or bare |
| SyslogLegacy.BarePairIsRead | collectors/syslog_collector.py:43 | a key with a bare value is one pair, up to the character that ends the value |
| SyslogLegacy.ValuelessKeyIsSkipped | collectors/syslog_collector.py:43 | a key without value, or with a quote that is never closed, is no pair, and the scan goes on behind it |
| SyslogLegacy.FamilyIff | collectors/syslog_collector.py:53-55 | the tags of the four event families, exactly |
| SyslogLegacy.TagLengthIff | collectors/syslog_collector.py:53-55 | a tag is a family's word up to a colon, white space or the end |
| SyslogLegacy.UntaggedIsRejected | collectors/syslog_collector.py:118-123 | a line that is no record and has no tag before bracket and equals sign gives nothing |
| SyslogLegacy.BrokenRecordIsRejected | collectors/syslog_collector.py:119-120 | a line that claims to be a record and has no well-formed header gives nothing |
| SyslogLegacy.SampleLine | tests/test_collector_regressions.py:79-86 | a concrete older line with unquoted fields gives its tag, its fields and a tuple with TCP |
| SyslogGrammar.HeaderIff | collectors/syslog_collector.py:45-48 | a text is a header with that id and body iff it is a priority of one to three digits, a version, four words and the id, with any white space between them, in front of a one-line body |
| SyslogGrammar.ClaimIff | collectors/syslog_collector.py:119-120 | a text claims to be a record iff it starts with a number in angle brackets, digits and white space |
| SyslogGrammar.BodyIff | collectors/syslog_collector.py:103-117 | a body is accepted iff it is the nil value or well-formed elements with nothing or a space behind them, and the field text is theirs |
| SyslogGrammar.RecordIff | collectors/syslog_collector.py:97-117 | a line that claims to be a record gives an event iff header, id and body are acceptable |
| Collector.FramingIsExact | collectors/syslog_collector.py:273-276 | frames and rest put together are the stream, and no frame holds a newline |
| Collector.FramesAppend | collectors/syslog_collector.py:272-276 | more bytes only continue the unterminated part |
| Collector.UnframedAreFrames | collectors/syslog_collector.py:273-276 | terminated frames are cut apart again, with no rest |
| Collector.StreamBecomesEvents | collectors/syslog_collector.py:262-283 | a clean stream gives one event for every line that parses, in order, each with the time its frame was read |
| Collector.ChunksAreDelivered | collectors/syslog_collector.py:262-272 | a connection delivers the bytes of its chunks up to its end or failure |
| Collector.TimeoutsDoNotMatter | collectors/syslog_collector.py:262-272 | waiting in vain changes nothing in what is delivered |
| Collector.SyslogCollector.AddEvent | collectors/syslog_collector.py:286-291 | the buffer stays the last `max_events` added since the last clear, and buffered and dropped events together are all that were added |
| Collector.SyslogCollector.Clear | collectors/syslog_collector.py:299-301 | clearing empties the buffer and keeps the counter |
| Collector.SyslogCollector.Snapshot | collectors/syslog_collector.py:303-306 | a snapshot is the newest events added since the last clear, at most `max_events` |
| Collector.SyslogCollector.RunQuery | collectors/syslog_collector.py:308-332 | the loop returns the events that pass every given filter, in order |
| Collector.EachFilter | collectors/syslog_collector.py:308-332 | each filter by itself keeps exactly the events of its type, its tuple, or its side of an inclusive bound |
| Collector.FiltersCombine | collectors/syslog_collector.py:308-332 | filters of different things combine: asking for both is asking for one among the answers to the other |
| Collector.SyslogCollector.Ingest | collectors/syslog_collector.py:278-283 | every parsed line of a frame is added |
| Collector.SyslogCollector.IngestFrames | collectors/syslog_collector.py:273-276 | the framing loop ingests exactly the complete frames and keeps the rest |
| Collector.SyslogCollector.RunConnection | collectors/syslog_collector.py:262-276 | however a connection is cut into chunks, it adds the events of the frames of all its bytes, and `buf` is the unterminated rest |
| Collector.FramesSameButTime | collectors/syslog_collector.py:278-283 | the receive time reaches nothing but the timestamps |
| Collector.ChunkingIndependence | collectors/syslog_collector.py:262-291 | collectors whose contents agree apart from timestamps still do after a connection with the same bytes, whatever the cuts, the clocks and the bound |
| Matching.MatchIsCommonRefinement | validation/correlator.py:106-127 | two tuples match iff some fully concrete tuple refines both |
| Matching.ProtocolCase | validation/correlator.py:111-127 | protocols are compared in upper case, and an open one fits any |
| Matching.NarrowerMatchesLess | validation/correlator.py:130-146 | a narrower stimulus matches no more observations |
| Matching.ObservableIff | validation/correlator.py:130-146 | some observation fits a stimulus iff one of its endpoints is open or an address |
| Correlator.CandidatesAreSorted | validation/correlator.py:262-280 | the candidates are the matching events and no others, nearer ones first |
| Correlator.NearestFirst | validation/correlator.py:262-291 | the answer is the first event in input order among the matches of least time distance; none iff nothing matches |
| Correlator.CorrelateAppend | validation/correlator.py:282-291 | over concatenated events the answer is the closer of the two answers, the left one on ties |
| Correlator.QueryChangesNothing | collectors/syslog_collector.py:308-332 | querying the collector by type, tuple and the inclusive window first changes no answer |
| Correlator.SnapshotSufficesIff | validation/correlator.py:262-291 | for events in order of arrival: a snapshot of a collector that may have dropped events gives the answer of everything ever received, whatever was dropped, iff its oldest event is from before the window, or its answer is strictly closer than anything no later than the oldest can be, or neither endpoint of the stimulus can be observed |
| Correlator.EvictionChangesAnswer | validation/correlator.py:282-291 | a concrete history of two events for which a buffer of one gives another answer |
| Correlator.NarrowingIsMonotone | validation/correlator.py:262-280 | a narrower tuple or window adds no candidate |
| Correlator.WindowEnds | validation/correlator.py:262-280 | an event of the type and tuple is a candidate iff it is at most the skew early, or at most window and skew late |
| Correlator.Missing | validation/assertions.py:66-81 | a required field is listed iff it is absent or empty |
| Correlator.EvaluateStimulus | validation/correlator.py:309-383 | the branches compute the verdict, each part of which is what events and capture say |
| Correlator.VerdictJudges | validation/correlator.py:309-383 | every part of a verdict, passing or not: logged iff there is a candidate, open iff there is none and a supplied capture shows nothing; detected iff the capture shows the traffic, or without a capture a candidate may be inferred from; the matched event is the first nearest candidate; fields and missing fields are that event's; each of the five notes by its condition; type and target are the stimulus' |
| Correlator.BuildMatrix | validation/correlator.py:385-397 | one verdict per stimulus, in order |
| Correlator.PassedIffProven | validation/correlator.py:193-200 | a verdict passes iff there is a nearest candidate with every field and sufficient evidence |
| Correlator.MatrixPassedIff | validation/correlator.py:212-214 | the matrix passes iff it has stimuli and every one is proven |
| Correlator.StrictImpliesLenient | validation/correlator.py:334-340 | a strict pass is a lenient pass, and needs a capture |
| Correlator.CaptureIsMonotone | validation/correlator.py:294-306 | adding tuples to a supplied capture never breaks a pass |
| PingStore.Store.AddToBucket | pingapp/server.py:87-102 | current bucket and bounded list stay the newest of all buckets there ever were, and only the given kind changes |
| PingStore.WindowHoldsTime | pingapp/server.py:83-84 | a sample's window starts at a multiple of the width and holds the sample's time |
| PingStore.RetainedAreNewest | pingapp/server.py:76-79 | list and current bucket are the last `BUCKETS` + 1 |
| PingStore.RunsConserve | pingapp/server.py:87-102 | at any timestamps every sample is counted in exactly one bucket |
| PingStore.NothingIsLost | pingapp/server.py:76-102 | evicted, retained and current counts add up to all samples |
| PingStore.StreamingIsGroupBy | pingapp/server.py:83-102 | when time does not run backwards, the buckets are exactly the windows with samples, in strictly increasing order, each with the sent, received, sum, minimum and maximum of its own samples |
| PingStore.RunsAreHonest | pingapp/server.py:87-102 | at any timestamps every bucket summarizes some samples exactly |
| PingSeries.BucketSeries | pingapp/server.py:105-119 | the loop gives the points of the buckets that are not older than the cutoff |
| PingSeries.SeriesShowsRecent | pingapp/server.py:105-119 | a chart has one point for each bucket not older than the cutoff, in order, with the bucket's counts and extremes, its sum shared among its answers, and its loss in percent; the totals are the buckets' |
| PingSeries.DownsampleSeries | pingapp/server.py:144-164 | the loop gives the downsampled series, of which `DownsampledPoint` says what each point stands for |
| PingSeries.DownsampledPoint | pingapp/server.py:144-164 | point k stands for the points from k times the factor on: the first one's time, their totals and extremes, the mean of the averages that are there, and the loss in percent |
| PingSeries.DownsampleKeeps | pingapp/server.py:144-164 | totals and extremes are those of the input, and the length is the rounded-up quotient |
| PingSeries.DownsamplingComposes | pingapp/server.py:144-164 | downsampling twice is downsampling by the product, in all but the averages |
| PingSeries.MergeIsSound | pingapp/server.py:148-163 | averages of averages stay within the extremes and are absent exactly when nothing was received |
| PingSeries.SummaryAgreesWithChart | pingapp/server.py:122-141 | the summary's totals and extremes are those of its chart at any factor, and its average lies between |
| PingSeries.SummaryFigures | pingapp/server.py:122-141 | every figure of a summary: the average times the number of points with one is the sum of theirs, loss and availability are percentages of what was sent, the outage is the number of minutes with nothing received of something sent, the window the number of points |
| PingSeries.SummaryCountsSamples | pingapp/server.py:87-141 | while nothing was evicted or cut off, a summary counts every sample ever stored |
| PingSeries.ChartsAreSound | pingapp/server.py:87-164 | whatever was stored in whatever order of time, charts and summaries are sound at every level |
| PingSeries.JitterWithinSpread | pingapp/server.py:350-355 | jitter is there from two answers on, and lies between 0 and maximum minus minimum |
| PingSeries.JitterIsMeanStep | pingapp/server.py:350-355 | jitter times the number of steps is the sum of the absolute steps between neighbours |
| Crawler.CollapseAppend | generators/web_crawler.py:219-226 | absorbing data piece by piece is collapsing the whole |
| CrawlerPages.CollapseKeepsWords | generators/web_crawler.py:219-221 | collapsing leaves the words as they are and makes every white space between them one blank |
| Crawler.TextIsWholePrefix | generators/web_crawler.py:216-226 | for plain text in any split, the text is the first 2048 characters of the collapsed whole, and the flag is set iff the whole is longer |
| Crawler.SplitIndependence | generators/web_crawler.py:329-335 | two splits of the same text give the same extraction |
| Crawler.ExtractionShowsPage | generators/web_crawler.py:170-226 | for any tags and data, title and text are the beginnings of the whole page's, the links its first 20 distinct acceptable ones in order, and the flag is set iff data, a link or a reference was lost |
| Crawler.ExtractionIsBounded | generators/web_crawler.py:170-226 | all bounds hold for any page, and links are distinct |
| Crawler.TitleIsCollapsedWhole | generators/web_crawler.py:216-226 | the title is the first 512 characters of the collapse of everything visible between title tags |
| CrawlerPages.TextIsCollapsedWhole | generators/web_crawler.py:170-226 | the text is the visible data outside the title, with a blank for every separating tag, collapsed as one, up to the bound |
| CrawlerPages.HiddenLeavesNothing | generators/web_crawler.py:174-218 | a script, style or template with whatever is in it leaves the extraction as if it were not there |
| CrawlerPages.LinksAreTargets | generators/web_crawler.py:182-204 | the links, before the bounds, are the targets of the visible references that resolve and are not too long, in order; a too long one is noticed |
| CrawlerPages.TitleIsOpen | generators/web_crawler.py:180-211 | text belongs to the title iff a visible start tag of it was not followed by a visible end tag |
| Crawler.DistinctShort | generators/web_crawler.py:199-204 | the links kept are short, distinct and from the page |
| Crawler.DistinctHoldsAll | generators/web_crawler.py:199-204 | every link that is not too long is among those kept, before the bound on their number |
| Crawler.DistinctGrows | generators/web_crawler.py:199-204 | later links never move or remove earlier ones |
| Crawler.PageParser.TextBoundary | generators/web_crawler.py:170-172 | the in-place boundary is the model's |
| Crawler.PageParser.CollectLink | generators/web_crawler.py:182-204 | the in-place link collection is the model's |
| Crawler.PageParser.HandleStartTag | generators/web_crawler.py:174-204 | the in-place start tag handler is the model's |
| Crawler.PageParser.HandleEndTag | generators/web_crawler.py:206-214 | the in-place end tag handler is the model's |
| Crawler.PageParser.HandleData | generators/web_crawler.py:216-226 | the in-place data handler is the model's |
| CrawlBody.ReadBody | generators/web_crawler.py:279-305 | the loop ends and never exceeds `max_bytes`; read in time, the body is the beginning of what arrived up to the cap, a failure's own bytes included, and the outcome is given exactly: limit reached, failed, complete iff the content is whole, or a length mismatch; it succeeds iff complete and 2xx; too late, nothing succeeds |
| Pacing.IntervalIsCeiling | generators/load_gen.py:76 | the interval is the second divided by the rate, rounded up |
| Pacing.RateIsNeverExceeded | generators/scan_gen.py:104-106 | at the interval the flood tool is given, at most `rate_pps` packets fall into any half-open second |
| Pacing.AcceptedIffInTime | generators/load_gen.py:71-78 | a flood is accepted iff its count and rate are in their ranges and the interval behind each of its packets ends within the maximal duration |
| Pacing.CopiesAgree | srx-dashboard/dashboard.py:433-434 | the dashboard accepts exactly the floods the generator accepts under its default limits |

## Left out

- StreamSafety.ViewsAreGapless: needs drains into which no dequeue falls late (`AllClean`); without that it is false, and `StreamSafety.EvictionGaplessIff` and `StreamSafety.ViewsIncrease` say what holds.
- StreamSafety.ResultIsReachable: needs a subscriber limit above zero; with none, the source refuses every connection.
- BatchRoundTrip.TableRoundTripIff: assumes names like those of the suite (no colon, stripped, one line, without the heading, short enough to leave room in a row) and closing lines within the reader's bound; the condition on errors is exact.
- SuiteAccounting.SuiteIsAccounted: reader and log share one line bound, as in the dashboard; names are those of the previous line, and the output before the table does not hold the heading. Errors are unrestricted.
- Collector.ChunkingIndependence: one connection at a time, as the source serves them; what several connections add is the concatenation.
- Correlator.SnapshotSufficesIff: receive times that do not run backwards; a wall clock that is set back is not covered.
- CrawlBody.ReadBody: the body loop only; the checks of status, encoding and headers before it are single branches.
- Digits in the scanned texts are the ASCII digits; the source's patterns also accept other decimal digits.
- Run objects of the registry are records in a list, so aliasing of run objects between threads is not modelled; the lock makes each block one step.
- Process creation, signals, SSH, sockets, HTTP, TLS and the file system are steps or parameters that may come out either way.
- The times in events, the run's id in the batch that the end event tells, and the 15 second keepalive of a stream.
- The browser's own retry policy beyond reconnecting with the last id it saw.
- Loading bucket state and history from disk, and NaN or infinite timestamps.
- Rounding of floating-point numbers; sums and averages are over the reals.
- Request validation, the workload catalogue, the commands built from it, and the HTML pages.
- NETCONF, packet capture and the packet, browser and L7 generators, which wrap libraries.
- The text of a verdict's note; the model keeps which of the five notes it is.
