# Verification of the Docker session monitor and its worker

A Dafny model of the stateful rules of the repository, with proofs for every input, run or interleaving. Check it with
`dafny verify dfyconfig.toml`.

The parts, hardest first:

- **Session Monitor.** `MonitorRules` is the decision of one tick as a function of containers, records, time and state;
  `MonitorDecide` computes it with the loops and local maps of the source. `MonitorDecision`, `DecisionParts`, `MonitorLocality`,
  `MonitorRemovals` and `MonitorRuns` say what it means for one environment, on the fields of its input, for a second decision,
  for the records to remove, and over whole runs. `HeartbeatRecords` is the volume with heartbeats of several computers,
  `HeartbeatDecisions` what such a heartbeat does to the decision. `RemovalRuns` is the
  transition system of the removals in the background (ticks, passes, commands whose wait failed and that act later) with the
  loop of a pass; `RemovalSafety` and `NewestRuns` say which records stay, after one decision and over whole runs. `PlainRuns`
  makes runs in which every command answers; with them `RecordLoss` and `UnreadLoss` say exactly when records are lost that
  should stay. `MonitorLoop` is the transition system of the stops among the other processes of
  the host (each await is a step), `MonitorProcess` their control flow as a run of it; `MonitorSessions` says what a stop
  has seen under its lock, `MonitorExample` what it does not see.
- **Helper channel.** `ChannelServer` is the event machine of the script (operations, requests to the extension, cancels,
  time limits, secrets, paused output), `ChannelProcess` its class, `ChannelSafety` what every sequence of events
  keeps, `ChannelWrites` what the writes do to it over whole runs, `ChannelLate` which operations are accepted after the shutdown,
  `ChannelReactions` and `ChannelEvents` what single events do.
- **Background schedule and limiter.** `CacheSchedule` with the idle exit of the monitor; `RequestLimiter`.
- **Readers.** `Jsonc` and `JsoncDocuments` (comments and trailing commas), `EngineStream` (frames of a hijacked
  connection), `PullReader` (lines of the answer of a pull).
- **Shared extension cache.** `ExtensionNames` (cache names), `ExtensionCache` (seeding in one process, cleanup in another),
  `ExtensionLists` (the lists of the opens and their union), `ExtensionLoss` (what the bound of the union costs).
- **Images and steps.** `ImageVersions` and `ImageRetention`; `BatchHelper` (preparation and restore of a step).

`Seqs`, `Sorting` (a stable sort by a comparator) and `Numerals` hold what several of them use.

## Findings

- A heartbeat within its own limit does not protect an environment by itself: a newer record of another computer decides
  with its own limit, unless it is a release (`MonitorDecision.AnOlderLiveHeartbeatDoesNotProtect`; when an environment goes
  on is exactly `MonitorDecision.GoesOnExactlyWhileProtected`).
- A heartbeat file that cannot be read counts as no record, so a live heartbeat in it does not prevent a stop
  (`MonitorExample.AnUnreadableHeartbeatIsNotSeen`). A file counts if and only if its read does not fail
  (`MonitorSessions.AFileIsDecidedOnIffRead`), and then the promise holds (`MonitorSessions.AHeartbeatBeforeTheLockIsSeen`).
- Late heartbeats lose against a newer choice exactly within the order window
  (`HeartbeatRecords.OrderHoldsExactlyWithinTheWindow`).
- `ChannelServer.input` asks only once per text whether the script exits. Lines behind a failed write in the same text still
  start operations: the shutdown does not cancel them, and the script may exit without their results
  (`ChannelSafety.LateOperationIsLeft`). An operation is accepted so if and only if its request stands behind a failed write
  (`ChannelLate.LateExactly`), and only such a one can be left without its result (`ChannelLate.LeftExactly`,
  `ChannelLate.EveryOperationIsAnswered`).
- `openConfigFolder` leaves its descriptor open when the `fstat` after the `open` throws (`BatchHelper.FailedStatLeaks`), and
  only then (`BatchHelper.OpenConfigIs`).
- Beyond 200 distinct entries the union of the recorded lists leaves entries out
  (`ExtensionLists.UnionIsWholeExactlyWithinItsBound`), and the cleanup may then remove files that a recent open wants
  (`ExtensionLoss.AWantedFileMayBeLost`; exactly when is `ExtensionLoss.AWantedFileIsLostExactly`).
- That a superseded record is not the newest one (`src/remoteMonitor/main.ts:441-447`) holds within one decision, and over whole
  runs as long as every file is read and no record is in the future at a tick (`NewestRuns.NewestStayWithoutFuture`). A record of the future counts from
  its first sight, and from its written time once that has come: it is the older one for a tick and the newer one for the next.
  When that tick reads the files before the removals of the one before are done, an environment with a container loses all its
  records, and without a record nothing stops it (`RecordLoss.ATimeThatComesMayTakeAllRecords`). No failure and no late removal
  is needed; exactly which files and which clock are at risk is `RecordLoss.AllRecordsMayGoExactly`.
- The newest records of an environment outlive the others (`src/remoteMonitor/main.ts:444-447`) unless a file cannot be read: an
  older record in it may then be left alone (`UnreadLoss.AnUnreadFileOutlivesTheNewest`; exactly when is
  `UnreadLoss.OlderMayOutliveExactly`).

## Model

| member | source | states |
|---|---|---|
| MonitorDecide.DecideTick | src/remoteMonitor/rules.ts:168-271 | The loops over local maps compute exactly the decision on which the lemmas below speak |
| MonitorDecide.ClampRecords | src/remoteMonitor/rules.ts:186-193 | A future time counts as the time at which the record was first seen, which is remembered for exactly the future records |
| MonitorDecide.DecisiveRecord | src/remoteMonitor/rules.ts:198-219 | The loops take the newest record, and behind a release the newest still-live record of another source, as the specification does; what this record is, on its fields, say the next two lines |
| MonitorDecision.DecisiveDecides | src/remoteMonitor/rules.ts:204-219 | The two folds pick the record that a definition on the fields of the records describes (source, release, age, limit, keep), and there is always one |
| MonitorDecision.AReleaseYields | src/remoteMonitor/rules.ts:204-219 | A newest record that is a release decides if and only if every record of another source is a release too or older than its own limit; otherwise the greatest of the other ones decides |
| MonitorDecision.StoppedExactlyWhen | src/remoteMonitor/rules.ts:198-224 | Stopped if and only if: a running container, no grace, and a decisive record that neither keeps nor is within its limit; kept if and only if the decisive record keeps |
| MonitorDecision.GoesOnExactlyWhileProtected | src/remoteMonitor/rules.ts:204-224 | Outside the grace an environment goes on if and only if some record protects it by the rules |
| MonitorDecision.AnOlderLiveHeartbeatDoesNotProtect | src/remoteMonitor/rules.ts:204-219 | A live heartbeat of one computer does not protect when a newer one of another computer has run out (a concrete input) |
| MonitorDecision.StopContainers | src/remoteMonitor/rules.ts:221-223 | A stop names every running container of its environment and no other, the dev container before the services |
| MonitorDecision.OneVerdictPerEnvironment | src/remoteMonitor/rules.ts:200-224 | No environment is stopped twice in a tick, and none that is kept is stopped |
| DecisionParts.SeenTimes | src/remoteMonitor/rules.ts:186-193 | A record counts with its own time, or, more than five minutes ahead, with that of its first sight |
| DecisionParts.GraceMeans | src/remoteMonitor/rules.ts:172-176 | The grace holds at a first tick, after a gap in either direction, and up to the end that was set, never later than one grace from now |
| DecisionParts.StateMeans | src/remoteMonitor/rules.ts:172-193 | What is kept for the next tick: this time, the end of a grace that holds, and the first sight of exactly the records of the future |
| DecisionParts.StopsInOrder | src/remoteMonitor/rules.ts:179-224 | The stops come in the order in which the first running containers of their environments are listed |
| DecisionParts.StopMeans | src/remoteMonitor/rules.ts:221-223 | A stop names the running containers in their order, the dev container before the services, and the age and the limit of the record that decided |
| DecisionParts.ForgetMeans | src/remoteMonitor/rules.ts:226-246 | To forget are exactly the records without a container and more than seven days from now of which no record of the environment that stays is older (or as old, when it keeps); once each, the older ones first |
| DecisionParts.SupersededMeans | src/remoteMonitor/rules.ts:248-262 | Superseded are exactly the others that do not keep, are more than seven days old, have a later one in their environment, and follow no keep of another computer; in the order of the records |
| MonitorLocality.DecideAlone | src/remoteMonitor/rules.ts:168-271 | Deciding on the containers and records of one environment alone gives exactly its part of the whole decision: stop, kept, forget in its order, superseded |
| MonitorLocality.DecidedAgainTheSame | src/remoteMonitor/main.ts:494-502 | With the state that the tick left, at the same time and on unchanged inputs, the second decision is the first one |
| MonitorRemovals.SupersededDecidesNothing | src/remoteMonitor/rules.ts:248-262 | With limits of at most seven days, dropping every superseded record changes no stop and no keep |
| MonitorRemovals.NewestStays | src/remoteMonitor/rules.ts:226-262 | All superseded records and any prefix of the forgotten ones of an environment gone: a newest record is left, unless all were to be forgotten and are gone |
| MonitorRemovals.OldRecordsGo | src/remoteMonitor/rules.ts:226-262 | No old record stays for ever: all of an environment without containers go once all are older than seven days, and a newer record drives out an old one that does not keep |
| MonitorRuns.NothingStopsAfterAGap | src/remoteMonitor/rules.ts:172-176 | Over a run with a clock that goes on, nothing stops within `graceMs` of the first tick or of a tick after a gap |
| MonitorRuns.GraceEnds | src/remoteMonitor/rules.ts:172-176 | Without a gap the grace ends and does not come back, even when the clock goes back |
| MonitorRuns.FutureCountsFromFirstSight | src/remoteMonitor/rules.ts:186-193 | While its written time stays in the future, a record counts from the tick that saw it first |
| MonitorRuns.FutureRecordKeepsNothingForEver | src/remoteMonitor/rules.ts:220-224 | An environment with only such a record, not keeping, is stopped outside the grace if and only if now is later than first sight plus limit |
| HeartbeatRecords.Volume.WriteHeartbeat | src/remoteMonitor/main.ts:166-192 | Of each entry that is not too late the record holds the time of receipt and what the heartbeat says (keep, order, limit, release), every other file is as before, and exactly the others are named as ignored |
| HeartbeatRecords.Volume.RemoveRecord | src/remoteMonitor/main.ts:224-229 | With a time, a record goes exactly when the file still holds that time; without one always |
| HeartbeatRecords.FilesAreIndependent | src/remoteMonitor/main.ts:166-192 | The record of a computer and environment depends on the deliveries to its own file alone |
| HeartbeatRecords.NewestChoiceIsStored | src/remoteMonitor/main.ts:173-190 | Choices within the order window, in any order and among others, end in the record of the highest sequence number, with its time of receipt and all that its heartbeat says |
| HeartbeatRecords.OrderHoldsExactlyWithinTheWindow | src/remoteMonitor/main.ts:174 | An older choice that arrives late is ignored if and only if it comes within the window |
| HeartbeatRecords.ClearOnlyWithdrawsAtMostAKeep | src/remoteMonitor/main.ts:175 | Clear-only entries never create a record and never change one that does not keep |
| HeartbeatDecisions.AReleaseSparesOthers | src/remoteMonitor/main.ts:182-183 | From the heartbeat to the decision: when a computer releases an environment that another one still uses within its own limit, the environment is not stopped |
| HeartbeatDecisions.AnotherHeartbeatDecides | src/remoteMonitor/main.ts:182-183 | A heartbeat that is no release decides alone: stopped by its own keep and limit, whatever other computers wrote before it |
| RemovalRuns.RemovalLoop.RunPass | src/remoteMonitor/main.ts:448-473 | With ticks, other processes and late removals acting at every await, the pass removes a record if and only if its command answers, can read the file, and finds the time of the record in it; without any failure or interference exactly the records that are there are gone, but for those to forget behind one of their environment that is not |
| RemovalSafety.FilesOfAPassDiffer | src/remoteMonitor/main.ts:448-451 | With one record for each file, no pass names a file twice |
| RemovalSafety.PassKeepsTheNewest | src/remoteMonitor/main.ts:441-473 | Of any tick, at every moment after its decision (its pass, and removals whose wait failed, however late they act) a newest record of each environment is stored as it was read, unless since its read another process changed its file or a removal of an earlier tick names it, or all its records were to be forgotten and are removed |
| NewestRuns.NewestStayUntilAllAreGone | src/remoteMonitor/main.ts:435-447 | Over every run of ticks, passes, restarts and late removals in which no other process changes the files of an environment, every tick reads those of its records that are not newest, and all ticks see the time of each record alike: as long as any of its records is stored, a newest one is |
| NewestRuns.NewestStayWithoutFuture | src/remoteMonitor/rules.ts:186-193 | When no other process changes the files of an environment, every tick reads them all, and none of their records is in the future at a tick, a record of the latest written time (of these a keep) is stored as long as any is |
| NewestRuns.ANewestGoesOnlyWhenForgotten | src/remoteMonitor/main.ts:435-447 | When no other process changes the files and all ticks see each time alike, whatever they cannot read, a newest record goes only after a tick that saw no container of the environment and the record more than seven days from now |
| NewestRuns.RunInvStep | src/remoteMonitor/main.ts:249-263 | Every step, a removal that acts after its wait ended included, keeps that no removal under way can take the last newest record while an older one is left |
| RecordLoss.AllRecordsMayGoExactly | src/remoteMonitor/rules.ts:186-193 | For any files and any earliest clock: an environment with a container at every tick, whose files no other process changes and every tick reads, may lose all its records if and only if none of them keeps, one is ahead of that clock by more than the tolerance and seven days, and another one is ahead of it by less; it then happens without any failure |
| RecordLoss.LossNeeds | src/remoteMonitor/rules.ts:248-262 | One half of it: over every such run, with late removals, restarts and a clock that goes back |
| RecordLoss.LosingRun | src/remoteMonitor/main.ts:435-473 | The other half: three ticks and their passes in which every command answers, the last tick reading while the pass of the one before still runs |
| RecordLoss.ATimeThatComesMayTakeAllRecords | src/remoteMonitor/main.ts:435-473 | Such a run for two records, with the last two ticks thirty seconds apart |
| UnreadLoss.OlderMayOutliveExactly | src/remoteMonitor/main.ts:143-148 | For any files, of which some can never be read, and no record in the future: older records of an environment may outlive its newest ones if and only if every newest record can be read and another one cannot |
| UnreadLoss.AnUnreadFileOutlivesTheNewest | src/remoteMonitor/main.ts:143-148 | Such a run for two old records without a container: the newer one goes, the one that cannot be read is left |
| MonitorLoop.StepKeepsInv | src/remoteMonitor/main.ts:406-531 | Every step of the monitor and of every other process keeps: the monitor holds exactly the lock of its session, and stops only what `decide` says on containers and records of this environment alone |
| MonitorLoop.RestartStopsNothing | src/remoteMonitor/rules.ts:172-176 | A monitor that was started again stops nothing at its first tick |
| MonitorSessions.StopsOnlyUnderTheLock | src/remoteMonitor/main.ts:406-430 | In every interleaving a container is stopped only under the lock of its environment, held without a break, by a decision on containers listed and records read after it was taken, and the container ran in that listing |
| MonitorSessions.DecidesOnWhatWasRead | src/remoteMonitor/main.ts:483-505 | The second decision has exactly the records that the files of the environment held when they were read, after the lock was taken |
| MonitorSessions.AFileIsDecidedOnIffRead | src/remoteMonitor/main.ts:135-151 | A file that the folder lists is read once, and its record is decided on if and only if this read did not fail |
| MonitorSessions.AHeartbeatBeforeTheLockIsSeen | src/remoteMonitor/main.ts:483-505 | A heartbeat complete before the lock was taken and unchanged until its file is read, readable, is among the records decided on; when it protects, nothing is stopped and the session ends, whatever overwrites it afterwards |
| MonitorSessions.AnOverwrittenFileIsRead | src/remoteMonitor/main.ts:135-151 | Of a file that is overwritten in the session, the record that it holds when it is read is decided on, if and only if it is there and readable |
| MonitorExample.AnUnreadableHeartbeatIsNotSeen | src/remoteMonitor/main.ts:143-148 | Reading is needed: two runs from a start that differ in one read; the live newest heartbeat prevents the stop when it is read, and not when its file cannot be read |
| MonitorLoop.EveryPathReleases | src/remoteMonitor/main.ts:420-430 | In a session a step is always possible, and each one leaves less to do or frees the lock |
| MonitorProcess.RemoteMonitorLoop.StopEnvironments | src/remoteMonitor/main.ts:406-430 | The loop with its early ends and `finally`, under interference at every await, is a run of the transition system in which every step says how its call went; it ends and leaves no lock held. When no call fails and nobody else acts, exactly the environments whose lock is free and that the decision on the present containers and records says to stop are stopped, container by container in order |
| MonitorProcess.RemoteMonitorLoop.DecideAgain | src/remoteMonitor/main.ts:483-505 | Lists, reads and decides again; a failure ends the session without a stop, and without one the stop is that of the decision on the present containers and records |
| MonitorProcess.RemoteMonitorLoop.DecideFirst | src/remoteMonitor/main.ts:379-386 | The decision of a tick, by the loops of `decide`, is the step of the transition system |
| CacheSchedule.OneRunAtATime | src/remoteMonitor/main.ts:813-888 | In every interleaving at most one background run, no observe during its pass, and a refused run or check changes nothing |
| CacheSchedule.NeverExitsDuringARun | src/remoteMonitor/main.ts:1051-1077 | The monitor exits only with no run between its start and the attempt to store its end, and then nothing follows |
| CacheSchedule.IdleMonitorExits | src/remoteMonitor/main.ts:1051-1077 | With no run, an idle monitor exits in two steps of the loop |
| CacheSchedule.StartsARunExactly | src/remoteMonitor/main.ts:813-867 | A run starts if and only if none exists and the timer asks for it or a check finds it due (not one that finds the clock set back by more than an hour, before it stored this); it ends with the attempt to store its end |
| CacheSchedule.LoopGoesOn | src/remoteMonitor/main.ts:1051-1077 | The loop asks for a run before and after its removals, and exits if and only if none exists at both |
| RequestLimiter.Limiter.PumpAll | src/core/concurrency.ts:92-103 | The loop starts what the specification starts |
| RequestLimiter.Limiter.Run | src/core/concurrency.ts:68-73 | A call waits and starts by the pump |
| RequestLimiter.PumpStarts | src/core/concurrency.ts:92-103 | After a pump nothing that could start waits; each class starts in order; no limit is exceeded |
| RequestLimiter.Scheduling | src/core/concurrency.ts:41-104 | After every sequence of calls: never more than the limit run, nothing startable waits (a lookup only while no slot but the one of an open list is free), each class starts in call order |
| RequestLimiter.LookupsStayBelowTheirLimit | src/core/concurrency.ts:87-95 | A lookup starts only while fewer lookups run than there are slots, or one slot less while a list is open |
| RequestLimiter.ASlotStaysFree | src/core/concurrency.ts:41-46 | As long as a list is open, its slot stays free of lookups, and a page that is alone of its kind starts at once |
| RequestLimiter.PeakIsTheMost | src/core/concurrency.ts:92-103 | The peak is the most calls that ran at the same time |
| RequestLimiter.LookupIdleIsExact | src/core/concurrency.ts:63-66 | `lookupIdle()` is true if and only if a lookup submitted now starts at once |
| RequestLimiter.WaitIsBounded | src/core/concurrency.ts:92-103 | A waiting call that is no lookup, with `p` before it, has started after `p + 1` completions |
| Jsonc.StripJsonc | src/core/jsonc.ts:8-61 | The index loops compute the strip of the whole text |
| Jsonc.LookAhead | src/core/jsonc.ts:36-52 | The look-ahead over whitespace and comments finds a closing bracket exactly when one follows |
| JsoncDocuments.StripPrints | src/core/jsonc.ts:8-61 | The strip of a printed document is the document printed without its comments and trailing commas, every string literal unchanged |
| JsoncDocuments.StrippedTokens | src/core/jsonc.ts:8-61 | No comment is left, and the tokens are those of the document without its trailing commas |
| JsoncDocuments.SameDocument | src/core/jsonc.ts:8-61 | Every JSON value (sections 2 and 7 of RFC 8259), printed with any whitespace, comments and trailing commas, comes out as a text of the same value |
| EngineStream.Stream.ConsumeBuffer | src/helperChannel/engineApi.ts:226-253 | The loop over the buffer hands over the frames of the specification and settles as it says |
| EngineStream.Stream.OnEnd | src/helperChannel/engineApi.ts:259-263 | The end is clean only with an empty buffer |
| EngineStream.ChunksDoNotMatter | src/helperChannel/engineApi.ts:204-281 | For every split, the head of the upgrade included: the frames of the whole byte string up to the first malformed header, and the same failure |
| EngineStream.SettledForGood | src/helperChannel/engineApi.ts:214-224 | After it settled no event changes anything: nothing is delivered, and it settles once |
| EngineStream.EncodedFramesAreRead | src/helperChannel/engineApi.ts:226-253 | Encoding frames and reading them is the identity |
| EngineStream.ReadBytesAreEncoded | src/helperChannel/engineApi.ts:226-253 | What was read is the encoding of the delivered frames, in front of the rest |
| EngineStream.ReadingStopsAt | src/helperChannel/engineApi.ts:226-253 | Behind whole frames the stream fails at the first header that is none, with its reason, and waits for the rest of a frame that is not whole |
| EngineStream.CleanExactlyForWholeFrames | src/helperChannel/engineApi.ts:254-264 | The stream ends cleanly with these frames if and only if the bytes are exactly their encoding and the listener took them all |
| EngineStream.SettlesWith | src/helperChannel/engineApi.ts:254-267 | Whatever ends the stream first decides how it settles: a malformed header or the listener, else the end (clean without a rest), the error, the close or the abort |
| EngineStream.ListenerEnds | src/helperChannel/engineApi.ts:243-250 | A listener that throws or ends the stream gets no frame behind that one, and the stream fails with its error or as aborted |
| EngineStream.HeaderOf | src/helperChannel/engineApi.ts:230-240 | The header: the stream, three zeros, and the length in big-endian order, at most 16 MiB |
| PullReader.PullReader.OnChunk | src/helperChannel/engineClient.ts:502-511 | The reader of chunks is where the whole text so far leaves it |
| PullReader.PullImage | src/helperChannel/engineClient.ts:476-516 | What is shown and how the pull ends depends on the whole text alone, whatever its chunks are |
| PullReader.CutIsUnique | src/helperChannel/engineClient.ts:502-513 | The lines and the rest are the only way to read the text as lines without a newline and a rest without one |
| PullReader.FirstFailureEndsThePull | src/helperChannel/engineClient.ts:487-516 | The pull ends with the failure of the first line that has one, the last line without a newline included |
| PullReader.StatusEndsThePull | src/helperChannel/engineClient.ts:500-516 | Without a failing line the status decides: done with 200, else refused with what the first 2000 characters say |
| PullReader.ShownAre | src/helperChannel/engineClient.ts:480-499 | The user sees the texts of the lines in their order |
| ChannelProcess.Channel.Send | src/helperChannel/server.ts:202-232 | A message goes out unless the script exits and it is no result; a failed write ends the script, a slow one pauses the output |
| ChannelProcess.Channel.Ask | src/helperChannel/server.ts:319-337 | A request is opened and sent only for a running operation without an end or a cancel, within the bound |
| ChannelProcess.Channel.Answer | src/helperChannel/server.ts:340-364 | An answer settles its request once and adds its secrets only within both bounds |
| ChannelProcess.Channel.StartOperation | src/helperChannel/server.ts:377-453 | An operation is accepted, or refused with a result |
| ChannelProcess.Channel.HandlerEnd | src/helperChannel/server.ts:412-451 | The end of a handler: requests end, output is resumed, the rest is written, then one result |
| ChannelProcess.Channel.Shutdown | src/helperChannel/server.ts:503-515 | Every running operation is cancelled, and the exit waits for these |
| ChannelProcess.Channel.Input | src/helperChannel/server.ts:186-190 | The lines of a text, one after the other, unless the script exits |
| ChannelSafety.NextOk | src/helperChannel/server.ts:202-515 | Every event keeps the invariant of the script, and everything that an operation must keep |
| ChannelSafety.OneResultEach | src/helperChannel/server.ts:377-453 | Over every sequence of events: an ended operation has exactly one result, with its flags, of which at most one is set; a running one has none |
| ChannelSafety.HandlerEndAnswers | src/helperChannel/server.ts:412-451 | The end of the handler sends the result, with the cancel or time limit that came first, and leaves no open request |
| ChannelSafety.NoAskAfterTheEnd | src/helperChannel/server.ts:319-371 | After a cancel, time limit or end no request of the operation is opened or sent |
| ChannelSafety.AsksSettleOnce | src/helperChannel/server.ts:319-371 | Every request is settled by exactly one call, at the latest with its operation, and sent at most once |
| ChannelSafety.SecretsStayMasked | src/helperChannel/server.ts:340-364 | Every value that an operation holds is masked, and what was masked stays so, within the bound |
| ChannelSafety.PausedExactly | src/helperChannel/server.ts:238-249 | Exactly the registered output of the running operations is paused, and only while the output is; since when that is, says the next line |
| ChannelWrites.PausedSinceTheDrain | src/helperChannel/server.ts:232-249 | Over every run: the output is paused if and only if a write since the last drain found the connection slow |
| ChannelWrites.DrainedResumes | src/helperChannel/server.ts:243-248 | Once the waiting answers are written nothing is paused, and all the rest is as before |
| ChannelWrites.ExitsExactly | src/helperChannel/server.ts:202-275 | Over every run: the script exits if and only if a write failed, its input ended, or it was idle with nothing to run |
| ChannelSafety.ExitWaitsForResults | src/helperChannel/server.ts:503-515 | At an exit without the deadline the operations without a result are exactly those accepted after the shutdown that did not end |
| ChannelSafety.LateOperationIsLeft | src/helperChannel/server.ts:186-190 | Lines behind a failed write in the same text still start operations, which that shutdown does not cancel (a concrete run) |
| ChannelLate.LateExactly | src/helperChannel/server.ts:186-190 | An operation is accepted after the shutdown if and only if its request stands in a text behind a line whose answer could not be written |
| ChannelLate.EveryOperationIsAnswered | src/helperChannel/server.ts:503-515 | Without such a line, an exit without the deadline leaves every accepted operation with exactly one result, with its flags |
| ChannelLate.LeftExactly | src/helperChannel/server.ts:503-515 | An operation that runs may be left without a result by an exit without the deadline if and only if its request stands at such a line |
| ChannelReactions.FirstReasonIsTheResult | src/helperChannel/server.ts:489-496 | Of an operation that runs, whatever follows its first cancel or its time limit, its one result names exactly this |
| ChannelReactions.EveryRequestIsAnswered | src/helperChannel/server.ts:377-386 | Every request for an operation in a text that is taken is refused with a result at once or, unless a write failed before it in that text, has exactly one result when the script exits without the deadline |
| ChannelReactions.AskOpensExactly | src/helperChannel/server.ts:319-337 | A request is opened if and only if its operation runs without an end or a cancel, within the bound and sizes; it gets a new number and is sent unless the script exits |
| ChannelReactions.AnswerResolvesExactly | src/helperChannel/server.ts:340-364 | An answer resolves if and only if it is no failure and keeps both bounds; the operation then holds its secrets beside the others, otherwise its own as before |
| ChannelEvents.LineMeans | src/helperChannel/server.ts:277-317 | What each line sends, and that a cancel changes its operation alone |
| ChannelEvents.SendMeans | src/helperChannel/server.ts:202-249 | A message goes out unless the script exits and it is no result; then it shuts down, pauses all that is read, or nothing else changes |
| ChannelEvents.ShutdownMeans | src/helperChannel/server.ts:503-515 | Exactly the running operations are cancelled and awaited, the others and the output are as before |
| ChannelEvents.OperationStarts | src/helperChannel/server.ts:377-411 | A new operation masks its secrets from the start, and the first acts of its handler follow at once |
| ChannelEvents.ActMeans | src/helperChannel/server.ts:455-486 | What a handler does: messages, a secret forgotten, output whose reading is paused while the output is and resumed when it ends |
| ChannelEvents.AnswerMeans | src/helperChannel/server.ts:340-364 | An answer closes its request; it adds its secrets by name and the values that are not masked yet, within eight and thirty-two |
| ChannelEvents.EndMeans | src/helperChannel/server.ts:412-451 | The end of a handler: timer, requests and reading end, each rest of its output is written, then the result with how it ended |
| ChannelEvents.EventMeans | src/helperChannel/server.ts:243-275 | The end of the input, idle time, a time limit and the drain, on all fields |
| ExtensionNames.ParseIsMatch | src/core/vscodeExtensions.ts:227-232 | Reading a name is exactly the match of its pattern, which is unique although IDs hold hyphens and digits |
| ExtensionNames.NameRoundTrip | src/core/vscodeExtensions.ts:213-232 | The cache name of an ID, version and platform reads back in its folder, and in no other |
| ExtensionNames.NamesAreDistinct | src/core/vscodeExtensions.ts:213-215 | Two names are the same if and only if the ID (without case), version and platform are |
| ExtensionNames.NameOf | src/core/vscodeExtensions.ts:213-215 | The name is the ID in lower case, a hyphen, the three numbers, and the platform if it has one |
| ExtensionNames.IdMeans | src/core/vscodeExtensions.ts:227-232 | An ID is two texts of small letters, digits and hyphens that do not start with a hyphen |
| ExtensionCache.CompareVersions | src/core/vscodeExtensions.ts:235-243 | The first difference of the three numbers |
| ExtensionCache.NewerByNumbers | src/core/vscodeExtensions.ts:235-243 | The newer version has the greater number at the first difference |
| ExtensionCache.SeedSelection | src/core/vscodeExtensions.ts:254-283 | The loops give the seeds of the specification: the choice, else the first of the newest files |
| ExtensionCache.ChoiceComesFirst | src/core/vscodeExtensions.ts:254-283 | An entry without a pin is seeded with the chosen file as long as it is stored |
| ExtensionCache.SeedMeans | src/core/vscodeExtensions.ts:254-283 | Without it, an entry is seeded if and only if a stored file matches its name (and pin), and no stored one is newer |
| ExtensionCache.OneSeedEach | src/core/vscodeExtensions.ts:254-283 | One file for each entry that has one, in the order of the entries |
| ExtensionCache.ExtensionFilesToRemove | src/core/vscodeExtensions.ts:294-317 | The loop with its map names the files of the specification, sorted |
| ExtensionCache.CleanupRemovesExactly | src/core/vscodeExtensions.ts:294-317 | Of a named ID, a file is removed if and only if it is not chosen, not pinned and another one is the newest; of another ID always |
| ExtensionCache.RemovedInOrder | src/core/vscodeExtensions.ts:294-317 | The names to remove come in the order of their characters |
| ExtensionCache.PlatformComesFirst | src/core/vscodeExtensions.ts:254-283 | Of the same version in both folders the file of the platform is seeded, and one without a platform only when it is strictly newer |
| ExtensionCache.CleanupKeepsSeeds | src/core/vscodeExtensions.ts:254-317 | For every list contained in the union, the seeds are the same before the cleanup and after any part of it |
| ExtensionLists.CombinedExtensions | src/core/vscodeExtensions.ts:126-132 | The list of an open: each ID once, by its first entry, bounded |
| ExtensionLists.FirstEachMeans | src/core/vscodeExtensions.ts:126-132 | No ID twice, every ID there, an entry of the configuration before one of the defaults |
| ExtensionLists.WantedExtensions | src/core/vscodeExtensions.ts:189-199 | The union of the recorded lists, sorted and bounded |
| ExtensionLists.UnionIsWholeExactlyWithinItsBound | src/core/vscodeExtensions.ts:189-199 | The union contains every entry of every list that counts if and only if it has at most 200 |
| ExtensionLists.RecordedListKeepsItsSeeds | src/remoteMonitor/extensionDownloads.ts:324-354 | While the record of an open counts and the union is within its bound, no cleanup changes what the open seeds |
| ExtensionLoss.WantedExactly | src/core/vscodeExtensions.ts:189-199 | An entry of a list that counts is in the union if and only if its text is sorted before the bound |
| ExtensionLoss.AWantedFileIsLostExactly | src/remoteMonitor/extensionDownloads.ts:324-354 | A cleanup may change what the open of a counted record seeds if and only if one of its entries is sorted behind the bound, the store has a file for it, and neither another entry, a pin, a choice nor being the newest keeps it |
| ExtensionLoss.AWantedFileMayBeLost | src/core/vscodeExtensions.ts:195-198 | Three recorded lists with 201 entries: the cleanup names the file that the open of the last one seeds, and without it the open seeds nothing (a concrete store) |
| ImageVersions.CompareVersions | src/remoteMonitor/images.ts:151-158 | The index loop compares as specified, a missing part above every number |
| ImageVersions.VersionOrder | src/remoteMonitor/images.ts:151-158 | A total order on versions: equal only to itself, opposite sides, transitive |
| ImageVersions.GreaterIsHigher | src/remoteMonitor/images.ts:151-158 | At the first difference the greater number is the higher version |
| ImageVersions.VersionOfNumbers | src/remoteMonitor/images.ts:142-144 | A tag of numbers with dots between them is a version if and only if it has one to four of at most six digits |
| ImageVersions.ShorterIsNewer | src/remoteMonitor/images.ts:146-158 | A shorter version is above every version that goes on from it |
| ImageVersions.VersionsOf | src/remoteMonitor/images.ts:173-192 | The map of the loop, sorted, is the list of versions of the specification |
| ImageVersions.EntryMeans | src/remoteMonitor/images.ts:173-181 | An ID has every tag of its rows and the highest of their versions |
| ImageVersions.TagsInOrder | src/remoteMonitor/images.ts:173-181 | The tags of an ID in the order of its rows, each once |
| ImageVersions.NewerMeans | src/remoteMonitor/images.ts:182-191 | A version before none, of two versions the higher one, of the same version the later creation |
| ImageVersions.NewerIsOrder | src/remoteMonitor/images.ts:182-191 | The newest-first comparator is a strict weak order |
| ImageRetention.Pass | src/remoteMonitor/images.ts:328-334 | A removal is attempted if and only if the version is behind the two newest of its repository, kept by none, its layers are known and the start of no other image, and no container uses it |
| ImageRetention.TwoNewestStay | src/remoteMonitor/images.ts:328-334 | A removed version leaves its repository two other versions, none older, that no repository removes |
| ImageRetention.KeptAreTheTwoNewest | src/remoteMonitor/images.ts:328-334 | Kept are exactly the two newest versions of each repository |
| ImageRetention.OtherTagsStay | src/remoteMonitor/images.ts:507-509 | An image whose tags are no versions is never removed as a version |
| ImageRetention.TrimReplaced | src/remoteMonitor/images.ts:248-255 | The loop ends within the bound and drops the oldest tagged IDs, and untagged ones only when no tagged one is left |
| ImageRetention.DropMeans | src/remoteMonitor/images.ts:248-255 | Of each kind all but the first ones stay, in their order |
| BatchHelper.Helper.OpenConfigFolder | src/helperChannel/batchHelper.ts:199-214 | The calls of the code, each of which may fail, with any entry at the path at each of them |
| BatchHelper.OpenConfigIs | src/helperChannel/batchHelper.ts:199-214 | What is found is what the path named twice; without it the descriptor is closed, except exactly when its stat failed; it throws if and only if the stat or the close fails |
| BatchHelper.FailedStatLeaks | src/helperChannel/batchHelper.ts:208 | A failed stat leaves the descriptor open (a concrete run) |
| BatchHelper.Helper.RestoreAll | src/helperChannel/batchHelper.ts:262-272 | Every restore is attempted, the last pushed first, whatever throws; each throws if and only if one of its own calls does |
| BatchHelper.Helper.AsGitUser | src/helperChannel/batchHelper.ts:217-276 | The step runs if and only if no call before it fails; it pushed one restore for each change. Only the inode opened at the start is changed, its mode is back unless its restore threw, the folder of the volume ends neither sticky nor writable for others, and all descriptors are closed once if and only if no stat failed. When the repair at the start throws, nothing is opened or changed |
| BatchHelper.Helper.AsRepositoryOwner | src/helperChannel/batchHelper.ts:293-363 | The same for a step of the owner: the configuration folder is closed for all but root during it, back or repaired after it, untouched when it stays open and nothing was cut off |

## Left out

- MonitorLoop: the state of the monitor is a value in the transition system, as every await interleaves it with other
  processes; the class of `MonitorProcess` has the control flow of the stops. The logs, the idle time (`activeAt`) and the
  repeated log lines are not part of it.
- MonitorSessions.StopsOnlyUnderTheLock: a tick's own first reading is any listing and any records, so nothing is said of what
  the first decision saw; only the second one, under the lock, matters to a stop.
- MonitorSessions.AHeartbeatBeforeTheLockIsSeen: a heartbeat whose file appears while the monitor holds the lock may come too late
  for its listing, as in the source.
- HeartbeatRecords.Volume.WriteHeartbeat: a record file that cannot be read counts as missing there too; the temporary file
  and its rename are one step.
- RemovalRuns: a removal without an answer may act at any later moment there, although its command holds the lock of the records and
  is killed after ten seconds; so the safety results cover more than can happen. The runs of `RecordLoss.LosingRun` and
  `UnreadLoss.AnUnreadFileOutlivesTheNewest` have no such removal.
- NewestRuns.NewestStayUntilAllAreGone: what other processes write to the environment in the meantime is covered for one tick
  (`RemovalSafety.PassKeepsTheNewest`), as a newer heartbeat makes the record that was newest before it an old one.
- MonitorProcess.RemoteMonitorLoop.StopEnvironments: whether the engine stops a container is not asked, as the loop goes on with the
  next one in either case.
- RecordLoss.AllRecordsMayGoExactly: says nothing of how long a pass or a tick lasts; the clock between two ticks is free.
- HeartbeatRecords: the parsing of the record files and of the heartbeat input.
- CacheSchedule: whether a run is due by the schedule is a parameter; the pass and the observe are steps that may fail.
- RequestLimiter: the promises that a call resolves; `Semaphore`, a limiter with one class.
- JsoncDocuments: texts are sequences of characters, not of UTF-16 code units; documents that are no JSON with comments are
  covered by the specification of `Jsonc.StripJsonc` only.
- EngineStream: the writing side of the connection and what a destroyed socket still sends.
- PullReader: JSON parsing and the texts of the lines are one parameter that says what a line means; the login of a pull.
- ChannelServer: masking of texts, sizes of messages (a flag says whether a request fits), the timers of silence and idle time
  (events), and what a handler's own listener does in the moment its signal aborts. An output is registered by one operation.
- ChannelServer: the secrets of a parsed message are at most eight, as the parser of the protocol promises.
- ExtensionCache: entries and choices are parsed values (folder and name; ID and pin), as their strict parsers give them; the
  choice of a version to download, the engine rules, and the requests to the Marketplace.
- ExtensionLists: the reading of the entries from a configuration (`configurationExtensions`).
- ImageRetention.Pass: what the engine answers about containers is a parameter of repository and ID; the order of removals by
  reference, the pulls, and the store of the remembered IDs.
- BatchHelper: the kill of the processes of a user, the walks that give files to root, the process of the step itself, and the
  flag that lets one step run at a time. Other processes change modes and owners of inodes only while the step runs.
- Sockets, HTTP, child processes, `flock`, files and all texts of the user interface.
