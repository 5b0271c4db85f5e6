# Taymna, modelled and proved

Taymna gives a shared computer timed sessions. A server records each session; an agent on the
computer enforces it, also when it is offline, from a state file that must survive crashes and
a user who changes the clock. This project models the parts where that is hard, in Dafny, and
proves what they promise over every run.

| Files | What they model |
|---|---|
| `ClockGuard.dfy` | the anti-rollback clock, and how much running time it can lose over any run |
| `Session.dfy`, `Storage.dfy`, `RunLoop.dfy` | the enforced session, the state file, the agent's run loop |
| `Enforcement.dfy`, `EnforcedTime.dfy`, `AgentRuns.dfy` | whole histories of one computer: boots, crashes, messages in any order, ticks of any clock; what its processes ask of the platform and tell the user |
| `Warnings.dfy` | the expiry warnings, and what whole sequences of ticks show |
| `Registry.dfy`, `Machines.dfy`, `RegistryRuns.dfy`, `ServerEffects.dfy` | the protocol's messages and sockets, the connection registry, the machine rows and the gateway; what any run of them keeps, and what each step does socket by socket and row by row |
| `Protocol.dfy`, `Safety.dfy`, `Progress.dfy`, `LostAcks.dfy`, `Steadfast.dfy` | the connection task, and removing a machine end to end: server, network, connection task, run loop and state file as one transition system; what it keeps in every reachable world, why it never deadlocks, and what becomes of a lost acknowledgement |
| `Sessions.dfy`, `Usage.dfy`, `Reports.dfy` | session rows on the server, usage summaries, reports and daily buckets |
| `EndToEnd.dfy` | the server's session table and the agent's enforcement, joined by the pushes between them |
| `Csv.dfy`, `Base64.dfy` | the two hand-written codecs, each against a reader for its standard |

Objects that change in place are classes. Each method is proved equal to a function on the
object's fields, for most classes gathered in a `View()`, and the theorems about runs are about
those functions. Where a method's promise could be read off its own function, its contract also
says what happens to the fields, and laws over whole runs restate it independently.
Time is whole milliseconds. Clock readings, the order of events, losses and crashes are
arbitrary parameters of each step. `{:induction false}` marks lemmas that are proved without
Dafny's automatic induction hypothesis, also where they do not recurse.

## Where the code and its documentation differ

The model follows the code.

- `docs/offline-expiry.md:63-67` says that setting the clock back cannot extend a session. The
  code believes any reading at or past the saved mark (`agent/src/storage.rs:198-199`), so it
  can: `ClockBound.RollbackCanExtend` is an instance, `ClockBound.LosesTimeIff` says exactly
  which events cost time, and `EnforcedTime.DeadlineIsEnforced` bounds what they cost a session
  over any history. `EnforcedTime.RollbackExtendsASession` is a computer on which it happens,
  and `EnforcedTime.DeadlineBoundIsExact` shows that no smaller bound holds.
- `docs/offline-expiry.md:99-102` says that the push after a reconnect is always newer than what
  the agent knows. A first enrolment takes its baseline from the agent's own clock
  (`agent/src/storage.rs:55-65`): `Enforcement.PushIsAppliedIff` is the exact condition and
  `Enforcement.FirstPushCanBeRefused` an instance.
- `docs/expiry-warnings.md:68-70` says that a skipped threshold still fires; lines 71-72 add
  that only one level fires at a time. Exactly what fires, for any gaps between ticks and
  wherever a deadline is first seen, is `WarningRuns.CountdownShows`; after any past, with
  extensions and replacements, it is `WarningRuns.CountdownFollows`. Which notices appear is
  `WarningRuns.NoticeAppearsIff`: that of a threshold does if and only if some tick falls between
  it and the next one, and the one-minute notice only if the first such tick is not late. Gaps of up to 30 seconds lose none
  (`WarningRuns.ExactLadder`); gaps of one millisecond more can
  (`WarningRuns.LadderNeedsThirtySeconds`).
- `api/src/modules/reports/usage.ts:29-30` says that the rows add up to the machine's total.
  They do before rounding (`Reports.ReportConservesTime`). The rounded sessions of a report add
  up to their machine's row exactly when `Reports.RowAddsUpIff` says so, are off by at most half
  a second each (`Reports.RowDrift`), and are off by that much in some reports
  (`Reports.ReportDriftIsReached`) of sessions that the service itself writes
  (`DriftingRuns.HalfSecondsHappen`).
- The comment at `agent/src/main.rs:386-389` says that the client acknowledges a repeated
  instruction on its own. It does not: `LostAcks.StallIsReachable` is a reachable connection on
  which the instruction was repeated and nothing is acknowledged, `LostAcks.StalledUntilReconnect`
  says that this lasts as long as the connection does, and `LostAcks.AcksCanBeLostForever` that
  it can happen again on any number of new ones. `LostAcks.AckArrivesIff` is the exact condition
  under which a connection can still see a removal through.

## Assumptions

- Each server call is one atomic step, at one instant of a server clock that does not go back.
  Renaming the state file is atomic and durable, and a state that was written reads back whole.
- The agent does not run while it is being enrolled (`install/install.sh:275-278`).
- No enrolment token of a machine is redeemed while an acknowledgement from that machine's
  earlier removal is still on its way. Without this the safety theorem is false, and with it
  nothing else is needed: `Safety.RedeemIsSafeIff`.
- For `EndToEnd.ServerIsObeyed`, no two pushes to one machine fall in the same millisecond;
  `EndToEnd.SameInstantCanDisagree` is why. `EndToEnd.TableIsEnforced` needs only that nothing
  else heard is as new as the latest push.
- Local midnights are a strictly increasing sequence of instants.

## Model

| member | source | states |
|---|---|---|
| Clock.ClockGuard.Now | agent/src/storage.rs:196-207 | a reading never moves the mark back, and is either at least the OS time or the mark plus the monotonic time elapsed |
| Clock.ClockGuard.ResyncFromServer | agent/src/storage.rs:212-217 | the server's time only pulls the mark forward, and the anchor moves only then |
| ClockBound.TrustedTimeBound | agent/src/storage.rs:185-217 | over any run with gaps of at most D, k backward OS steps, r resyncs and n restarts, trusted time is at least start plus running time less D(k+2n+1)+(D-1)r |
| ClockBound.AllowedTimeBound | agent/src/storage.rs:185-217 | a deadline still ahead of the guard has had less running time than its remaining time, that slack and one gap |
| ClockBound.LosesTimeIff | agent/src/storage.rs:196-217 | exactly which readings, resyncs and restarts make the guard fall further behind |
| ClockBound.CostlessRunsLoseNothing | agent/src/storage.rs:196-217 | a run without such events loses no time, however often the OS clock is set back |
| ClockBound.RollbackCanExtend | agent/src/storage.rs:196-207 | one two-second rollback that costs two seconds, against what the documentation claims |
| ClockBound.SlackIsReached | agent/src/storage.rs:185-217 | for all k, r, n and D some run loses exactly the slack, so the bound is the best possible |
| Session.EnforcedSession.ApplyServerMessage | agent/src/session.rs:51-63 | a message is accepted exactly when strictly newer than the last accepted; a refused one changes nothing |
| Session.EnforcedSession.Advance | agent/src/session.rs:71-84 | an active session past its deadline becomes expired, and use is allowed exactly while an active deadline is ahead |
| Storage.CrashDuringSave | agent/src/storage.rs:140-149 | a crash at any stage of a save leaves the complete old or the complete new state to be loaded |
| Safety.CrashInSave | agent/src/storage.rs:140-149 | the process dying at any stage of the save that ends any step leaves the world that whole steps lead to: the step cut short, or the step done and then a crash |
| Enforcement.CrashInSave | agent/src/storage.rs:140-149 | the same for one computer's history |
| Storage.Store.LoadForEnroll | agent/src/storage.rs:122-138 | enrolment alone recovers from an unreadable file, which is kept aside when that rename works |
| Storage.Store.Save | agent/src/storage.rs:140-149 | a save ends with the new state under the main name and no temporary file |
| RunLoop.Runner.constructor | agent/src/main.rs:313-370 | a process starts from the file, pessimistically blocked, and owes an acknowledgement if the file says decommissioned |
| RunLoop.Runner.HandleEvent | agent/src/main.rs:384-430 | the whole new state, file and effects for each event; a decommission goes through both steps of accepting it; a decommissioned process ignores every event |
| RunLoop.Runner.AcceptDecommission | agent/src/main.rs:486-505 | the terminal state is on disk, the warning dismissed and one acknowledgement queued |
| RunLoop.Runner.Tick | agent/src/main.rs:431-468 | the whole new state, file, OS calls and warnings of a tick; none of them once decommissioned; what they are is the subject of the AgentRuns rows |
| RunLoop.Runner.Shutdown | agent/src/main.rs:379-383 | a clean shutdown saves the state in memory |
| Enforcement.EnforcementRefinesMessages | agent/src/main.rs:379-468 | after any history of crashes, restarts, messages in any order and ticks, a managed agent's tick locks exactly when the messages heard since enrolment do not allow use at its trusted time |
| Enforcement.GovernorGoverns | agent/src/session.rs:51-63 | the message found one by one is the newest one above the baseline, the first of its time |
| Enforcement.SpecIsGovernor | agent/src/session.rs:51-84 | the stateless rule and the message-by-message rule agree |
| Enforcement.OrderAndDuplicatesAreHarmless | agent/src/session.rs:51-63 | only the set of messages heard matters, when messages with one timestamp agree |
| Enforcement.PushIsAppliedIff | agent/src/main.rs:398-413 | a push is applied exactly when newer than every message heard and than the enrolment baseline, and otherwise changes nothing |
| Enforcement.FirstPushCanBeRefused | agent/src/storage.rs:55-65 | an agent whose clock was ahead when it enrolled refuses its first push |
| Enforcement.AlwaysValid | agent/src/main.rs:309-475 | file, process and messages agree after any history; an expiry recorded locally is covered by the saved mark |
| Enforcement.DurableClocksNeverDecrease | agent/src/storage.rs:185-222 | the saved mark and message time never decrease, and no reading is behind the mark on disk |
| Enforcement.SavedExpiryStaysBlocked | agent/src/main.rs:431-468 | once the file holds no active session, every tick of every later incarnation locks until a strictly newer message was accepted |
| Enforcement.DecommissionIsIrrevocable | agent/src/main.rs:379-437 | the flag on disk survives everything but enrolment, and later processes do nothing on a tick |
| AgentRuns.WarningsFollowTicks | agent/src/main.rs:438-465 | since it was started, a process's warnings are exactly those of its ticks, each with the session held and the trusted time of that tick, and it has sent exactly what they show |
| AgentRuns.AgentCountsDown | agent/src/main.rs:448-461 | so a countdown of the agent is a countdown of the warnings, after whatever it ticked before |
| AgentRuns.FinalWarningMeansUnlocked | agent/src/main.rs:438-461 | a final warning is up after a tick only if that tick did not lock |
| AgentRuns.PlatformIsTold | agent/src/main.rs:441-447 | every tick that decides to block asks to lock; one that allows asks to unlock exactly when that was not the last thing this process asked for, so the first after a start always does |
| AgentRuns.TickSaves | agent/src/main.rs:438-467 | a tick saves its trusted time, and a session that ran out by then as expired, and changes nothing else |
| AgentRuns.EnrollmentIsACleanSlate | agent/src/main.rs:288-303 | enrolment keeps the two clocks of an older state and nothing else of it |
| EnforcedTime.DeadlineIsEnforced | agent/src/main.rs:431-468 | whatever crashes, restarts, messages and OS times an agent meets, a tick that does not lock comes before the session's remaining time plus the clock's slack has been spent running |
| EnforcedTime.RunWatched | agent/src/storage.rs:185-222 | the clock of a computer, in memory and on disk, follows the bounded clock through any history |
| EnforcedTime.DeadlineBoundIsExact | agent/src/storage.rs:185-222 | for all k, r, n and D some computer's history has a tick that does not lock one millisecond short of the bound |
| EnforcedTime.RollbackExtendsASession | agent/src/storage.rs:196-207 | a computer whose clock is set back two seconds keeps the last three seconds of a session open for four |
| Warnings.ExpiryWarnings.Reconcile | agent/src/warning.rs:101-175 | the whole new state and the effects of an evaluation, which the WarningRuns rows describe from the outside |
| Warnings.ExpiryWarnings.DismissFinal | agent/src/warning.rs:177-182 | a visible final warning is dismissed once, and none is visible after |
| WarningRuns.ShowAndDismissAlternate | agent/src/warning.rs:101-182 | over any ticks, shows and dismissals of the final warning strictly alternate, and the flag says which came last |
| WarningRuns.VisibleImpliesAllowed | agent/src/main.rs:438-465 | after any tick a visible final warning means that this tick allowed use |
| WarningRuns.NothingOverdue | agent/src/warning.rs:145-162 | after an evaluation with time left, the level of the remaining time or a more urgent one has fired |
| WarningRuns.FiredIsShown | agent/src/warning.rs:164-172 | a tick that fires a level shows that level's effect last, and one that fires none shows at most dismissals |
| WarningRuns.LevelsStrictlyIncrease | agent/src/warning.rs:157-162 | under one deadline no level is repeated and none already passed is replayed |
| WarningRuns.ExactLadder | agent/src/warning.rs:99-254 | a countdown seen from above ten minutes, ticking at least every 30 seconds, shows 10, 5 and 1 minutes, one final warning and one dismissal, exactly and in order |
| WarningRuns.CountdownShows | agent/src/warning.rs:101-175 | everything a countdown shows, wherever it is first seen and whatever its gaps, from its tick times alone: the first tick in each band speaks, with the minutes left then; a late entry into the last minute goes straight to the final warning |
| WarningRuns.CountdownFollows | agent/src/warning.rs:108-123 | after any past a new deadline, by extension, replacement or late first look, shows the dismissal of an older final warning, if one is up, and then its own countdown |
| WarningRuns.WarningsAreTruthful | agent/src/warning.rs:217-254 | after any past, every notice of a new deadline states the minutes left at the tick that sent it, to the nearest, with the level and urgency of that time, and its final warning the very seconds |
| WarningRuns.NoticeAppearsIff | agent/src/warning.rs:145-215 | after any past, a new deadline's notice of a threshold appears if and only if some tick falls in its band, and for the last minute the first such tick is not late |
| WarningRuns.LadderNeedsThirtySeconds | agent/src/warning.rs:145-194 | with gaps of 30.001 seconds some countdown never shows its one-minute notice |
| Registry.ConnectionRegistry.RegisterAgent | api/src/modules/realtime/connection-registry.service.ts:21-30 | the new socket takes the entry; an older one that is open is sent close code 4000 and is open no more; no other socket changes |
| Registry.ConnectionRegistry.UnregisterAgent | api/src/modules/realtime/connection-registry.service.ts:32-36 | only the entry's own socket can remove it |
| Registry.ConnectionRegistry.SendToMachine | api/src/modules/realtime/connection-registry.service.ts:51-56 | the registered socket's queue grows by exactly that frame if it is open; every other socket and every entry stays |
| Registry.ConnectionRegistry.DisconnectMachine | api/src/modules/realtime/connection-registry.service.ts:68-74 | the registered socket, if open, is sent the close code and is open no more; the machine loses its entry; no other socket or entry changes |
| RegistryRuns.NewestSocketWins | api/src/modules/realtime/connection-registry.service.ts:21-74 | after any run of the server and the network, the entry is exactly the last socket verified for the machine and neither replaced, kicked nor closed since; late close events of stale sockets evict nobody |
| RegistryRuns.OneOpenSocket | api/src/modules/realtime/realtime.gateway.ts:45-69 | at most one authenticated socket of a machine is open, and it is the registered one |
| ServerEffects.WhatGoesOut | api/src/modules/realtime/realtime.gateway.ts:45-134 | for every step and every socket, exactly which frame or close code is written to it, and what becomes of its queues, its ends and its listener |
| ServerEffects.WhatIsStored | api/src/modules/machines/machines.service.ts:106-246 | for every step and every machine, exactly what its row becomes, what operators are told and which counters move |
| ServerEffects.RequestIsDelivered | api/src/modules/machines/machines.service.ts:157-165 | asking for the removal of an enrolled machine puts the order last on its open socket's queue, every time |
| ServerEffects.PushIsDelivered | api/src/modules/sessions/sessions.service.ts:98-104 | a push puts the session last on the machine's open socket's queue |
| ServerEffects.AuthenticatesIffLastIssued | api/src/modules/machines/machines.service.ts:230-269 | over any run, a secret authenticates a machine if and only if the machine exists, the secret is the last handed out for it, and it was not revoked since |
| Machines.MachinesService.Enroll | api/src/modules/machines/machines.service.ts:230-245 | redeeming a token replaces the credential and clears the revocation, and nothing else: not a pending removal |
| Machines.MachinesService.RevokeCredential | api/src/modules/machines/machines.service.ts:106-113 | the credential is cleared and the live connection closed with 4001 |
| Machines.MachinesService.RequestDecommission | api/src/modules/machines/machines.service.ts:136-169 | without a usable credential the row goes at once; otherwise it is marked and announced once, and the agent told each time; delivered means that its registered socket was open |
| Machines.MachinesService.FinalizeDecommission | api/src/modules/machines/machines.service.ts:182-194 | deletes, closes with 4003 and announces only while the machine is pending; otherwise changes nothing |
| Machines.MachinesService.HardDelete | api/src/modules/machines/machines.service.ts:197-201 | the row goes, the connection is closed with 4002, and the removal is announced |
| Machines.RealtimeGateway.AuthenticateAgent | api/src/modules/realtime/realtime.gateway.ts:61-81 | a bad credential is closed with 4001 and never registered; a good one is registered and listened to |
| Machines.RealtimeGateway.GreetAgent | api/src/modules/realtime/realtime.gateway.ts:83-101 | a pending machine is sent the order instead of any session |
| Machines.RealtimeGateway.HandleAgentMessage | api/src/modules/realtime/realtime.gateway.ts:114-134 | an acknowledgement finalizes the socket's own machine, a heartbeat is answered, each message once |
| Machines.RealtimeGateway.HandleDisconnect | api/src/modules/realtime/realtime.gateway.ts:45-53 | a closing agent socket gives up its own entry only |
| MachineRuns.RemovedIsAnnouncedOnce | api/src/modules/machines/machines.service.ts:182-201 | operators are told of a removal exactly once per deleted machine, over any run |
| MachineRuns.PendingIsNeverReset | api/src/modules/machines/machines.service.ts:147-155 | a pending time once set never changes, and a row once gone never returns |
| MachineRuns.ListeningWasVerified | api/src/modules/realtime/realtime.gateway.ts:61-81 | a socket that is listened to was once verified for its machine |
| MachineRuns.OnlyAnAckDeletesAnEnrolledMachine | api/src/modules/machines/machines.service.ts:136-201 | a row with a usable credential disappears only while pending, through an acknowledgement on a socket verified for it |
| Client.ConnectionTask.Connect | agent/src/client.rs:199-208 | waiting commands are taken first, and a connection starts with an acknowledgement exactly when one is owed |
| Client.ConnectionTask.TakeCommand | agent/src/client.rs:232-245 | the duty to acknowledge is kept even when the write fails |
| Client.ConnectionTask.Receive | agent/src/client.rs:246-335 | which event each frame becomes and how it is dated, and that only 4003, or 4001 once acknowledging, ends the task |
| Safety.FinalizedMeansReleased | agent/src/main.rs:486-505 | in every reachable world, once an acknowledgement deleted a row the state file does not hold that machine's credential as managed |
| Safety.FinalizedNeverLocksAgain | agent/src/main.rs:431-437 | and nothing locks the computer on that machine's behalf in any later incarnation |
| Safety.LocksAreRecorded | agent/src/main.rs:441-445 | the record of locks that these theorems are about grows with every tick that asks to lock, even one cut short by a crash, and never otherwise |
| Safety.AckImpliesDurable | agent/src/main.rs:486-505 | wherever the computer crashed, an acknowledgement in the channel, the task or on a deliverable socket exists only after the flag is on disk |
| Safety.StepKeepsSafe | agent/src/client.rs:179-285 | the invariant of server, sockets, file and process that every step keeps |
| Safety.RedeemIsSafeIff | api/src/modules/machines/machines.service.ts:231-243 | redeeming a token can strand the computer if and only if an old acknowledgement of that machine is in flight |
| Safety.ManagedMachinesMayBeRedeemed | api/src/modules/machines/machines.service.ts:231-243 | a machine that is not pending can always be redeemed safely |
| Safety.AckCanBeInFlight | agent/src/client.rs:232-240 | a reachable world in which the assumption matters |
| Progress.RemovalNeverDeadlocks | agent/src/client.rs:131-285 | from every reachable world with a pending row and a matching credential, finitely many steps, none a crash, delete the row, leave the agent inert and end its connection task |
| Progress.NextAdvances | api/src/modules/realtime/realtime.gateway.ts:61-134 | each scheduled step is possible, keeps the removal underway and decreases a measure |
| Progress.StepKeepsLive | agent/src/client.rs:259-277 | nobody is told to stop while its credential is good, and a decommissioned process keeps owing its acknowledgement |
| Steadfast.ManagedAgentsKeepConnecting | agent/src/client.rs:259-277 | in every reachable world a connection task has ended only if the state file says decommissioned, whatever close codes were sent |
| LostAcks.AckArrivesIff | agent/src/client.rs:199-245 | while a removal is pending, the connection of a process that accepted it can see it through if and only if the gateway hears it or can come to, and an acknowledgement is on it or a command to send one waits |
| LostAcks.SilentUntilReconnect | agent/src/main.rs:386-393 | over any run on a connection that cannot deliver, it never can and no message read from it removes a row |
| LostAcks.StalledUntilReconnect | agent/src/client.rs:232-245 | once an acknowledgement is lost, nothing on that connection repeats it, over any run that keeps it |
| LostAcks.StallIsReachable | api/src/modules/realtime/realtime.gateway.ts:71-81 | a reachable world that owes an acknowledgement, and the exact steps, the order's repetition and handling among them, that leave its new connection stalled |
| LostAcks.AcksCanBeLostForever | agent/src/client.rs:199-208 | from any world that owes an acknowledgement, for every n, n whole reconnections in a row that all lose it and leave the row as it was |
| Sessions.SessionsService.GetActiveSession | api/src/modules/sessions/sessions.service.ts:37-42 | stale rows of the machine are expired first; the answer is an active row whose deadline has not passed, if there is one |
| Sessions.SessionsService.Start | api/src/modules/sessions/sessions.service.ts:44-67 | refused for an unknown machine, and as a conflict exactly when an active row has a deadline not before now; otherwise one new active row from now for the minutes granted, pushed once; stale rows of the machine are expired |
| Sessions.SessionsService.Extend | api/src/modules/sessions/sessions.service.ts:69-77 | succeeds exactly on an active row with its deadline ahead; that row's deadline moves by the minutes granted, counted from the old deadline, and nothing else changes but its date |
| Sessions.SessionsService.End | api/src/modules/sessions/sessions.service.ts:79-87 | succeeds exactly on an active row with its deadline ahead, which is ended now; its start and deadline and every other row stay |
| Sessions.SessionsService.Sweep | api/src/modules/sessions/sessions.sweeper.ts:20-24 | every active row past its deadline is marked expired and dated now, and nothing else changes |
| SessionRuns.SessionsAreDisjoint | api/prisma/migrations/20260910180900_one_active_session_per_machine/migration.sql:6 | after any calls a machine has at most one active session and its usable intervals are pairwise disjoint |
| SessionRuns.DeadlineIsWhatWasGranted | api/src/modules/sessions/sessions.service.ts:44-77 | after any calls, each row's deadline is its start plus all the minutes granted by its start and its successful extensions |
| SessionRuns.DeletionCascades | api/src/modules/machines/machines.service.ts:196-199 | deleting a machine deletes its sessions and no others |
| SessionRuns.UsageCountsInstants | api/src/modules/reports/usage.ts:58-114 | after any calls, a machine's time is the number of instants of the window at which some session made it usable, each counted once |
| SessionRuns.UsageFitsTheWindow | api/src/modules/reports/usage.ts:58-114 | a machine's time never exceeds what has passed of the window, before rounding or after |
| SessionRuns.PastReportsNeverChange | api/src/modules/sessions/sessions.service.ts:30-96 | for a window that has ended, later calls of any kind leave each existing machine's time as it was |
| EndToEnd.TableIsEnforced | agent/src/session.rs:51-84 | an agent that heard a push, and otherwise only older messages, in any order, with duplicates and losses, crashes and restarts, allows use if and only if the server's table, whose active session of the machine has not changed since, has one with its deadline ahead of trusted time, and that push is newer than the enrolment baseline |
| EndToEnd.ServerIsObeyed | api/src/modules/sessions/sessions.service.ts:30-110 | so an agent that heard nothing but the server's pushes, the latest among them, enforces the table; calls since that leave the machine alone make no difference |
| EndToEnd.FrameIsHeard | agent/src/client.rs:310-323 | the frame of a push reaches the run loop as the session it carries, dated by its last change, or by the server's time if it carries none |
| EndToEnd.PushCrosses | api/src/modules/sessions/sessions.service.ts:98-104 | a push to a machine whose registered socket is open is the last thing on that socket |
| EndToEnd.SameInstantCanDisagree | agent/src/session.rs:57-59 | with two pushes in one millisecond an agent that heard both can allow a session that the table has ended |
| EndToEnd.LeftAlone | api/src/modules/sessions/sessions.service.ts:30-96 | calls that push nothing to a machine, do not delete it and do not sweep up its session keep its active row |
| EndToEnd.LastPushIsNewest | api/src/modules/sessions/sessions.service.ts:98-110 | with pushes to one machine at distinct instants, the push of the last call is dated after every earlier one, except where it repeats one |
| EndToEnd.LastPushIsTheTable | api/src/modules/realtime/realtime.gateway.ts:96-101 | what the push of the last call allows is what the table says |
| Usage.SummarizeUsage | api/src/modules/reports/usage.ts:88-114 | one row for every machine and no other, with its own total and count, most used first and then by name |
| Usage.ClippedCountsInstants | api/src/modules/reports/usage.ts:58-81 | a session's share of a window is the number of instants from its start until its deadline, until it was ended, and until now if it still runs |
| Usage.TotalsIgnoreOrder | api/src/modules/reports/usage.ts:102-109 | totals and counts do not depend on the order of sessions |
| Usage.FilterLosesNothing | api/src/modules/reports/reports.service.ts:38-43 | sessions outside the database filter contribute nothing |
| Usage.CandidatesAre | api/src/modules/reports/reports.service.ts:43 | the filter keeps exactly the sessions started before the window's end and due after its start |
| Usage.SummaryIgnoresOrderAndFilter | api/src/modules/reports/reports.service.ts:37-54 | the summary has the same rows for any order of sessions, filtered or not |
| Usage.SortedSorts | api/src/modules/reports/usage.ts:113 | sorting by a total preorder orders the rows and loses none |
| Reports.UsageReportFor | api/src/modules/reports/reports.service.ts:22-66 | the two refusals, and a report that summarizes the whole table although it reads the filtered one |
| Reports.TotalUsedSeconds | api/src/modules/reports/reports.service.ts:60 | the total is the sum of the rows |
| Reports.TotalDrift | api/src/modules/reports/reports.service.ts:60 | the total is the time of the report's machines, off by at most half a second for each |
| Reports.ListAgreesWithRows | api/src/modules/reports/reports.service.ts:62-64 | the listed sessions come newest first, belong to reported machines, and number what each row counts |
| Reports.ListIsFaithful | api/src/modules/reports/usage.ts:130-143 | every listed session is one of the table's, with its machine, start and status, the end of its use, and its rounded time inside the window |
| Reports.DailyUsage | web/src/lib/daily-usage.ts:32-61 | one entry per local day, each its own rounded time |
| Reports.DaysTileTheWindow | web/src/lib/daily-usage.ts:46-58 | for any midnights, the days' unrounded time adds up to the window's |
| Reports.ReportConservesTime | web/src/lib/report-range.ts:60-65 | a report's unrounded time is the same by machine, by session and by local day |
| Reports.RowDrift | api/src/modules/reports/usage.ts:112-142 | in every report, a machine's listed seconds differ from its row by at most half a second for each session |
| Reports.RowAddsUpIff | api/src/modules/reports/usage.ts:27-31 | they add up to the row exactly when what rounding leaves over of their times sums to less than half a second |
| Reports.ReportDriftIsReached | api/src/modules/reports/usage.ts:112-142 | n sessions ended after half a second each are listed as n seconds, and their row says half of that |
| DriftingRuns.HalfSecondsHappen | api/src/modules/sessions/sessions.service.ts:44-87 | for every n a run of start and end leaves exactly those sessions in the table |
| Reports.DayDrift | web/src/lib/daily-usage.ts:46-58 | the rounded days differ from the rounded window by at most half a second for each day, and when they do not |
| Csv.CsvRoundTrip | web/src/components/usage-report.tsx:282-299 | reading the export back by section 2 of RFC 4180 gives the header and then each machine's name, platform, hours, sessions and window, in this order, whatever the names contain |
| Csv.EscapedOnlyIfSpecial | web/src/components/usage-report.tsx:297-299 | a field without quotes, commas and line breaks is written as it is; any other grows by its quotes and two |
| Csv.TextLength | web/src/components/usage-report.tsx:294 | one comma between fields, two characters between records, and nothing more |
| Csv.TableReadsBack | web/src/components/usage-report.tsx:294-299 | so does any table whose records have at least two fields |
| Base64.Base64 | agent/src/platform/windows.rs:303-317 | the loop over chunks computes the specification |
| Base64.DecodeInvertsEncode | agent/src/platform/windows.rs:303-317 | decoding by section 4 of RFC 4648 gives back every byte string |
| Base64.DecodesIffEncoded | agent/src/platform/windows.rs:303-317 | a text decodes to a byte string if and only if it is that string's encoding |
| Base64.DigitIsInTable | agent/src/platform/windows.rs:304 | the digits are those of the source's table of 64 characters |
| Base64.EncodedLength | agent/src/platform/windows.rs:305 | four characters for every three bytes, rounded up |
| Base64.PaddingIsLast | agent/src/platform/windows.rs:313-314 | as many padding characters as the last group lacks bytes, at the end and nowhere else |

## Left out

- The operating system: locking, notifications, services and PowerShell. Calls are recorded as a trace; notification texts are named by their level.
- I/O errors of the state file. A save that fails ends the process, as a crash does.
- Power loss that undoes a rename, and file permissions.
- Sockets, TLS, JSON and NestJS. A connection is two queues that are lost when the link breaks, and a listener attached late; sockets are named instead of referenced.
- Error frames, malformed and unknown messages, and the client's command channel closing: the receiver ignores the former, and the latter ends the process.
- Secrets, hashing, tokens and their expiry, throttling, operator logins: a credential is a number that matches or does not, and a token that was valid is redeemed.
- A second computer that enrols as a machine while the first still holds its old credential.
- Heartbeat times, agent versions and the notices operators get about them; when heartbeats are sent is arbitrary.
- Machines.RealtimeGateway.GreetAgent: the session it sends is a parameter; that it is the table's active one is the subject of `EndToEnd.dfy`, which has no sockets.
- Reconnect backoff, and the delivery thread of the warnings.
- Overflow of 64-bit times, and time below a millisecond.
- Floating-point seconds: sums are exact milliseconds, rounded where the source rounds.
- Time zones and daylight saving: midnights are given.
- `localeCompare`: any collating key of names.
- Number formats of the export: any functions from numbers to text.
- Usage.SummarizeUsage: says that rows are ordered by usage and name, not in what order equal rows come.
- Machines.MachinesService.Enroll: whether the presented token is valid is decided before the call, and tokens are not marked as used.
- Sessions.SessionsService.Start: minutes lie in the range the request validation admits, from 1 to 10080.
- Safety.FinalizedMeansReleased: covers rows deleted by an acknowledgement; revoking a machine and then removing it deletes the row at once, by design, and leaves its agent enforcing.
- Progress.RemovalNeverDeadlocks: says that finalization stays reachable, not that it is inevitable, since an acknowledgement can be lost.
- Base64.Base64: the shifts of a block are given by division.
- The dashboard, presets and labels, configuration, installers, health checks: no core logic.
