# Verified model of the no-wait runtime, its logs and its updates

Ploinky starts agents in the background: a start returns once its blocking agents are ready and
leaves one detached *no-wait worker* per remaining agent. Workers of later waves wait for the status
files of earlier ones, launch and publish a runtime under a workspace lease and a network lock, and
everything that observes them (a later start, the `logs` command, the availability store, the
updater) reads files that other processes may replace at any moment. This project models that
logic in Dafny and proves what it promises against such an environment.

| file | models | main results |
|---|---|---|
| `WaveProtocol.dfy`, `Barrier.dfy` | all workers as one step system over shared status files | dependency safety, deadlock freedom, bounded termination, a cause for every failure, and success of every undisturbed run, over all interleavings |
| `StatusWait.dfy`, `NoWaitProtocol.dfy` | the barrier poll loop, its fault and exit windows, the cumulative wave budget | the exact reason of every verdict in terms of the whole poll history; punctual runs never time out |
| `Transaction.dfy` | one worker's lifecycle transaction | lock discipline, single activation, guarded cleanup on every failure path; it throws exactly when something failed |
| `RetryLoops.dfy` | the lease, launch and settlement retry loops | at most one effect, under the right lock; no step skipped, every throw explained; termination |
| `LogSource.dfy` | which log the `logs` command may emit, and when | no byte without a re-check after acquisition; descriptors closed exactly once; every exit code explained |
| `LogReading.dfy`, `ChildSupervisor.dfy` | reading and following a growing file; supervising the log child | exact last lines, gapless follow, single settlement |
| `SlotPlanner.dfy` | late-outcome slots of the hardware-availability store | resolving never changes a denial; staging lifts only spawned ones |
| `UpdateGraph.dfy`, `UpdateDecision.dfy`, `UpdateActivation.dfy` | the update graph worklist, requirement closure and decision, alone and joined | exact reachability, fixpoint, composition; an update has to be verified exactly when a workspace needs it; enabling an agent never unblocks an activation |
| `Sse.dfy`, `SseDelivery.dfy` | the event-stream reader of the browser client | the exact condition for independence of chunk boundaries; written streams are read back; each waiter is told its first answer |

How to read it. Code that updates variables or objects is a method or a class; what it must do is a
function of its inputs, or a discipline over the trace of its effects. In `Transaction.dfy` and
`LogSource.dfy` every effect appends an event; `Watch` summarises the events so far, `Gate` says when an event
is allowed, and the methods, with every callback, read and release free to fail or answer
anything, are proved to pass the gate each time. The lemmas after each class then say what a legal trace means
in terms of its events alone.

Unseen parts of the system answer arbitrarily: file contents, clocks, process
liveness, callbacks and lock managers are havocked or are parameters over which the theorems
quantify. A loop that could be kept going forever is observed for an arbitrary finite number of
polls (`LogReading.Follow`, the loops of `LogSource.Session`), or runs against a clock that may misbehave an
arbitrary finite number of times (`Clock`); every finite run is one of these.

Two promises are not true of the code as they stand, and the exact condition is proved instead:

- The event-stream reader prefers an LF blank line anywhere in its buffer to an earlier CRLF one,
  so its events can depend on the division into chunks. `EventStream.ChunkIndependence` gives the condition,
  `EventStream.MixedEndingsDepend` a stream that fails it.
- The update graph remembers visited agents by the text `repository/agent`, so two agents can share a key and
  one is skipped. `UpdateGraph.ReadUpdateGraph` gives the condition, `UpdateGraph.RegistryAgentsCanCollide` a
  workspace that fails it. It takes a registry with a slash in a repository name; adding a repository refuses
  one (cli/utils/repos.js:258), and `UpdateGraph.SlashFreeWorldIsExact` says that without one the graph is exact.

## Model

| member | source | states |
|---|---|---|
| `WaveProtocol.RunningRespectsDependencies` | cli/commands/noWaitWorker.js:527-608 | Wave dependency safety: in every interleaving of any number of workers, with crashes, timeouts and files replaced under them, a worker that publishes `running` had every worker reachable from it through direct dependencies publish `running` strictly earlier |
| `WaveProtocol.RunKeepsInv` | cli/commands/noWaitWorker.js:1864-1893 | Every reachable state keeps: a readable `running` of its owner was really published, and a worker past its barrier is entitled to launch |
| `WaveProtocol.StepKeepsInv` | cli/commands/noWaitWorker.js:2116-2153 | Each single step, including another process replacing or deleting a file, keeps that invariant |
| `WaveProtocol.ReleaseEntitles` | cli/commands/noWaitWorker.js:564-607 | A barrier that settled without an error and without a failed direct dependency means every direct dependency ran |
| `WaveProtocol.ReadMember` | cli/commands/noWaitWorker.js:462-484 | A member counts as running or failed only on a document that carries its run id, run start and wave |
| `WaveProtocol.ObservationIsAPoll` | cli/commands/noWaitWorker.js:444-524 | An observation in the step system is the value the poll loop returns for that read, and the loop's invalid-status error is an observed error or an unsettled document without a usable pid, on which the worker gives up |
| `WaveProtocol.NoDeadlock` | cli/commands/noWaitWorker.js:527-608 | Deadlock freedom: every reachable state with an unsettled worker has a step that moves some worker on, and a timeout is needed only for a member that crashed or whose file was touched |
| `WaveProtocol.FailureHasCause` | cli/commands/noWaitWorker.js:527-608 | Over any run: a worker publishes `failed` only if it was refused admission, its launch or its release failed, it gave up on a barrier member, or it saw an invalid member or a failed direct dependency |
| `WaveProtocol.SmoothRunsRunEverything` | cli/commands/noWaitWorker.js:1864-1893 | Liveness of success: from a clean start, in every interleaving in which nothing is refused, fails, crashes, is given up or tampered with, once no step is left every worker has published `running` and exited and none published `failed` |
| `WaveProtocol.UnfinishedWorkerMoves` | cli/commands/noWaitWorker.js:527-608 | In such a run an unsettled worker whose members are settled always has a step that is not a failure |
| `WaveProtocol.SomeWorkerIsUnblocked` | cli/commands/noWaitWorkerArgs.js:259-277 | Because barriers name strictly earlier waves, some unsettled worker waits for settled workers only |
| `WaveProtocol.RunKeepsSettledFiles` | cli/commands/noWaitWorker.js:1874-1893 | A worker that settled without crashing stays readable as settled while nobody else touches its file |
| `WaveProtocol.WorkersTakeBoundedSteps` | cli/commands/noWaitWorker.js:1731-1893 | Termination: over any run, worker steps are bounded by a rank of the schedule, whatever other processes do to the files |
| `Barrier.ParseStatusBarrier` | cli/commands/noWaitWorkerArgs.js:239-278 | The parser accepts exactly the arrays of at most 1024 well-formed entries of this run, of strictly earlier waves, with no file twice, and keeps all entries in order |
| `Barrier.ExactEntry` | cli/commands/noWaitWorkerArgs.js:201-237 | An entry is accepted exactly when it meets every demand on fields, relation, run, path, producer and wave |
| `StatusWait.WaitForRunScopedStatus` | cli/commands/noWaitWorker.js:421-525 | Against every script of clock, file and liveness answers the loop, which keeps three variables, gives at each iteration the verdict of the whole poll history (characterised by `StatusWait.VerdictMeaning` and `StatusWait.SleepMeaning`), sleeps exactly the demanded times, and stops at the first iteration that must not sleep |
| `StatusWait.VerdictMeaning` | cli/commands/noWaitWorker.js:444-524 | Exactly when each iteration returns, throws for an invalid status, a worker exit, a file that remained unreadable or a timeout, or sleeps: the windows are those opened by the poll that opened the current gap or exit, with the configured lengths |
| `StatusWait.SleepMeaning` | cli/commands/noWaitWorker.js:509-523 | A sleep is one poll interval, or ends exactly at the first end of its phase, the read gap or the exit window; before its end none of them has ended |
| `StatusWait.WindowsBoundEverySleep` | cli/commands/noWaitWorker.js:462-524 | A return rests on a terminal document of the own run scope read in that iteration; a sleep lies inside every open read-fault and worker-exit window and never outlasts it |
| `StatusWait.WholeWaitIsBounded` | cli/commands/noWaitWorker.js:443-523 | If active phases start by P, no iteration of the whole wait sleeps at or past, and no sleep outlasts, the larger of the wave budget and P plus one phase, or before any document the publication deadline or the first fault's window |
| `StatusWait.FirstFaultMeaning` | cli/commands/noWaitWorker.js:453-464 | The read-fault window starts exactly at the poll that opened the current gap, in both directions |
| `StatusWait.FirstDeadMeaning` | cli/commands/noWaitWorker.js:499-511 | The worker-exit window starts at the first dead answer that no later live document cancelled |
| `StatusWait.ExitWindowUnique` | cli/commands/noWaitWorker.js:499-511 | Only one poll can have opened the exit window, and it is the one the loop remembers |
| `StatusWait.FlappingKeepsWindow` | cli/commands/noWaitWorker.js:453-461 | Missing and unreadable reads in any mixture never restart the window |
| `WaveBudget.NoWaitTimesOut` | cli/commands/noWaitProtocol.js:160-171 | If every worker keeps its own deadlines, no barrier wait in any wave of any dependency graph times out: each poll sleeps until the member settles and then returns what it published |
| `WaveBudget.SettlesWithinWave` | cli/commands/noWaitProtocol.js:160-171 | By induction over waves each worker settles inside the cumulative budget of its wave |
| `NoWaitProtocol.QueuedDeadlineWithinBudget` | cli/commands/noWaitProtocol.js:118-171 | No configuration and no wave moves a queued deadline past 357,888,300,000 ms after the run start, and below that no overflow error is raised |
| `NoWaitProtocol.ResolveTimeouts` | cli/commands/noWaitProtocol.js:118-158 | Every configuration, however malformed, resolves to budgets inside the documented bounds |
| `NoWaitProtocol.ConfiguredBudgets` | cli/commands/noWaitProtocol.js:118-158 | Each budget comes from its own input: the input when in range, the nearer bound when out of range, the documented default when absent; the active budget adds three pulls and the builds |
| `NoWaitProtocol.ResolveObservation` | cli/commands/noWaitProtocol.js:187-245 | Exactly when a document is failed, running, queued or active for a run scope, with the active deadline and the pid; a document of another run, run start or wave is always invalid |
| `Transaction.Transaction.Run` | cli/commands/noWaitWorker.js:901-1108 | With every callback, lock and release failing at will, the transaction ends with no lock held; it returns if and only if activation succeeded and no lock release failed after it, and throws if and only if some effect before any cleanup failed (`Transaction.FailureMeaning`); a returned one kept the lease from the result to the activation exactly when asked to; otherwise a task-owned candidate that was not committed has been cleaned up, found published, its cleanup was attempted and blocked, or the cleanup lease was denied as the last effect |
| `Transaction.FailureMeaning` | cli/commands/noWaitWorker.js:901-1108 | The failure flag is an event of the trace that failed with no cleanup attempt before it, in both directions |
| `Transaction.HeldMeaning` | cli/commands/noWaitWorker.js:1017-1107 | Held through means that the lease was not released between the result and the begin of its activation |
| `Transaction.OwnRecordIsPublished` | cli/commands/noWaitWorker.js:877-899 | A ready lifecycle with the candidate's own route and record publishes it exactly when it is a sandbox or carries an exact container id that the candidate does not contradict |
| `Transaction.CleanupRespectsOwnership` | cli/commands/noWaitWorker.js:963-1007 | Over the whole trace: at most one cleanup, never together with a commit, under both locks, right after its inspection, on a task-owned result, and only if the lifecycle re-read in that lease does not publish it |
| `Transaction.ActivationIsGated` | cli/commands/noWaitWorker.js:1017-1107 | At most one activation, under both locks, right after its inspection, after readiness of that result, and revalidated in the current lease if the lease was ever given up |
| `Transaction.LocksNest` | cli/commands/noWaitWorker.js:901-1108 | The network lock is taken and given back inside the lease; runtimes are ensured and inspected only under both |
| `Transaction.LeaseMeaning` | cli/commands/noWaitWorker.js:901-1108 | The summary's lease bit is the lease events of the trace |
| `Transaction.NetworkMeaning` | cli/commands/noWaitWorker.js:901-1108 | The summary's network bit is the network events of the trace |
| `Transaction.OnceMeaning` | cli/commands/noWaitWorker.js:1017-1107 | The counters of activations and cleanups are the numbers of those events in the trace, and the commit flag is a commit event |
| `Transaction.SuccessMeaning` | cli/commands/noWaitWorker.js:1050-1107 | The success flag is an activation that ended well with no failed lock release after it, in both directions |
| `Transaction.RevalidationMeaning` | cli/commands/noWaitWorker.js:1074-1090 | Revalidated means a successful revalidation since the current lease was acquired |
| `Transaction.ReloadMeaning` | cli/commands/noWaitWorker.js:963-1007 | The remembered reload was read under the current lease |
| `Transaction.Transaction.CleanupWhileLocked` | cli/commands/noWaitWorker.js:963-1007 | One guarded cleanup attempt: ownership re-read, network lock if missing, inspection, cleanup; the locks are as before |
| `Transaction.Transaction.CleanupAfterRelease` | cli/commands/noWaitWorker.js:1009-1015 | A cleanup that is still required is attempted under a new lease; it stays unattempted only if that lease was denied |
| `Transaction.Transaction.EnsureWithLocks` | cli/commands/noWaitWorker.js:1027-1066 | Ensuring under both locks ends activated exactly when activation succeeded, ready to continue untouched, or failed with an event that says so and a required cleanup already attempted |
| `Transaction.Transaction.ActivateRevalidated` | cli/commands/noWaitWorker.js:1074-1090 | Activation in a new lease happens only after revalidation and inspection under both locks |
| `LifecycleLease.WithActiveLease` | cli/commands/noWaitWorker.js:1282-1355 | In every run the callback runs at most once, with the lease held, on a lifecycle equal before and under the lease; no step is skipped: every sample is followed by a try under the lease and an unchanged lifecycle by the callback, unless time ran out, and it sleeps, without the lease and no longer than the interval, only after a try that calls for another; a value is returned exactly when the callback and the release succeeded, it throws exactly on a last event that says why, and a timeout means a clock at the deadline; the loop ends |
| `HostLaunch.Launch` | cli/commands/noWaitWorker.js:1368-1458 | In every run the host runtime is launched at most once, outside the apply lock, right after a locked read of the attempt's own selector of the initial generation and a successful release, and nothing follows it; no step is skipped: the first attempt is on the initial selector, every matching locked read is followed by the launch, and it sleeps only after an inactive selector; it throws exactly on a last event that says why; a timeout means no launch and a clock at the deadline; the loop ends |
| `Settlement.AcquireSettledLease` | cli/commands/noWaitRunSettlement.js:182-213 | A returned lease is held and its last inspection, made under it, found no worker able to progress; every other lease is given back exactly once after its inspection; no sleep falls inside an acquisition and no step is skipped: an empty inspection is followed by an acquisition and that by an inspection; each failure has its reason in the last events, and workers in flight are refused only at the deadline |
| `Settlement.WaitToSettle` | cli/commands/noWaitRunSettlement.js:151-174 | The wait only adds inspections and sleeps to the trace, takes and gives back no lease, ends normally only on an empty inspection, and refuses workers in flight only on a non-empty inspection at the deadline |
| `LogSource.StartupBytesAreFenced` | cli/commands/logCommands.js:302-412 | No startup byte is emitted unless, after its file was opened and while it is open, the marker and then the registry carried the one identity the command bound to |
| `LogSource.RuntimeBytesAreFenced` | cli/commands/logCommands.js:484-679 | No runtime byte is emitted unless, after the source was acquired and while it is held, the registry named the bound generation and exactly that source; never under `--startup`; and never over a live start: the last observation must be a failure, or `running` made after the acquisition |
| `LogSource.ClosedExactlyOnce` | cli/commands/logCommands.js:219-429 | On every path every descriptor opened is closed exactly once, after it was opened, and no descriptor is opened twice |
| `LogSource.Session.Run` | cli/commands/logCommands.js:436-698 | Whatever changes between any two reads, the command ends with no descriptor held and an obeyed discipline; exit 0 means bytes were served or the operator ended it, any other code that the last way tried went wrong (or that `last` met a running run without a proved runtime); the ways its mode and the first observation call for were tried; `last` exits 0 only with bytes served and never on a failed run |
| `LogSource.LedgerMeaning` | cli/commands/logCommands.js:436-698 | What the account of a command says, in terms of its events: trouble is an event that went wrong in the last way tried, a source was served, a signal ended a wait, a way was tried, each in both directions |
| `LogSource.Session.RunTail` | cli/commands/logCommands.js:608-679 | A tail goes the way the first observation calls for: a live start is followed, a running run handed over, anything else goes to the current runtime; exit 0 on a run seen running means runtime bytes were served |
| `LogSource.Session.TailLiveRun` | cli/commands/logCommands.js:608-647 | Following a live start exits 0 only if the run is still not terminal, or is running and its runtime was handed over and served; a start that becomes running always has the hand-over tried |
| `LogSource.Session.Observe` | cli/commands/noWaitLogObserver.js:159-311 | An observation completes as status, worker proof if starting, marker, registry, in that order, all of the bound identity; otherwise the last answer was one that refuses the bound run |
| `LogSource.ClassifyMeaning` | cli/commands/noWaitLogObserver.js:187-268 | Exactly when a run counts as running, failed, pending, starting or stale; a start has the budget of its wave while queued and its own once active |
| `LogSource.Session.BindRun` | cli/commands/noWaitLogObserver.js:122-143 | A run is bound only if the record the target resolved to gives the marker's own identity |
| `LogSource.Session.ProveCurrentRuntime` | cli/commands/logCommands.js:489-504 | A runtime source is returned only if the registry read after its acquisition names the bound generation and that source; otherwise its descriptor is closed |
| `LogSource.Session.HandOff` | cli/commands/logCommands.js:616-636 | The hand-over to a running run succeeds only if the run is observed running again after the acquisition, with a record that names the source |
| `LogSource.Session.EmitStartupSuffix` | cli/commands/logCommands.js:302-327 | The suffix is emitted between two observations around the open, only in an allowed state; success means bytes were served, anything else that something went wrong; the file is closed on every path |
| `LogSource.Session.AcquireStartupLog` | cli/commands/logCommands.js:329-355 | The startup log is returned only after an observation made since it was opened; otherwise nothing stays open and either something went wrong or the operator ended the wait |
| `LogSource.Session.FollowStartup` | cli/commands/logCommands.js:360-412 | Following ends with the file closed whatever the observations, writes and the operator do: running after bytes were served, failed or in error with what went wrong, or cancelled by the operator |
| `LogSource.Session.RunStartupOnly` | cli/commands/logCommands.js:701-745 | `--startup` ends with no descriptor held, having tried the suffix or the follow whenever a run was observed; `last` exits 0 only with bytes served of an observed run that did not fail, following exits 0 only on a run seen running or not yet terminal, or interrupted before anything new was seen |
| `LogSource.Session.RunLast` | cli/commands/logCommands.js:565-603 | The startup fallback of `last` exits 0 only with bytes served and the run pending or starting after the open, and otherwise only after trouble or on a running run |
| `LogReading.ReadLastLines` | cli/commands/logUtils.js:150-206 | On a file that only grows, for every chunk size and pattern of short reads, the result is exactly the last lines of the pinned prefix, and the limit error is raised exactly when they are too long |
| `LogReading.Follow` | cli/commands/logUtils.js:210-257 | Under any interleaving of appends, short reads, polls and aborts the bytes handed over are one contiguous slice that begins where the last lines of the first observed size begin, a size no smaller than the file had at the call; nothing lost, nothing twice, and at every idle point everything up to the last stat is delivered; unless it is ended, every poll asks for the size |
| `LogReading.FindStart` | cli/commands/logUtils.js:162-190 | The backward chunked scan finds the cut of the whole prefix, and its early abort is never wrong |
| `LogReading.Drain` | cli/commands/logUtils.js:232-248 | Delivery up to the observed size extends the slice exactly, also when a write is interrupted |
| `LogReading.ReadExact` | cli/commands/logUtils.js:131-146 | Short reads are continued until the range is copied; failure means a read returned nothing |
| `LogReading.Sink.Write` | cli/commands/logUtils.js:99-129 | A chunk is handed over whole or not at all, and a delivered one was handed over |
| `Lines.CutBackIsLastLines` | cli/commands/logUtils.js:168-190 | Counting newlines backwards, skipping a final one, is taking the last lines of the split text |
| `Lines.JoinLines` | cli/commands/logUtils.js:150-206 | Splitting into lines and joining gives back the text |
| `ChildSupervisor.Drive` | cli/commands/logChildSupervisor.js:7-95 | Under any sequence of events and re-entrant timers the supervisor's effects stay legal: one settlement, nothing after it, no timer or listener left; a close settles it, and an error, a terminate call or a heard abort settles it or has it terminating |
| `ChildSupervisor.SettlesBySecondTimer` | cli/commands/logChildSupervisor.js:46-68 | Once terminating, the child is settled by the second timer at the latest, whatever happens in between |
| `ChildSupervisor.NothingAfterSettling` | cli/commands/logChildSupervisor.js:32-68 | A legal history settles at most once and sends nothing after the kill |
| `SlotPlanner.ResolveKeepsDenials` | cli/commands/noWaitAvailabilitySlots.js:192-199 | For every store, generation and evidence, turning terminal slots into entries or nothing leaves what every capture is denied unchanged |
| `SlotPlanner.ResolveAtRoute` | cli/commands/noWaitAvailabilitySlots.js:94-117 | What resolving does to one route: nothing without terminal evidence; an active outcome becomes an entry with the slot's run, start, wave and file and the outcome's own finish; any other outcome removes the slot and only the entry of its identity |
| `SlotPlanner.DenialMeaning` | cli/server/hardwareAvailabilityResolver.mjs:336-406 | Who is denied, and with what: an applicable active slot denies, and without an applicable slot an applicable entry does |
| `SlotPlanner.StagingLiftsOnlySpawnedDenials` | cli/commands/noWaitAvailabilitySlots.js:120-145 | For every store, generation, evidence and list of runs, staging changes no denial of a route it does not spawn, and it lifts exactly the spawned routes' denials if and only if each new slot is applicable and not already active, or not applicable and uncovers no applicable entry |
| `SlotPlanner.FreshRunsLiftTheirDenials` | cli/commands/noWaitAvailabilitySlots.js:243-266 | A start that stages fresh runs, for routes with or without a target, lifts exactly their denials |
| `SlotPlanner.StagingConserves` | cli/commands/noWaitAvailabilitySlots.js:120-145 | A route has a slot afterwards exactly when it is spawned or had an applicable non-terminal one; a spawned route has the slot listed last for it, any other keeps its own; an entry remains, unchanged, exactly when its identity is current and no slot left behind by a new target takes it along |
| `SlotPlanner.ResolveIsStable` | cli/commands/noWaitAvailabilitySlots.js:94-118 | Resolving a resolved store again changes nothing |
| `SlotPlanner.Plan` | cli/commands/noWaitAvailabilitySlots.js:77-148 | Whatever order the loops visit routes in, the plan is the pointwise one, and it throws exactly when an active slot lacks its projection |
| `SlotPlanner.ResolvePass` | cli/commands/noWaitAvailabilitySlots.js:94-117 | The first loop computes the pointwise resolution in any order |
| `SlotPlanner.EvaluationIsProjected` | cli/server/hardwareAvailabilityResolver.mjs:336-406 | The resolver's own evaluation never lacks a projection, so planning on it never throws |
| `SlotPlanner.SpawnedKeys` | cli/commands/noWaitAvailabilitySlots.js:142-144 | The slots added are those of the spawned routes, each the last listed for its route |
| `UpdateGraph.ReadUpdateGraph` | cli/commands/updateGraph.js:143-248 | The worklist ends; it visits only reachable agents, each named by the registry or enabled by a visited one, one per key, and all reachable ones exactly when no two of them share a key; repositories, link-installs and determinability are exactly those of what it met |
| `UpdateGraph.SlashFreeWorldIsExact` | cli/commands/updateGraph.js:194-198 | Keys are distinct, so the closure is exact, whenever the registry and the resolver use repository names without a slash |
| `UpdateGraph.RegistryAgentsCanCollide` | cli/commands/updateGraph.js:184-198 | In a world where two registered agents share a key and a manifest file, every graph the worklist can return calls itself determinable yet misses a reachable agent that only one of them enables, and the repository it declares |
| `UpdateGraph.LoadRegistry` | cli/commands/updateGraph.js:164-193 | The registry pass contributes exactly its own repositories and roots |
| `UpdateGraph.Visit` | cli/commands/updateGraph.js:199-245 | One agent contributes exactly its own repositories, link-installs and enabled agents |
| `UpdateGraph.QualifiedTarget` | cli/commands/updateGraph.js:231-233 | A reference written as repository, separator, agent names exactly that repository and that agent |
| `UpdateGraph.BareTarget` | cli/commands/updateGraph.js:234-244 | A bare name is the agent of the own repository if it has a manifest there, else what the resolver says, else nothing |
| `UpdateDecision.ApplyGraphRequirements` | cli/commands/updateGraph.js:300-341 | The two passes compute the pointwise closure of requirements over sources, whose meaning in terms of the workspaces is `UpdateActivation.OptionalExactly` |
| `UpdateDecision.ClosureIsIdempotent` | cli/commands/updateGraph.js:300-341 | One application of the closure is already its fixpoint |
| `UpdateDecision.LessKnowledgeNeverActivates` | cli/commands/updateGraph.js:254-341 | Adding graph members or losing determinability, in either graph, never turns a blocked activation into an allowed one, through both passes and the decision |
| `UpdateActivation.EnablingExtendsTheGraph` | cli/commands/updateGraph.js:143-291 | Adding registry entries yields a graph with every repository, path and link-install of the smaller one and no more determinability |
| `UpdateActivation.EnablingNeverUnblocks` | cli/commands/updateGraph.js:143-341 | From registry to activation: with manifests unchanged and keys distinct, enabling more agents never turns a blocked activation into an allowed one, for all records and every prior graph |
| `UpdateActivation.MemberMeansNeeded` | cli/commands/updateGraph.js:254-291 | A record of any phase belongs to a collected graph exactly when the workspace needs it: its repository, link-install, place, skill source or folder is named by the registry or by a visited agent |
| `UpdateActivation.OptionalExactly` | cli/commands/updateGraph.js:254-341 | From the two workspaces: after both passes a record is optional exactly when both sides are determined, neither needs it, and no record that is not itself optional takes its skills from it |
| `UpdateActivation.ActivationVerifiesWhatIsNeeded` | cli/commands/updateGraph.js:143-341 | If activation is allowed, every record that either workspace needs, or that either cannot decide, is verified |
| `UpdateActivation.NeededOnOneSide` | cli/commands/updateGraph.js:254-341 | What one workspace needs is required, whatever the other graph is or knows |
| `UpdateActivation.EnabledRepositoryIsVerified` | cli/commands/updateGraph.js:143-341 | If activation is allowed, the update of every repository a visited agent lives in or declares was verified |
| `UpdateActivation.MissingGraphNeedsEverything` | cli/commands/updateGraph.js:254-341 | Without one of the graphs activation needs every record they would decide about to be verified |
| `UpdateDecision.ActivationMeansVerified` | cli/commands/updateOutcome.js:104-120 | Activation is allowed exactly when every record that is required or undecided is verified; exit 0 adds that none failed; complete means all verified, failed that activation is not allowed, partial that it is and some record failed; blockers and errors list exactly their records |
| `UpdateDecision.DecisionsCompose` | cli/commands/updateOutcome.js:104-120 | Deciding two batches together is the worse of deciding them apart, with blockers and errors concatenated |
| `UpdateDecision.AcceptedReportIsSupported` | cli/commands/updateOutcome.js:243-247 | An accepted report cannot claim an activation or a success its records do not support |
| `EventStream.ChunkIndependence` | Agent/client/MCPBrowserClient.js:416-425 | All divisions of a stream into chunks give the same events and the same tail if and only if every LF blank line stands before every CRLF blank line |
| `EventStream.MixedEndingsDepend` | Agent/client/MCPBrowserClient.js:419-423 | A concrete stream with both endings whose events depend on the division |
| `EventStream.OneLineEndingIsIndependent` | Agent/client/MCPBrowserClient.js:406-425 | Streams with only LF or only CRLF line endings are independent of the division |
| `EventStream.LineEndingsDoNotMatter` | Agent/client/MCPBrowserClient.js:406-457 | Any division of a text with LF endings and any division of its CRLF form settle the same requests the same way through their events, and through their tails too if the decoder takes line endings as white space |
| `EventStream.ExtractConserves` | Agent/client/MCPBrowserClient.js:418-425 | Events, each closed by one blank line, and the tail rebuild the stream: nothing lost or invented |
| `EventStream.EventsHoldNoBlankLine` | Agent/client/MCPBrowserClient.js:418-425 | No event holds an LF blank line |
| `EventStream.ExtractLeavesNoCut` | Agent/client/MCPBrowserClient.js:418-425 | The tail holds no blank line of either kind |
| `EventStream.DispatchProgress` | Agent/client/MCPBrowserClient.js:376-393 | Over the events of a stream every pending request is still pending or told exactly once, and none other is told |
| `EventStream.OutcomeProgress` | Agent/client/MCPBrowserClient.js:376-475 | The same with the unterminated tail included |
| `EventStream.Reader.Feed` | Agent/client/MCPBrowserClient.js:416-457 | One chunk: the inner loop ends, leaves the tail, and hands on exactly the payloads of the complete events in order |
| `EventStream.Reader.Parse` | Agent/client/MCPBrowserClient.js:401-475 | The whole reader, in whatever chunks, then its trimmed tail; what it tells the waiters is `EventDelivery.WaitersAreToldRight` |
| `EventStream.ReadEvent` | Agent/client/MCPBrowserClient.js:427-444 | The payload is the data lines joined, or none |
| `EventDelivery.WaitersAreToldRight` | Agent/client/MCPBrowserClient.js:375-475 | For every stream and decoder: a pending request is settled exactly when some message up to a throw is about it, with the failure flag and body of the first such message, in order, and every other request still waits |
| `EventDelivery.PayloadOfWritten` | Agent/client/MCPBrowserClient.js:427-444 | Reading an event written with one data line per line of text gives back that text, whose lines are again the written ones |
| `EventDelivery.WrittenStreamsAreReadBack` | Agent/client/MCPBrowserClient.js:406-457 | Any division of a written stream into chunks is read back as the texts that were written, with no tail |
| `EventDelivery.TrimStartMeaning` | Agent/client/MCPBrowserClient.js:436-462 | Trimming the start takes off exactly the leading white space |
| `EventDelivery.TrimEndMeaning` | Agent/client/MCPBrowserClient.js:460-475 | Trimming the end takes off exactly the trailing white space |

## Left out

- WaveProtocol.NoDeadlock: says that some worker can move on, not that a fair scheduler exists; wall-clock progress is `WaveBudget.NoWaitTimesOut`.
- WaveProtocol.SmoothRunsRunEverything: assumes a start with no status file of this run present and clock readings that do not go back and stay a phase below the largest safe integer, because the code does not defend against either.
- EventDelivery.WrittenStreamsAreReadBack: the repository has no writer of these streams in the same file; the writer is the plain one of the event-stream format, for lines without line endings or leading white space, which the reader takes off.
- WaveBudget.NoWaitTimesOut: assumes the workers keep their own deadlines and the clock does not run backwards, because the code has no defence against either.
- Settlement.AcquireSettledLease: the poll interval is at least one millisecond (the command uses 500), and how often a worker reappears between the two inspections is an arbitrary finite number.
- LogReading.Follow: the chunk size is a parameter where the code uses 65536; exceptions of the stat and read calls themselves are not modelled.
- LogReading.ReadLastLines: for a file that was truncated or rewritten during the read only the error and frame clauses are stated, because the code promises nothing then.
- EventStream.LineEndingsDoNotMatter: JSON decoding is a parameter, so for the unterminated tail it is assumed that line endings are white space to it.
- SlotPlanner.FreshRunsLiftTheirDenials: assumes that a new run has no active outcome yet and that a target-less route it is spawned for carries its identity, which start arranges before it stages; the exact condition without the assumption is `SlotPlanner.StagingLiftsOnlySpawnedDenials`.
- HostLaunch.Launch: the argument checks before the loop (a launch callback and an exact initial selector) are types here.
- UpdateActivation.EnablingNeverUnblocks: skill scopes and canonical paths are parameters; skill scopes are assumed to grow with the registry, and keys to be distinct in the larger workspace.
- UpdateDecision.ApplyGraphRequirements: records are matched on names and canonical paths that are given as values; canonicalisation through the file system is not modelled.
- LogSource.Session.Run: what the bytes are is the subject of `LogReading`; here an emission is one event.
- The rename, fsync and permission steps of status files: a publication is one atomic replacement, as the rename makes it.
- The container monitor republishing `running` after a restart (cli/server/containerMonitor.js): a later phase that does not take part in a start.
- JSON, UUID and path syntax: documents are values whose malformed fields are absent.
- Diagnostic texts, redaction, sanitising of reasons and exit-code texts: they do not influence any decision modelled here.
- The planner's list of resolutions for its log, and the `changed` flag that depends on JSON key order.
- Skill scopes of the update graph and `summarizeOperations`: they would add easy members only.
- Whitespace trimming of repository names and UTF-8 decoding of stream chunks: text arrives decoded and trimmed.
- The hardware-outcome refinement of barrier error messages: the error case is the same.
- Resolving an operator's agent reference to a registry key, and the router log: no property beyond a lookup.
- Fetch, proof tokens, task polling and reconnection of the browser client.
- The cleanup, inspection and readiness callbacks of the transaction: each may do anything the trace allows and fail at will.
