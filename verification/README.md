# Hermes watchdog: a verified model of its recovery engine

The watchdog is the only process allowed to restart the Hermes Desktop and its backend serve. This
project models its recovery engine, from the crash-loop limiter to whole runs of cycles, operator steps
and control-plane messages, and proves what those runs guarantee. The clock, the process probes, the
backend's health and auth answers and the outcome of every spawn are unconstrained inputs.

The model has three layers.

- **Objects.** Each Go struct that is updated in place is a class: `RestartTracker` (with its compacted
  buffer), `HeartbeatRegistry`, `AnomalyRegistry`, `NonceCache`, `UpdateSuppressGate`, `RecoveryPolicy`,
  `BackendManager`, `WarmStartSequencer` with its `Hooks`, and `Supervisor.WatchdogProcess`, which owns
  them all. Every method is proved against a function on a plain value (`View()`).
- **Values.** `Tracker`, `Registry`, `Anomalies`, `Nonces`, `Gate`, `Back`, `Watchdog.State`. A step of
  `Watchdog.State` lists in `out`, in order, every command, `EnsureHealthy` call, state move, failure,
  lease event and executed request of that step.
- **Runs.** The modules ending in `Runs`, `TokenSurvival`, and the `Watchdog` modules from `WatchdogRuns`
  on prove properties of arbitrarily long runs. `WatchdogHistory`, `WatchdogLeases` and `WatchdogParts` show
  that a watchdog run, seen through one of its parts, is a run of that part alone, so the guarantees of the
  limiter, the nonce cache, the backend supervisor, the lease and anomaly registries and the gate carry over
  to the whole program.
- **Tables.** `BackendTable`, `CycleTable`, `MessageTable`, `WarmReport`, `HeartbeatNames` and `AnomalyNames`
  restate each operation independently, as one flat reading of raw fields and answers that names none of the
  operation's own helpers, and prove the two equal on all inputs.

| file | models |
|---|---|
| `Prelude.dfy`, `Text.dfy` | int64 arithmetic, sequences; ASCII trimming and case folding |
| `RestartPolicy.dfy`, `RestartRuns.dfy` | restart_policy.go |
| `ServiceState.dfy` | state_machine.go |
| `Heartbeat.dfy`, `HeartbeatRuns.dfy`, `HeartbeatNames.dfy` | heartbeat.go |
| `Anomaly.dfy`, `AnomalyRuns.dfy`, `AnomalyNames.dfy`, `Nonce.dfy` | ipc.go |
| `UpdateSuppress.dfy`, `RecoveryPolicy.dfy` | update_suppress.go, recovery_policy.go |
| `Backend.dfy`, `BackendTable.dfy`, `BackendCalls.dfy`, `TokenRuns.dfy`, `TokenSurvival.dfy` | backend.go: one call, any call, any run |
| `WarmStart.dfy`, `WarmReport.dfy`, `WarmRuns.dfy` | warm_start.go and the watchdog's default hooks |
| `Watchdog.dfy`, `CommandFrame.dfy`, `IpcDispatch.dfy`, `MessageTable.dfy`, `CycleTable.dfy` | watchdog.go, commands.go, ipc_dispatch.go as a step function |
| `Supervisor.dfy` | the same three files as the object whose methods perform those steps |
| `WatchdogRuns.dfy`, `WatchdogSafety.dfy`, `WatchdogCycles.dfy`, `WatchdogStarts.dfy`, `WatchdogTrace.dfy`, `WatchdogHistory.dfy`, `WatchdogLeases.dfy`, `WatchdogParts.dfy` | whole runs |

## Where the code and what is said about it differ

The model follows the code. The lemmas named state each of these.

- One Ready observation clears the whole limiter at once, so `ResetAfter` never keeps a streak across a
  brief Ready (`RestartPolicy.RestartTracker.MarkReady`).
- The streak that drives the back-off is not pruned with the window. With the default policy a failure
  every three minutes never latches; the delay drops from a minute to a second at the 35th failure, and
  from the 56th on it is always a second (`RestartRuns.DefaultBackoffFirstCollapse`,
  `RestartRuns.DefaultBackoffCollapses`, `RestartRuns.BackoffCollapseIsReachable`;
  `RestartRuns.BackoffIsIdealIff` says exactly when the delay is the documented one).
- Session continuity survives a drift replacement because the replacement re-reads the manifest. It fails
  if the serve dies between its readiness answer and its auth answer while no manifest is on disk, and a
  failed manifest write followed by a stop leads there (`TokenRuns.RemintIsReachable`). It also fails when
  a replacement stops at its pipe, which leaves the token in the manifest alone, and the next call
  withdraws that manifest (`TokenSurvival.ManifestAloneIsNotEnough`). `TokenSurvival.TokenSurvivesIff`
  gives the exact condition for one call, in terms of what memory and manifest hold before it and of the
  environment's answers, and `TokenSurvival.TokenSurvivesRunIff` for a whole run.
- Moves the transition table forbids are forced. A cycle forces an illegal entry into Ready exactly when
  its Desktop probe failed and a few conditions on the backend hold
  (`WatchdogCycles.EntersReadyLegallyIff`, `WatchdogCycles.FirstCycleCanForceReady`). A warm restart does
  whenever it works: it goes from Stopping to Ready (`WatchdogCycles.WarmRestartForcesReadyIff`).
- With prewarming on, a live backend that is not ready still reaches `EnsureHealthy` before the branch
  that skips a restart, and so does any backend while Desktop's probe fails. The limiter is told nothing
  of these calls and does not bound them (`WatchdogStarts.EscapesIff`,
  `WatchdogStarts.PrewarmIsUnlimited`). What it bounds is the StartBackend commands of the cycles
  (`WatchdogStarts.StartsAreBounded`).
- A warm start bumps the epoch, which drops the lease, before it reads the active runs, so only runs
  reported after the bump can interrupt it (`WarmRuns.DrainReadingCountsOnlyThisEpoch`).
- A warm start refused by the gate reads the snapshot again after leaving the lock. It reports another
  caller's outcome as its own exactly when the one that refused it has ended by then and no further one
  has begun (`WarmRuns.RefusedReportsAnotherIff`; `WarmRuns.RefusedCanReportAnother` shows a run).
- Epochs wrap at the largest int64 and restart at 1. A replayed heartbeat is stale exactly when its service
  was bumped since a number of times that is not a multiple of that (`HeartbeatRuns.ReplayIsStaleIff`), and
  enough bumps admit it again after any history (`HeartbeatRuns.EpochWrapReadmits`).
- Anomaly keys join code and service with a bar, so a service name with a bar can be taken for the one
  behind the bar (`AnomalyRuns.SharedKeyIff`). Any such pair makes the dual query answer yes to one report
  of each, even if neither is Backend or Desktop (`AnomalyRuns.MistakableForgesDual`,
  `AnomalyRuns.BarForgesDual`). A merge window longer than the ten
  minutes of retention is cut short to the retention, and the dual query's two windows likewise
  (`AnomalyRuns.SecondReportMergesIff`, `AnomalyRuns.DualQueryIgnoresGarbageCollection`).
- While the limiter is latched, cycles stay idle, but an operator's command and a prewarm still call
  `EnsureHealthy`; neither changes the limiter (`WatchdogSafety.LatchedStillEnsures`,
  `WatchdogSafety.LatchedStep`).

## Model

| member | source | states |
|---|---|---|
| Text.TrimSpaceIs | ipc_dispatch.go:24 | trimming cuts the six ASCII blanks off both ends and leaves neither end blank |
| Text.ToLowerIs | ipc_dispatch.go:24 | folding moves the 26 capitals to their small letters and nothing else |
| RestartPolicy.RestartTracker.constructor | restart_policy.go:35-52 | a new limiter is empty and every non-positive policy field has its default |
| RestartPolicy.RestartTracker.PruneAttempts | restart_policy.go:66-75 | in-place compaction keeps exactly the attempts inside the window, in order, and nothing else changes |
| RestartPolicy.RestartTracker.RecordFailure | restart_policy.go:122-139 | prunes, appends, counts, sets the next allowed time, latches at MaxRestarts; the results are the delay and whether it latched |
| RestartPolicy.RestartTracker.CanAttempt | restart_policy.go:78-86 | true exactly when not latched and not before the next allowed time |
| RestartPolicy.RestartTracker.MarkReady | restart_policy.go:112-119 | clears latch, window, streak and delay at once, whatever ResetAfter says |
| RestartPolicy.RestartTracker.RecordSuccess | restart_policy.go:97-109 | remembers the success and clears only after ResetAfter of success |
| RestartPolicy.RestartTracker.ClearFailed | restart_policy.go:142-147 | clears latch, window, streak and delay, keeping the last success |
| RestartRuns.PrunedTrackerRefinesLog | restart_policy.go:66-75 | with a clock that never goes back, the pruned window is exactly the failures since the last reset younger than Window, in order |
| RestartRuns.StreakCountsWholeLog | restart_policy.go:122-133 | the streak counts every failure since the last reset, pruned or not, and fixes the next allowed time |
| RestartRuns.CanAttemptIff | restart_policy.go:78-86 | after any history an attempt is allowed if and only if the limiter is not latched and the delay the latest failure since the last reset imposed is over |
| RestartRuns.BackoffBounds | restart_policy.go:125-133 | for every streak length, even where the shift wraps, the delay stays between InitialBackoff and the larger of the two bounds |
| RestartRuns.BackoffIsClampedResidue | restart_policy.go:125-133 | for every streak the delay is the int64 congruent to the doubled InitialBackoff, brought between the two bounds |
| RestartRuns.BackoffIsIdealIff | restart_policy.go:125-133 | the int64 delay is the documented doubled and capped one if and only if the doubled value fits, or truncates to the cap, or there is nothing to double |
| RestartRuns.DefaultBackoffFirstCollapse | restart_policy.go:125-133 | with the default policy the delay is the documented one up to the 34th failure and first drops, to one second, at the 35th |
| RestartRuns.DefaultBackoffCollapses | restart_policy.go:125-133 | from the 56th failure on it is always one second, not sixty |
| RestartRuns.BackoffCollapseIsReachable | restart_policy.go:122-139 | a gated run of any length exists that never latches and reaches both collapses |
| RestartRuns.GatedRunShape | restart_policy.go:78-139 | in a gated run failures are spaced by their delays, only the last one can bring its window to the limit, and the latch is set exactly if it did |
| RestartRuns.CrashLoopRateBound | restart_policy.go:78-139 | between two resets no half-open interval of length Window holds more than MaxRestarts failures |
| RestartRuns.LatchFiresExactlyAtLimit | restart_policy.go:134-139 | the latch fires on exactly the failure that brings the window to MaxRestarts |
| RestartRuns.LatchHoldsUntilReset | restart_policy.go:78-147 | further failures never unlatch |
| RestartRuns.RecordSuccessIs | restart_policy.go:97-109 | a success on its own clears everything exactly when the last one is at least ResetAfter ago |
| RestartRuns.DefaultPolicyIs | restart_policy.go:15-52 | what each non-positive field of a policy means, in numbers |
| ServiceState.TransitionsReadBackwards | state_machine.go:46-104 | the transition table equals its transpose: from where each state can be entered |
| RestartRuns.GeometricSpacing | restart_policy.go:125-133 | n gated failures span at least the first n - 1 documented delays while these fit in 63 bits |
| Heartbeat.HeartbeatRegistry.Epoch | heartbeat.go:79-87 | reads the current epoch, creating it as 1 |
| Heartbeat.HeartbeatRegistry.BumpEpoch | heartbeat.go:90-100 | advances the epoch, restarting at 1 on wrap, and drops the lease |
| Heartbeat.HeartbeatRegistry.Ingest | heartbeat.go:118-170 | the verdict in the order of the code's checks, and the exact new registry for each |
| Heartbeat.HeartbeatRegistry.FreshReady | heartbeat.go:173-186 | lease present, not older than the timeout and ready |
| Heartbeat.HeartbeatRegistry.FreshLive | heartbeat.go:189-198 | lease present and not older than the timeout |
| Heartbeat.HeartbeatRegistry.LastActiveRuns | heartbeat.go:230-239 | the runs of the current lease, zero without one |
| Heartbeat.NormalizeServiceIdempotent | heartbeat.go:102-115 | a canonical service name is its own canonical name |
| HeartbeatNames.NamesAre | heartbeat.go:102-115 | under any lettering and padding, which names reach Backend, which Desktop, and that others keep their own |
| HeartbeatNames.AnswerIs | heartbeat.go:118-152 | every answer to a heartbeat, in order of precedence, from the envelope's and payload's own fields |
| HeartbeatNames.HeartbeatReaches | heartbeat.go:118-170 | an accepted heartbeat replaces the lease of the service it names, field by field, and no other; a refused one none |
| HeartbeatNames.FreshnessIs | heartbeat.go:173-198 | what readers ask of a service, under any of its names, is asked of that lease |
| HeartbeatNames.BumpIs | heartbeat.go:90-100 | a bump under any name drops that service's lease and advances its epoch, and no other's |
| HeartbeatNames.EpochCountsBumps | heartbeat.go:79-100 | after any history Backend and Desktop are at the epoch their bumps have counted up to |
| HeartbeatNames.AcceptedIff | heartbeat.go:118-170 | after any history a heartbeat is accepted if and only if it is well-formed, names its sender, claims the counted epoch, and comes from the sender of the last one accepted since the last bump |
| HeartbeatRuns.LeasesAreFenced | heartbeat.go:90-170 | after any history every stored lease carries its service's current epoch and a non-empty instance |
| HeartbeatRuns.LeaseIsLastAccepted | heartbeat.go:90-170 | the stored lease is the one left by the last heartbeat accepted since the last bump, and is absent exactly when there is none |
| HeartbeatRuns.FreshnessIsAboutHistory | heartbeat.go:173-198 | FreshLive and FreshReady equal a statement about that plain history |
| HeartbeatRuns.LastActiveRunsIsAboutHistory | heartbeat.go:230-239 | active runs are positive exactly when that last heartbeat reported some |
| HeartbeatRuns.EpochsGrow | heartbeat.go:90-100 | until the int64 counter runs out, epochs never decrease |
| HeartbeatRuns.ReplayIsStaleIff | heartbeat.go:90-152 | after any history, a heartbeat once accepted is stale if and only if its service was bumped since a number of times that is not a multiple of the largest int64 |
| HeartbeatRuns.ReplayAcrossBumpIsRejected | heartbeat.go:90-152 | hence a heartbeat accepted before a bump is stale at every later time of a history shorter than that |
| HeartbeatRuns.OneIncarnationPerEpoch | heartbeat.go:118-170 | all heartbeats accepted for one service in one epoch share one instance id, unless the epochs ran round in between |
| HeartbeatRuns.EpochWrapReadmits | heartbeat.go:90-100 | after any history, at most the largest int64 further bumps let a heartbeat once accepted in again |
| Anomaly.AnomalyRegistry.CollectGarbage | ipc.go:203-210 | drops exactly the records older than the retention |
| Anomaly.AnomalyRegistry.Ingest | ipc.go:107-160 | the new registry and the record answered, with peer marking and merging |
| Anomaly.AnomalyRegistry.HasMergedDual | ipc.go:174-184 | true exactly when a merged record of two sources is at most two merge windows old |
| AnomalyNames.ReportIs | ipc.go:99-127 | which service, fault and severity a report stands for, under any lettering and padding |
| AnomalyNames.SameReportIff | ipc.go:99-103 | two reports count as the same exactly when their names address one service and their codes differ at most in padding and case |
| AnomalyNames.AnswerIs | ipc.go:107-160 | every field of the answer to a report, from the registry as it was |
| AnomalyNames.StoredIs | ipc.go:107-160 | exactly which records a report leaves stored, and which it changes |
| AnomalyRuns.KeyInjective | ipc.go:99-103 | keys of services not mistakable for each other determine code and service |
| AnomalyRuns.SharedKeyIff | ipc.go:99-103 | two services share a key, under codes as they are matched, if and only if they are the same or one is mistakable for the other |
| AnomalyRuns.ConfusableIffBar | ipc.go:99-103 | a service's keys can collide with a bar-free service's if and only if its name has a bar |
| AnomalyRuns.BarForgesDual | ipc.go:99-160 | any name mistakable for Backend or Desktop makes the dual query answer yes although that one reported nothing |
| AnomalyRuns.MistakableForgesDual | ipc.go:99-160 | any mistakable pair of names does so with one report of each, even if neither is Backend or Desktop |
| AnomalyRuns.RegistryAgreesWithHistory | ipc.go:107-160 | for any merge window, every record's time, merged flag, service and sources are what the plain history of reports says, and absent ones have aged out |
| AnomalyRuns.MergedIffBothServices | ipc.go:107-160 | a record is merged exactly when its sources are Backend and Desktop |
| AnomalyRuns.DualQueryIgnoresGarbageCollection | ipc.go:174-210 | for any merge window and with any garbage collections in between, the dual query equals a statement about the history alone: a merged report no older than two merge windows and the retention |
| AnomalyRuns.DualQueryMeansTwoReports | ipc.go:174-184 | the dual query implies that both services reported the same code, no further apart than the merge window and the retention |
| AnomalyRuns.SecondReportIsDualAtOnce | ipc.go:107-184 | right after the second of two such reports the dual query is true |
| AnomalyRuns.SecondReportMergesIff | ipc.go:84-160 | after any history and for any merge window, a report is merged if and only if the peer's latest report of the code is within the window and the retention, or its own latest one is and was merged |
| Nonce.NonceCache.Accept | ipc.go:231-249 | drops expired nonces, refuses empty and remembered ones, remembers the rest |
| Nonce.AcceptedIffNotSeenWithinTtl | ipc.go:231-249 | a call is accepted if and only if its trimmed nonce is non-empty and was not accepted within the last ttl |
| Nonce.RefusalIs | ipc.go:231-249 | a refusal says empty exactly when the trimmed nonce is, and replayed exactly when it was accepted within the ttl |
| UpdateSuppress.UpdateSuppressGate.SetAPI | update_suppress.go:57-66 | sets the flag and its expiry |
| UpdateSuppress.UpdateSuppressGate.Active | update_suppress.go:69-102 | the source of suppression in order of precedence, clearing an expired API flag |
| UpdateSuppress.LazyExpiryIsInvisible | update_suppress.go:57-102 | however often the gate is asked, the API suppresses exactly while the last admin request is on and within its time to live |
| UpdateSuppress.SourceIs | update_suppress.go:69-102 | after any run the source named is the API while its last request is on and in time, else the environment, else the lock file |
| UpdateSuppress.RecordIs | update_suppress.go:57-102 | asking forgets a request whose time is up, both parts of it; setting remembers when it will be |
| RecoveryPolicy.RecoveryPolicy.ObserveAnomaly | recovery_policy.go:24-31 | remembers the code and whether it is renderer-only |
| RecoveryPolicy.RecoveryPolicy.ShouldSkipFullDesktopRestart | recovery_policy.go:34-41 | returns the flag ObserveAnomaly last stored; over a run that is WatchdogParts.PolicySeesReports |
| RecoveryPolicy.NamedCodesCarryThePrefix | warm_start.go:342-350 | the renderer-only test is exactly the prefix test |
| RecoveryPolicy.ObservedIs | recovery_policy.go:24-31 | what is remembered of a report: the trimmed code and whether it carries the renderer prefix |
| Backend.BackendManager.StopLocked | backend.go:273-296 | forgets child, pid, port and job, and keeps the token |
| Backend.BackendManager.PublishManifestLocked | backend.go:560-578 | a written manifest carries the token in memory; a failed write leaves the old one |
| Backend.BackendManager.EnsureInMemory | backend.go:330-356 | reuse of the serve in memory after adopting the manifest's token |
| Backend.BackendManager.EnsureOwnChild | backend.go:358-371 | reuse of the own child, or stopping it |
| Backend.BackendManager.EnsurePortFree | backend.go:372-440 | adoption or replacement of the managed port's occupant |
| Backend.BackendManager.SpawnServe | backend.go:442-557 | spawning with the preferred token and every failing exit |
| Backend.BackendManager.EnsureHealthy | backend.go:323-558 | the whole call: new fields, manifest, result and the log of probes, launches and publications |
| Backend.BackendManager.NotifyDesktop | watchdog.go:168-183 | republishes the token in memory, minting only without one |
| BackendTable.EnsureIs | backend.go:323-558 | every call, on every state and for all answers, has the result and leaves the fields and manifest of one flat table of probes, read without the stages |
| BackendTable.SucceedsIff | backend.go:323-558 | a call succeeds if and only if some serve answered ready in it and accepted the token: in memory, own child, occupant, or fresh |
| BackendTable.SuccessTookAReadyServe | backend.go:323-558 | the serve that a successful call publishes answered ready, in that call, where its token was accepted |
| BackendTable.StopAndNotifyAre | backend.go:273-296 | a stop forgets all but token and manifest; a notification publishes the token in memory, or a fresh one only without |
| BackendCalls.EnsurePublishesOnlyAuthenticated | backend.go:323-558 | every manifest a call writes carries a token that passed auth on the published port in that call, last and at most once, and a call succeeds if and only if it publishes |
| BackendCalls.FailureAfterSpawnLeavesNothing | backend.go:496-550 | every failing exit after a spawn withdraws the manifest and leaves child, pid, port and job empty |
| BackendCalls.NotifyAfterSuccessNeverMints | watchdog.go:168-183 | after a success the notification republishes the authenticated token |
| TokenSurvival.TokenSurvivesIff | backend.go:323-558 | wherever the token is held and whatever the environment answers, a call keeps it if and only if the chain of guards `KeepsToken` says so |
| TokenSurvival.TokenSurvivesRunIff | backend.go:273-558 | over any run, the token stays the one the next spawn would get if and only if every step keeps it |
| TokenSurvival.ManifestAloneIsNotEnough | backend.go:372-495 | a consistent run, a replacement that stops at its pipe and a start that fails lose the token without any serve refusing it |
| TokenRuns.EnsureKeepsSettled | backend.go:323-558 | in a consistent world a call keeps the session token and publishes no other |
| TokenRuns.SessionContinuity | backend.go:273-558 | from the first success on, through any calls, crashes, stops and notifications, every published manifest carries the same token |
| TokenRuns.ColdStartSucceeds | backend.go:442-557 | the hypotheses of session continuity can be met: a first call in an empty world spawns, authenticates and publishes a minted token |
| TokenRuns.CrashBetweenProbesRemints | backend.go:382-449 | a crash between two probes without a manifest makes a call publish a fresh token |
| TokenRuns.RemintIsReachable | backend.go:273-558 | a consistent run with a success reaches the state in which that crash publishes a second token |
| WarmStart.WarmStartSequencer.SetPhase | warm_start.go:105-119 | appends the phase and shows it |
| WarmStart.WarmStartSequencer.DrainRuns | warm_start.go:187-206 | ends within ceil(drain/50ms)+1 readings, polls on only while runs are left, gives up on them only after the whole drain time, and returns the last reading |
| WarmStart.WarmStartSequencer.AwaitCheckpoint | warm_start.go:207-227 | ends within ceil(wait/20ms) polls, at the first acknowledgement or not before the whole wait is over |
| WarmStart.WarmStartSequencer.Finish | warm_start.go:319-339 | reopens the gate, and resumes traffic unless failed |
| WarmStart.WarmStartSequencer.Run | warm_start.go:123-317 | refused without any effect while active, reporting the snapshot as it is then; otherwise outcome, phases, hook calls, epochs, leases and supervisor are exactly those of `Conforms` |
| WarmStart.Hooks.Sleep | warm_start.go:191-220 | time passes by at least the requested duration while heartbeats arrive |
| WarmReport.ReportIs | warm_start.go:123-339 | outcome, phases, flags and epochs of a report, by what each hook answered |
| WarmReport.HooksAre | warm_start.go:234-300 | which hooks are called, in order, and when the start counts as succeeded |
| WarmReport.SupervisorIs | watchdog.go:125-185 | the supervisor afterwards: untouched, stopped and restarted, or also notified |
| WarmReport.IdleIs | warm_start.go:91-96 | before the first warm start nothing is active or draining and traffic flows |
| WarmReport.TimeoutsAre | warm_start.go:141-148 | the timeouts in numbers and the polls that fit into them |
| WarmReport.OpeningIs | commands.go:77-84 | both leases dropped and both epochs advanced |
| WarmReport.WarmRestartIs | commands.go:72-102 | everything the command lists, how the backend state ends and when it counts as success, granted or refused |
| WarmRuns.DrainReadingCountsOnlyThisEpoch | commands.go:77-86 | the deciding reading is positive exactly when the last backend heartbeat accepted since the opening bump reported runs |
| WarmRuns.WarmStartsNeverOverlap | warm_start.go:123-139 | however calls of Run interleave, no two are under way at once |
| WarmRuns.GateReopens | warm_start.go:319-339 | when none is under way the gate is open, whichever exits were taken |
| WarmRuns.OutcomeIsAboutOwnEpoch | warm_start.go:123-317 | under interleaved callers, heartbeats and bumps by other commands, a warm start without a failed hook is interrupted exactly when, at its own last reading, the last backend heartbeat accepted since its own and any later bump reported runs |
| WarmRuns.RefusedReportsAnother | warm_start.go:123-130 | a refused caller reports no outcome, or exactly that of another caller's finished warm start |
| WarmRuns.RefusedReportsAnotherIff | warm_start.go:123-130 | in any interleaving, it reports another's outcome if and only if the gate is open when it looks again |
| WarmRuns.RefusedCanReportAnother | warm_start.go:123-130 | an interleaving of two callers in which the refused one reports the other's success |
| Supervisor.WatchdogProcess.constructor | watchdog.go:73-123 | the initial state with defaults applied |
| Supervisor.WatchdogProcess.SetDesktopState | watchdog.go:195-204 | moves Desktop, legal or not |
| Supervisor.WatchdogProcess.SetBackendState | watchdog.go:206-214 | moves the backend state, legal or not |
| Supervisor.WatchdogProcess.BackendReady | watchdog.go:293-301 | ready by probe or by fresh lease |
| Supervisor.WatchdogProcess.BackendLive | watchdog.go:303-311 | live by probe or by fresh lease |
| Supervisor.WatchdogProcess.RunCycle | watchdog.go:444-707 | one cycle: the whole new state and everything it did, in order |
| Supervisor.WatchdogProcess.Supervise | watchdog.go:477-707 | the part of a cycle that pause and suppression skip |
| Supervisor.WatchdogProcess.ObserveDesktop | watchdog.go:477-493 | the Desktop state follows the probe |
| Supervisor.WatchdogProcess.PrewarmStage | watchdog.go:504-519 | EnsureHealthy when prewarming finds no Ready backend, Backoff when held back |
| Supervisor.WatchdogProcess.Recover | watchdog.go:586-670 | gated recovery with its failing and settling ends |
| Supervisor.WatchdogProcess.FailRecovery | watchdog.go:604-669 | failure count, latch, last resort and its renderer-only exception |
| Supervisor.WatchdogProcess.LastResortRestart | watchdog.go:643-661 | stop Desktop, start backend, start Desktop, in that order |
| Supervisor.WatchdogProcess.SettleReady | watchdog.go:672-697 | clears the limiter and walks both states to Ready |
| Supervisor.WatchdogProcess.SetPaused | watchdog.go:326-341 | resuming clears the latch and Failed states |
| Supervisor.WatchdogProcess.PrewarmBackend | watchdog.go:216-227 | one EnsureHealthy and the state it leads to |
| Supervisor.WatchdogProcess.IngestHeartbeat | watchdog.go:286-291 | hands the heartbeat to the registry |
| Supervisor.WatchdogProcess.RunAllowlistedCommand | commands.go:26-68 | which epochs a command bumps and what it runs |
| Supervisor.WatchdogProcess.RunWarmStart | commands.go:72-102 | sequencer, leases, supervisor and how the outcome maps to the backend state, also when a warm start under way refuses it, whether or not that one ends before the second look |
| Supervisor.WatchdogProcess.HandleCommandRequest | ipc_dispatch.go:102-132 | allowlist, role, nonce, execution, in that order |
| Supervisor.WatchdogProcess.HandleAnomalyReport | ipc_dispatch.go:47-88 | validation, merging and the renderer-only policy |
| Supervisor.WatchdogProcess.HandleIPCMessage | ipc_dispatch.go:20-100 | dispatch by protocol version and message type |
| IpcDispatch.ExecutesIff | ipc_dispatch.go:20-132 | a message runs a command if and only if it is an allowlisted request from an admin or operator not speaking for a service, under an accepted nonce; heartbeats and reports never do |
| MessageTable.ParsesItsNamesOnly | commands.go:7-22 | the allowlist is exactly the five names, each standing for its command |
| MessageTable.MessageIs | ipc_dispatch.go:20-132 | every message, from anyone and in any state, is answered and acted upon as one flat table of its fields says |
| MessageTable.CommandIs | commands.go:26-68 | what each command other than a warm restart lists, which epoch it bumps, and when it fails |
| CommandFrame.RunFrame | commands.go:26-102 | commands leave limiter, Desktop state, fail count and pause alone; only a warm start moves the backend state |
| WatchdogRuns.CycleShape | watchdog.go:444-707 | every cycle leaves the limiter alone, records one gated failure, or observes Ready, with the exact actions of each, and keeps the invariant |
| CycleTable.CycleIs | watchdog.go:444-707 | every cycle from every reachable state ends as one flat table of observations says: what it lists in order, both states and their moves, limiter and fail count |
| CycleTable.RecordsFailureIff | watchdog.go:586-609 | a cycle records a failure if and only if it tries to recover and the start fails, finds nothing, or finds a backend not ready when probed afresh |
| CycleTable.MarksReadyIff | watchdog.go:586-675 | it clears the limiter if and only if what it found, or started, is ready |
| CycleTable.RecoversIff | watchdog.go:573-599 | it starts the backend if and only if it is active and unlatched, sees Desktop up, finds no ready and not merely a live backend, and the delay is over |
| WatchdogSafety.NewStateIsFresh | watchdog.go:73-123 | whatever the configuration, a new watchdog satisfies what the run theorems start from |
| WatchdogSafety.ReachableStates | watchdog.go:195-707 | in every reachable state Desktop is Unknown, Stopped, Starting or Ready, backend is never Stopping or Stopped, and a Failed backend means a latched limiter |
| WatchdogSafety.LatchedStep | watchdog.go:326-502 | the one step that unlatches is the operator's resume; a latched cycle only moves states |
| WatchdogSafety.LatchedStillEnsures | commands.go:49-54 | while latched, an operator's start and a prewarm still call EnsureHealthy and leave the limiter alone |
| WatchdogSafety.FailedIsAbsorbing | watchdog.go:326-502 | over any run without a resume a latched limiter is unchanged and no cycle issues a command or calls EnsureHealthy |
| WatchdogSafety.LastResortsAreAmortised | watchdog.go:564-664 | FailThreshold times the last-resort restarts plus the fail count never exceeds the recorded failures |
| WatchdogCycles.StopDesktopIsRestored | watchdog.go:604-664 | every StopDesktop of a cycle is a last resort followed by StartBackend and StartDesktop in that cycle, and a latching cycle issues none |
| WatchdogCycles.StartsDesktopIff | watchdog.go:313-324 | a cycle starts Desktop if and only if it is active, not latched, and knows Desktop to be down or restarts it as a last resort; when the probe fails it neither starts nor stops it |
| WatchdogCycles.EntersReadyLegallyIff | watchdog.go:477-697 | a cycle enters Ready illegally if and only if Desktop's probe failed, a Ready backend was visible and its state does not lead to Ready |
| WatchdogCycles.FirstCycleCanForceReady | watchdog.go:526-546 | the first cycle can move the backend from Unknown to Ready, which the table forbids |
| WatchdogCycles.WarmRestartForcesReadyIff | commands.go:76-100 | a warm restart enters Ready illegally, from Stopping, if and only if it works |
| WatchdogCycles.ConvergesInOneCycle | watchdog.go:504-706 | from any unlatched state one active cycle that sees both services clears everything and issues no command, and calls EnsureHealthy if and only if prewarming looked too early |
| WatchdogCycles.DeadCyclesLatchExactly | watchdog.go:586-627 | with no ready backend ever found or brought up, and any other steps but a resume in between, the limiter latches on exactly the MaxRestarts-th cycle it lets through within one Window |
| WatchdogTrace.StepTraced | commands.go:26-102 | whatever a step does to the backend supervisor and the lease registry is exactly the effect of the actions it lists |
| WatchdogHistory.LimiterSeesGatedRun | watchdog.go:326-675 | over any run the watchdog's limiter is the limiter of a gated run of its recorded failures, Ready observations and resumes |
| WatchdogHistory.WatchdogRateBound | watchdog.go:586-627 | over any run, at most MaxRestarts recorded recovery failures in any window between two resets |
| WatchdogHistory.WatchdogSpacing | watchdog.go:586-627 | over any run, failed recoveries are spaced by the documented delays |
| WatchdogHistory.RetriesIff | watchdog.go:586-599 | over any run a cycle with a missing backend starts it if and only if the delay of the latest failure since the last reset is over |
| WatchdogHistory.StepExecutesIff | ipc_dispatch.go:102-132 | a step runs a requested command if and only if it is a request that reaches its nonce and the cache accepts it; cycles never do |
| WatchdogHistory.RequestExecutesIff | ipc_dispatch.go:102-132 | over any run a request that reaches its nonce is executed if and only if the nonce is non-empty and nothing was executed under it in the last ten minutes |
| WatchdogHistory.NonceRunsOnce | ipc_dispatch.go:120-127 | two commands executed under one nonce are more than ten minutes apart |
| WatchdogParts.PolicySeesReports | ipc_dispatch.go:47-88 | over any run the renderer-only flag is that of the last valid anomaly report |
| WatchdogParts.LastResortIff | watchdog.go:604-664 | over any run a cycle restarts Desktop as a last resort if and only if it records a failure that does not latch and brings the count to FailThreshold, and the last valid report was not renderer-only |
| WatchdogParts.RegistrySeesReports | ipc_dispatch.go:47-63 | over any run the anomaly registry is that of the valid reports and of the sweeps of the recoveries |
| WatchdogParts.DualMeansTwoReports | watchdog.go:588 | over any run without mistakable names, a dual anomaly means two real reports within a merge's reach |
| WatchdogParts.GateSeesRequests | update_suppress.go:57-102 | over any run the gate is that of the admin requests and of the looks of the unpaused cycles |
| WatchdogParts.CycleSuppressedIff | watchdog.go:451-475 | over any run a cycle is suppressed if and only if the environment or the lock file says so or the last admin request is on and in time |
| WatchdogParts.PausedIff | watchdog.go:326-330 | over any run the watchdog is paused if and only if the last SetPaused said so |
| WatchdogParts.PausedCyclesDoNothing | watchdog.go:444-449 | from a pause until the resume every cycle lists nothing and changes nothing |
| WatchdogParts.SwitchIs | watchdog.go:326-341 | pausing only pauses; resuming clears the limiter and takes both states out of Failed |
| WatchdogParts.PrewarmIs | watchdog.go:216-227 | nothing unless configured, else one EnsureHealthy and the state its result deserves |
| WatchdogParts.NewStateIs | watchdog.go:73-123 | a new watchdog in plain numbers |
| WatchdogHistory.SupervisorSeesActs | commands.go:26-102 | over any run the backend supervisor is where the listed calls, stops and notifications put it |
| WatchdogHistory.WatchdogKeepsSessionToken | backend.go:273-558 | from the first call that succeeds on, even inside a warm start, no cycle, message, warm start or resume ever changes the session token, in a world where the serve accepts the token it was spawned with |
| WatchdogHistory.WatchdogPublishesSessionToken | backend.go:323-578 | and every manifest any later EnsureHealthy call or notification of the run publishes carries that token |
| WatchdogLeases.RegistrySeesHistory | commands.go:26-102 | over any run the lease registry is that of the received heartbeats and the bumps of the issued commands |
| WatchdogLeases.UnprobedReadinessMeansHistory | watchdog.go:293-301 | a backend no probe reports ready counts as ready if and only if its last heartbeat since the last command that bumped its epoch is fresh and ready |
| WatchdogLeases.OldHeartbeatsAreRefusedIff | commands.go:38-86 | over any run a heartbeat once accepted is stale if and only if the run bumped its service since a number of times that is not a multiple of the largest int64 |
| WatchdogLeases.OldHeartbeatsAreRefused | commands.go:49-86 | hence one accepted before a recovery, stop or warm start is refused whenever it is replayed later, unless the epochs ran round |
| WatchdogLeases.WarmRestartInterruptedIff | commands.go:72-97 | over any run a granted warm restart is interrupted if and only if no hook fails and the last backend heartbeat accepted between its bump and its last reading reported runs |
| WatchdogStarts.CycleStarts | watchdog.go:586-664 | a cycle issues StartBackend once per failure, once per last resort, and at most once more, gated and ending in Ready |
| WatchdogStarts.RespawnsAreRare | watchdog.go:630-660 | over any run, in any interval between two resets, at most one last-resort respawn per FailThreshold failures or part of them |
| WatchdogStarts.StartsAreBounded | watchdog.go:586-664 | over any run, in any window between two resets, the cycles issue StartBackend at most MaxRestarts times, plus one respawn per FailThreshold of those, rounded up |
| WatchdogStarts.EscapesIff | watchdog.go:504-583 | a cycle calls EnsureHealthy without the limiter noticing if and only if prewarming fires and Desktop is not known to be up or the backend is live but not ready |
| WatchdogStarts.PrewarmIsUnlimited | watchdog.go:504-546 | there are runs of any length in which every cycle does so and the limiter never changes |

## Left out

- HTTP handlers, token headers, the named pipe and tsnet transports: the model starts at `HandleIPCMessage` with the role already decided.
- Process and port operations (WMI, netstat, taskkill, Job Objects, process liveness): each is an input answer; a Job Object is only held or not held.
- Backend HTTP probes: each answer is an input, and the different probe endpoints are not assumed to agree.
- The loop that waits for a fresh serve's port and the readiness loop of the warm start's default hook: only their final answers are modelled.
- JSON decoding, the manifest file's format and atomic rename: the manifest is an optional (token, port, pid) record whose writes may fail; removing it is taken to succeed.
- Random session tokens: an input, non-empty and without surrounding spaces where a run theorem needs it, or absent when generation fails.
- `saveState`, status snapshots, cycle result labels, log and event lines: output only. Their side queries sweep anomalies and expire the gate, which `AnomalyRuns.DualQueryIgnoresGarbageCollection` and `UpdateSuppress.LazyExpiryIsInvisible` show to be invisible.
- Concurrency between cycles and commands: runs are sequential, except for the warm-start gate, whose callers interleave step by step with each other, with heartbeats and with the epoch bumps of other commands in `WarmRuns`. The gate's test and set is one step there, as it is under the sequencer's own mutex.
- Heartbeats that arrive while a command is waiting: only those during a warm start are delivered inside the step; all others are delivered between steps.
- Reaping orphaned serves before a Desktop relaunch, and the environment Desktop is launched with: no effect on the modelled state.
- Unicode: trimming and case folding are those of ASCII text.
- Saturation of Go's time and duration arithmetic: instants and sums of them are unbounded; the shift of the back-off, the epoch counter and the configured durations are int64.
- The checkpoint acknowledgement of the default hooks, which is always no; the sequencer is proved for any acknowledgements.
- Detail texts of warm-start snapshots and IPC replies.
- The lock file that keeps a second watchdog from starting: a check followed by a write, so no exclusion is claimed.
- TokenRuns.SessionContinuity: assumes that one process at a time holds the managed port, that it accepts exactly the token it was spawned with, that nobody but the watchdog rewrites the manifest, although Desktop and operator tooling may, and that at the first success no older manifest with another token stayed on disk.
- TokenSurvival.TokenSurvivesIff: assumes that a freshly minted token differs from the one held.
- HeartbeatRuns.EpochsGrow: for histories shorter than the largest int64; `HeartbeatRuns.ReplayIsStaleIff` covers all of them.
- AnomalyRuns.DualQueryIgnoresGarbageCollection: assumes a clock that never goes back and service names not mistakable for each other; what such names do is `AnomalyRuns.MistakableForgesDual` and `AnomalyRuns.BarForgesDual`.
- Clearing the renderer-only flag: `Clear` is not called anywhere in the repository.
- What another caller's warm start does to leases and supervisor while a refused one looks again: it is that caller's own step.
- WatchdogHistory.RequestExecutesIff: assumes that the clock by which requests are judged never goes back.
