# Verified model of the defib task supervision engine

This project models, in Dafny, the engine that keeps a flaky command-line agent
running: the per-task state machine (PENDING, RUNNING, WAITING, PAUSED, SUCCEEDED,
FAILED, STOPPED), the wake scheduler and its timers, the transactional store every
transition commits to, the recovery a restarted daemon performs from that store, the
detection rules that decide what an exit meant, and the two byte streams that carry a
child's output. `dafny verify dfyconfig.toml` checks all of it.

## How the model is laid out

| file | models |
|---|---|
| `Types.dfy` | rows, int64 wrap-around and saturation, statuses, log entries |
| `Scheduler.dfy` | `scheduler/wake.go`, `scheduler/caps.go` |
| `Detect.dfy` | `detect/merge.go`, `detect/engine.go`, `detect/extract.go` |
| `Store.dfy` | `store/crud.go`: statements, one write transaction, rollback |
| `Timers.dfy` | `scheduler/timer.go`: the object, and the protocol as interleaved steps |
| `Machine.dfy` | every supervisor decision as a function of fields, rows and outcomes |
| `Supervisor.dfy` | the supervisor object, each method equal to its `Machine` function |
| `Lifecycle.dfy`, `Effects.dfy` | what one event keeps, and which moves it can make |
| `Transitions.dfy` | the documented transition table, stated apart from the code and proved of it |
| `Recovery.dfy`, `Daemon.dfy` | `daemon/policy.go`, `daemon/reconcile.go` |
| `Runs.dfy` | whole runs: events, failures, crashes and recoveries in any order |
| `Decisions.dfy` | an exit end to end: from configured rules and output tail to committed status |
| `Audit.dfy`, `Sessions.dfy`, `Waits.dfy` | properties of whole runs |
| `System.dfy` | supervisor, queue, timers, children, clock and restarts composed |
| `Attempts.dfy` | what each event does to the attempt rows, and which stay open |
| `Wakeup.dfy`, `Exits.dfy`, `Progress.dfy` | properties of the composed engine |
| `Witness.dfy` | concrete runs on which the engine does not do what its design says |
| `Redact.dfy`, `Broadcast.dfy`, `Probe.dfy` | the redacting writer, the PTY broadcast, the probe's backoff |

The supervisor, the store, the timers, the daemon's recovery pass, the writer, the
broadcast and the probe runner are classes whose methods update their fields as the
source's do. Each of their methods is proved to leave the object as a function of its
old state says; the lemmas are about those functions. Anything that can fail in the
source (resolving an attempt's log paths, building a command, spawning, killing, any statement of a
transaction, its begin or its commit) is an input of the step, so every lemma holds for
every combination of failures. A run is an arbitrary sequence of steps from a freshly
created task; the first recovery step of a run stands for the runtime its creator starts.

## What the properties rest on

The code does not enforce these; where a lemma needs one it says so.

- `Waits.Monotone`, `System.Timely`: clock readings do not go back.
- `Waits.SaneConfig`: durations are not negative, the backoff factor is at least 1, the
  jitter is within [0, 1]. Configuration validation only parses durations
  (`internal/config/validate.go:100-107`).
- `Waits.SumsFit`: at every exit the total-wait arithmetic cannot mislead: the outcome or an
  earlier cap decides, no total-wait cap is set, or the wait so far and the proposed one,
  saturated as the code does, add up in an int64.
- `Detect.ReadsDays`: a parsed time of day is within a day.
- `Wakeup.NearWakes`: wake times are less than 2^63 ns (about 292 years) away.
- `Exits.QuietRun`: a paused task is resumed only when none of its children is alive or has
  an exit queued.
- `Exits.DisciplinedRun`: a paused task is resumed only once its attempt's row is closed.

## What the model shows about the code

- The total-wait cap adds two int64 durations. `Scheduler.CapAgreesIff` and, with the
  saturated proposal an exit makes, `Scheduler.CapAtExitIff` give the exact condition under
  which it does what the design says; `Decisions.ExitIsDecided` carries it to the committed
  status. `Scheduler.CapOverflowWitness` is a 72-hour cap that lets a wait of centuries
  through, and `Witness.TotalWaitPassesCap` a run from creation that waits a hundred hours
  under it.
- A wake time more than 2^63 ns away saturates the timer, which goes off early; the fire
  is ignored, and nothing wakes the task again (`Timers.DueNotEarlyIff`,
  `Wakeup.FireLostIff`). Within that distance no wake-up is ever lost
  (`Wakeup.NoLostWakeup`); beyond it some continuation loses it, whether an exit or a
  recovery armed the timer (`Wakeup.FarArmingCanLose`, `Wakeup.FarRearmCanLose`), and
  `Witness.WakeupLost` is such a run from creation.
- A Retry-After of seconds whose nanoseconds overflow an int64 is not honoured
  (`Detect.RetryAfterHonouredIff`, `Witness.RetryAfterDropped`); section 10.2.3 of RFC 9110
  sets no such limit.
- A resume from PAUSED does not look at what the paused attempt left behind. If its child is
  alive or its exit still queued, that exit is recorded on the new attempt
  (`Exits.ResumeKeepsExitsIff`, `Exits.EarlyResumeMisrecords`, `Witness.ExitMisrecorded`);
  otherwise every exit finds its own attempt (`Exits.ExitFindsItsAttempt`), even when the
  paused attempt's row was left open by a restart. If that row is open, the resume leaves
  two rows open (`Attempts.ResumeKeepsSingleIff`).
- A kill reaches the one child the runtime tracks, and any child's exit empties that slot.
  On runs without such a resume the child alive is the one tracked, so a recorded stop
  leaves none but the one it killed (`Exits.KillReachesAll`, `Exits.StopLeavesNone`);
  `Witness.StopMissesChild` resumes early and stops with a child left alive.
- Recovery closes the first open row of an interrupted task, which is the interrupted
  attempt's if and only if no earlier row is open (`Attempts.CrashClosesInterruptedIff`).
  `Witness.RecoveryClosesAnother` pauses, restarts, resumes and restarts: no child is left
  alive, recovery closes the paused attempt, and the interrupted one stays open.
- The comment on `persist` says memory and database never diverge. `wake` and
  `closeAttempt` change memory before the commit, so they can: the task exactly when a wait
  of a millisecond or more was accounted and the start after it was refused
  (`Lifecycle.DivergesIff`, `Witness.MemoryDiverges`), the open attempt exactly when an exit
  changed it and its transaction failed (`Lifecycle.AttemptDivergesIff`,
  `Witness.AttemptDiverges`). Each time the call returns an error, which ends the loop.
- A stopped task's attempt rows never change again, so an attempt open at the stop, as a
  RUNNING task's latest always is, stays open for good (`Attempts.StoppedRowsStay`).
- A task that waits on exhausted quota with a probe configured is probed if and only if this
  supervisor saw it enter the wait (`Waits.ProbedIff`): a recovered quota wait is not
  (`Witness.RecoveredQuotaNotProbed`).
- A resume from PAUSED and the recovery of an interrupted attempt do not look at
  `max_attempts`. `Runs.AttemptBudget` bounds the attempts by the cap plus the number of such
  steps taken once the cap is reached; a task that waits at the cap was put there by a
  recovery (`Waits.OverCapIsInterrupted`); `Witness.AttemptsBeyondCap` makes two attempts
  where one is allowed.
- A relative deadline moves with every restart, by exactly the time elapsed
  (`Recovery.OnlyRelativeDeadlineMoves`), so deadline claims are per supervisor lifetime.
- The reconcile comment says that running it repeatedly changes nothing. A second pass does
  so if and only if every task the first failed to recover is stuck again, for reasons
  that can be read off its inputs (`Recovery.ReconcileTwiceIff`). In
  `Witness.SecondPassRecovers` the first pass fails to commit an interrupted task's
  recovery and the second commits it.
- An exit that matches no rule leaves in its attempt row whatever rule was there
  (`Attempts.ExitTellsOneStory`); `Witness.StaleRule` is a row that ends UNKNOWN by a rule its
  last exit did not match.

## Model

| member | source | states |
|---|---|---|
| Transitions.HandleFollowsTable | internal/supervisor/supervisor.go:166-466 | the documented transition table: for every event and every failure, which events apply in which state, exactly when each is accepted, and the rows, log entries, fields, timer and host calls it then leaves; one that does not apply changes nothing |
| Transitions.StopDoes | internal/supervisor/supervisor.go:407-432 | a user stop of any task not over is accepted exactly when no kill it needs fails and the transaction is not struck; then the row is STOPPED by the user with no wake time and the timer cancelled; a refusal commits nothing |
| Transitions.PauseDoes | internal/supervisor/supervisor.go:383-403 | a pause is accepted exactly when the transaction is not struck; then the row is PAUSED with the wait accounted, the timer cancelled, the prober stopped and no child killed |
| Transitions.StartDoes | internal/supervisor/supervisor.go:168-172 | a start of a PENDING task starts its next attempt, records that it could not be built or spawned, or is refused, exactly as the failures met say |
| Transitions.WakeDoes | internal/supervisor/supervisor.go:280-293 | likewise a due fire, an availability success or a resume, with the wait accounted and the timer cancelled whatever follows |
| Transitions.SpawnDoes | internal/supervisor/supervisor.go:224-276 | the next attempt is RUNNING, its row added and its start logged, exactly when nothing fails; a spawned child that could not be recorded is killed; a build or spawn failure ends the task |
| Transitions.ExitDoes | internal/supervisor/supervisor.go:297-355 | an exit of a RUNNING task leads where its category, on_unknown and the caps say, with that reason; the row, the closed attempt, the log, the wake time and the timer follow |
| Transitions.PausedExitDoes | internal/supervisor/supervisor.go:359-379 | an exit of a PAUSED task is recorded on its attempt and nothing is scheduled |
| Transitions.ReasonIs | internal/supervisor/supervisor.go:310-327 | the reason of a terminal exit: success, the matched rule, an unknown outcome, or the first cap hit, by name |
| Lifecycle.HandleKeeps | internal/supervisor/supervisor.go:166-219 | for every event and every failure: the rows stay well formed (WAITING iff a wake time, terminal iff an exit reason, attempts numbered 1..total) and replay from their log; success leaves memory equal to the store and the prober coupled; an error has committed nothing |
| Lifecycle.DivergesIff | internal/supervisor/supervisor.go:280-293 | the in-memory task differs from its row after a call if and only if a wait of a millisecond or more was accounted and the start after it was refused, and the call then reports an error |
| Lifecycle.AttemptDivergesIff | internal/supervisor/supervisor.go:477-499 | the in-memory attempt differs from its row if and only if an exit changed it and that exit's transaction failed, and the call then reports an error |
| Lifecycle.ExitOkIff | internal/supervisor/supervisor.go:297-379 | an exit is refused exactly when the database strikes; no constraint of its own can stop it |
| Lifecycle.SpawnOkIff | internal/supervisor/supervisor.go:224-276 | a start is refused exactly when its log paths cannot be resolved, its row or its failure cannot be committed, or its id is taken |
| Witness.MemoryDiverges | internal/supervisor/supervisor.go:280-293 | a run from creation and a resume whose commit fails, after which the in-memory task differs from its row |
| Witness.AttemptDiverges | internal/supervisor/supervisor.go:479-499 | likewise for the open attempt |
| Lifecycle.InsertNext | internal/supervisor/supervisor.go:242-250 | the next attempt row can violate no constraint but its own id, and keeps the numbering |
| Lifecycle.RewriteAt | internal/store/crud.go:148-169 | writing a stored attempt back replaces that row only and cannot fail on its own |
| Lifecycle.CurrentWriteWorks | internal/supervisor/supervisor.go:479-499 | closing and committing the open attempt always finds its row and keeps memory equal to it |
| Effects.HandleMoves | internal/supervisor/supervisor.go:166-219 | every event makes a legal status move with its effect on the count, and none from a terminal state; history only grows; only a resume leaves PAUSED for RUNNING; a retry is scheduled only below max_attempts |
| Effects.StoppedMeansKilled | internal/supervisor/supervisor.go:407-418 | a RUNNING or PAUSED task is recorded as stopped only by a stop whose kill was reported to succeed |
| Decisions.ExitIsDecided | internal/supervisor/supervisor.go:297-355 | an exit is recorded as the best matching rule says, its category, name and reset time with all that follows from them, and once committed leads where that rule and the documented caps say if and only if the total-wait arithmetic cannot mislead it |
| Decisions.CapIsDesignedIff | internal/supervisor/supervisor.go:321-327 | the cap an exit hits is the documented one if and only if an earlier cap decides, no total-wait cap is set, or the total fits |
| Decisions.ClassifiedByWinner | internal/daemon/daemon.go:203-207 | a supervisor whose engine is built from these rules classifies the scanned tails by the highest-priority matching slot of the merged rules: its category, its name, and the reset time its extractor names |
| Supervisor.Supervisor.Persist | internal/supervisor/supervisor.go:503-518 | the row, the attempt and the events are committed together or not at all, and memory changes only with the commit |
| Supervisor.Supervisor.Fail | internal/supervisor/supervisor.go:453-466 | object, store, timers and host end as the failure transition says |
| Supervisor.Supervisor.SpawnAttempt | internal/supervisor/supervisor.go:224-276 | likewise for starting an attempt, including the kill of a child whose row could not be committed |
| Supervisor.Supervisor.Wake | internal/supervisor/supervisor.go:280-293 | likewise for leaving WAITING or PAUSED: timer cancelled, prober stopped, wait accounted once, next attempt started |
| Supervisor.Supervisor.CloseAttempt | internal/supervisor/supervisor.go:479-492 | only the completion fields of the open attempt change, in memory |
| Supervisor.Supervisor.Finish | internal/supervisor/supervisor.go:435-449 | likewise for a terminal exit |
| Supervisor.Supervisor.Schedule | internal/supervisor/supervisor.go:329-354 | likewise for a retry: commit first, then the wait starts, the timer is armed for the committed wake time, and the prober starts on exhausted quota |
| Supervisor.Supervisor.HandleAttemptExit | internal/supervisor/supervisor.go:297-355 | likewise for the whole exit decision, caps included |
| Supervisor.Supervisor.RecordPausedExit | internal/supervisor/supervisor.go:359-379 | likewise for a child that ends while its task is paused |
| Supervisor.Supervisor.Pause | internal/supervisor/supervisor.go:383-403 | likewise for a pause: the wait is accounted in the committed row only |
| Supervisor.Supervisor.Stop | internal/supervisor/supervisor.go:407-432 | likewise for a stop, and a kill that fails commits nothing |
| Supervisor.Supervisor.Handle | internal/supervisor/supervisor.go:166-219 | one event leaves object, store, timers and host as the state machine says, and no other task's rows change |
| Supervisor.Supervisor.Run | internal/supervisor/supervisor.go:149-161 | the loop is the run that delivers the queue's events in order and ends at the first error or terminal state; memory then agrees with the store unless it ended by an error, and the rows are sound even then |
| Runs.RunKeepsInv | internal/supervisor/supervisor.go:224-466 | after any run, whatever failed and wherever it crashed, rows are sound and a live supervisor agrees with them |
| Runs.LogReplaysToRow | internal/supervisor/supervisor.go:224-466 | folding the event log from creation gives exactly the stored status, attempt count, wake time, last outcome and exit reason |
| Runs.CrashAnywhereRecovers | internal/daemon/reconcile.go:47-148 | a crash anywhere leaves sound rows, and recovery then yields a task that is not RUNNING with an agreeing supervisor, exactly when its inputs load |
| Runs.RunExtends | internal/store/crud.go:146-192 | over any continuation the log is append-only, no attempt disappears or changes id or number, and a terminal task never changes |
| Runs.AttemptBudget | internal/scheduler/caps.go:37-48 | with max_attempts M, at most M attempts plus one per resume from PAUSED or recovered interruption made once M attempts were, and one less while WAITING |
| Waits.OverCapIsInterrupted | internal/daemon/reconcile.go:94-141 | on any run, a task WAITING with M attempts or more made was put there by the recovery of an interrupted one |
| Witness.AttemptsBeyondCap | internal/supervisor/supervisor.go:186-190 | a run from creation that makes two attempts where one is allowed |
| Runs.ChangeDecreases | internal/supervisor/supervisor.go:166-219 | every status change strictly decreases a measure that no step increases |
| Runs.FinitelyManyChanges | internal/scheduler/caps.go:37-48 | a run makes at most 4(M+k)+3 status changes, k being its resumes and recoveries |
| Audit.RunAudited | internal/supervisor/supervisor.go:259-269 | on every run each log entry is legal in the state replayed up to it (a start names the next attempt and a cause its state allows, a user action the state it interrupted), the starts logged are exactly the attempt rows with their times and pids, and the row was last updated when its last entry was logged |
| Audit.LogInTimeOrder | internal/store/crud.go:171-192 | under a clock that does not go back the log is in time order, across crashes too |
| Attempts.ExitTellsOneStory | internal/supervisor/supervisor.go:479-492 | a committed exit leaves row, task and log with the category and reset time it was classified with, and row and log with the rule that matched; one that matched no rule leaves the row's earlier rule |
| Witness.StaleRule | internal/supervisor/supervisor.go:488-491 | a run from creation whose row ends UNKNOWN by a rule its last exit did not match |
| Waits.WaitConservation | internal/supervisor/supervisor.go:280-286 | the stored cumulative wait is the sum in whole milliseconds of the waits entered by an exit and ended by a wake or pause in one lifetime; none twice, none dropped |
| Waits.HandleAccounts | internal/supervisor/supervisor.go:383-392 | what each event adds to the account, and when a wait starts |
| Waits.OnlyExitWaits | internal/supervisor/supervisor.go:321-350 | RUNNING becomes WAITING only by an exit that no cap stops |
| Waits.EntersWithinCaps | internal/supervisor/supervisor.go:321-330 | every such wake time lies between now and the deadline, with no deadline is at least the least delay or reset buffer away, and, when the total-wait arithmetic cannot mislead, keeps the total wait within its cap |
| Waits.ProbedIff | internal/supervisor/probe.go:15-21 | a live task waiting on exhausted quota with a probe configured is probed if and only if this supervisor saw it enter the wait |
| Witness.RecoveredQuotaNotProbed | internal/daemon/reconcile.go:63-73 | a run from creation after whose restart a quota wait is not probed |
| Waits.TotalWaitBudget | internal/scheduler/caps.go:44-46 | over any run whose exits the total-wait arithmetic cannot mislead, the accounted wait exceeds max_total_wait by at most the lateness of the most recent accounted wait |
| Waits.RetriesWithinBudget | internal/scheduler/caps.go:44-46 | on such runs with no deadline, at most W divided by the least wait in whole milliseconds retries by timer |
| Waits.FireIsOnTime | internal/supervisor/supervisor.go:178-183 | a timer fire that changes anything is handled at or after the wake time |
| Sessions.RefIsForever | internal/supervisor/session.go:37-53 | a non-empty session ref is the same in every later row, whatever happens |
| Sessions.LaterAttemptsResume | internal/supervisor/session.go:14-35 | from then on every attempt, the first of an existing session included, resumes exactly that ref |
| Sessions.RefComesWithItsExit | internal/supervisor/session.go:37-53 | a ref appears in the transaction of the exit whose bounded output revealed it |
| Sessions.HandleSession | internal/supervisor/supervisor.go:232-274 | every child an event spawns is the next attempt with the expected command; it is logged as a resume exactly when it is one, or killed when its row could not be committed |
| Exits.SingleOpenAttempt | internal/supervisor/supervisor.go:242-274 | on runs that resume only once the paused attempt's row is closed, RUNNING has exactly one open attempt, the latest; WAITING, SUCCEEDED and FAILED have none; PAUSED and STOPPED at most that one; one child or queued exit at most is outstanding |
| Exits.ExitsStayInv | internal/supervisor/supervisor.go:186-202 | on runs that resume only when no child of the paused task can still report, one child or queued exit at most is outstanding, the latest attempt's, whatever rows are open |
| Exits.ExitFindsItsAttempt | internal/supervisor/supervisor.go:192-202 | on those wider runs an exit is recorded on the attempt that spawned the child, and on no other row |
| Exits.KillReachesAll | internal/daemon/daemon.go:79-111 | on those runs a live child is always the one in the process slot a kill reaches |
| Exits.StopLeavesNone | internal/supervisor/supervisor.go:407-432 | on those runs a recorded stop leaves no child alive but the one whose kill was asked for and reported to succeed |
| Witness.StopMissesChild | internal/daemon/daemon.go:283-300 | a run from creation, with an early resume, whose stop leaves a child alive that no kill reaches |
| Exits.ResumeKeepsExitsIff | internal/supervisor/supervisor.go:186-190 | a committed resume from PAUSED keeps exits with their attempts if and only if none of its children is alive or has an exit queued |
| Exits.EarlyResumeMisrecords | internal/supervisor/supervisor.go:186-202 | after any other resume some continuation records attempt n's exit on attempt n+1, unless a queued pause or stop forestalls it |
| Witness.ExitMisrecorded | internal/supervisor/supervisor.go:186-202 | a run from creation that does so |
| Attempts.ResumeKeepsSingleIff | internal/supervisor/supervisor.go:186-190 | a committed resume from PAUSED leaves one attempt open at most if and only if none was open |
| Attempts.EveryExitClosesLatest | internal/supervisor/supervisor.go:479-499 | a RUNNING task records any exit on its latest attempt, whichever child it came from |
| Attempts.RecoveryClosesFirst | internal/daemon/reconcile.go:100-164 | recovery closes the first open row, as UNKNOWN and daemon_interrupted, and no other |
| Attempts.RecoveryClosesLastIff | internal/daemon/reconcile.go:100-164 | that row is the interrupted attempt's, and none stays open, if and only if no earlier row is open; otherwise the interrupted attempt stays open |
| Attempts.CrashClosesInterruptedIff | internal/daemon/reconcile.go:100-164 | likewise after any run that leaves the task RUNNING |
| Attempts.RunningLastOpen | internal/supervisor/supervisor.go:242-274 | on every run a RUNNING task's latest attempt is open |
| Witness.RecoveryClosesAnother | internal/daemon/reconcile.go:153-164 | a run from creation whose recovery closes another attempt than the interrupted one |
| Attempts.StoppedRowsStay | internal/supervisor/supervisor.go:192-214 | the step that stops a task, and everything after it, changes no attempt row; one open at the stop stays open |
| Attempts.HandleRows | internal/supervisor/supervisor.go:166-219 | which attempt rows each event may add or close |
| Wakeup.NoLostWakeup | internal/daemon/daemon.go:179-195 | in every interleaving a live WAITING task has an active arm for its wake time or a due fire of one in flight, and any other task has no active arm |
| Wakeup.DueFireWakes | internal/supervisor/supervisor.go:174-184 | a fire handled at or after the wake time is never ignored |
| Wakeup.DueWakeupCanProceed | internal/scheduler/timer.go:81-95 | from its wake time on, a wake-up can always take its next step unless the event queue is full, whatever other tasks wait for |
| Wakeup.HandleFollows | internal/supervisor/supervisor.go:280-350 | a transition arms exactly when it enters WAITING, for the committed wake time, and cancels whenever it leaves |
| Wakeup.FireLostIff | internal/supervisor/supervisor.go:178-183 | handling the last fire of a live wait, whatever else is queued, loses the wake-up if and only if it comes before the wake time |
| Wakeup.FarArmingCanLose | internal/scheduler/timer.go:61-71 | a step that arms more than an int64 of nanoseconds ahead has a continuation that loses the wake-up |
| Wakeup.FarRearmCanLose | internal/daemon/reconcile.go:67-73 | a start that re-arms a recovered wait that far ahead has one too, with no further condition |
| Witness.WakeupLost | internal/scheduler/timer.go:68-71 | a run from creation that loses one |
| Progress.NothingStalls | internal/daemon/daemon.go:179-263 | in every interleaving whose wake times are near, a live PENDING task has its start queued, a RUNNING one its latest child alive or that child's exit queued, and a WAITING one its wake-up coming |
| Progress.NoLostExit | internal/daemon/daemon.go:302-317 | the first two of these on every run, however far the wake times |
| System.NextIsCoreStep | internal/daemon/daemon.go:198-263 | each step of the composed engine is one step of a run or none, so what holds of runs holds here |
| System.NextKeepsSound | internal/daemon/daemon.go:179-263 | composed steps keep the timers well formed, the rows and supervisor sound, and the queue free of fires and exits no timer or child sent |
| Recovery.ReconcileKeeps | internal/daemon/reconcile.go:47-148 | recovery keeps rows sound and replayable; a recovered task is not RUNNING, has a supervisor with the policy of its snapshot, is armed at its stored wake time if WAITING, and has its start posted if PENDING |
| Recovery.InterruptedBecomes | internal/daemon/reconcile.go:87-148 | an interrupted task's whole recovered record: WAITING, UNKNOWN, waking now or after the backoff of its attempt count, its first open row closed as interrupted, two log entries, nothing else |
| Recovery.PolicyReads | internal/daemon/policy.go:15-67 | a policy exists exactly when the snapshot's texts parse, and each text means what it says in its own place; a relative deadline counts from now |
| Recovery.InterruptedWake | internal/daemon/reconcile.go:94-98 | an interrupted task wakes at once under resume_now, otherwise no later than the deadline and, with no deadline, no sooner than the least delay |
| Recovery.RecoveredIff | internal/daemon/reconcile.go:47-80 | a task is recovered exactly when its config, provider and rules load and its transaction, if it needs one, is accepted |
| Recovery.ReconcileIsPointwise | internal/daemon/reconcile.go:28-42 | each listed task ends up as if it alone had been reconciled, so one failure does not touch the others |
| Recovery.AfterReconcile | internal/daemon/reconcile.go:16-44 | after a pass each listed task is recovered as above, or keeps sound rows and has no runtime |
| Recovery.LiveTasksUntouched | internal/daemon/reconcile.go:32-37 | a task with a live runtime is untouched |
| Recovery.ReconcileTwice | internal/daemon/reconcile.go:21-22 | once a pass has recovered all it lists, another changes no row, timer or runtime |
| Recovery.ReconcileTwiceIff | internal/daemon/reconcile.go:16-44 | a second pass changes nothing if and only if every task the first failed to recover is stuck in it: unreadable, or its transaction refused, or, if not RUNNING, its rules unloadable |
| Recovery.ReconcileIdleIff | internal/daemon/reconcile.go:23-44 | any one pass changes nothing if and only if every listed task that needs it is stuck |
| Recovery.StuckIff | internal/daemon/reconcile.go:47-80 | recovery fails and leaves a task's rows alone exactly under those conditions on its inputs |
| Witness.SecondPassRecovers | internal/daemon/reconcile.go:118-144 | a second pass that commits the recovery the first one could not |
| Recovery.OnlyRelativeDeadlineMoves | internal/daemon/policy.go:40-50 | rebuilding a policy moves a relative deadline by exactly the time elapsed and changes nothing else |
| Recovery.FirstOpen | internal/daemon/reconcile.go:153-164 | the first attempt without an end time, or none when all have ended |
| Daemon.Daemon.ReconcileTask | internal/daemon/reconcile.go:47-80 | store, timers and runtimes end as the recovery of this one task says |
| Daemon.Daemon.RecoverInterrupted | internal/daemon/reconcile.go:87-148 | the interrupted task's rows become the recovered ones, or stay on any error; no other task's rows change |
| Daemon.Daemon.Reconcile | internal/daemon/reconcile.go:23-44 | the whole pass, in listing order, skipping terminal and live tasks |
| Store.Store.UpdateTaskTx | internal/store/crud.go:25-42 | succeeds exactly when nothing strikes and every statement applies; then all have taken effect; otherwise the database is unchanged |
| Store.ScriptIsCommit | internal/store/crud.go:93-192 | running a transition's script statement by statement is the same as its one-step commit |
| Store.ConstraintsKept | internal/store/migrations/0001_init.sql:25-39 | no script that applies breaks the attempts table's primary key, its unique (task, number) pair or its task reference |
| Store.ScriptsOnlyGrow | internal/store/crud.go:93-192 | no script removes or renumbers an attempt, rewrites an event, or changes a task's id or creation time |
| Store.ApplyOpsSplit | internal/store/crud.go:25-42 | a script is its first part followed by its second, stopping at the first error |
| Store.IndexOf | internal/store/crud.go:148-168 | the row an attempt update reaches, or none when no row has the id |
| Timers.EveryArmOneFate | internal/scheduler/timer.go:61-125 | in every interleaving each arm is exactly one of active, cancelled, fired; calls back at most once; closes its channel at most once |
| Timers.ReleasedNeverFires | internal/scheduler/timer.go:78-106 | an arm active when Cancel, Stop or a re-arm of its task runs never calls back, whatever else is interleaved |
| Timers.GoroutinesEnd | internal/scheduler/timer.go:81-95 | a wait goroutine that has not ended is the live arm waiting for its timer, or has a step to take whatever the time |
| Timers.NextKeepsInv | internal/scheduler/timer.go:61-125 | every protocol step keeps each arm's state consistent |
| Timers.ArmingIsLocal | internal/scheduler/timer.go:61-76 | arming sets this task's wake time and leaves every other task's arm alone |
| Timers.DueNotEarlyIff | internal/scheduler/timer.go:68-71 | a timer is never due before its wake time if and only if that is within an int64 of nanoseconds |
| Timers.DueExactly | internal/scheduler/timer.go:68-71 | it is due at its wake time, at once if that has passed, or an int64 of nanoseconds ahead if it is further |
| Timers.Manager.ArmTask | internal/scheduler/timer.go:61-76 | replaces the task's arm, closing the old one's channel once |
| Timers.Manager.Cancel | internal/scheduler/timer.go:98-106 | removes and closes the task's arm, if any, and nothing else |
| Timers.Manager.TryClaim | internal/scheduler/timer.go:84-89 | the locked check claims the fire exactly when the arm is still the task's own |
| Timers.Manager.Stop | internal/scheduler/timer.go:117-125 | closes every active arm once, whatever the map's order |
| Scheduler.BackoffMonotone | internal/scheduler/wake.go:76-84 | backoff never decreases with the attempt number and never exceeds its maximum |
| Scheduler.ScaledIsPower | internal/scheduler/wake.go:76-79 | the scaled base is base times factor to the power n-1 |
| Scheduler.FirstBackoff | internal/scheduler/wake.go:76-84 | the first backoff is the smaller of base and maximum |
| Scheduler.BackoffExactly | internal/scheduler/wake.go:73-84 | backoff n is base times factor to the power n-1, rounded down, up to the maximum |
| Scheduler.DelayExactly | internal/scheduler/wake.go:58-71 | the drawn delay is backoff times 1 - j + 2j times the draw, rounded down, up to an int64 |
| Scheduler.NextWakeExactly | internal/scheduler/wake.go:29-54 | a wake time is a future reset time plus buffer, else now plus this attempt's delay; an earlier deadline, and nothing else, replaces it |
| Scheduler.NextWakeInterval | internal/scheduler/wake.go:29-71 | with no reset time to come it lies in the jitter interval past now, unless the deadline comes before the interval's end |
| Scheduler.DelayBounds | internal/scheduler/wake.go:58-71 | the delay lies within b(1-j), rounded down, and b(1+j) |
| Scheduler.DelayAtLeast | internal/scheduler/wake.go:58-71 | no attempt's delay is below the least one |
| Scheduler.ResetDecides | internal/scheduler/wake.go:41-46 | a future reset time makes the wake time independent of the draw |
| Scheduler.NextWakeBounds | internal/scheduler/wake.go:36-54 | a wake time is never after the deadline, and before now only if the deadline is |
| Scheduler.WaitAtLeast | internal/scheduler/wake.go:36-54 | with no deadline a wait is at least the least delay or the reset buffer |
| Scheduler.UncappedWakeInWindow | internal/supervisor/supervisor.go:321-330 | when no cap trips the wake time lies between now and the deadline |
| Scheduler.CapAgreesIff | internal/scheduler/caps.go:37-48 | the code's cap check is the documented one if and only if an earlier cap decides, no total-wait cap is set, or the sum fits an int64 |
| Scheduler.CapAtExitIff | internal/supervisor/supervisor.go:322-325 | with the proposal saturated as an exit does, the check is the documented one if and only if an earlier cap decides, no total-wait cap is set, or the saturated total fits |
| Scheduler.CapOverflowWitness | internal/scheduler/caps.go:44-46 | an input on which it is not |
| Witness.TotalWaitPassesCap | internal/supervisor/supervisor.go:321-330 | a run from creation whose accounted wait passes its cap, though it ended before the wake time |
| Detect.Merge | internal/detect/merge.go:12-40 | the merge loops compute the stable sort of built-in slots, replaced in place, followed by the added user rules |
| Detect.SlotHolds | internal/detect/merge.go:20-27 | a built-in's slot holds the last user rule of its name, or the built-in if there is none |
| Detect.AddedOne | internal/detect/merge.go:28-33 | a user rule is added exactly when no built-in has its name |
| Detect.AddedBoth | internal/detect/merge.go:28-33 | the added rules of a list are those of its first part followed by those of its second |
| Detect.SortIsStable | internal/detect/merge.go:35-37 | the order is by descending priority and keeps, within each priority, exactly the input's rules in the input's order |
| Detect.SecondSortIsIdentity | internal/detect/engine.go:100-104 | the engine's own sort leaves merged rules as they are |
| Detect.NewEngine | internal/detect/engine.go:66-107 | fails exactly when some rule does not compile, else holds the compiled rules in stable priority order |
| Detect.CompilesIff | internal/detect/engine.go:68-95 | a rule is accepted exactly when its category is known and every pattern in it, the extractor's included, compiles |
| Detect.MatchesIff | internal/detect/engine.go:149-176 | a rule matches exactly when the exit code is listed or none is, and each non-empty pattern accepts stdout, stderr, or the two joined by a newline |
| Detect.TailIsEnd | internal/detect/engine.go:26-36 | the scanned output is the last bytes of the stream, up to the bound |
| Detect.ClassifyReportsWinner | internal/detect/engine.go:114-133 | the rule of highest priority whose own text matches wins, ties to the earlier pre-sort slot, with the reset time its extractor names; UNKNOWN exactly when none matches |
| Detect.FreshRuleTakesOver | internal/detect/merge.go:28-33 | a user rule with a fresh name, wherever it stands among the user rules, takes over exactly the inputs it matches whose winner had lower priority, or the same from a slot behind it |
| Detect.FreshRuleTakesOnlyLower | internal/detect/merge.go:28-33 | appended after the other user rules, only inputs whose winner had strictly lower priority |
| Detect.NamedIsLast | internal/detect/merge.go:13-16 | the user rule that takes a name is the last of that name |
| Detect.UserNamed | internal/detect/merge.go:13-16 | a user rule of that name, or none when no rule has it |
| Detect.ResetStrictlyAfterNow | internal/detect/extract.go:25-46 | every reset time handed on is strictly after now, for every extractor kind |
| Detect.ExtractResetIff | internal/detect/extract.go:25-118 | a reset time is handed on if and only if the extractor's pattern captures, in the stream it names, text that means it in the extractor's kind, and it is after now |
| Detect.ClockOccurrenceIsNext | internal/detect/extract.go:120-132 | in a fixed-offset zone, the least instant after now with that time of day, at most a day away |
| Detect.RetryAfterHonouredIff | internal/detect/extract.go:82-90 | a Retry-After of seconds is honoured if and only if its nanoseconds fit an int64 |
| Witness.RetryAfterDropped | internal/detect/extract.go:42-45 | a Retry-After of three centuries yields no reset time at all |
| Redact.Writer.Write | internal/logging/redact.go:97-111 | all of p is consumed; what is forwarded, kept and reported is the line-by-line drain of the buffer and p |
| Redact.Writer.ForwardLines | internal/logging/redact.go:99-110 | the forwarding loop is that drain, for any pattern of refusals |
| Redact.Writer.Close | internal/logging/redact.go:114-122 | flushes an unterminated final line, once |
| Redact.DrainForwardsLines | internal/logging/redact.go:97-111 | a drain succeeds exactly when the sink takes one call for each complete line; it has then forwarded exactly those lines, redacted, and keeps exactly the rest |
| Redact.RefusalLosesOneLine | internal/logging/redact.go:104-108 | a refused call loses exactly the line it carried; what follows stays buffered |
| Redact.CompleteLinesForwarded | internal/logging/redact.go:93-111 | after any sequence of writes every complete line of the input so far is forwarded and only the rest is buffered |
| Redact.ChunkingIndependent | internal/logging/redact.go:93-122 | however the input is cut, what is forwarded by the close is the whole input redacted line by line |
| Redact.LinesPartition | internal/logging/redact.go:99-105 | lines and rest, put together, are the bytes they came from |
| Redact.LinesAreLines | internal/logging/redact.go:99-105 | each line ends in its only newline and the rest has none |
| Broadcast.PtyBroadcast.Write | internal/daemon/interactive.go:34-50 | the tail and every subscriber's channel end as the broadcast step says, and nothing happens after a close |
| Broadcast.PtyBroadcast.FanOut | internal/daemon/interactive.go:41-48 | every subscriber is offered the chunk once, in any order |
| Broadcast.PtyBroadcast.Close | internal/daemon/interactive.go:54-66 | every subscriber's channel is closed once |
| Broadcast.PtyBroadcast.NewSubscriber | internal/daemon/interactive.go:71-90 | the retained tail, and a new open, empty, subscribed channel unless the broadcast has ended |
| Broadcast.PtyBroadcast.EndSubscription | internal/daemon/interactive.go:82-89 | ends this subscription alone: closes its channel the first time and does nothing after |
| Broadcast.TailIsLastBytes | internal/daemon/interactive.go:94-100 | the tail is exactly the last bytes of everything written before the close |
| Broadcast.GaplessUnlessOverflowed | internal/daemon/interactive.go:33-90 | a subscriber that never overflowed has a gapless, duplicate-free stretch of the history up to now or its leaving; one that did has a subsequence of the chunks |
| Broadcast.ChannelHoldsExactly | internal/daemon/interactive.go:41-48 | a channel holds exactly the chunks written while fewer than 256 waited in it, less those received; it missed the others, and only those |
| Broadcast.MissedNothingIff | internal/daemon/interactive.go:44-47 | a subscriber is delivered every chunk offered if and only if it never had 256 waiting when another was written |
| Broadcast.KeepingUpSeesAll | internal/daemon/interactive.go:33-90 | one that kept up misses nothing and has the whole stretch of the history it was there for |
| Broadcast.LastBytesIs | internal/daemon/interactive.go:94-100 | the last n bytes, or all of them if they are fewer |
| Broadcast.SubscriberSeesHistory | internal/daemon/interactive.go:33-90 | snapshot and offered chunks, against the history between joining and leaving |
| Broadcast.ClosedAtMostOnce | internal/daemon/interactive.go:52-90 | no order of close and unsubscribe closes a channel twice; it is closed exactly when the subscription is over |
| Probe.Runner.BackoffDelay | internal/daemon/probe.go:89-101 | the doubling loop is min(1m * 2^(failures-1), 15m) |
| Probe.DelayDoubles | internal/daemon/probe.go:89-101 | a minute after the first failure, doubled by each further one, fifteen at most |
| Probe.Runner.Probe | internal/daemon/probe.go:66-86 | while backing off nothing runs or changes; an error counts one more failure and sets the next allowed time, any answer clears both; availability is reported exactly when the command ran and said so |
| Probe.FailuresIffBackingOff | internal/daemon/probe.go:66-86 | the failure count is zero exactly when no next allowed time is set |
| Probe.ExecutionsAreApart | internal/daemon/probe.go:66-86 | two successive executions, the first an error, are at least that error's delay apart |
| Probe.StreakSpansDelays | internal/daemon/probe.go:79-101 | after k errors in a row no execution comes before the sum of their k delays has passed |

## Left out

- Process spawning, PTYs, signals and file following: spawning and killing are fallible inputs, a child's exit an environment step. A child that outlives its daemon is never heard of again.
- SQL, JSON and timestamp text: rows are records, and a timestamp is an integer count of nanoseconds. Static task columns, log paths and `DeleteTask` are not part of the rows.
- One task's rows at a time: attempt ids are unique per task here, not across tasks, and event rows carry no global id.
- The regex engine, time-string parsing, the redaction patterns and `NewRedactor`: opaque functions the lemmas quantify over.
- IPC, the command line, the doctor, service installation, attach clients, configuration loading, provider argument lists, the event bus and notification hooks.
- The reason text of a failed build or spawn is abbreviated: the underlying error is not part of it.
- Floating-point rounding, infinities and NaN in the backoff: the float steps are exact reals.
- Detect.ClockOccurrenceIsNext: does not model daylight-saving jumps, because the zone is a fixed offset.
- The int64 width of the cumulative millisecond counter; the wrap of its conversion to nanoseconds is modelled.
- A daemon shutdown is a crash that loses nothing more; the window between stopping the loops and closing the store is not modelled.
- Daemon.Daemon.Reconcile: treats a pass as one step, because the supervisors it starts are held as values; the source launches each loop before it arms that task's timer.
- `System.Starts` gives a runtime, arms its timer and posts its start in one step; an event posted between them is not modelled.
- Supervisor.Supervisor.Run: takes a finite queue in place of the channel and its context.
- The probing goroutine itself, and the availability event a cancelled prober can still post; the model lets any availability event arrive at any time.
- Timers.Manager.Stop: in the composed engine it runs only as part of a crash, so a stopped manager is not used again.
