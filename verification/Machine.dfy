/** The lifecycle decisions of one supervised task (internal/supervisor) as
    functions of the supervisor's fields, the task's stored rows, and the outcome
    of every fallible dependency. The Supervisor class is proved against these. */
module Machine {
  import opened Types
  import opened Store
  import Scheduler
  import Detect
  import Timers

  // ---- Inputs ----

  datatype AttemptOutput = AttemptOutput(exitCode: int, stdout: bytes, stderr: bytes)

  datatype Event =
    | Start
    | TimerFire
    | AttemptExit(output: AttemptOutput)
    | UserPause
    | UserResume
    | UserStop
    | AvailabilityOk

  /** The parsed policy a supervisor is built with. */
  datatype SupPolicy = SupPolicy(
    scheduler: Scheduler.Policy, onUnknown: string, scanBytes: int, probeInterval: Duration)

  /** What does not change while a supervisor lives: detection, the provider's
      resume capability and session extraction, and whether a probe exists. */
  datatype Deps = Deps(
    oracle: Detect.Oracle,
    engine: seq<Detect.CompiledRule>,
    zone: int,
    canResume: bool,
    extractRef: AttemptOutput -> Option<string>,
    hasProbe: bool)

  /** The clock readings and fallible outcomes one Handle call meets. Readings are
      listed in the order the code takes them. */
  datatype Env = Env(
    guardAt: Time,   // the timer-fire guard
    wakeAt: Time,    // wait accounting in wake
    at: Time,        // the transition's own reading
    failAt: Time,    // the reading in fail
    armAt: Time,     // the reading in Timers.Arm
    pathsOk: bool,
    buildOk: bool,
    spawned: Option<int>,
    killOk: bool,
    fault: Fault,
    attemptId: string,
    draw: real)

  /** What the provider is asked for: a fresh start carrying a possibly empty ref,
      or a resume of a session. */
  datatype Command = StartCommand(ref: string) | ResumeCommand(ref: string)

  datatype HostCall = Spawned(attemptNo: int, command: Command) | Killed

  // ---- State and outcome ----

  /** The supervisor's own fields. */
  datatype Sup = Sup(
    policy: SupPolicy,
    task: Task,
    waitingSince: Option<Time>,
    current: Option<Attempt>,
    probing: bool)

  datatype TimerAct = KeepTimer | CancelTimer | ArmTimer(at: Time)

  /** Everything one Handle call leaves behind. */
  datatype Out = Out(ok: bool, sup: Sup, rec: Rec, timer: TimerAct, calls: seq<HostCall>)

  /** The timers after a transition's one timer operation. */
  function AfterTimer(ts: Timers.State, id: string, act: TimerAct, armAt: Time): Timers.State
    requires Timers.Inv(ts)
  {
    match act
    case KeepTimer => ts
    case CancelTimer => Timers.Release(ts, id)
    case ArmTimer(at) => Timers.ArmAt(ts, id, at, armAt)
  }

  // ---- Session choice ----

  function RefOf(t: Task): string {
    if t.sessionRef.Some? then t.sessionRef.value else ""
  }

  function BuildCommand(d: Deps, t: Task): Command {
    var ref := RefOf(t);
    var first := t.totalAttempts == 0;
    if ref != "" && d.canResume && (!first || t.sessionMode.ExistingSession?)
    then ResumeCommand(ref)
    else StartCommand(ref)
  }

  function Bounded(p: SupPolicy, o: AttemptOutput): AttemptOutput {
    AttemptOutput(o.exitCode, Detect.Tail(o.stdout, p.scanBytes), Detect.Tail(o.stderr, p.scanBytes))
  }

  /** A known ref is never overwritten; an empty one is not adopted. */
  function AdoptSessionRef(d: Deps, p: SupPolicy, t: Task, o: AttemptOutput): Task {
    if RefOf(t) != "" then t
    else
      var ref := d.extractRef(Bounded(p, o));
      if ref.Some? && ref.value != "" then t.(sessionRef := ref) else t
  }

  function Classify(d: Deps, p: SupPolicy, o: AttemptOutput, now: Time): Detect.DetectResult {
    var b := Bounded(p, o);
    Detect.Classify(d.oracle, d.engine, Detect.Input(b.exitCode, b.stdout, b.stderr), now, d.zone)
  }

  // ---- Committing ----

  /** Commit the rows; only then does the in-memory task change. */
  function Persist(s: Sup, rec: Rec, w: AttemptWrite, evs: seq<EventRow>, next: Task, fault: Fault,
                   timer: TimerAct, calls: seq<HostCall>): Out
  {
    var c := Commit(rec, w, evs, next, fault);
    if c.Some? then Out(true, s.(task := next), c.value, timer, calls)
    else Out(false, s, rec, timer, calls)
  }

  function CloseAttempt(s: Sup, o: AttemptOutput, r: Detect.DetectResult, now: Time): Sup {
    if s.current.None? then s
    else
      var a := s.current.value;
      s.(current := Some(a.(endedAt := Some(now), exitCode := Some(o.exitCode), outcome := Some(r.category),
                            resetAt := r.resetAt,
                            matchedRule := if r.matchedRule != "" then Some(r.matchedRule) else a.matchedRule)))
  }

  function CurrentWrite(s: Sup): AttemptWrite {
    if s.current.Some? then Rewrite(s.current.value) else NoAttempt
  }

  // ---- Transitions ----

  function Fail(s: Sup, rec: Rec, reason: string, env: Env, timer: TimerAct): Out {
    var next := s.task.(status := Failed, exitReason := Some(reason), nextWakeAt := None, updatedAt := env.failAt);
    Persist(s, rec, NoAttempt, [EventRow(env.failAt, LoggedChange(Failed, reason, None))], next, env.fault, timer, [])
  }

  function NewAttempt(s: Sup, env: Env): Attempt {
    Attempt(env.attemptId, s.task.id, s.task.totalAttempts + 1, env.spawned, env.at, None, None, None, None, None)
  }

  function SpawnAttempt(d: Deps, s: Sup, rec: Rec, cause: Cause, env: Env, timer: TimerAct): Out {
    var no := s.task.totalAttempts + 1;
    var cmd := BuildCommand(d, s.task);
    if !env.pathsOk then Out(false, s, rec, timer, [])
    else if !env.buildOk then Fail(s, rec, "build command", env, timer)
    else if env.spawned.None? then Fail(s, rec, "spawn attempt", env, timer)
    else
      var a := NewAttempt(s, env);
      var next := s.task.(status := Running, currentAttempt := no, totalAttempts := no, nextWakeAt := None,
                          updatedAt := env.at);
      var evs := [EventRow(env.at, LoggedStart(no, cause, cmd.ResumeCommand?, env.spawned.value))];
      var out := Persist(s, rec, Insert(a), evs, next, env.fault, timer, [Spawned(no, cmd)]);
      if out.ok then out.(sup := out.sup.(current := Some(a)))
      else out.(calls := out.calls + [Killed])
  }

  /** Account the wait and stop the prober, in memory only. */
  function LeaveWait(s: Sup, now: Time): Sup {
    var s := s.(probing := false);
    if s.task.status.Waiting? && s.waitingSince.Some? then
      s.(task := s.task.(cumulativeWaitMs := s.task.cumulativeWaitMs + Millis(SubTime(now, s.waitingSince.value))),
         waitingSince := None)
    else s
  }

  function Wake(d: Deps, s: Sup, rec: Rec, cause: Cause, env: Env): Out {
    SpawnAttempt(d, LeaveWait(s, env.wakeAt), rec, cause, env, CancelTimer)
  }

  function Finish(s: Sup, rec: Rec, next: Task, to: Status, reason: string, r: Detect.DetectResult, env: Env): Out {
    var next := next.(status := to, exitReason := Some(reason), nextWakeAt := None);
    Persist(s, rec, CurrentWrite(s), [EventRow(next.updatedAt, LoggedChange(to, reason, Some(r.category)))], next,
            env.fault, KeepTimer, [])
  }

  function CapName(c: Scheduler.Cap): string {
    match c
    case CapMaxAttempts => "max_attempts"
    case CapDeadline => "deadline"
    case CapMaxTotalWait => "max_total_wait"
    case CapNone => ""
  }

  /** The next row after an exit, before the outcome is acted on. */
  function AfterExit(d: Deps, s: Sup, o: AttemptOutput, r: Detect.DetectResult, now: Time): Task {
    AdoptSessionRef(d, s.policy,
                    s.task.(updatedAt := now, lastOutcome := Some(r.category), lastResetAt := r.resetAt), o)
  }

  function FailsOn(p: SupPolicy, c: Category): bool {
    c.FatalError? || (c.Unknown? && p.onUnknown == "fail")
  }

  function ProposedWake(s: Sup, r: Detect.DetectResult, env: Env): Time {
    Scheduler.NextWake(s.policy.scheduler, s.task.totalAttempts, r.resetAt, env.at, env.draw)
  }

  /** The cap check with the waits as the code computes them, in int64. */
  function CapHit(s: Sup, r: Detect.DetectResult, env: Env): Scheduler.Cap {
    Scheduler.ExceededCap(s.policy.scheduler, s.task.totalAttempts, env.at,
                          Wrap64(s.task.cumulativeWaitMs * NS_PER_MS), SubTime(ProposedWake(s, r, env), env.at))
  }

  function ExitRow(r: Detect.DetectResult, now: Time): EventRow {
    EventRow(now, LoggedExit(r.category, r.matchedRule))
  }

  function StartProber(d: Deps, s: Sup): Sup {
    if !d.hasProbe || s.policy.probeInterval <= 0 || s.probing then s else s.(probing := true)
  }

  function ScheduleRetry(d: Deps, s: Sup, rec: Rec, next: Task, r: Detect.DetectResult, env: Env): Out {
    var wake := ProposedWake(s, r, env);
    var next := next.(status := Waiting, nextWakeAt := Some(wake));
    var out := Persist(s, rec, CurrentWrite(s), [ExitRow(r, env.at), EventRow(env.at, LoggedWake(wake))], next,
                       env.fault, KeepTimer, []);
    if !out.ok then out
    else
      var waiting := out.sup.(waitingSince := Some(env.at));
      out.(sup := if r.category.QuotaExhausted? then StartProber(d, waiting) else waiting, timer := ArmTimer(wake))
  }

  function HandleExit(d: Deps, s: Sup, rec: Rec, o: AttemptOutput, env: Env): Out {
    var r := Classify(d, s.policy, o, env.at);
    var closed := CloseAttempt(s, o, r, env.at);
    var next := AfterExit(d, s, o, r, env.at);
    if r.category.Success? then Finish(closed, rec, next, Succeeded, "success", r, env)
    else if FailsOn(s.policy, r.category) then
      Finish(closed, rec, next, Failed,
             if r.matchedRule == "" then "unknown outcome (on_unknown=fail)" else r.matchedRule, r, env)
    else
      var hit := CapHit(s, r, env);
      if !hit.CapNone? then Finish(closed, rec, next, Failed, "cap exceeded: " + CapName(hit), r, env)
      else ScheduleRetry(d, closed, rec, next, r, env)
  }

  /** Where a committed exit leads, by its category and the cap it hits. */
  function Verdict(p: SupPolicy, c: Category, cap: Scheduler.Cap): Status {
    if c.Success? then Succeeded
    else if FailsOn(p, c) || !cap.CapNone? then Failed
    else Waiting
  }

  function ExitReason(p: SupPolicy, r: Detect.DetectResult, cap: Scheduler.Cap): string {
    if r.category.Success? then "success"
    else if !FailsOn(p, r.category) then "cap exceeded: " + CapName(cap)
    else if r.matchedRule == "" then "unknown outcome (on_unknown=fail)"
    else r.matchedRule
  }

  /** The total-wait arithmetic cannot mislead this exit: the outcome or an earlier cap
      decides, no total-wait cap is set, or the total fits. */
  predicate CapExact(s: Sup, r: Detect.DetectResult, env: Env) {
    var p := s.policy.scheduler;
    var proposed := Scheduler.NextWake(p, s.task.totalAttempts, r.resetAt, env.at, env.draw) - env.at;
    || r.category.Success? || r.category.FatalError? || (r.category.Unknown? && s.policy.onUnknown == "fail")
    || (p.maxAttempts != 0 && s.task.totalAttempts >= p.maxAttempts)
    || (p.deadline.Some? && env.at >= p.deadline.value)
    || p.maxTotalWait == 0
    || Scheduler.TotalFits(p, s.task.cumulativeWaitMs * NS_PER_MS, proposed)
  }

  /** Every exit either ends the task or schedules a retry. */
  lemma ExitShape(d: Deps, s: Sup, rec: Rec, o: AttemptOutput, env: Env) returns (to: Status, reason: string)
    ensures var r := Classify(d, s.policy, o, env.at);
            var closed := CloseAttempt(s, o, r, env.at);
            var next := AfterExit(d, s, o, r, env.at);
            && to == Verdict(s.policy, r.category, CapHit(s, r, env))
            && reason == ExitReason(s.policy, r, CapHit(s, r, env))
            && (to.Waiting? || Terminal(to))
            && HandleExit(d, s, rec, o, env) ==
                 if to.Waiting? then ScheduleRetry(d, closed, rec, next, r, env)
                 else Finish(closed, rec, next, to, reason, r, env)
  {
    var r := Classify(d, s.policy, o, env.at);
    to := Verdict(s.policy, r.category, CapHit(s, r, env));
    reason := ExitReason(s.policy, r, CapHit(s, r, env));
  }

  function RecordPausedExit(d: Deps, s: Sup, rec: Rec, o: AttemptOutput, env: Env): Out {
    var r := Classify(d, s.policy, o, env.at);
    var closed := CloseAttempt(s, o, r, env.at);
    var next := AfterExit(d, s, o, r, env.at);
    Persist(closed, rec, CurrentWrite(closed), [ExitRow(r, env.at)], next, env.fault, KeepTimer, [])
  }

  function Pause(s: Sup, rec: Rec, env: Env): Out {
    var left := LeaveWait(s, env.at);
    var next := left.task.(status := Paused, nextWakeAt := None, updatedAt := env.at);
    // The wait is accounted in the new row only: memory keeps the old task until the commit.
    Persist(left.(task := s.task), rec, NoAttempt, [EventRow(env.at, LoggedAction(PauseAction, s.task.status))], next,
            env.fault, CancelTimer, [])
  }

  function Stop(s: Sup, rec: Rec, env: Env): Out {
    var s := s.(probing := false);
    var live := s.task.status.Running? || s.task.status.Paused?;
    var calls := if live then [Killed] else [];
    if live && !env.killOk then Out(false, s, rec, CancelTimer, calls)
    else
      var next := s.task.(status := Stopped, exitReason := Some("stopped by user"), nextWakeAt := None,
                          updatedAt := env.at);
      Persist(s, rec, NoAttempt, [EventRow(env.at, LoggedAction(StopAction, s.task.status))], next, env.fault,
              CancelTimer, calls)
  }

  function Ignore(s: Sup, rec: Rec): Out {
    Out(true, s, rec, KeepTimer, [])
  }

  /** A fire that comes before its time is ignored. */
  predicate TooEarly(t: Task, now: Time) {
    t.nextWakeAt.Some? && now < t.nextWakeAt.value
  }

  /** One event against the state machine; events that do not apply are ignored. */
  function Handle(d: Deps, s: Sup, rec: Rec, ev: Event, env: Env): Out {
    var status := s.task.status;
    match ev
    case Start => if status.Pending? then SpawnAttempt(d, s, rec, StartCause, env, KeepTimer) else Ignore(s, rec)
    case TimerFire =>
      if status.Waiting? && !TooEarly(s.task, env.guardAt) then Wake(d, s, rec, TimerCause, env) else Ignore(s, rec)
    case AvailabilityOk => if status.Waiting? then Wake(d, s, rec, AvailabilityCause, env) else Ignore(s, rec)
    case UserResume =>
      if status.Paused? || status.Waiting? then Wake(d, s, rec, ResumeCause, env) else Ignore(s, rec)
    case AttemptExit(o) =>
      if status.Running? then HandleExit(d, s, rec, o, env)
      else if status.Paused? then RecordPausedExit(d, s, rec, o, env)
      else Ignore(s, rec)
    case UserPause => if status.Running? || status.Waiting? then Pause(s, rec, env) else Ignore(s, rec)
    case UserStop => if Terminal(status) then Ignore(s, rec) else Stop(s, rec, env)
  }
}
