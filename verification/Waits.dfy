/** Waiting time over whole runs: every wait is accounted once, the total-wait cap
    bounds what is accounted, and with it the number of retries. */
module Waits {
  import opened Types
  import opened Machine
  import opened Lifecycle
  import opened Effects
  import opened Recovery
  import opened Runs
  import Scheduler

  // ---- What one event does to the wait account ----

  /** An event that ends a wait and accounts it: any that leaves WAITING but a stop. */
  predicate EndsWait(rec: Rec, ev: Event, after: Rec) {
    rec.task.status.Waiting? && !after.task.status.Waiting? && !ev.UserStop?
  }

  /** The clock reading a wait is measured up to. */
  function LeaveTime(ev: Event, env: Env): Time {
    if ev.UserPause? then env.at else env.wakeAt
  }

  function AddedWait(s: Sup, rec: Rec, ev: Event, env: Env, after: Rec): int {
    if EndsWait(rec, ev, after) && s.waitingSince.Some? then
      Millis(SubTime(LeaveTime(ev, env), s.waitingSince.value))
    else 0
  }

  predicate Accounted(s: Sup, rec: Rec, ev: Event, env: Env, out: Out) {
    && out.rec.task.cumulativeWaitMs == rec.task.cumulativeWaitMs + AddedWait(s, rec, ev, env, out.rec)
    && (out.ok && !Terminal(out.sup.task.status) ==>
          out.sup.waitingSince ==
            if !out.rec.task.status.Waiting? then None
            else if rec.task.status.Running? then Some(env.at)
            else s.waitingSince)
  }

  /** A start commits the wait accounted in memory, or nothing. */
  lemma SpawnAccounts(d: Deps, s: Sup, rec: Rec, cause: Cause, env: Env, timer: TimerAct)
    requires SameButWait(s, rec)
    ensures var out := SpawnAttempt(d, s, rec, cause, env, timer);
            && (out.ok ==> out.sup.task.status == out.rec.task.status && !out.rec.task.status.Waiting?)
            && (out.ok ==> out.rec.task.cumulativeWaitMs == s.task.cumulativeWaitMs)
            && (!out.ok ==> out.rec == rec)
            && out.sup.waitingSince == s.waitingSince
  {
  }

  lemma WakeAccounts(d: Deps, s: Sup, rec: Rec, cause: Cause, ev: Event, env: Env)
    requires Good(d, s, rec) && (rec.task.status.Waiting? || rec.task.status.Paused?)
    requires !ev.UserPause? && !ev.UserStop?
    ensures Accounted(s, rec, ev, env, Wake(d, s, rec, cause, env))
  {
    SpawnAccounts(d, LeaveWait(s, env.wakeAt), rec, cause, env, CancelTimer);
  }

  lemma ExitAccounts(d: Deps, s: Sup, rec: Rec, o: AttemptOutput, env: Env)
    requires Good(d, s, rec) && rec.task.status.Running?
    ensures Accounted(s, rec, AttemptExit(o), env, HandleExit(d, s, rec, o, env))
  {
    var r := Classify(d, s.policy, o, env.at);
    var closed := CloseAttempt(s, o, r, env.at);
    var next := AfterExit(d, s, o, r, env.at);
    var to, reason := ExitShape(d, s, rec, o, env);
    if to.Waiting? {
      ScheduleAccounts(d, closed, rec, next, r, env);
    } else {
      FinishAccounts(closed, rec, next, to, reason, r, env);
    }
  }

  lemma FinishAccounts(s: Sup, rec: Rec, next: Task, to: Status, reason: string, r: Detect.DetectResult, env: Env)
    requires Terminal(to) && next.cumulativeWaitMs == rec.task.cumulativeWaitMs
    ensures var out := Finish(s, rec, next, to, reason, r, env);
            out.rec.task.cumulativeWaitMs == rec.task.cumulativeWaitMs && (out.ok ==> Terminal(out.sup.task.status))
  {
  }

  lemma ScheduleAccounts(d: Deps, s: Sup, rec: Rec, next: Task, r: Detect.DetectResult, env: Env)
    requires next.cumulativeWaitMs == rec.task.cumulativeWaitMs
    ensures var out := ScheduleRetry(d, s, rec, next, r, env);
            && out.rec.task.cumulativeWaitMs == rec.task.cumulativeWaitMs
            && (out.ok ==> out.sup.waitingSince == Some(env.at) && out.rec.task.status.Waiting?
                           && out.rec.task.nextWakeAt == Some(ProposedWake(s, r, env)))
  {
  }

  lemma PausedExitAccounts(d: Deps, s: Sup, rec: Rec, o: AttemptOutput, env: Env)
    requires Good(d, s, rec) && rec.task.status.Paused?
    ensures Accounted(s, rec, AttemptExit(o), env, RecordPausedExit(d, s, rec, o, env))
  {
  }

  lemma HandleAccounts(d: Deps, s: Sup, rec: Rec, ev: Event, env: Env)
    requires Good(d, s, rec) && !Terminal(rec.task.status)
    ensures Accounted(s, rec, ev, env, Handle(d, s, rec, ev, env))
  {
    var status := s.task.status;
    match ev
    case Start =>
    case TimerFire => if status.Waiting? { WakeAccounts(d, s, rec, TimerCause, ev, env); }
    case AvailabilityOk => if status.Waiting? { WakeAccounts(d, s, rec, AvailabilityCause, ev, env); }
    case UserResume => if status.Paused? || status.Waiting? { WakeAccounts(d, s, rec, ResumeCause, ev, env); }
    case AttemptExit(o) =>
      if status.Running? {
        ExitAccounts(d, s, rec, o, env);
      } else if status.Paused? {
        PausedExitAccounts(d, s, rec, o, env);
      }
    case UserPause =>
    case UserStop =>
  }

  // ---- Conservation ----

  /** When the current wait was entered by an exit in this supervisor's lifetime, as
      seen from outside: from statuses and clock readings alone. */
  function Entry(w: Setup, c: Core, steps: seq<Step>): Option<Time> {
    if steps == [] then None
    else
      var front := steps[..|steps| - 1];
      var last := steps[|steps| - 1];
      var before := Run(w, c, front);
      var after := Next(w, before, last);
      if after.sup.None? || before.sup.None? || !after.rec.task.status.Waiting? then None
      else if last.Deliver? && before.rec.task.status.Running? then Some(last.env.at)
      else Entry(w, c, front)
  }

  /** The wait the last step ended, if it ended one that was entered in the same
      lifetime. */
  function EndedWait(w: Setup, c: Core, steps: seq<Step>): Option<Duration>
    requires steps != []
  {
    var front := steps[..|steps| - 1];
    var last := steps[|steps| - 1];
    var before := Run(w, c, front);
    if && last.Deliver? && before.sup.Some? && Entry(w, c, front).Some?
       && EndsWait(before.rec, last.ev, Next(w, before, last).rec)
    then Some(SubTime(LeaveTime(last.ev, last.env), Entry(w, c, front).value))
    else None
  }

  function TotalWaited(w: Setup, c: Core, steps: seq<Step>): int {
    if steps == [] then 0
    else
      var ended := EndedWait(w, c, steps);
      TotalWaited(w, c, steps[..|steps| - 1]) + if ended.Some? then Millis(ended.value) else 0
  }

  /** The stored cumulative wait is the sum, over the waits entered by an exit and
      ended by a wake or a pause within one supervisor lifetime, of their lengths in
      whole milliseconds: none counted twice, none dropped. */
  lemma {:induction false} WaitConservation(w: Setup, c: Core, steps: seq<Step>)
    requires Fresh(c)
    ensures var here := Run(w, c, steps);
            && here.rec.task.cumulativeWaitMs == TotalWaited(w, c, steps)
            && (here.sup.Some? ==> here.sup.value.waitingSince == Entry(w, c, steps))
  {
    if steps != [] {
      var front := steps[..|steps| - 1];
      var last := steps[|steps| - 1];
      WaitConservation(w, c, front);
      RunKeepsInv(w, c, front);
      var before := Run(w, c, front);
      match last {
        case Deliver(ev, env) =>
          if before.sup.Some? {
            HandleAccounts(w.deps, before.sup.value, before.rec, ev, env);
            HandleKeeps(w.deps, before.sup.value, before.rec, ev, env);
          }
        case Crash =>
        case Recover(renv) => RecoverKeepsWait(w, before, renv);
      }
    }
  }

  lemma RecoverKeepsWait(w: Setup, c: Core, renv: RecoverEnv)
    ensures var n := Next(w, c, Recover(renv));
            n.rec.task.cumulativeWaitMs == c.rec.task.cumulativeWaitMs
            && (n.sup.Some? && c.sup.None? ==> n.sup.value.waitingSince.None?)
  {
  }

  /** While a live task waits on exhausted quota and a probe is configured, it is probed
      exactly when it entered the wait in this supervisor's lifetime: a recovered wait is
      not. */
  lemma ProbedIff(w: Setup, c: Core, steps: seq<Step>)
    requires Fresh(c)
    requires var here := Run(w, c, steps);
             && here.sup.Some? && here.rec.task.status.Waiting? && here.rec.task.lastOutcome == Some(QuotaExhausted)
             && w.deps.hasProbe && here.sup.value.policy.probeInterval > 0
    ensures Run(w, c, steps).sup.value.probing <==> Entry(w, c, steps).Some?
  {
    RunKeepsInv(w, c, steps);
    WaitConservation(w, c, steps);
  }

  // ---- A sane environment ----

  /** Clock readings within a step come in order, and the random draw is in [0, 1). */
  predicate Realistic(step: Step) {
    match step
    case Deliver(_, e) => e.guardAt <= e.wakeAt <= e.at <= e.failAt && e.at <= e.armAt && 0.0 <= e.draw < 1.0
    case Recover(r) => r.now <= r.startAt <= r.armAt && 0.0 <= r.draw < 1.0
    case Crash => true
  }

  function FirstReading(step: Step, t: Time): Time {
    match step
    case Deliver(_, e) => e.guardAt
    case Recover(r) => r.now
    case Crash => t
  }

  function LastReading(step: Step, t: Time): Time {
    match step
    case Deliver(_, e) => if e.failAt >= e.armAt then e.failAt else e.armAt
    case Recover(r) => r.armAt
    case Crash => t
  }

  /** The clock after a run that began at t. */
  function Clock(t: Time, steps: seq<Step>): Time {
    if steps == [] then t else LastReading(steps[|steps| - 1], Clock(t, steps[..|steps| - 1]))
  }

  /** The clock never goes back. */
  predicate Monotone(t: Time, steps: seq<Step>) {
    steps == [] ||
    (var front := steps[..|steps| - 1];
     var last := steps[|steps| - 1];
     Monotone(t, front) && Realistic(last) && Clock(t, front) <= FirstReading(last, Clock(t, front)))
  }

  /** Durations are not negative, the backoff factor is at least 1, and the jitter is
      a fraction. */
  predicate SaneConfig(cfg: Config) {
    Parses(cfg) && Scheduler.Sane(BuildPolicy(cfg, 0).value.scheduler)
  }

  // ---- Entering a wait ----

  /** If this step is an exit, the total-wait arithmetic cannot mislead it. */
  predicate SumFits(w: Setup, c: Core, step: Step) {
    step.Deliver? && step.ev.AttemptExit? && c.sup.Some? && c.rec.task.status.Running? ==>
      CapExact(c.sup.value, Classify(w.deps, c.sup.value.policy, step.ev.output, step.env.at), step.env)
  }

  predicate SumsFit(w: Setup, c: Core, steps: seq<Step>) {
    steps == [] ||
    (SumsFit(w, c, steps[..|steps| - 1]) && SumFits(w, Run(w, c, steps[..|steps| - 1]), steps[|steps| - 1]))
  }

  /** Every exit that leads to WAITING schedules a wake time between now and the
      deadline of the supervisor's policy; and with a total-wait cap, when the total
      fits, the wait so far plus the proposed wait is within the cap.
      With no deadline the wait is at least the least delay or the reset buffer. */
  lemma EntersWithinCaps(w: Setup, c: Core, step: Step)
    requires CoreInv(w, c) && SaneConfig(w.cfg) && Realistic(step) && step.Deliver? && c.sup.Some?
    requires c.rec.task.status.Running? && Next(w, c, step).rec.task.status.Waiting?
    ensures var p := c.sup.value.policy.scheduler;
            var wake := Next(w, c, step).rec.task.nextWakeAt;
            && wake.Some? && step.env.at <= wake.value
            && (p.deadline.Some? ==> wake.value <= p.deadline.value)
            && (p.deadline.None? ==> wake.value - step.env.at >= Scheduler.LeastDelay(p)
                                     || wake.value - step.env.at >= p.resetBuffer)
            && (p.maxTotalWait > 0 && c.rec.task.cumulativeWaitMs >= 0 && SumFits(w, c, step) ==>
                  c.rec.task.cumulativeWaitMs * NS_PER_MS + (wake.value - step.env.at) <= p.maxTotalWait)
  {
    var s := c.sup.value;
    var env := step.env;
    HandleMoves(w.deps, s, c.rec, step.ev, env);
    OnlyExitWaits(w.deps, s, c.rec, step.ev, env);
    var o := step.ev.output;
    var r := Classify(w.deps, s.policy, o, env.at);
    var closed := CloseAttempt(s, o, r, env.at);
    ScheduleAccounts(w.deps, closed, c.rec, AfterExit(w.deps, s, o, r, env.at), r, env);
    Scheduler.NextWakeBounds(s.policy.scheduler, s.task.totalAttempts, r.resetAt, env.at, env.draw);
    Scheduler.UncappedWakeInWindow(s.policy.scheduler, s.task.totalAttempts, r.resetAt, env.at, env.draw,
                                   Wrap64(s.task.cumulativeWaitMs * NS_PER_MS));
    if s.policy.scheduler.deadline.None? {
      Scheduler.WaitAtLeast(s.policy.scheduler, s.task.totalAttempts, r.resetAt, env.at, env.draw);
    }
  }

  /** RUNNING becomes WAITING only by an exit that no cap stops. */
  lemma OnlyExitWaits(d: Deps, s: Sup, rec: Rec, ev: Event, env: Env)
    requires Good(d, s, rec) && rec.task.status.Running? && Handle(d, s, rec, ev, env).rec.task.status.Waiting?
    ensures ev.AttemptExit?
    ensures var o := ev.output;
            var r := Classify(d, s.policy, o, env.at);
            && CapHit(s, r, env).CapNone?
            && Handle(d, s, rec, ev, env) ==
                 ScheduleRetry(d, CloseAttempt(s, o, r, env.at), rec, AfterExit(d, s, o, r, env.at), r, env)
            && Handle(d, s, rec, ev, env).ok
  {
    if ev.AttemptExit? {
      var o := ev.output;
      var r := Classify(d, s.policy, o, env.at);
      var closed := CloseAttempt(s, o, r, env.at);
      var next := AfterExit(d, s, o, r, env.at);
      var to, reason := ExitShape(d, s, rec, o, env);
      if to.Waiting? {
        ScheduleAccounts(d, closed, rec, next, r, env);
      } else {
        FinishIsFinal(closed, rec, next, to, reason, r, env);
      }
    }
  }

  lemma FinishIsFinal(s: Sup, rec: Rec, next: Task, to: Status, reason: string, r: Detect.DetectResult, env: Env)
    requires Terminal(to)
    ensures var out := Finish(s, rec, next, to, reason, r, env);
            out.rec == rec || Terminal(out.rec.task.status)
  {
  }

  // ---- The total-wait budget ----

  /** How late the most recent accounted wait was ended, past its wake time. */
  function Lateness(w: Setup, c: Core, steps: seq<Step>): nat {
    if steps == [] then 0
    else
      var front := steps[..|steps| - 1];
      var last := steps[|steps| - 1];
      if EndedWait(w, c, steps).Some? then
        var due := Run(w, c, front).rec.task.nextWakeAt;
        if due.Some? && LeaveTime(last.ev, last.env) > due.value then LeaveTime(last.ev, last.env) - due.value else 0
      else Lateness(w, c, front)
  }

  /** The wait accounted so far is within the budget but for the lateness, and with the
      present wait, if there is one, will be within it when that wait is due. */
  predicate Covered(task: Task, entered: Option<Time>, late: nat, budget: Duration) {
    && task.cumulativeWaitMs >= 0
    && task.cumulativeWaitMs * NS_PER_MS <= budget + late
    && (entered.Some? ==>
          && task.status.Waiting? && task.nextWakeAt.Some?
          && entered.value <= task.nextWakeAt.value
          && task.cumulativeWaitMs * NS_PER_MS + (task.nextWakeAt.value - entered.value) <= budget)
  }

  predicate WithinBudget(w: Setup, c: Core, steps: seq<Step>, budget: Duration) {
    Covered(Run(w, c, steps).rec.task, Entry(w, c, steps), Lateness(w, c, steps), budget)
  }

  /** A wait lives between its entry and the present. */
  lemma {:induction false} EntryIsPast(w: Setup, c: Core, steps: seq<Step>, t: Time)
    requires Monotone(t, steps)
    ensures Entry(w, c, steps).Some? ==> Entry(w, c, steps).value <= Clock(t, steps)
  {
    if steps != [] {
      EntryIsPast(w, c, steps[..|steps| - 1], t);
    }
  }

  /** While a wait goes on, its wake time does not move. */
  lemma WaitingKeepsRow(d: Deps, s: Sup, rec: Rec, ev: Event, env: Env)
    requires Good(d, s, rec) && rec.task.status.Waiting? && Handle(d, s, rec, ev, env).rec.task.status.Waiting?
    ensures Handle(d, s, rec, ev, env).rec == rec
  {
    var status := s.task.status;
    match ev
    case TimerFire => WakeLeaves(d, s, rec, TimerCause, env);
    case AvailabilityOk => WakeLeaves(d, s, rec, AvailabilityCause, env);
    case UserResume => WakeLeaves(d, s, rec, ResumeCause, env);
    case _ =>
  }

  lemma WakeLeaves(d: Deps, s: Sup, rec: Rec, cause: Cause, env: Env)
    ensures var out := Wake(d, s, rec, cause, env);
            out.rec == rec || !out.rec.task.status.Waiting?
  {
  }

  /** If the task waits with `max` attempts or more made, the transaction that put it there
      logged an interruption. */
  predicate InterruptedAtCap(max: int, rec: Rec) {
    rec.task.status.Waiting? && rec.task.totalAttempts >= max ==>
      |rec.log| >= 2 && rec.log[|rec.log| - 2].entry == LoggedExit(Unknown, Interrupted)
  }

  /** A task that waits with max_attempts attempts made was put there by the recovery of an
      interrupted one, on any run. */
  lemma {:induction false} OverCapIsInterrupted(w: Setup, c: Core, steps: seq<Step>)
    requires Fresh(c) && w.cfg.maxAttempts >= 1
    ensures InterruptedAtCap(w.cfg.maxAttempts, Run(w, c, steps).rec)
  {
    if steps != [] {
      var front := steps[..|steps| - 1];
      OverCapIsInterrupted(w, c, front);
      RunKeepsInv(w, c, front);
      WaitsOverCap(w, Run(w, c, front), steps[|steps| - 1]);
    }
  }

  lemma WaitsOverCap(w: Setup, c: Core, step: Step)
    requires CoreInv(w, c) && w.cfg.maxAttempts >= 1 && InterruptedAtCap(w.cfg.maxAttempts, c.rec)
    ensures InterruptedAtCap(w.cfg.maxAttempts, Next(w, c, step).rec)
  {
    NextIsLegal(w, c, step);
    if step.Deliver? && c.sup.Some? && c.rec.task.status.Waiting? && Next(w, c, step).rec.task.status.Waiting? {
      WaitingKeepsRow(w.deps, c.sup.value, c.rec, step.ev, step.env);
    }
  }

  lemma MillisBound(d: Duration)
    requires d >= 0
    ensures 0 <= Millis(d) && Millis(d) * NS_PER_MS <= d < (Millis(d) + 1) * NS_PER_MS
  {
  }

  /** With max_total_wait = W > 0, the accounted wait never exceeds W by more than the
      lateness with which the most recent accounted wait was ended. */
  lemma {:induction false} TotalWaitBudget(w: Setup, c: Core, steps: seq<Step>, t: Time)
    requires Fresh(c) && SaneConfig(w.cfg) && BuildPolicy(w.cfg, 0).value.scheduler.maxTotalWait > 0
    requires Monotone(t, steps) && SumsFit(w, c, steps)
    ensures WithinBudget(w, c, steps, BuildPolicy(w.cfg, 0).value.scheduler.maxTotalWait)
  {
    if steps != [] {
      var front := steps[..|steps| - 1];
      var last := steps[|steps| - 1];
      TotalWaitBudget(w, c, front, t);
      BudgetStep(w, c, front, last, t);
      assert steps == front + [last];
    }
  }

  lemma BudgetStep(w: Setup, c: Core, front: seq<Step>, last: Step, t: Time)
    requires Fresh(c) && SaneConfig(w.cfg) && BuildPolicy(w.cfg, 0).value.scheduler.maxTotalWait > 0
    requires Monotone(t, front + [last]) && SumsFit(w, c, front + [last])
    requires WithinBudget(w, c, front, BuildPolicy(w.cfg, 0).value.scheduler.maxTotalWait)
    ensures WithinBudget(w, c, front + [last], BuildPolicy(w.cfg, 0).value.scheduler.maxTotalWait)
  {
    var steps := front + [last];
    assert steps[..|steps| - 1] == front && steps[|steps| - 1] == last;
    var before := Run(w, c, front);
    RunKeepsInv(w, c, front);
    WaitConservation(w, c, front);
    WaitConservation(w, c, steps);
    EntryIsPast(w, c, front, t);
    match last {
      case Deliver(ev, env) =>
        if before.sup.Some? {
          if before.rec.task.status.Running? && Next(w, before, last).rec.task.status.Waiting? {
            EntersWithinCaps(w, before, last);
          } else if before.rec.task.status.Waiting? && Next(w, before, last).rec.task.status.Waiting? {
            WaitingKeepsRow(w.deps, before.sup.value, before.rec, ev, env);
          } else {
            HandleMoves(w.deps, before.sup.value, before.rec, ev, env);
            if EndedWait(w, c, steps).Some? {
              MillisBound(EndedWait(w, c, steps).value);
            }
          }
        }
      case Crash =>
      case Recover(renv) => RecoverKeepsWait(w, before, renv);
    }
  }

  // ---- How many retries the budget allows ----

  /** A retry: a timer fire that ended a wait entered in the same lifetime and
      started the next attempt. */
  predicate IsRetry(w: Setup, c: Core, steps: seq<Step>)
    requires steps != []
  {
    && EndedWait(w, c, steps).Some?
    && steps[|steps| - 1].ev.TimerFire?
    && Run(w, c, steps).rec.task.status.Running?
  }

  function Retries(w: Setup, c: Core, steps: seq<Step>): nat {
    if steps == [] then 0
    else Retries(w, c, steps[..|steps| - 1]) + if IsRetry(w, c, steps) then 1 else 0
  }

  /** The least wait between attempts, in whole milliseconds. */
  function LeastWaitMs(p: Scheduler.Policy): int {
    Millis(if Scheduler.LeastDelay(p) <= p.resetBuffer then Scheduler.LeastDelay(p) else p.resetBuffer)
  }

  /** r * d, by repeated addition. */
  function Times(r: nat, d: int): int {
    if r == 0 then 0 else Times(r - 1, d) + d
  }

  /** The retries so far have been paid for out of the budget, and the present wait,
      if there is one, will pay for the next. */
  predicate Paid(retries: nat, task: Task, entered: Option<Time>, budget: Duration, least: nat) {
    && Times(retries, least) <= task.cumulativeWaitMs
    && Times(retries, least) * NS_PER_MS <= budget
    && (entered.Some? ==>
          task.nextWakeAt.Some? && task.nextWakeAt.value - entered.value >= least * NS_PER_MS)
  }

  predicate RetryBudget(w: Setup, c: Core, steps: seq<Step>, budget: Duration, least: nat) {
    Paid(Retries(w, c, steps), Run(w, c, steps).rec.task, Entry(w, c, steps), budget, least)
  }

  /** With a total-wait cap W and no deadline, any run makes at most W / d retries by
      timer, d being the least wait in whole milliseconds. */
  lemma {:induction false} RetriesWithinBudget(w: Setup, c: Core, steps: seq<Step>, t: Time)
    requires Fresh(c) && SaneConfig(w.cfg) && BuildPolicy(w.cfg, 0).value.scheduler.maxTotalWait > 0
    requires w.cfg.deadline.NoDeadline?
    requires Monotone(t, steps) && SumsFit(w, c, steps)
    ensures var p := BuildPolicy(w.cfg, 0).value.scheduler;
            && LeastWaitMs(p) >= 0
            && RetryBudget(w, c, steps, p.maxTotalWait, LeastWaitMs(p))
            && (LeastWaitMs(p) >= 1 ==> Retries(w, c, steps) <= p.maxTotalWait / (LeastWaitMs(p) * NS_PER_MS))
  {
    var p := BuildPolicy(w.cfg, 0).value.scheduler;
    LeastWaitIsNat(p);
    if steps != [] {
      var front := steps[..|steps| - 1];
      var last := steps[|steps| - 1];
      RetriesWithinBudget(w, c, front, t);
      TotalWaitBudget(w, c, front, t);
      RetryStep(w, c, front, last, t);
      assert steps == front + [last];
    }
    if LeastWaitMs(p) >= 1 {
      TimesScaled(Retries(w, c, steps), LeastWaitMs(p));
      TimesBound(Retries(w, c, steps), LeastWaitMs(p) * NS_PER_MS, p.maxTotalWait);
    }
  }

  lemma {:induction false} TimesScaled(r: nat, d: int)
    ensures Times(r, d * NS_PER_MS) == Times(r, d) * NS_PER_MS
  {
    if r > 0 {
      TimesScaled(r - 1, d);
    }
  }

  lemma {:induction false} TimesIsProduct(r: nat, d: int)
    ensures Times(r, d) == r * d
  {
    if r > 0 {
      TimesIsProduct(r - 1, d);
    }
  }

  lemma {:induction false} TimesOrder(r: nat, q: nat, d: int, total: int)
    requires d >= 1 && Times(r, d) <= total < Times(q, d) + d
    ensures r <= q
  {
    if r > 0 {
      TimesNonNegative(r - 1, d);
      if q > 0 {
        TimesOrder(r - 1, q - 1, d, total - d);
      }
    }
  }

  lemma TimesBound(r: nat, d: int, total: int)
    requires d >= 1 && total >= 0 && Times(r, d) <= total
    ensures r <= total / d
  {
    var q := total / d;
    assert total < q * d + d;
    TimesIsProduct(q, d);
    TimesOrder(r, q, d, total);
  }

  lemma {:induction false} TimesNonNegative(r: nat, d: int)
    requires d >= 0
    ensures Times(r, d) >= 0
  {
    if r > 0 {
      TimesNonNegative(r - 1, d);
    }
  }

  lemma LeastWaitIsNat(p: Scheduler.Policy)
    requires Scheduler.Sane(p)
    ensures LeastWaitMs(p) >= 0
  {
    LeastDelayNotNegative(p);
  }

  lemma RetryStep(w: Setup, c: Core, front: seq<Step>, last: Step, t: Time)
    requires Fresh(c) && SaneConfig(w.cfg) && BuildPolicy(w.cfg, 0).value.scheduler.maxTotalWait > 0
    requires w.cfg.deadline.NoDeadline?
    requires Monotone(t, front + [last]) && SumsFit(w, c, front + [last])
    requires LeastWaitMs(BuildPolicy(w.cfg, 0).value.scheduler) >= 0
    requires WithinBudget(w, c, front, BuildPolicy(w.cfg, 0).value.scheduler.maxTotalWait)
    requires RetryBudget(w, c, front, BuildPolicy(w.cfg, 0).value.scheduler.maxTotalWait,
                         LeastWaitMs(BuildPolicy(w.cfg, 0).value.scheduler))
    ensures RetryBudget(w, c, front + [last], BuildPolicy(w.cfg, 0).value.scheduler.maxTotalWait,
                        LeastWaitMs(BuildPolicy(w.cfg, 0).value.scheduler))
  {
    var p := BuildPolicy(w.cfg, 0).value.scheduler;
    var steps := front + [last];
    assert steps[..|steps| - 1] == front && steps[|steps| - 1] == last;
    if EndedWait(w, c, steps).Some? {
      EndStep(w, c, front, last, t, p.maxTotalWait, LeastWaitMs(p));
    } else {
      NoEndStep(w, c, front, last);
    }
  }

  /** A step that ends a wait adds its whole milliseconds to the account, and a retry
      among them was handled no earlier than the wake time. */
  lemma EndedFacts(w: Setup, c: Core, front: seq<Step>, last: Step, t: Time)
    requires Fresh(c) && Monotone(t, front + [last])
    requires EndedWait(w, c, front + [last]).Some?
    ensures var steps := front + [last];
            var before, ended := Run(w, c, front).rec.task, EndedWait(w, c, steps).value;
            && last.Deliver? && Entry(w, c, front).Some? && Entry(w, c, steps).None?
            && Entry(w, c, front).value <= LeaveTime(last.ev, last.env)
            && ended == SubTime(LeaveTime(last.ev, last.env), Entry(w, c, front).value)
            && Run(w, c, steps).rec.task.cumulativeWaitMs == before.cumulativeWaitMs + Millis(ended)
            && (IsRetry(w, c, steps) ==>
                  before.nextWakeAt.Some? && LeaveTime(last.ev, last.env) >= before.nextWakeAt.value)
  {
    var steps := front + [last];
    assert steps[..|steps| - 1] == front && steps[|steps| - 1] == last;
    var before := Run(w, c, front);
    RunKeepsInv(w, c, front);
    WaitConservation(w, c, front);
    WaitConservation(w, c, steps);
    EntryIsPast(w, c, front, t);
    if IsRetry(w, c, steps) {
      FireIsOnTime(w.deps, before.sup.value, before.rec, last.env);
    }
  }

  /** A step that ends a wait spends one retry at most, and at least the least wait. */
  lemma EndStep(w: Setup, c: Core, front: seq<Step>, last: Step, t: Time, budget: Duration, least: nat)
    requires Fresh(c) && budget <= MAX_INT64
    requires Monotone(t, front + [last])
    requires EndedWait(w, c, front + [last]).Some?
    requires WithinBudget(w, c, front, budget) && RetryBudget(w, c, front, budget, least)
    ensures RetryBudget(w, c, front + [last], budget, least)
  {
    var steps := front + [last];
    EndedFacts(w, c, front, last, t);
    RetriesStep(w, c, front, last);
    PaysOne(Retries(w, c, front), Run(w, c, front).rec.task, Entry(w, c, front), Lateness(w, c, front),
            LeaveTime(last.ev, last.env), IsRetry(w, c, steps),
            Retries(w, c, steps), Run(w, c, steps).rec.task, Entry(w, c, steps), budget, least);
  }

  /** The same step on the numbers alone. */
  lemma PaysOne(retries: nat, before: Task, entered: Option<Time>, late: nat, left: Time, retry: bool,
                retries': nat, after: Task, entered': Option<Time>, budget: Duration, least: nat)
    requires Paid(retries, before, entered, budget, least) && budget <= MAX_INT64
    requires entered.Some? && entered.value <= left && entered'.None?
    requires Covered(before, entered, late, budget)
    requires after.cumulativeWaitMs == before.cumulativeWaitMs + Millis(SubTime(left, entered.value))
    requires retry ==> left >= before.nextWakeAt.value
    requires retries' == retries + if retry then 1 else 0
    ensures Paid(retries', after, entered', budget, least)
  {
    SpendOne(retries, least, before.cumulativeWaitMs, entered.value, before.nextWakeAt.value, left, budget);
  }

  lemma RetriesStep(w: Setup, c: Core, front: seq<Step>, last: Step)
    ensures var steps := front + [last];
            Retries(w, c, steps) == Retries(w, c, front) + if IsRetry(w, c, steps) then 1 else 0
  {
    assert (front + [last])[..|front + [last]| - 1] == front;
  }

  /** The arithmetic of one accounted wait from `entered` to `left`, due at `wake`. */
  lemma SpendOne(r: nat, least: nat, waited: int, entered: Time, wake: Time, left: Time, budget: Duration)
    requires Times(r, least) <= waited && Times(r, least) * NS_PER_MS <= budget <= MAX_INT64
    requires wake - entered >= least * NS_PER_MS && waited * NS_PER_MS + (wake - entered) <= budget
    requires entered <= left
    ensures var now := waited + Millis(SubTime(left, entered));
            && Times(r, least) <= now
            && (left >= wake ==> Times(r + 1, least) <= now && Times(r + 1, least) * NS_PER_MS <= budget)
  {
    TimesNonNegative(r, least);
    MillisBound(SubTime(left, entered));
  }

  lemma NoEndStep(w: Setup, c: Core, front: seq<Step>, last: Step)
    requires Fresh(c) && SaneConfig(w.cfg) && w.cfg.deadline.NoDeadline? && Realistic(last)
    requires LeastWaitMs(BuildPolicy(w.cfg, 0).value.scheduler) >= 0
    requires EndedWait(w, c, front + [last]).None?
    requires RetryBudget(w, c, front, BuildPolicy(w.cfg, 0).value.scheduler.maxTotalWait,
                         LeastWaitMs(BuildPolicy(w.cfg, 0).value.scheduler))
    ensures RetryBudget(w, c, front + [last], BuildPolicy(w.cfg, 0).value.scheduler.maxTotalWait,
                        LeastWaitMs(BuildPolicy(w.cfg, 0).value.scheduler))
  {
    var steps := front + [last];
    assert steps[..|steps| - 1] == front && steps[|steps| - 1] == last;
    var before := Run(w, c, front);
    var after := Next(w, before, last);
    assert after == Run(w, c, steps);
    RunKeepsInv(w, c, front);
    WaitConservation(w, c, front);
    WaitConservation(w, c, steps);
    assert Retries(w, c, steps) == Retries(w, c, front);
    assert after.rec.task.cumulativeWaitMs == before.rec.task.cumulativeWaitMs;
    if Entry(w, c, steps).Some? {
      if before.rec.task.status.Running? {
        EnterGap(w, before, last);
      } else if last.Deliver? {
        StayGap(w, before, last);
      }
    }
  }

  lemma EnterGap(w: Setup, c: Core, step: Step)
    requires CoreInv(w, c) && SaneConfig(w.cfg) && Realistic(step) && step.Deliver? && c.sup.Some?
    requires w.cfg.deadline.NoDeadline?
    requires c.rec.task.status.Running? && Next(w, c, step).rec.task.status.Waiting?
    ensures var wake := Next(w, c, step).rec.task.nextWakeAt;
            wake.Some? && wake.value - step.env.at >= LeastWaitMs(BuildPolicy(w.cfg, 0).value.scheduler) * NS_PER_MS
  {
    var p := c.sup.value.policy.scheduler;
    EntersWithinCaps(w, c, step);
    GapInMillis(p, Next(w, c, step).rec.task.nextWakeAt.value - step.env.at);
  }

  lemma GapInMillis(p: Scheduler.Policy, gap: Duration)
    requires Scheduler.Sane(p) && (gap >= Scheduler.LeastDelay(p) || gap >= p.resetBuffer)
    ensures gap >= LeastWaitMs(p) * NS_PER_MS
  {
    LeastWaitIsNat(p);
    var least := if Scheduler.LeastDelay(p) <= p.resetBuffer then Scheduler.LeastDelay(p) else p.resetBuffer;
    LeastDelayNotNegative(p);
    MillisBound(least);
  }

  lemma LeastDelayNotNegative(p: Scheduler.Policy)
    requires Scheduler.Sane(p)
    ensures Scheduler.LeastDelay(p) >= 0
  {
  }

  /** A step during a wait leaves the row, and so its wake time, as it was. */
  lemma StayGap(w: Setup, c: Core, step: Step)
    requires CoreInv(w, c) && step.Deliver? && c.sup.Some?
    requires !c.rec.task.status.Running? && Next(w, c, step).rec.task.status.Waiting?
    ensures c.rec.task.status.Waiting? && Next(w, c, step).rec == c.rec
  {
    HandleMoves(w.deps, c.sup.value, c.rec, step.ev, step.env);
    WaitingKeepsRow(w.deps, c.sup.value, c.rec, step.ev, step.env);
  }

  /** A timer fire that ends a wait was handled no earlier than the wake time. */
  lemma FireIsOnTime(d: Deps, s: Sup, rec: Rec, env: Env)
    requires Good(d, s, rec) && rec.task.status.Waiting?
    ensures Handle(d, s, rec, TimerFire, env).rec != rec ==> env.guardAt >= rec.task.nextWakeAt.value
  {
  }
}
