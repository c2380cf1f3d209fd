/** The transition table of the task lifecycle (docs/architecture.md): for every event,
    whether it applies, exactly when it is accepted, and all that it then leaves, from
    the task's row and the failures the event meets. */
module Transitions {
  import opened Types
  import opened Store
  import opened Machine
  import opened Lifecycle
  import Detect
  import Scheduler

  predicate Applies(ev: Event, t: Task, env: Env) {
    match ev
    case Start => t.status == Pending
    case TimerFire => t.status == Waiting && (t.nextWakeAt.Some? ==> env.guardAt >= t.nextWakeAt.value)
    case AvailabilityOk => t.status == Waiting
    case UserResume => t.status == Paused || t.status == Waiting
    case AttemptExit(_) => t.status == Running || t.status == Paused
    case UserPause => t.status == Running || t.status == Waiting
    case UserStop => t.status == Pending || t.status == Running || t.status == Waiting || t.status == Paused
  }

  /** The waiting account of a task that stops waiting now, which adds only waits this
      supervisor saw begin. */
  function Waited(s: Sup, t: Task, now: Time): int {
    if t.status == Waiting && s.waitingSince.Some?
    then t.cumulativeWaitMs + Millis(SubTime(now, s.waitingSince.value))
    else t.cumulativeWaitMs
  }

  // ---- Stop and pause ----

  /** Accepted exactly when no kill it needs fails and the database does not strike. */
  predicate StopLeaves(s: Sup, rec: Rec, env: Env, out: Out) {
    var from := rec.task.status;
    var live := from == Running || from == Paused;
    && (out.ok <==> (live ==> env.killOk) && !Struck(env.fault, 2))
    && out.rec == (if !out.ok then rec
                   else Rec(rec.task.(status := Stopped, exitReason := Some("stopped by user"), nextWakeAt := None,
                                      updatedAt := env.at),
                            rec.attempts, rec.log + [EventRow(env.at, LoggedAction(StopAction, from))]))
    && out.sup == s.(task := out.rec.task, probing := false)
    && out.timer == CancelTimer && out.calls == (if live then [Killed] else [])
  }

  predicate PauseLeaves(s: Sup, rec: Rec, env: Env, out: Out) {
    && (out.ok <==> !Struck(env.fault, 2))
    && out.rec == (if !out.ok then rec
                   else Rec(rec.task.(status := Paused, nextWakeAt := None, updatedAt := env.at,
                                      cumulativeWaitMs := Waited(s, rec.task, env.at)),
                            rec.attempts, rec.log + [EventRow(env.at, LoggedAction(PauseAction, rec.task.status))]))
    && out.sup == s.(task := out.rec.task, waitingSince := None, probing := false)
    && out.timer == CancelTimer && out.calls == []
  }

  lemma StopDoes(d: Deps, s: Sup, rec: Rec, env: Env)
    requires Good(d, s, rec) && !Terminal(rec.task.status)
    ensures StopLeaves(s, rec, env, Handle(d, s, rec, UserStop, env))
  {
  }

  lemma PauseDoes(d: Deps, s: Sup, rec: Rec, env: Env)
    requires Good(d, s, rec) && (rec.task.status.Running? || rec.task.status.Waiting?)
    ensures PauseLeaves(s, rec, env, Handle(d, s, rec, UserPause, env))
  {
  }

  // ---- Starting the next attempt ----

  function CauseOf(ev: Event): Cause {
    match ev
    case TimerFire => TimerCause
    case AvailabilityOk => AvailabilityCause
    case UserResume => ResumeCause
    case _ => StartCause
  }

  /** A known session is resumed, unless the provider cannot, or this is the first
      attempt of a task that did not name an existing session. */
  function Asked(d: Deps, t: Task): Command {
    if t.sessionRef.None? || t.sessionRef.value == "" then StartCommand("")
    else if d.canResume && (t.totalAttempts != 0 || t.sessionMode == ExistingSession)
    then ResumeCommand(t.sessionRef.value)
    else StartCommand(t.sessionRef.value)
  }

  /** The attempt could not be built or spawned: that is recorded, and ends the task. */
  predicate FailLeaves(t: Task, rec: Rec, reason: string, env: Env, out: Out) {
    && (out.ok <==> !Struck(env.fault, 2))
    && out.calls == []
    && (out.ok ==>
          out.rec == Rec(t.(status := Failed, exitReason := Some(reason), nextWakeAt := None, updatedAt := env.failAt),
                         rec.attempts, rec.log + [EventRow(env.failAt, LoggedChange(Failed, reason, None))]))
  }

  function NextRow(t: Task, pid: int, env: Env): Attempt {
    Attempt(env.attemptId, t.id, t.totalAttempts + 1, Some(pid), env.at, None, None, None, None, None)
  }

  /** The child is running: its row is committed with the task's, or it is killed. */
  predicate SpawnLeaves(d: Deps, t: Task, rec: Rec, cause: Cause, pid: int, env: Env, out: Out) {
    var no := t.totalAttempts + 1;
    && (out.ok <==> && !Struck(env.fault, 3)
                    && forall k :: 0 <= k < |rec.attempts| ==> rec.attempts[k].id != env.attemptId)
    && out.calls == (if out.ok then [Spawned(no, Asked(d, t))] else [Spawned(no, Asked(d, t)), Killed])
    && (out.ok ==>
          out.rec == Rec(t.(status := Running, currentAttempt := no, totalAttempts := no, nextWakeAt := None,
                            updatedAt := env.at),
                         rec.attempts + [NextRow(t, pid, env)],
                         rec.log + [EventRow(env.at, LoggedStart(no, cause, Asked(d, t).ResumeCommand?, pid))]))
  }

  /** `t` is the stored task with the wait it leaves accounted. */
  predicate AttemptLeaves(d: Deps, s: Sup, t: Task, rec: Rec, cause: Cause, env: Env, out: Out) {
    var started := out.ok && env.buildOk && env.spawned.Some?;
    && (if !env.pathsOk then !out.ok && out.calls == []
        else if !env.buildOk then FailLeaves(t, rec, "build command", env, out)
        else if env.spawned.None? then FailLeaves(t, rec, "spawn attempt", env, out)
        else SpawnLeaves(d, t, rec, cause, env.spawned.value, env, out))
    && (!out.ok ==> out.rec == rec)
    && out.sup == s.(task := if out.ok then out.rec.task else t, waitingSince := None, probing := false,
                     current := if started then Some(NextRow(t, env.spawned.value, env)) else s.current)
  }

  predicate StartLeaves(d: Deps, s: Sup, rec: Rec, ev: Event, env: Env, out: Out) {
    var t := rec.task.(cumulativeWaitMs := Waited(s, rec.task, env.wakeAt));
    && AttemptLeaves(d, s, t, rec, CauseOf(ev), env, out)
    && out.timer == if ev == Start then KeepTimer else CancelTimer
  }

  lemma FailDoes(s: Sup, rec: Rec, reason: string, env: Env, timer: TimerAct)
    requires s.task.id == rec.task.id && s.task.createdAt == rec.task.createdAt
    ensures var out := Fail(s, rec, reason, env, timer);
            && FailLeaves(s.task, rec, reason, env, out) && out.timer == timer
            && (!out.ok ==> out.rec == rec)
            && out.sup == s.(task := if out.ok then out.rec.task else s.task)
  {
  }

  lemma InsertDoes(rec: Rec, a: Attempt, e: EventRow, next: Task, fault: Fault)
    requires RowsNumbered(rec) && a.attemptNo == rec.task.totalAttempts + 1 && a.taskId == rec.task.id
    requires next.id == rec.task.id && next.createdAt == rec.task.createdAt
    ensures var c := Commit(rec, Insert(a), [e], next, fault);
            && (c.Some? <==> !Struck(fault, 3) && forall k :: 0 <= k < |rec.attempts| ==> rec.attempts[k].id != a.id)
            && (c.Some? ==> c.value == Rec(next, rec.attempts + [a], rec.log + [e]))
  {
    InsertOkIff(rec, a, e, next, fault);
  }

  lemma SpawnDoes(d: Deps, s: Sup, rec: Rec, cause: Cause, env: Env, timer: TimerAct)
    requires RecInv(rec) && s.task.(cumulativeWaitMs := 0) == rec.task.(cumulativeWaitMs := 0)
    requires s.waitingSince.None? && !s.probing
    ensures var out := SpawnAttempt(d, s, rec, cause, env, timer);
            AttemptLeaves(d, s, s.task, rec, cause, env, out) && out.timer == timer
  {
    var t := s.task;
    if env.pathsOk {
      if !env.buildOk {
        FailDoes(s, rec, "build command", env, timer);
      } else if env.spawned.None? {
        FailDoes(s, rec, "spawn attempt", env, timer);
      } else {
        var no := t.totalAttempts + 1;
        InsertDoes(rec, NextRow(t, env.spawned.value, env),
                   EventRow(env.at, LoggedStart(no, cause, Asked(d, t).ResumeCommand?, env.spawned.value)),
                   t.(status := Running, currentAttempt := no, totalAttempts := no, nextWakeAt := None,
                      updatedAt := env.at), env.fault);
      }
    }
  }

  lemma LeavesWaitAs(d: Deps, s: Sup, rec: Rec, now: Time)
    requires Agrees(d, s, rec) && (rec.task.status.Waiting? || rec.task.status.Paused?)
    ensures LeaveWait(s, now) == s.(task := rec.task.(cumulativeWaitMs := Waited(s, rec.task, now)),
                                    waitingSince := None, probing := false)
  {
  }

  lemma WakeDoes(d: Deps, s: Sup, rec: Rec, ev: Event, env: Env)
    requires Good(d, s, rec) && (rec.task.status.Waiting? || rec.task.status.Paused?) && !ev.Start?
    ensures StartLeaves(d, s, rec, ev, env, Wake(d, s, rec, CauseOf(ev), env))
  {
    LeavesWaitAs(d, s, rec, env.wakeAt);
    SpawnDoes(d, LeaveWait(s, env.wakeAt), rec, CauseOf(ev), env, CancelTimer);
  }

  lemma StartDoes(d: Deps, s: Sup, rec: Rec, env: Env)
    requires Good(d, s, rec) && rec.task.status.Pending?
    ensures StartLeaves(d, s, rec, Start, env, Handle(d, s, rec, Start, env))
  {
    SpawnDoes(d, s, rec, StartCause, env, KeepTimer);
  }

  // ---- Exits ----

  /** The attempt row an exit closes, with all it now says. */
  function Closed(a: Attempt, o: AttemptOutput, r: Detect.DetectResult, at: Time): Attempt {
    Attempt(a.id, a.taskId, a.attemptNo, a.pid, a.startedAt, Some(at), Some(o.exitCode), Some(r.category), r.resetAt,
            if r.matchedRule == "" then a.matchedRule else Some(r.matchedRule))
  }

  /** The last row closed, if it is the one this supervisor has open. */
  function ClosedRows(s: Sup, rec: Rec, o: AttemptOutput, r: Detect.DetectResult, at: Time): seq<Attempt> {
    if s.current.None? || rec.attempts == [] then rec.attempts
    else
      var last := |rec.attempts| - 1;
      rec.attempts[..last] + [Closed(rec.attempts[last], o, r, at)]
  }

  /** A known ref stays; otherwise the one the scanned output reveals is taken, if any. */
  function NextRef(d: Deps, p: SupPolicy, known: Option<string>, o: AttemptOutput): Option<string> {
    var scanned := AttemptOutput(o.exitCode, Detect.Tail(o.stdout, p.scanBytes), Detect.Tail(o.stderr, p.scanBytes));
    var revealed := d.extractRef(scanned);
    if (known.Some? && known.value != "") || revealed.None? || revealed.value == "" then known else revealed
  }

  /** The task row with the outcome recorded. */
  function Recorded(d: Deps, p: SupPolicy, t: Task, o: AttemptOutput, r: Detect.DetectResult, at: Time): Task {
    t.(updatedAt := at, lastOutcome := Some(r.category), lastResetAt := r.resetAt,
       sessionRef := NextRef(d, p, t.sessionRef, o))
  }

  /** Where an exit leads a RUNNING task. */
  function Outcome(onUnknown: string, c: Category, capped: bool): Status {
    match c
    case Success => Succeeded
    case FatalError => Failed
    case Unknown => if onUnknown == "fail" || capped then Failed else Waiting
    case _ => if capped then Failed else Waiting
  }

  /** Why it ended there. */
  function Reason(p: SupPolicy, t: Task, r: Detect.DetectResult, now: Time): string {
    if r.category == Success then "success"
    else if r.category == FatalError || (r.category == Unknown && p.onUnknown == "fail") then
      if r.matchedRule != "" then r.matchedRule else "unknown outcome (on_unknown=fail)"
    else if p.scheduler.maxAttempts != 0 && t.totalAttempts >= p.scheduler.maxAttempts then "cap exceeded: max_attempts"
    else if p.scheduler.deadline.Some? && now >= p.scheduler.deadline.value then "cap exceeded: deadline"
    else "cap exceeded: max_total_wait"
  }

  /** The wake time proposed for the attempt after these, and whether a cap forbids it. */
  function Proposed(p: Scheduler.Policy, t: Task, resetAt: Option<Time>, env: Env): Time {
    Scheduler.NextWake(p, t.totalAttempts, resetAt, env.at, env.draw)
  }

  predicate Forbidden(p: Scheduler.Policy, t: Task, resetAt: Option<Time>, env: Env) {
    Scheduler.ExceededCap(p, t.totalAttempts, env.at, Wrap64(t.cumulativeWaitMs * 1_000_000),
                          SubTime(Proposed(p, t, resetAt, env), env.at)) != Scheduler.CapNone
  }

  function ExitLog(to: Status, reason: string, r: Detect.DetectResult, wake: Time, at: Time): seq<EventRow> {
    if to == Waiting
    then [EventRow(at, LoggedExit(r.category, r.matchedRule)), EventRow(at, LoggedWake(wake))]
    else [EventRow(at, LoggedChange(to, reason, Some(r.category)))]
  }

  /** `r` is what the exit was classified as. */
  predicate ExitLeaves(d: Deps, s: Sup, rec: Rec, o: AttemptOutput, r: Detect.DetectResult, env: Env, out: Out) {
    var t := rec.task;
    var wake := Proposed(s.policy.scheduler, t, r.resetAt, env);
    var to := Outcome(s.policy.onUnknown, r.category, Forbidden(s.policy.scheduler, t, r.resetAt, env));
    var reason := Reason(s.policy, t, r, env.at);
    var waits := out.ok && to == Waiting;
    && (out.ok <==> !Struck(env.fault, if to == Waiting then 4 else 3))
    && out.rec == (if !out.ok then rec
                   else Rec(Recorded(d, s.policy, t, o, r, env.at).(
                              status := to,
                              exitReason := if to == Waiting then None else Some(reason),
                              nextWakeAt := if to == Waiting then Some(wake) else None),
                            ClosedRows(s, rec, o, r, env.at), rec.log + ExitLog(to, reason, r, wake, env.at)))
    && s.current.Some?
    && out.sup == s.(task := out.rec.task, current := Some(Closed(s.current.value, o, r, env.at)),
                     waitingSince := if waits then Some(env.at) else None,
                     probing := waits && r.category == QuotaExhausted && d.hasProbe && s.policy.probeInterval > 0)
    && out.timer == (if waits then ArmTimer(wake) else KeepTimer) && out.calls == []
  }

  /** A PAUSED task stays PAUSED: the outcome is recorded and nothing is scheduled. */
  predicate PausedExitLeaves(d: Deps, s: Sup, rec: Rec, o: AttemptOutput, r: Detect.DetectResult, env: Env, out: Out) {
    && (out.ok <==> !Struck(env.fault, if s.current.Some? then 3 else 2))
    && out.rec == (if !out.ok then rec
                   else Rec(Recorded(d, s.policy, rec.task, o, r, env.at), ClosedRows(s, rec, o, r, env.at),
                            rec.log + [EventRow(env.at, LoggedExit(r.category, r.matchedRule))]))
    && out.sup == s.(task := out.rec.task,
                     current := if s.current.Some? then Some(Closed(s.current.value, o, r, env.at)) else None)
    && out.timer == KeepTimer && out.calls == []
  }

  /** Committing the closed attempt writes exactly the closed rows. */
  lemma ClosingWrites(s: Sup, rec: Rec, o: AttemptOutput, r: Detect.DetectResult, at: Time)
    requires RowsNumbered(rec) && CurrentStored(s, rec)
    ensures var c := CloseAttempt(s, o, r, at);
            && WriteAttempt(rec, CurrentWrite(c)) == Ok(rec.(attempts := ClosedRows(s, rec, o, r, at)))
            && c == s.(current := if s.current.Some? then Some(Closed(s.current.value, o, r, at)) else None)
  {
    if s.current.Some? {
      var last := |rec.attempts| - 1;
      var a := Closed(s.current.value, o, r, at);
      RewriteAt(rec, last, a);
      assert rec.attempts[last := a] == rec.attempts[..last] + [a];
    }
  }

  lemma RecordedAs(d: Deps, s: Sup, o: AttemptOutput, r: Detect.DetectResult, at: Time)
    ensures AfterExit(d, s, o, r, at) == Recorded(d, s.policy, s.task, o, r, at)
  {
  }

  lemma PausedExitDoes(d: Deps, s: Sup, rec: Rec, o: AttemptOutput, env: Env)
    requires Good(d, s, rec) && rec.task.status.Paused?
    ensures PausedExitLeaves(d, s, rec, o, Classify(d, s.policy, o, env.at), env,
                             Handle(d, s, rec, AttemptExit(o), env))
  {
    var r := Classify(d, s.policy, o, env.at);
    ClosingWrites(s, rec, o, r, env.at);
    RecordedAs(d, s, o, r, env.at);
  }

  lemma VerdictIs(s: Sup, r: Detect.DetectResult, env: Env)
    ensures Verdict(s.policy, r.category, CapHit(s, r, env))
         == Outcome(s.policy.onUnknown, r.category, Forbidden(s.policy.scheduler, s.task, r.resetAt, env))
  {
  }

  lemma ReasonIs(s: Sup, r: Detect.DetectResult, env: Env)
    requires !Verdict(s.policy, r.category, CapHit(s, r, env)).Waiting?
    ensures ExitReason(s.policy, r, CapHit(s, r, env)) == Reason(s.policy, s.task, r, env.at)
  {
    assert "cap exceeded: " + "max_attempts" == "cap exceeded: max_attempts";
    assert "cap exceeded: " + "deadline" == "cap exceeded: deadline";
    assert "cap exceeded: " + "max_total_wait" == "cap exceeded: max_total_wait";
  }

  lemma FinishDoes(s: Sup, rec: Rec, rows: seq<Attempt>, next: Task, to: Status, reason: string,
                   r: Detect.DetectResult, env: Env)
    requires s.current.Some? && WriteAttempt(rec, CurrentWrite(s)) == Ok(rec.(attempts := rows))
    requires next.id == rec.task.id && next.createdAt == rec.task.createdAt
    ensures var out := Finish(s, rec, next, to, reason, r, env);
            && (out.ok <==> !Struck(env.fault, 3))
            && out.rec == (if !out.ok then rec
                           else Rec(next.(status := to, exitReason := Some(reason), nextWakeAt := None), rows,
                                    rec.log + [EventRow(next.updatedAt, LoggedChange(to, reason, Some(r.category)))]))
            && out.sup == s.(task := if out.ok then out.rec.task else s.task)
            && out.timer == KeepTimer && out.calls == []
  {
  }

  lemma ScheduleDoes(d: Deps, s: Sup, rec: Rec, rows: seq<Attempt>, next: Task, r: Detect.DetectResult, env: Env)
    requires s.current.Some? && WriteAttempt(rec, CurrentWrite(s)) == Ok(rec.(attempts := rows))
    requires next.id == rec.task.id && next.createdAt == rec.task.createdAt && !s.probing
    ensures var out := ScheduleRetry(d, s, rec, next, r, env);
            var wake := Proposed(s.policy.scheduler, s.task, r.resetAt, env);
            && (out.ok <==> !Struck(env.fault, 4))
            && out.rec == (if !out.ok then rec
                           else Rec(next.(status := Waiting, nextWakeAt := Some(wake)), rows,
                                    rec.log + [EventRow(env.at, LoggedExit(r.category, r.matchedRule)),
                                               EventRow(env.at, LoggedWake(wake))]))
            && out.sup == (if !out.ok then s
                           else s.(task := out.rec.task, waitingSince := Some(env.at),
                                   probing := r.category == QuotaExhausted && d.hasProbe && s.policy.probeInterval > 0))
            && out.timer == (if out.ok then ArmTimer(wake) else KeepTimer) && out.calls == []
  {
  }

  lemma ExitDoes(d: Deps, s: Sup, rec: Rec, o: AttemptOutput, env: Env)
    requires Good(d, s, rec) && rec.task.status.Running?
    ensures ExitLeaves(d, s, rec, o, Classify(d, s.policy, o, env.at), env, Handle(d, s, rec, AttemptExit(o), env))
  {
    var r := Classify(d, s.policy, o, env.at);
    var closed := CloseAttempt(s, o, r, env.at);
    var next := AfterExit(d, s, o, r, env.at);
    var rows := ClosedRows(s, rec, o, r, env.at);
    ClosingWrites(s, rec, o, r, env.at);
    RecordedAs(d, s, o, r, env.at);
    var to, reason := ExitShape(d, s, rec, o, env);
    VerdictIs(s, r, env);
    if to == Waiting {
      ScheduleDoes(d, closed, rec, rows, next, r, env);
    } else {
      ReasonIs(s, r, env);
      FinishDoes(closed, rec, rows, next, to, reason, r, env);
    }
  }

  // ---- The table ----

  /** The table's row for this event and status, or nothing at all if it has none. */
  predicate Follows(d: Deps, s: Sup, rec: Rec, ev: Event, env: Env, out: Out) {
    if !Applies(ev, rec.task, env) then out == Out(true, s, rec, KeepTimer, [])
    else
      match ev
      case UserStop => StopLeaves(s, rec, env, out)
      case UserPause => PauseLeaves(s, rec, env, out)
      case AttemptExit(o) =>
        var r := Classify(d, s.policy, o, env.at);
        if rec.task.status == Running then ExitLeaves(d, s, rec, o, r, env, out)
        else PausedExitLeaves(d, s, rec, o, r, env, out)
      case _ => StartLeaves(d, s, rec, ev, env, out)
  }

  lemma HandleFollowsTable(d: Deps, s: Sup, rec: Rec, ev: Event, env: Env)
    requires Good(d, s, rec)
    ensures Follows(d, s, rec, ev, env, Handle(d, s, rec, ev, env))
  {
    if Applies(ev, rec.task, env) {
      match ev
      case UserStop => StopDoes(d, s, rec, env);
      case UserPause => PauseDoes(d, s, rec, env);
      case AttemptExit(o) =>
        if rec.task.status.Running? { ExitDoes(d, s, rec, o, env); } else { PausedExitDoes(d, s, rec, o, env); }
      case Start => StartDoes(d, s, rec, env);
      case _ => WakeDoes(d, s, rec, ev, env);
    }
  }
}
