/** The event log as an audit trail: on every run each entry is legal where it stands,
    entries are in time order, and the starts it lists are the attempt rows. */
module Audit {
  import opened Types
  import opened Store
  import opened Machine
  import opened Lifecycle
  import opened Effects
  import opened Recovery
  import opened Runs
  import opened Waits

  // ---- Every entry is legal where it stands ----

  /** Which causes can start an attempt from which state. */
  predicate MayStart(status: Status, cause: Cause) {
    match cause
    case StartCause => status.Pending?
    case TimerCause => status.Waiting?
    case AvailabilityCause => status.Waiting?
    case ResumeCause => status.Waiting? || status.Paused?
  }

  /** What may be logged about a task in the state replayed so far. */
  predicate LegalEntry(here: Summary, e: LogEntry) {
    match e
    case LoggedStart(no, cause, _, _) =>
      no == here.totalAttempts + 1 && MayStart(here.status, cause)
    case LoggedExit(outcome, _) =>
      here.status.Paused? || (here.status.Running? && !outcome.Success? && !outcome.FatalError?)
    case LoggedWake(_) => here.status.Running? && here.lastOutcome.Some?
    case LoggedAction(action, from) =>
      && from == here.status
      && (if action.PauseAction? then from.Running? || from.Waiting? else !Terminal(from))
    case LoggedChange(to, _, outcome) =>
      && (to.Succeeded? <==> outcome == Some(Success))
      && (!to.Succeeded? ==> to.Failed?)
      && (if outcome.Some? then here.status.Running?
          else here.status.Pending? || here.status.Waiting? || here.status.Paused?)
  }

  predicate LogLegal(log: seq<EventRow>) {
    forall i :: 0 <= i < |log| ==> LegalEntry(Replay(log[..i]), log[i].entry)
  }

  lemma LegalOne(log: seq<EventRow>, e: EventRow)
    requires LogLegal(log) && LegalEntry(Replay(log), e.entry)
    ensures LogLegal(log + [e])
  {
    var more := log + [e];
    forall i | 0 <= i < |more| ensures LegalEntry(Replay(more[..i]), more[i].entry) {
      assert more[..i] == log[..i];
      assert log[..|log|] == log;
    }
  }

  lemma LegalTwo(log: seq<EventRow>, e: EventRow, f: EventRow)
    requires LogLegal(log) && LegalEntry(Replay(log), e.entry) && LegalEntry(ReplayEntry(Replay(log), e.entry), f.entry)
    ensures LogLegal(log + [e, f])
  {
    AppendTwo(log, e, f);
    LegalOne(log, e);
    Replay1(log, e);
    LegalOne(log + [e], f);
  }

  /** The starts a log lists, in order. */
  datatype StartInfo = StartInfo(attemptNo: int, at: Time, pid: Option<int>)

  function StartsOf(log: seq<EventRow>): seq<StartInfo> {
    if log == [] then []
    else
      var last := log[|log| - 1];
      StartsOf(log[..|log| - 1]) +
      match last.entry
      case LoggedStart(no, _, _, pid) => [StartInfo(no, last.ts, Some(pid))]
      case _ => []
  }

  function Started(rows: seq<Attempt>): (s: seq<StartInfo>)
    ensures |s| == |rows|
  {
    seq(|rows|, i requires 0 <= i < |rows| => StartInfo(rows[i].attemptNo, rows[i].startedAt, rows[i].pid))
  }

  lemma StartsOne(log: seq<EventRow>, e: EventRow)
    ensures StartsOf(log + [e]) ==
            StartsOf(log) + if e.entry.LoggedStart? then [StartInfo(e.entry.attempt, e.ts, Some(e.entry.pid))] else []
  {
    assert (log + [e])[..|log|] == log;
  }

  /** A row was last updated when its last event was logged. */
  predicate Stamped(rec: Rec) {
    rec.task.updatedAt == if rec.log == [] then rec.task.createdAt else rec.log[|rec.log| - 1].ts
  }

  /** Log, attempt rows and task row tell the same history. */
  predicate Audited(rec: Rec) {
    LogLegal(rec.log) && StartsOf(rec.log) == Started(rec.attempts) && Stamped(rec)
  }

  // ---- What a transaction must write to keep it ----

  /** A transaction with one entry that is not a start, and at most an attempt row's
      completion fields. */
  lemma EntryAudited(s: Sup, rec: Rec, w: AttemptWrite, e: EventRow, next: Task, fault: Fault, timer: TimerAct,
                     calls: seq<HostCall>)
    requires Audited(rec) && LegalEntry(Replay(rec.log), e.entry) && !e.entry.LoggedStart? && next.updatedAt == e.ts
    requires WriteAttempt(rec, w).Ok? ==> Started(WriteAttempt(rec, w).value.attempts) == Started(rec.attempts)
    ensures Audited(Persist(s, rec, w, [e], next, fault, timer, calls).rec)
  {
    LegalOne(rec.log, e);
    StartsOne(rec.log, e);
  }

  /** A retryable exit's two entries. */
  lemma RetryAudited(s: Sup, rec: Rec, w: AttemptWrite, e: EventRow, f: EventRow, next: Task, fault: Fault)
    requires Audited(rec) && !e.entry.LoggedStart? && !f.entry.LoggedStart? && next.updatedAt == f.ts
    requires LegalEntry(Replay(rec.log), e.entry) && LegalEntry(ReplayEntry(Replay(rec.log), e.entry), f.entry)
    requires WriteAttempt(rec, w).Ok? ==> Started(WriteAttempt(rec, w).value.attempts) == Started(rec.attempts)
    ensures var c := Commit(rec, w, [e, f], next, fault);
            c.Some? ==> Audited(c.value)
  {
    LegalTwo(rec.log, e, f);
    StartsOne(rec.log, e);
    StartsOne(rec.log + [e], f);
    AppendTwo(rec.log, e, f);
  }

  /** Closing a row leaves its number, start time and pid. */
  lemma ClosingKeepsStarts(rec: Rec, i: int, a: Attempt)
    requires RowsNumbered(rec) && 0 <= i < |rec.attempts|
    requires var row := rec.attempts[i];
             a.(endedAt := row.endedAt, exitCode := row.exitCode, outcome := row.outcome, resetAt := row.resetAt,
                matchedRule := row.matchedRule) == row
    ensures RewriteRow(rec, a).Ok? && Started(RewriteRow(rec, a).value.attempts) == Started(rec.attempts)
  {
    RewriteAt(rec, i, a);
  }

  lemma CurrentKeepsStarts(s: Sup, rec: Rec, o: AttemptOutput, r: Detect.DetectResult, now: Time)
    requires RecInv(rec) && CurrentStored(s, rec)
    ensures var w := WriteAttempt(rec, CurrentWrite(CloseAttempt(s, o, r, now)));
            w.Ok? && Started(w.value.attempts) == Started(rec.attempts)
  {
    if s.current.Some? {
      ClosingKeepsStarts(rec, |rec.attempts| - 1, CloseAttempt(s, o, r, now).current.value);
    }
  }

  // ---- Each transition keeps it ----

  lemma FailAudited(s: Sup, rec: Rec, reason: string, env: Env, timer: TimerAct)
    requires RecInv(rec) && Audited(rec)
    requires rec.task.status.Pending? || rec.task.status.Waiting? || rec.task.status.Paused?
    ensures Audited(Fail(s, rec, reason, env, timer).rec)
  {
    EntryAudited(s, rec, NoAttempt, EventRow(env.failAt, LoggedChange(Failed, reason, None)),
                 s.task.(status := Failed, exitReason := Some(reason), nextWakeAt := None, updatedAt := env.failAt),
                 env.fault, timer, []);
  }

  lemma StartListed(rec: Rec, a: Attempt, e: EventRow)
    requires Audited(rec) && LegalEntry(Replay(rec.log), e.entry)
    requires a.pid.Some? && e.entry.LoggedStart?
    requires e.entry.attempt == a.attemptNo && e.entry.pid == a.pid.value && e.ts == a.startedAt
    ensures LogLegal(rec.log + [e]) && StartsOf(rec.log + [e]) == Started(rec.attempts + [a])
  {
    LegalOne(rec.log, e);
    StartsOne(rec.log, e);
  }

  /** A committed start adds its entry and its row together. */
  lemma StartAudited(rec: Rec, a: Attempt, cause: Cause, resumed: bool, next: Task, fault: Fault)
    requires RecInv(rec) && Audited(rec) && MayStart(rec.task.status, cause)
    requires a.attemptNo == rec.task.totalAttempts + 1 && a.taskId == rec.task.id && a.pid.Some?
    requires next.updatedAt == a.startedAt
    ensures var e := EventRow(a.startedAt, LoggedStart(a.attemptNo, cause, resumed, a.pid.value));
            var c := Commit(rec, Insert(a), [e], next, fault);
            c.Some? ==> Audited(c.value)
  {
    var e := EventRow(a.startedAt, LoggedStart(a.attemptNo, cause, resumed, a.pid.value));
    StartListed(rec, a, e);
    InsertNext(rec, a);
    var c := Commit(rec, Insert(a), [e], next, fault);
    assert c.Some? ==> c.value.log == rec.log + [e] && c.value.attempts == rec.attempts + [a];
  }

  lemma SpawnAudited(d: Deps, s: Sup, rec: Rec, cause: Cause, env: Env, timer: TimerAct)
    requires RecInv(rec) && Audited(rec) && SameButWait(s, rec) && MayStart(rec.task.status, cause)
    ensures Audited(SpawnAttempt(d, s, rec, cause, env, timer).rec)
  {
    if env.pathsOk {
      if !env.buildOk {
        FailAudited(s, rec, "build command", env, timer);
      } else if env.spawned.None? {
        FailAudited(s, rec, "spawn attempt", env, timer);
      } else {
        var no := s.task.totalAttempts + 1;
        StartAudited(rec, NewAttempt(s, env), cause, BuildCommand(d, s.task).ResumeCommand?,
                     s.task.(status := Running, currentAttempt := no, totalAttempts := no, nextWakeAt := None,
                             updatedAt := env.at), env.fault);
      }
    }
  }

  lemma WakeAudited(d: Deps, s: Sup, rec: Rec, cause: Cause, env: Env)
    requires RecInv(rec) && Audited(rec) && s.task == rec.task && !cause.StartCause?
    requires rec.task.status.Waiting? || (cause.ResumeCause? && rec.task.status.Paused?)
    ensures Audited(Wake(d, s, rec, cause, env).rec)
  {
    SpawnAudited(d, LeaveWait(s, env.wakeAt), rec, cause, env, CancelTimer);
  }

  lemma FinishAudited(s: Sup, rec: Rec, next: Task, to: Status, reason: string, r: Detect.DetectResult, env: Env)
    requires Audited(rec) && RecInv(rec) && rec.task.status.Running?
    requires if r.category.Success? then to.Succeeded? else to.Failed?
    requires var w := WriteAttempt(rec, CurrentWrite(s));
             w.Ok? && Started(w.value.attempts) == Started(rec.attempts)
    ensures Audited(Finish(s, rec, next, to, reason, r, env).rec)
  {
    EntryAudited(s, rec, CurrentWrite(s), EventRow(next.updatedAt, LoggedChange(to, reason, Some(r.category))),
                 next.(status := to, exitReason := Some(reason), nextWakeAt := None), env.fault, KeepTimer, []);
  }

  lemma ScheduleAudited(d: Deps, s: Sup, rec: Rec, next: Task, r: Detect.DetectResult, env: Env)
    requires Audited(rec) && RecInv(rec) && rec.task.status.Running? && !r.category.Success? && !r.category.FatalError?
    requires next.updatedAt == env.at
    requires var w := WriteAttempt(rec, CurrentWrite(s));
             w.Ok? && Started(w.value.attempts) == Started(rec.attempts)
    ensures Audited(ScheduleRetry(d, s, rec, next, r, env).rec)
  {
    var wake := ProposedWake(s, r, env);
    RetryAudited(s, rec, CurrentWrite(s), ExitRow(r, env.at), EventRow(env.at, LoggedWake(wake)),
                 next.(status := Waiting, nextWakeAt := Some(wake)), env.fault);
  }

  lemma ExitAudited(d: Deps, s: Sup, rec: Rec, o: AttemptOutput, env: Env)
    requires Good(d, s, rec) && Audited(rec) && rec.task.status.Running?
    ensures Audited(HandleExit(d, s, rec, o, env).rec)
  {
    var r := Classify(d, s.policy, o, env.at);
    var closed := CloseAttempt(s, o, r, env.at);
    var next := AfterExit(d, s, o, r, env.at);
    CurrentKeepsStarts(s, rec, o, r, env.at);
    var to, reason := ExitShape(d, s, rec, o, env);
    if to.Waiting? {
      ScheduleAudited(d, closed, rec, next, r, env);
    } else {
      FinishAudited(closed, rec, next, to, reason, r, env);
    }
  }

  lemma PausedExitAudited(d: Deps, s: Sup, rec: Rec, o: AttemptOutput, env: Env)
    requires Good(d, s, rec) && Audited(rec) && rec.task.status.Paused?
    ensures Audited(RecordPausedExit(d, s, rec, o, env).rec)
  {
    var r := Classify(d, s.policy, o, env.at);
    var closed := CloseAttempt(s, o, r, env.at);
    CurrentKeepsStarts(s, rec, o, r, env.at);
    EntryAudited(closed, rec, CurrentWrite(closed), ExitRow(r, env.at), AfterExit(d, s, o, r, env.at), env.fault,
                 KeepTimer, []);
  }

  lemma PauseAudited(s: Sup, rec: Rec, env: Env)
    requires RecInv(rec) && Audited(rec) && s.task == rec.task && (rec.task.status.Running? || rec.task.status.Waiting?)
    ensures Audited(Pause(s, rec, env).rec)
  {
    var left := LeaveWait(s, env.at);
    EntryAudited(left.(task := s.task), rec, NoAttempt, EventRow(env.at, LoggedAction(PauseAction, s.task.status)),
                 left.task.(status := Paused, nextWakeAt := None, updatedAt := env.at), env.fault, CancelTimer, []);
  }

  lemma StopAudited(s: Sup, rec: Rec, env: Env)
    requires RecInv(rec) && Audited(rec) && s.task == rec.task && !Terminal(rec.task.status)
    ensures Audited(Stop(s, rec, env).rec)
  {
    EntryAudited(s.(probing := false), rec, NoAttempt, EventRow(env.at, LoggedAction(StopAction, s.task.status)),
                 s.task.(status := Stopped, exitReason := Some("stopped by user"), nextWakeAt := None,
                         updatedAt := env.at),
                 env.fault, CancelTimer, if s.task.status.Running? || s.task.status.Paused? then [Killed] else []);
  }

  lemma HandleAudited(d: Deps, s: Sup, rec: Rec, ev: Event, env: Env)
    requires Good(d, s, rec) && Audited(rec)
    ensures Audited(Handle(d, s, rec, ev, env).rec)
  {
    var status := s.task.status;
    match ev
    case Start => if status.Pending? { SpawnAudited(d, s, rec, StartCause, env, KeepTimer); }
    case TimerFire => if status.Waiting? { WakeAudited(d, s, rec, TimerCause, env); }
    case AvailabilityOk => if status.Waiting? { WakeAudited(d, s, rec, AvailabilityCause, env); }
    case UserResume => if status.Paused? || status.Waiting? { WakeAudited(d, s, rec, ResumeCause, env); }
    case AttemptExit(o) =>
      if status.Running? {
        ExitAudited(d, s, rec, o, env);
      } else if status.Paused? {
        PausedExitAudited(d, s, rec, o, env);
      }
    case UserPause => if status.Running? || status.Waiting? { PauseAudited(s, rec, env); }
    case UserStop => if !Terminal(status) { StopAudited(s, rec, env); }
  }

  lemma RecoverAudited(c: Config, rec: Rec, renv: RecoverEnv)
    requires RecInv(rec) && Audited(rec)
    ensures Audited(ReconcileTask(c, rec, renv).rec)
  {
    var p := BuildPolicy(c, renv.now);
    if rec.task.status.Running? && p.Some? {
      var i := FirstOpen(rec.attempts);
      if i.Some? {
        ClosingKeepsStarts(rec, i.value, Orphaned(rec.attempts, renv.now).row);
      }
      var wake := InterruptWake(c, p.value, rec.task, renv);
      var evs := InterruptedEvents(wake, renv.now);
      RetryAudited(Sup(p.value, rec.task, None, None, false), rec, Orphaned(rec.attempts, renv.now), evs[0], evs[1],
                   InterruptedRow(rec.task, wake, renv.now), renv.fault);
    }
  }

  /** On every run, whatever failed and wherever it crashed: each log entry is legal in
      the state replayed up to it (so a start names the next attempt and its cause, and
      a user action the state it interrupted), the starts logged are, in order, exactly
      the attempt rows with their start times and pids, and the task row was last
      updated when the last entry was logged. */
  lemma {:induction false} RunAudited(w: Setup, c: Core, steps: seq<Step>)
    requires Fresh(c)
    ensures Audited(Run(w, c, steps).rec)
  {
    if steps == [] {
      assert Started([]) == [];
    } else {
      var front := steps[..|steps| - 1];
      RunAudited(w, c, front);
      RunKeepsInv(w, c, front);
      var before := Run(w, c, front);
      match steps[|steps| - 1]
      case Deliver(ev, env) => if before.sup.Some? { HandleAudited(w.deps, before.sup.value, before.rec, ev, env); }
      case Crash =>
      case Recover(renv) => RecoverAudited(w.cfg, before.rec, renv);
    }
  }

  // ---- Entries are in time order ----

  predicate Ordered(log: seq<EventRow>, upTo: Time) {
    && (forall i, j :: 0 <= i < j < |log| ==> log[i].ts <= log[j].ts)
    && (forall i :: 0 <= i < |log| ==> log[i].ts <= upTo)
  }

  /** What a step logs, it logs at readings of its own clock. */
  predicate LoggedBetween(before: Rec, after: Rec, from: Time, to: Time) {
    && before.log <= after.log
    && (forall i, j :: |before.log| <= i < j < |after.log| ==> after.log[i].ts <= after.log[j].ts)
    && (forall i :: |before.log| <= i < |after.log| ==> from <= after.log[i].ts <= to)
  }

  /** A transaction appends its events and nothing else. */
  lemma CommitAppends(rec: Rec, w: AttemptWrite, evs: seq<EventRow>, next: Task, fault: Fault, from: Time, to: Time)
    requires forall i, j :: 0 <= i < j < |evs| ==> evs[i].ts <= evs[j].ts
    requires forall i :: 0 <= i < |evs| ==> from <= evs[i].ts <= to
    ensures var c := Commit(rec, w, evs, next, fault);
            c.Some? ==> LoggedBetween(rec, c.value, from, to)
  {
    WriteKeepsRows(rec, w);
  }

  lemma FinishLoggedBetween(s: Sup, rec: Rec, next: Task, to: Status, reason: string, r: Detect.DetectResult, env: Env)
    requires next.updatedAt == env.at
    ensures LoggedBetween(rec, Finish(s, rec, next, to, reason, r, env).rec, env.at, env.at)
  {
    CommitAppends(rec, CurrentWrite(s), [EventRow(env.at, LoggedChange(to, reason, Some(r.category)))],
                  next.(status := to, exitReason := Some(reason), nextWakeAt := None), env.fault, env.at, env.at);
  }

  lemma ScheduleLoggedBetween(d: Deps, s: Sup, rec: Rec, next: Task, r: Detect.DetectResult, env: Env)
    ensures LoggedBetween(rec, ScheduleRetry(d, s, rec, next, r, env).rec, env.at, env.at)
  {
    var wake := ProposedWake(s, r, env);
    CommitAppends(rec, CurrentWrite(s), [ExitRow(r, env.at), EventRow(env.at, LoggedWake(wake))],
                  next.(status := Waiting, nextWakeAt := Some(wake)), env.fault, env.at, env.at);
  }

  lemma ExitLoggedBetween(d: Deps, s: Sup, rec: Rec, o: AttemptOutput, env: Env)
    ensures LoggedBetween(rec, HandleExit(d, s, rec, o, env).rec, env.at, env.at)
  {
    var r := Classify(d, s.policy, o, env.at);
    var closed := CloseAttempt(s, o, r, env.at);
    var next := AfterExit(d, s, o, r, env.at);
    var to, reason := ExitShape(d, s, rec, o, env);
    if to.Waiting? {
      ScheduleLoggedBetween(d, closed, rec, next, r, env);
    } else {
      FinishLoggedBetween(closed, rec, next, to, reason, r, env);
    }
  }

  lemma PausedExitLoggedBetween(d: Deps, s: Sup, rec: Rec, o: AttemptOutput, env: Env)
    ensures LoggedBetween(rec, RecordPausedExit(d, s, rec, o, env).rec, env.at, env.at)
  {
    var r := Classify(d, s.policy, o, env.at);
    CommitAppends(rec, CurrentWrite(CloseAttempt(s, o, r, env.at)), [ExitRow(r, env.at)], AfterExit(d, s, o, r, env.at),
                  env.fault, env.at, env.at);
  }

  lemma SpawnLoggedBetween(d: Deps, s: Sup, rec: Rec, cause: Cause, env: Env, timer: TimerAct)
    requires env.at <= env.failAt
    ensures LoggedBetween(rec, SpawnAttempt(d, s, rec, cause, env, timer).rec, env.at, env.failAt)
  {
    WriteKeepsRows(rec, Insert(NewAttempt(s, env)));
  }

  lemma WakeLoggedBetween(d: Deps, s: Sup, rec: Rec, cause: Cause, env: Env)
    requires env.at <= env.failAt
    ensures LoggedBetween(rec, Wake(d, s, rec, cause, env).rec, env.at, env.failAt)
  {
    SpawnLoggedBetween(d, LeaveWait(s, env.wakeAt), rec, cause, env, CancelTimer);
  }

  lemma PauseLoggedBetween(s: Sup, rec: Rec, env: Env)
    ensures LoggedBetween(rec, Pause(s, rec, env).rec, env.at, env.at)
  {
  }

  lemma StopLoggedBetween(s: Sup, rec: Rec, env: Env)
    ensures LoggedBetween(rec, Stop(s, rec, env).rec, env.at, env.at)
  {
  }

  lemma HandleLoggedBetween(d: Deps, s: Sup, rec: Rec, ev: Event, env: Env)
    requires s.task == rec.task && env.at <= env.failAt
    ensures LoggedBetween(rec, Handle(d, s, rec, ev, env).rec, env.at, env.failAt)
  {
    match ev
    case Start => SpawnLoggedBetween(d, s, rec, StartCause, env, KeepTimer);
    case TimerFire => WakeLoggedBetween(d, s, rec, TimerCause, env);
    case AvailabilityOk => WakeLoggedBetween(d, s, rec, AvailabilityCause, env);
    case UserResume => WakeLoggedBetween(d, s, rec, ResumeCause, env);
    case AttemptExit(o) =>
      ExitLoggedBetween(d, s, rec, o, env);
      PausedExitLoggedBetween(d, s, rec, o, env);
    case UserPause => PauseLoggedBetween(s, rec, env);
    case UserStop => StopLoggedBetween(s, rec, env);
  }

  lemma NextLoggedBetween(w: Setup, c: Core, step: Step, t: Time)
    requires CoreInv(w, c) && Realistic(step)
    ensures step.Crash? || LoggedBetween(c.rec, Next(w, c, step).rec, FirstReading(step, t), LastReading(step, t))
    ensures step.Crash? ==> Next(w, c, step).rec == c.rec
  {
    match step
    case Deliver(ev, env) => if c.sup.Some? { HandleLoggedBetween(w.deps, c.sup.value, c.rec, ev, env); }
    case Crash =>
    case Recover(renv) => WriteKeepsRows(c.rec, Orphaned(c.rec.attempts, renv.now));
  }

  /** Under a clock that does not go back, the log is in time order, across crashes and
      recoveries too. */
  lemma {:induction false} LogInTimeOrder(w: Setup, c: Core, steps: seq<Step>, t: Time)
    requires Fresh(c) && Monotone(t, steps)
    ensures Ordered(Run(w, c, steps).rec.log, Clock(t, steps))
  {
    if steps != [] {
      var front := steps[..|steps| - 1];
      var last := steps[|steps| - 1];
      LogInTimeOrder(w, c, front, t);
      RunKeepsInv(w, c, front);
      NextLoggedBetween(w, Run(w, c, front), last, Clock(t, front));
      LaterEntries(Run(w, c, front).rec.log, Run(w, c, steps).rec.log, Clock(t, front),
                   FirstReading(last, Clock(t, front)), Clock(t, steps));
    }
  }

  lemma LaterEntries(log: seq<EventRow>, more: seq<EventRow>, upTo: Time, from: Time, to: Time)
    requires Ordered(log, upTo) && log <= more && upTo <= from <= to
    requires forall i, j :: |log| <= i < j < |more| ==> more[i].ts <= more[j].ts
    requires forall i :: |log| <= i < |more| ==> from <= more[i].ts <= to
    ensures Ordered(more, to)
  {
    forall i, j | 0 <= i < j < |more| ensures more[i].ts <= more[j].ts {
      if i < |log| {
        assert more[i] == log[i];
        assert j < |log| ==> more[j] == log[j];
      }
    }
    forall i | 0 <= i < |more| ensures more[i].ts <= to {
      if i < |log| {
        assert more[i] == log[i];
      }
    }
  }
}
