/** What one event can do to a task's row: which status moves exist, what they do to
    the attempt count, and that history only grows. */
module Effects {
  import opened Types
  import opened Store
  import opened Machine
  import opened Lifecycle

  /** No row is removed, renumbered or given another id. */
  predicate RowsKept(before: seq<Attempt>, after: seq<Attempt>) {
    && |before| <= |after|
    && forall i :: 0 <= i < |before| ==> after[i].id == before[i].id && after[i].attemptNo == before[i].attemptNo
  }

  predicate Extends(before: Rec, after: Rec) {
    && before.log <= after.log
    && RowsKept(before.attempts, after.attempts)
    && after.task.id == before.task.id && after.task.createdAt == before.task.createdAt
    && (Terminal(before.task.status) ==> after == before)
  }

  /** The status moves of the state machine, with what each does to the count. */
  predicate LegalMove(before: Task, after: Task) {
    || (after.status == before.status && after.totalAttempts == before.totalAttempts)
    || ((before.status.Pending? || before.status.Waiting? || before.status.Paused?)
        && after.status.Running? && after.totalAttempts == before.totalAttempts + 1)
    || (before.status.Running? && after.status.Waiting? && after.totalAttempts == before.totalAttempts)
    || ((before.status.Running? || before.status.Waiting?)
        && after.status.Paused? && after.totalAttempts == before.totalAttempts)
    || (!Terminal(before.status) && Terminal(after.status) && after.totalAttempts == before.totalAttempts)
  }

  predicate Moved(s: Sup, rec: Rec, out: Out) {
    && out.sup.policy == s.policy
    && Extends(rec, out.rec)
    && LegalMove(rec.task, out.rec.task)
  }

  /** The stored task, up to the wait already accounted in memory. */
  predicate SameButWait(s: Sup, rec: Rec) {
    s.task.(cumulativeWaitMs := 0) == rec.task.(cumulativeWaitMs := 0)
  }

  lemma FailMoves(s: Sup, rec: Rec, reason: string, env: Env, timer: TimerAct)
    requires SameButWait(s, rec) && !Terminal(rec.task.status)
    ensures Moved(s, rec, Fail(s, rec, reason, env, timer))
  {
  }

  lemma StartMoves(s: Sup, rec: Rec, a: Attempt, evs: seq<EventRow>, next: Task, fault: Fault)
    requires rec.task.status.Pending? || rec.task.status.Waiting? || rec.task.status.Paused?
    requires next.status.Running? && next.totalAttempts == rec.task.totalAttempts + 1
    ensures var c := Commit(rec, Insert(a), evs, next, fault);
            c.Some? ==> Extends(rec, c.value) && LegalMove(rec.task, c.value.task)
  {
  }

  lemma SpawnedMoves(d: Deps, s: Sup, rec: Rec, cause: Cause, env: Env, timer: TimerAct)
    requires SameButWait(s, rec) && env.pathsOk && env.buildOk && env.spawned.Some?
    requires rec.task.status.Pending? || rec.task.status.Waiting? || rec.task.status.Paused?
    ensures Moved(s, rec, SpawnAttempt(d, s, rec, cause, env, timer))
  {
    var no := s.task.totalAttempts + 1;
    var e := EventRow(env.at, LoggedStart(no, cause, BuildCommand(d, s.task).ResumeCommand?, env.spawned.value));
    StartMoves(s, rec, NewAttempt(s, env), [e],
               s.task.(status := Running, currentAttempt := no, totalAttempts := no, nextWakeAt := None,
                       updatedAt := env.at), env.fault);
  }

  lemma SpawnMoves(d: Deps, s: Sup, rec: Rec, cause: Cause, env: Env, timer: TimerAct)
    requires SameButWait(s, rec)
    requires rec.task.status.Pending? || rec.task.status.Waiting? || rec.task.status.Paused?
    ensures Moved(s, rec, SpawnAttempt(d, s, rec, cause, env, timer))
  {
    if env.pathsOk {
      if !env.buildOk {
        FailMoves(s, rec, "build command", env, timer);
      } else if env.spawned.None? {
        FailMoves(s, rec, "spawn attempt", env, timer);
      } else {
        SpawnedMoves(d, s, rec, cause, env, timer);
      }
    } else {
      ExtendsItself(rec);
    }
  }

  lemma ExtendsItself(rec: Rec)
    ensures Extends(rec, rec) && LegalMove(rec.task, rec.task)
  {
  }

  lemma WakeMoves(d: Deps, s: Sup, rec: Rec, cause: Cause, env: Env)
    requires s.task == rec.task && (rec.task.status.Waiting? || rec.task.status.Paused?)
    ensures Moved(s, rec, Wake(d, s, rec, cause, env))
  {
    SpawnMoves(d, LeaveWait(s, env.wakeAt), rec, cause, env, CancelTimer);
  }

  lemma WriteKeepsRows(rec: Rec, w: AttemptWrite)
    ensures var r := WriteAttempt(rec, w);
            r.Ok? ==> r.value.task == rec.task && r.value.log == rec.log && RowsKept(rec.attempts, r.value.attempts)
  {
  }

  lemma FinishMoves(s: Sup, rec: Rec, next: Task, to: Status, reason: string, r: Detect.DetectResult, env: Env)
    requires !Terminal(rec.task.status) && Terminal(to) && next.totalAttempts == rec.task.totalAttempts
    ensures Moved(s, rec, Finish(s, rec, next, to, reason, r, env))
  {
    WriteKeepsRows(rec, CurrentWrite(s));
  }

  lemma ScheduleMoves(d: Deps, s: Sup, rec: Rec, next: Task, r: Detect.DetectResult, env: Env)
    requires rec.task.status.Running? && next.totalAttempts == rec.task.totalAttempts
    ensures Moved(s, rec, ScheduleRetry(d, s, rec, next, r, env))
  {
    WriteKeepsRows(rec, CurrentWrite(s));
  }

  /** A retry is scheduled only below the attempt cap. */
  lemma ExitMoves(d: Deps, s: Sup, rec: Rec, o: AttemptOutput, env: Env)
    requires s.task == rec.task && rec.task.status.Running?
    ensures var out := HandleExit(d, s, rec, o, env);
            && Moved(s, rec, out)
            && (out.rec.task.status.Waiting? && s.policy.scheduler.maxAttempts != 0
                ==> rec.task.totalAttempts < s.policy.scheduler.maxAttempts)
  {
    var r := Classify(d, s.policy, o, env.at);
    var closed := CloseAttempt(s, o, r, env.at);
    var next := AfterExit(d, s, o, r, env.at);
    var to, reason := ExitShape(d, s, rec, o, env);
    if to.Waiting? {
      ScheduleMoves(d, closed, rec, next, r, env);
    } else {
      FinishMoves(closed, rec, next, to, reason, r, env);
    }
  }

  lemma PausedExitMoves(d: Deps, s: Sup, rec: Rec, o: AttemptOutput, env: Env)
    requires s.task == rec.task && rec.task.status.Paused?
    ensures Moved(s, rec, RecordPausedExit(d, s, rec, o, env))
  {
    WriteKeepsRows(rec, CurrentWrite(CloseAttempt(s, o, Classify(d, s.policy, o, env.at), env.at)));
  }

  lemma PauseMoves(s: Sup, rec: Rec, env: Env)
    requires s.task == rec.task && (rec.task.status.Running? || rec.task.status.Waiting?)
    ensures Moved(s, rec, Pause(s, rec, env))
  {
  }

  lemma StopMoves(s: Sup, rec: Rec, env: Env)
    requires s.task == rec.task && !Terminal(rec.task.status)
    ensures Moved(s, rec, Stop(s, rec, env))
  {
  }

  lemma WakeNeverStops(d: Deps, s: Sup, rec: Rec, env: Env)
    requires s.task == rec.task && rec.task.status.Paused?
    ensures !Wake(d, s, rec, ResumeCause, env).rec.task.status.Stopped?
  {
  }

  lemma FinishGoes(s: Sup, rec: Rec, next: Task, to: Status, reason: string, r: Detect.DetectResult, env: Env)
    ensures var out := Finish(s, rec, next, to, reason, r, env);
            if out.ok then out.rec.task.status == to && out.rec.task.lastOutcome == next.lastOutcome else out.rec == rec
  {
  }

  lemma ScheduleGoes(d: Deps, s: Sup, rec: Rec, next: Task, r: Detect.DetectResult, env: Env)
    ensures var out := ScheduleRetry(d, s, rec, next, r, env);
            if out.ok then out.rec.task.status.Waiting? && out.rec.task.lastOutcome == next.lastOutcome
            else out.rec == rec
  {
  }

  lemma ExitGoes(d: Deps, s: Sup, rec: Rec, o: AttemptOutput, env: Env)
    ensures var r := Classify(d, s.policy, o, env.at);
            var out := HandleExit(d, s, rec, o, env);
            if out.ok then out.rec.task.status == Verdict(s.policy, r.category, CapHit(s, r, env))
                           && out.rec.task.lastOutcome == Some(r.category)
            else out.rec == rec
  {
    var r := Classify(d, s.policy, o, env.at);
    var closed := CloseAttempt(s, o, r, env.at);
    var next := AfterExit(d, s, o, r, env.at);
    var to, reason := ExitShape(d, s, rec, o, env);
    if to.Waiting? {
      ScheduleGoes(d, closed, rec, next, r, env);
    } else {
      FinishGoes(closed, rec, next, to, reason, r, env);
    }
  }

  lemma PausedExitNeverStops(d: Deps, s: Sup, rec: Rec, o: AttemptOutput, env: Env)
    requires s.task == rec.task && rec.task.status.Paused?
    ensures !RecordPausedExit(d, s, rec, o, env).rec.task.status.Stopped?
  {
    PausedExitMoves(d, s, rec, o, env);
  }

  /** A RUNNING or PAUSED task is recorded as stopped only once the kill of whatever
      process the runtime tracks has been reported to succeed. */
  lemma StoppedMeansKilled(d: Deps, s: Sup, rec: Rec, ev: Event, env: Env)
    requires s.task == rec.task && (rec.task.status.Running? || rec.task.status.Paused?)
    ensures var out := Handle(d, s, rec, ev, env);
            out.rec.task.status.Stopped? ==> ev.UserStop? && env.killOk && out.calls == [Killed]
  {
    match ev
    case UserResume => if rec.task.status.Paused? { WakeNeverStops(d, s, rec, env); }
    case AttemptExit(o) =>
      if rec.task.status.Running? { ExitGoes(d, s, rec, o, env); } else { PausedExitNeverStops(d, s, rec, o, env); }
    case _ =>
  }

  /** Every event makes a legal move; only a resume leaves PAUSED for RUNNING; and a
      retry is scheduled only below the attempt cap. */
  lemma HandleMoves(d: Deps, s: Sup, rec: Rec, ev: Event, env: Env)
    requires s.task == rec.task
    ensures var out := Handle(d, s, rec, ev, env);
            && Moved(s, rec, out)
            && (rec.task.status.Paused? && out.rec.task.status.Running? ==> ev.UserResume?)
            && (rec.task.status.Running? && out.rec.task.status.Waiting? && s.policy.scheduler.maxAttempts != 0
                ==> rec.task.totalAttempts < s.policy.scheduler.maxAttempts)
  {
    var status := s.task.status;
    match ev
    case Start => if status.Pending? { SpawnMoves(d, s, rec, StartCause, env, KeepTimer); }
    case TimerFire => if status.Waiting? { WakeMoves(d, s, rec, TimerCause, env); }
    case AvailabilityOk => if status.Waiting? { WakeMoves(d, s, rec, AvailabilityCause, env); }
    case UserResume => if status.Paused? || status.Waiting? { WakeMoves(d, s, rec, ResumeCause, env); }
    case AttemptExit(o) =>
      if status.Running? {
        ExitMoves(d, s, rec, o, env);
      } else if status.Paused? {
        PausedExitMoves(d, s, rec, o, env);
      }
    case UserPause => if status.Running? || status.Waiting? { PauseMoves(s, rec, env); }
    case UserStop => if !Terminal(status) { StopMoves(s, rec, env); }
  }
}
