/** What every transition keeps: the stored row's shape, the agreement of memory
    with the store, and the event log that replays to the row. */
module Lifecycle {
  import opened Types
  import opened Store
  import opened Machine

  // ---- The event log as a second account of the task ----

  /** The part of a task row the event log determines. */
  datatype Summary = Summary(
    status: Status, totalAttempts: int, nextWakeAt: Option<Time>, lastOutcome: Option<Category>,
    exitReason: Option<string>)

  function SummaryOf(t: Task): Summary {
    Summary(t.status, t.totalAttempts, t.nextWakeAt, t.lastOutcome, t.exitReason)
  }

  const Created := Summary(Pending, 0, None, None, None)

  function ReplayEntry(s: Summary, e: LogEntry): Summary {
    match e
    case LoggedStart(no, _, _, _) => s.(status := Running, totalAttempts := no, nextWakeAt := None)
    case LoggedExit(outcome, _) => s.(lastOutcome := Some(outcome))
    case LoggedWake(at) => s.(status := Waiting, nextWakeAt := Some(at))
    case LoggedAction(PauseAction, _) => s.(status := Paused, nextWakeAt := None)
    case LoggedAction(StopAction, _) => s.(status := Stopped, nextWakeAt := None, exitReason := Some("stopped by user"))
    case LoggedChange(to, reason, outcome) =>
      s.(status := to, nextWakeAt := None, exitReason := Some(reason),
         lastOutcome := if outcome.Some? then outcome else s.lastOutcome)
  }

  function Replay(log: seq<EventRow>): Summary {
    if log == [] then Created
    else ReplayEntry(Replay(log[..|log| - 1]), log[|log| - 1].entry)
  }

  lemma Replay1(log: seq<EventRow>, e: EventRow)
    ensures Replay(log + [e]) == ReplayEntry(Replay(log), e.entry)
  {
    assert (log + [e])[..|log|] == log;
  }

  lemma Replay2(log: seq<EventRow>, e: EventRow, f: EventRow)
    ensures Replay(log + [e, f]) == ReplayEntry(ReplayEntry(Replay(log), e.entry), f.entry)
  {
    AppendTwo(log, e, f);
    Replay1(log, e);
    Replay1(log + [e], f);
  }

  // ---- Invariants ----

  predicate RowsNumbered(rec: Rec) {
    && |rec.attempts| == rec.task.totalAttempts
    && (forall i :: 0 <= i < |rec.attempts| ==>
          rec.attempts[i].attemptNo == i + 1 && rec.attempts[i].taskId == rec.task.id)
    && (forall i, j :: 0 <= i < j < |rec.attempts| ==> rec.attempts[i].id != rec.attempts[j].id)
  }

  /** The stored rows of one task are well formed and replay from their log. */
  predicate RecInv(rec: Rec) {
    && (rec.task.status.Waiting? <==> rec.task.nextWakeAt.Some?)
    && (Terminal(rec.task.status) <==> rec.task.exitReason.Some?)
    && rec.task.currentAttempt == rec.task.totalAttempts
    && RowsNumbered(rec)
    && Replay(rec.log) == SummaryOf(rec.task)
  }

  /** The open attempt in memory is the last stored attempt row. */
  predicate CurrentStored(s: Sup, rec: Rec) {
    s.current.Some? ==> rec.attempts != [] && rec.attempts[|rec.attempts| - 1] == s.current.value
  }

  /** A prober runs exactly while the task waits on exhausted quota that this
      supervisor itself saw, and only when a probe is configured. */
  predicate ProberCoupled(d: Deps, s: Sup) {
    s.probing <==>
      && s.task.status.Waiting? && s.waitingSince.Some?
      && s.task.lastOutcome == Some(QuotaExhausted)
      && d.hasProbe && s.policy.probeInterval > 0
  }

  /** Memory agrees with the store. */
  predicate Agrees(d: Deps, s: Sup, rec: Rec) {
    && s.task == rec.task
    && CurrentStored(s, rec)
    && (s.task.status.Running? ==> s.current.Some?)
    && (s.waitingSince.Some? && !Terminal(s.task.status) ==> s.task.status.Waiting?)
    && (!Terminal(s.task.status) ==> ProberCoupled(d, s))
  }

  predicate Good(d: Deps, s: Sup, rec: Rec) {
    RecInv(rec) && Agrees(d, s, rec)
  }

  // ---- Row lemmas ----

  lemma IndexOfUnique(rows: seq<Attempt>, i: int)
    requires 0 <= i < |rows|
    requires forall j, k :: 0 <= j < k < |rows| ==> rows[j].id != rows[k].id
    ensures IndexOf(rows, rows[i].id) == Some(i)
  {
  }

  /** Rewriting a stored row with changed completion fields is always possible and
      replaces just that row. */
  lemma RewriteAt(rec: Rec, i: int, a: Attempt)
    requires RowsNumbered(rec) && 0 <= i < |rec.attempts|
    requires a.id == rec.attempts[i].id && a.attemptNo == rec.attempts[i].attemptNo
    requires a.taskId == rec.attempts[i].taskId
    ensures RewriteRow(rec, a) == Ok(rec.(attempts := rec.attempts[i := a]))
    ensures RowsNumbered(rec.(attempts := rec.attempts[i := a]))
  {
    IndexOfUnique(rec.attempts, i);
  }

  /** Inserting the next attempt can violate no constraint but the primary key. */
  lemma InsertNext(rec: Rec, a: Attempt)
    requires RowsNumbered(rec) && a.attemptNo == rec.task.totalAttempts + 1 && a.taskId == rec.task.id
    ensures InsertRow(rec, a).Ok? <==> IndexOf(rec.attempts, a.id).None?
    ensures InsertRow(rec, a).Ok? ==>
              InsertRow(rec, a).value == rec.(attempts := rec.attempts + [a])
              && RowsNumbered(rec.(task := rec.task.(totalAttempts := a.attemptNo), attempts := rec.attempts + [a]))
  {
    if IndexOf(rec.attempts, a.id).Some? {
      var k := IndexOf(rec.attempts, a.id).value;
      assert Clashes(rec.attempts, a);
    }
  }

  // ---- Each transition ----

  /** Closing the current attempt and committing it never fails on its own. */
  lemma CurrentWriteWorks(s: Sup, rec: Rec, o: AttemptOutput, r: Detect.DetectResult, now: Time)
    requires RowsNumbered(rec) && CurrentStored(s, rec)
    ensures var c := CloseAttempt(s, o, r, now);
            var w := WriteAttempt(rec, CurrentWrite(c));
            && w.Ok?
            && w.value.task == rec.task
            && |w.value.attempts| == |rec.attempts|
            && RowsNumbered(w.value)
            && CurrentStored(c, w.value)
  {
    if s.current.Some? {
      RewriteAt(rec, |rec.attempts| - 1, CloseAttempt(s, o, r, now).current.value);
    }
  }

  lemma FailKeeps(d: Deps, s: Sup, rec: Rec, reason: string, env: Env, timer: TimerAct)
    requires RecInv(rec) && CurrentStored(s, rec) && s.task.(cumulativeWaitMs := 0) == rec.task.(cumulativeWaitMs := 0)
    ensures var out := Fail(s, rec, reason, env, timer);
            RecInv(out.rec) && (out.ok ==> Agrees(d, out.sup, out.rec)) && (!out.ok ==> out.rec == rec)
  {
    Replay1(rec.log, EventRow(env.failAt, LoggedChange(Failed, reason, None)));
  }

  /** What a committed start leaves: the next row, open, and a row that counts it. */
  lemma StartKeeps(rec: Rec, a: Attempt, cause: Cause, resumed: bool, next: Task, fault: Fault)
    requires RecInv(rec) && !Terminal(rec.task.status) && a.pid.Some?
    requires a.attemptNo == rec.task.totalAttempts + 1 && a.taskId == rec.task.id
    requires next == rec.task.(status := Running, currentAttempt := a.attemptNo, totalAttempts := a.attemptNo,
                               nextWakeAt := None, updatedAt := next.updatedAt,
                               cumulativeWaitMs := next.cumulativeWaitMs)
    ensures var e := EventRow(a.startedAt, LoggedStart(a.attemptNo, cause, resumed, a.pid.value));
            var c := Commit(rec, Insert(a), [e], next, fault);
            c.Some? ==> RecInv(c.value) && c.value.task == next && c.value.attempts == rec.attempts + [a]
  {
    InsertNext(rec, a);
    Replay1(rec.log, EventRow(a.startedAt, LoggedStart(a.attemptNo, cause, resumed, a.pid.value)));
  }

  lemma SpawnKeeps(d: Deps, s: Sup, rec: Rec, cause: Cause, env: Env, timer: TimerAct)
    requires RecInv(rec) && CurrentStored(s, rec) && s.task.(cumulativeWaitMs := 0) == rec.task.(cumulativeWaitMs := 0)
    requires !Terminal(s.task.status) && s.waitingSince.None? && !s.probing
    ensures var out := SpawnAttempt(d, s, rec, cause, env, timer);
            RecInv(out.rec) && (out.ok ==> Agrees(d, out.sup, out.rec)) && (!out.ok ==> out.rec == rec)
  {
    if env.pathsOk {
      if !env.buildOk {
        FailKeeps(d, s, rec, "build command", env, timer);
      } else if env.spawned.None? {
        FailKeeps(d, s, rec, "spawn attempt", env, timer);
      } else {
        var no := s.task.totalAttempts + 1;
        StartKeeps(rec, NewAttempt(s, env), cause, BuildCommand(d, s.task).ResumeCommand?,
                   s.task.(status := Running, currentAttempt := no, totalAttempts := no, nextWakeAt := None,
                           updatedAt := env.at), env.fault);
      }
    }
  }

  lemma WakeKeeps(d: Deps, s: Sup, rec: Rec, cause: Cause, env: Env)
    requires Good(d, s, rec) && !Terminal(s.task.status)
    ensures var out := Wake(d, s, rec, cause, env);
            RecInv(out.rec) && (out.ok ==> Agrees(d, out.sup, out.rec)) && (!out.ok ==> out.rec == rec)
  {
    SpawnKeeps(d, LeaveWait(s, env.wakeAt), rec, cause, env, CancelTimer);
  }

  lemma FinishKeeps(d: Deps, s: Sup, rec: Rec, next: Task, to: Status, reason: string, r: Detect.DetectResult, env: Env)
    requires RecInv(rec)
    requires var w := WriteAttempt(rec, CurrentWrite(s));
             w.Ok? && w.value.task == rec.task && RowsNumbered(w.value) && CurrentStored(s, w.value)
    requires Terminal(to)
    requires next.(updatedAt := 0, lastOutcome := None, lastResetAt := None, sessionRef := None)
          == rec.task.(updatedAt := 0, lastOutcome := None, lastResetAt := None, sessionRef := None)
    requires next.lastOutcome == Some(r.category)
    ensures var out := Finish(s, rec, next, to, reason, r, env);
            RecInv(out.rec) && (out.ok ==> Agrees(d, out.sup, out.rec)) && (!out.ok ==> out.rec == rec)
  {
    Replay1(rec.log, EventRow(next.updatedAt, LoggedChange(to, reason, Some(r.category))));
  }

  lemma ScheduleKeeps(d: Deps, s: Sup, rec: Rec, next: Task, r: Detect.DetectResult, env: Env)
    requires RecInv(rec) && s.task == rec.task && s.task.status.Running? && !s.probing && s.current.Some?
    requires var w := WriteAttempt(rec, CurrentWrite(s));
             w.Ok? && w.value.task == rec.task && RowsNumbered(w.value) && CurrentStored(s, w.value)
    requires next.(updatedAt := 0, lastOutcome := None, lastResetAt := None, sessionRef := None)
          == rec.task.(updatedAt := 0, lastOutcome := None, lastResetAt := None, sessionRef := None)
    requires next.lastOutcome == Some(r.category)
    ensures var out := ScheduleRetry(d, s, rec, next, r, env);
            RecInv(out.rec) && (out.ok ==> Agrees(d, out.sup, out.rec)) && (!out.ok ==> out.rec == rec)
  {
    var wake := ProposedWake(s, r, env);
    Replay2(rec.log, ExitRow(r, env.at), EventRow(env.at, LoggedWake(wake)));
  }

  lemma ExitKeeps(d: Deps, s: Sup, rec: Rec, o: AttemptOutput, env: Env)
    requires Good(d, s, rec) && s.task.status.Running?
    ensures var out := HandleExit(d, s, rec, o, env);
            RecInv(out.rec) && (out.ok ==> Agrees(d, out.sup, out.rec)) && (!out.ok ==> out.rec == rec)
  {
    var r := Classify(d, s.policy, o, env.at);
    var closed := CloseAttempt(s, o, r, env.at);
    var next := AfterExit(d, s, o, r, env.at);
    CurrentWriteWorks(s, rec, o, r, env.at);
    var to, reason := ExitShape(d, s, rec, o, env);
    if to.Waiting? {
      ScheduleKeeps(d, closed, rec, next, r, env);
    } else {
      FinishKeeps(d, closed, rec, next, to, reason, r, env);
    }
  }

  lemma PausedExitKeeps(d: Deps, s: Sup, rec: Rec, o: AttemptOutput, env: Env)
    requires Good(d, s, rec) && s.task.status.Paused?
    ensures var out := RecordPausedExit(d, s, rec, o, env);
            RecInv(out.rec) && (out.ok ==> Agrees(d, out.sup, out.rec)) && (!out.ok ==> out.rec == rec)
  {
    var r := Classify(d, s.policy, o, env.at);
    CurrentWriteWorks(s, rec, o, r, env.at);
    Replay1(rec.log, ExitRow(r, env.at));
  }

  lemma PauseKeeps(d: Deps, s: Sup, rec: Rec, env: Env)
    requires Good(d, s, rec) && (s.task.status.Running? || s.task.status.Waiting?)
    ensures var out := Pause(s, rec, env);
            RecInv(out.rec) && (out.ok ==> Agrees(d, out.sup, out.rec)) && (!out.ok ==> out.rec == rec)
  {
    Replay1(rec.log, EventRow(env.at, LoggedAction(PauseAction, s.task.status)));
  }

  lemma StopKeeps(d: Deps, s: Sup, rec: Rec, env: Env)
    requires Good(d, s, rec) && !Terminal(s.task.status)
    ensures var out := Stop(s, rec, env);
            RecInv(out.rec) && (out.ok ==> Agrees(d, out.sup, out.rec)) && (!out.ok ==> out.rec == rec)
  {
    Replay1(rec.log, EventRow(env.at, LoggedAction(StopAction, s.task.status)));
  }

  /** Whatever the event and whichever dependency fails, the rows stay well formed
      and replayable; a call that reports success leaves memory equal to the store;
      a call that reports an error has committed nothing. */
  lemma HandleKeeps(d: Deps, s: Sup, rec: Rec, ev: Event, env: Env)
    requires Good(d, s, rec)
    ensures var out := Handle(d, s, rec, ev, env);
            RecInv(out.rec) && (out.ok ==> Agrees(d, out.sup, out.rec)) && (!out.ok ==> out.rec == rec)
  {
    var status := s.task.status;
    match ev
    case Start => if status.Pending? { SpawnKeeps(d, s, rec, StartCause, env, KeepTimer); }
    case TimerFire => if status.Waiting? { WakeKeeps(d, s, rec, TimerCause, env); }
    case AvailabilityOk => if status.Waiting? { WakeKeeps(d, s, rec, AvailabilityCause, env); }
    case UserResume => if status.Paused? || status.Waiting? { WakeKeeps(d, s, rec, ResumeCause, env); }
    case AttemptExit(o) =>
      if status.Running? {
        ExitKeeps(d, s, rec, o, env);
      } else if status.Paused? {
        PausedExitKeeps(d, s, rec, o, env);
      }
    case UserPause => if status.Running? || status.Waiting? { PauseKeeps(d, s, rec, env); }
    case UserStop => if !Terminal(status) { StopKeeps(d, s, rec, env); }
  }

  // ---- When memory diverges from the store ----

  /** The next attempt cannot be started and recorded, and the failure to start it
      cannot be recorded either. */
  predicate Refused(rec: Rec, env: Env) {
    || !env.pathsOk
    || (if env.buildOk && env.spawned.Some? then Struck(env.fault, 3) || IndexOf(rec.attempts, env.attemptId).Some?
        else Struck(env.fault, 2))
  }

  lemma InsertOkIff(rec: Rec, a: Attempt, e: EventRow, next: Task, fault: Fault)
    requires RowsNumbered(rec) && a.attemptNo == rec.task.totalAttempts + 1 && a.taskId == rec.task.id
    requires next.id == rec.task.id
    ensures Commit(rec, Insert(a), [e], next, fault).Some? <==>
            !Struck(fault, 3) && IndexOf(rec.attempts, a.id).None?
  {
    InsertNext(rec, a);
  }

  lemma FailOkIff(s: Sup, rec: Rec, reason: string, env: Env, timer: TimerAct)
    requires s.task.id == rec.task.id
    ensures var out := Fail(s, rec, reason, env, timer);
            (out.ok <==> !Struck(env.fault, 2)) && (!out.ok ==> out.sup.task == s.task && out.rec == rec)
  {
  }

  lemma SpawnOkIff(d: Deps, s: Sup, rec: Rec, cause: Cause, env: Env, timer: TimerAct)
    requires RecInv(rec) && s.task.(cumulativeWaitMs := 0) == rec.task.(cumulativeWaitMs := 0)
    ensures var out := SpawnAttempt(d, s, rec, cause, env, timer);
            (out.ok <==> !Refused(rec, env)) && (!out.ok ==> out.sup.task == s.task && out.rec == rec)
  {
    if env.pathsOk {
      if !env.buildOk {
        FailOkIff(s, rec, "build command", env, timer);
      } else if env.spawned.None? {
        FailOkIff(s, rec, "spawn attempt", env, timer);
      } else {
        var no := s.task.totalAttempts + 1;
        var resumed := BuildCommand(d, s.task).ResumeCommand?;
        InsertOkIff(rec, NewAttempt(s, env), EventRow(env.at, LoggedStart(no, cause, resumed, env.spawned.value)),
                    s.task.(status := Running, currentAttempt := no, totalAttempts := no, nextWakeAt := None,
                            updatedAt := env.at), env.fault);
      }
    }
  }

  /** The events that end a wait by starting the next attempt. */
  predicate EndsWaiting(t: Task, ev: Event, env: Env) {
    t.status.Waiting? && (ev.UserResume? || ev.AvailabilityOk? || (ev.TimerFire? && !TooEarly(t, env.guardAt)))
  }

  /** The in-memory task differs from its stored row after a call exactly when a wait
      of a millisecond or more was accounted and the start that followed was refused;
      the call then reports an error. */
  lemma DivergesIff(d: Deps, s: Sup, rec: Rec, ev: Event, env: Env)
    requires Good(d, s, rec)
    ensures var out := Handle(d, s, rec, ev, env);
            && (out.sup.task != out.rec.task <==>
                  && EndsWaiting(rec.task, ev, env) && Refused(rec, env)
                  && s.waitingSince.Some? && Millis(SubTime(env.wakeAt, s.waitingSince.value)) != 0)
            && (out.sup.task != out.rec.task ==> !out.ok)
  {
    HandleKeeps(d, s, rec, ev, env);
    if EndsWaiting(rec.task, ev, env) {
      var cause := match ev case TimerFire => TimerCause case AvailabilityOk => AvailabilityCause case _ => ResumeCause;
      SpawnOkIff(d, LeaveWait(s, env.wakeAt), rec, cause, env, CancelTimer);
    } else if !Handle(d, s, rec, ev, env).ok {
      RefusalKeepsTask(d, s, rec, ev, env);
    }
  }

  /** Outside a wake, a refused call leaves the in-memory task alone. */
  lemma RefusalKeepsTask(d: Deps, s: Sup, rec: Rec, ev: Event, env: Env)
    requires Good(d, s, rec) && !EndsWaiting(rec.task, ev, env) && !Handle(d, s, rec, ev, env).ok
    ensures Handle(d, s, rec, ev, env).sup.task == s.task
  {
    match ev
    case AttemptExit(o) =>
      if s.task.status.Running? { var to, reason := ExitShape(d, s, rec, o, env); }
    case Start => SpawnOkIff(d, s, rec, StartCause, env, KeepTimer);
    case UserResume => SpawnOkIff(d, LeaveWait(s, env.wakeAt), rec, ResumeCause, env, CancelTimer);
    case _ =>
  }

  /** How many statements the transaction of an exit holds. */
  function ExitStatements(d: Deps, s: Sup, o: AttemptOutput, env: Env): nat {
    var r := Classify(d, s.policy, o, env.at);
    if s.task.status.Running? && Verdict(s.policy, r.category, CapHit(s, r, env)).Waiting? then 4 else 3
  }

  /** The open attempt in memory differs from its stored row after a call exactly when
      an exit changed it and the exit's transaction failed; the call then reports an
      error. */
  lemma AttemptDivergesIff(d: Deps, s: Sup, rec: Rec, ev: Event, env: Env)
    requires Good(d, s, rec)
    ensures var out := Handle(d, s, rec, ev, env);
            && (!CurrentStored(out.sup, out.rec) <==>
                  && ev.AttemptExit? && (rec.task.status.Running? || rec.task.status.Paused?)
                  && CloseAttempt(s, ev.output, Classify(d, s.policy, ev.output, env.at), env.at) != s
                  && Struck(env.fault, ExitStatements(d, s, ev.output, env)))
            && (!CurrentStored(out.sup, out.rec) ==> !out.ok)
  {
    HandleKeeps(d, s, rec, ev, env);
    match ev
    case AttemptExit(o) =>
      if rec.task.status.Running? || rec.task.status.Paused? {
        ExitOkIff(d, s, rec, o, env);
      }
    case _ => if !Handle(d, s, rec, ev, env).ok { OnlyExitsTouchCurrent(d, s, rec, ev, env); }
  }

  lemma OnlyExitsTouchCurrent(d: Deps, s: Sup, rec: Rec, ev: Event, env: Env)
    requires Good(d, s, rec) && !ev.AttemptExit? && !Handle(d, s, rec, ev, env).ok
    ensures Handle(d, s, rec, ev, env).sup.current == s.current
  {
  }

  /** An exit is refused exactly when the database strikes; memory then keeps the closed
      attempt, and the store the open one. */
  lemma ExitOkIff(d: Deps, s: Sup, rec: Rec, o: AttemptOutput, env: Env)
    requires Good(d, s, rec) && (rec.task.status.Running? || rec.task.status.Paused?)
    ensures var out := Handle(d, s, rec, AttemptExit(o), env);
            && (out.ok <==> !Struck(env.fault, if s.current.Some? then ExitStatements(d, s, o, env)
                                               else ExitStatements(d, s, o, env) - 1))
            && (!out.ok ==> out.rec == rec
                            && out.sup == CloseAttempt(s, o, Classify(d, s.policy, o, env.at), env.at))
  {
    var r := Classify(d, s.policy, o, env.at);
    CurrentWriteWorks(s, rec, o, r, env.at);
    if rec.task.status.Running? {
      var to, reason := ExitShape(d, s, rec, o, env);
    }
  }
}
