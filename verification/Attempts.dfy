/** The attempt rows of a task: which of them each event adds or closes, and which stay
    open. */
module Attempts {
  import opened Types
  import opened Machine
  import opened Lifecycle
  import opened Effects
  import opened Recovery
  import opened Runs
  import opened System
  import Store

  predicate NoneOpen(rec: Rec) {
    forall i :: 0 <= i < |rec.attempts| ==> rec.attempts[i].endedAt.Some?
  }

  /** No row but the last is open. */
  predicate AtMostLastOpen(rec: Rec) {
    forall i :: 0 <= i < |rec.attempts| - 1 ==> rec.attempts[i].endedAt.Some?
  }

  predicate OnlyLastOpen(rec: Rec) {
    AtMostLastOpen(rec) && rec.attempts != [] && rec.attempts[|rec.attempts| - 1].endedAt.None?
  }

  // ---- What one event does to the attempt rows ----

  function LastRow(rec: Rec): Attempt
    requires rec.attempts != []
  {
    rec.attempts[|rec.attempts| - 1]
  }

  /** The last row closed by an exit: everything else about the rows is unchanged. */
  predicate LastClosed(rec: Rec, o: AttemptOutput, at: Time, after: Rec) {
    && rec.attempts != [] && |after.attempts| == |rec.attempts|
    && after.attempts == rec.attempts[|rec.attempts| - 1 := LastRow(after)]
    && LastRow(after).attemptNo == LastRow(rec).attemptNo
    && LastRow(after).endedAt == Some(at) && LastRow(after).exitCode == Some(o.exitCode)
  }

  predicate RowsFollow(s: Sup, rec: Rec, ev: Event, env: Env, out: Out) {
    if !out.ok then out.rec == rec
    else if !rec.task.status.Running? && out.rec.task.status.Running? then
      && |out.rec.attempts| == |rec.attempts| + 1 && out.rec.attempts[..|rec.attempts|] == rec.attempts
      && LastRow(out.rec).endedAt.None?
      && SpawnedBy(out.calls) == {out.rec.task.totalAttempts}
      && out.sup.current.Some?
    else if ev.AttemptExit? && (rec.task.status.Running? || rec.task.status.Paused?) then
      && SpawnedBy(out.calls) == {}
      && (if s.current.Some? then LastClosed(rec, ev.output, env.at, out.rec) else out.rec.attempts == rec.attempts)
      && !out.rec.task.status.Running?
      && (rec.task.status.Running? ==> !out.rec.task.status.Paused? && !out.rec.task.status.Stopped?)
      && (rec.task.status.Paused? ==> out.rec.task.status.Paused?)
    else
      && out.rec.attempts == rec.attempts && SpawnedBy(out.calls) == {}
      && (out.rec.task.status.Failed? ==>
            rec.task.status.Pending? || rec.task.status.Waiting? || (rec.task.status.Paused? && ev.UserResume?))
      && !out.rec.task.status.Succeeded?
      && (out.rec.task.status.Running? ==> rec.task.status.Running?)
      && (out.rec.task.status.Paused? ==> out.sup.current == s.current)
      && (out.rec.task.status.Waiting? ==> rec.task.status.Waiting?)
      && (out.rec.task.status.Pending? ==> rec.task.status.Pending?)
  }

  /** The row carries what the exit was classified as; one that matched no rule leaves
      the rule the row had. */
  predicate RowTells(before: Attempt, row: Attempt, r: Detect.DetectResult) {
    && row.outcome == Some(r.category) && row.resetAt == r.resetAt
    && row.matchedRule == if r.matchedRule != "" then Some(r.matchedRule) else before.matchedRule
  }

  lemma StartAdds(rec: Rec, a: Attempt, evs: seq<EventRow>, next: Task, fault: Store.Fault)
    ensures var c := Store.Commit(rec, Store.Insert(a), evs, next, fault);
            c.Some? ==> c.value.attempts == rec.attempts + [a] && c.value.task == Store.RewriteTask(rec.task, next)
  {
  }

  lemma StartRows(d: Deps, s: Sup, rec: Rec, cause: Cause, ev: Event, env: Env, timer: TimerAct)
    requires RecInv(rec) && SameButWait(s, rec) && !ev.AttemptExit? && !rec.task.status.Running?
    requires env.pathsOk && env.buildOk && env.spawned.Some?
    ensures RowsFollow(s, rec, ev, env, SpawnAttempt(d, s, rec, cause, env, timer))
  {
    var out := SpawnAttempt(d, s, rec, cause, env, timer);
    if out.ok {
      var no := s.task.totalAttempts + 1;
      var cmd := BuildCommand(d, s.task);
      var e := EventRow(env.at, LoggedStart(no, cause, cmd.ResumeCommand?, env.spawned.value));
      StartAdds(rec, NewAttempt(s, env), [e],
                s.task.(status := Running, currentAttempt := no, totalAttempts := no, nextWakeAt := None,
                        updatedAt := env.at), env.fault);
      OneChild(out.calls, no, cmd);
    }
  }

  lemma OneChild(calls: seq<HostCall>, no: int, cmd: Command)
    requires calls == [Spawned(no, cmd)]
    ensures SpawnedBy(calls) == {no}
  {
    assert calls[0] == Spawned(no, cmd);
  }

  lemma SpawnRows(d: Deps, s: Sup, rec: Rec, cause: Cause, ev: Event, env: Env, timer: TimerAct)
    requires RecInv(rec) && SameButWait(s, rec) && !ev.AttemptExit?
    requires rec.task.status.Pending? || rec.task.status.Waiting? || (rec.task.status.Paused? && ev.UserResume?)
    ensures RowsFollow(s, rec, ev, env, SpawnAttempt(d, s, rec, cause, env, timer))
  {
    if env.pathsOk && env.buildOk && env.spawned.Some? {
      StartRows(d, s, rec, cause, ev, env, timer);
    }
  }

  lemma WakeRows(d: Deps, s: Sup, rec: Rec, cause: Cause, ev: Event, env: Env)
    requires RecInv(rec) && s.task == rec.task && !ev.AttemptExit?
    requires rec.task.status.Waiting? || (rec.task.status.Paused? && ev.UserResume?)
    ensures RowsFollow(s, rec, ev, env, Wake(d, s, rec, cause, env))
  {
    SpawnRows(d, LeaveWait(s, env.wakeAt), rec, cause, ev, env, CancelTimer);
  }

  lemma WriteCloses(s: Sup, rec: Rec, o: AttemptOutput, r: Detect.DetectResult, env: Env)
    requires RecInv(rec) && CurrentStored(s, rec)
    ensures var closed := CloseAttempt(s, o, r, env.at);
            var w := Store.WriteAttempt(rec, CurrentWrite(closed));
            && w.Ok?
            && (if s.current.None? then w.value == rec
                else LastClosed(rec, o, env.at, w.value) && RowTells(LastRow(rec), LastRow(w.value), r))
  {
    if s.current.Some? {
      RewriteAt(rec, |rec.attempts| - 1, CloseAttempt(s, o, r, env.at).current.value);
    }
  }

  lemma FinishRows(s: Sup, rec: Rec, next: Task, to: Status, reason: string, r: Detect.DetectResult, env: Env)
    requires Store.WriteAttempt(rec, CurrentWrite(s)).Ok?
    ensures var out := Finish(s, rec, next, to, reason, r, env);
            && out.calls == []
            && (if out.ok then out.rec.attempts == Store.WriteAttempt(rec, CurrentWrite(s)).value.attempts
                               && out.rec.task.status == to
                else out.rec == rec)
  {
  }

  lemma ScheduleRows(d: Deps, s: Sup, rec: Rec, next: Task, r: Detect.DetectResult, env: Env)
    requires Store.WriteAttempt(rec, CurrentWrite(s)).Ok?
    ensures var out := ScheduleRetry(d, s, rec, next, r, env);
            && out.calls == []
            && (if out.ok then out.rec.attempts == Store.WriteAttempt(rec, CurrentWrite(s)).value.attempts
                               && out.rec.task.status.Waiting?
                else out.rec == rec)
  {
  }

  lemma ExitRows(d: Deps, s: Sup, rec: Rec, o: AttemptOutput, env: Env)
    requires Good(d, s, rec) && rec.task.status.Running?
    ensures RowsFollow(s, rec, AttemptExit(o), env, HandleExit(d, s, rec, o, env))
  {
    var r := Classify(d, s.policy, o, env.at);
    var closed := CloseAttempt(s, o, r, env.at);
    var next := AfterExit(d, s, o, r, env.at);
    WriteCloses(s, rec, o, r, env);
    var to, reason := ExitShape(d, s, rec, o, env);
    if to.Waiting? {
      ScheduleRows(d, closed, rec, next, r, env);
    } else {
      FinishRows(closed, rec, next, to, reason, r, env);
    }
  }

  lemma PausedExitRows(d: Deps, s: Sup, rec: Rec, o: AttemptOutput, env: Env)
    requires Good(d, s, rec) && rec.task.status.Paused?
    ensures RowsFollow(s, rec, AttemptExit(o), env, RecordPausedExit(d, s, rec, o, env))
    ensures RecordPausedExit(d, s, rec, o, env).rec.task.status.Paused?
  {
    WriteCloses(s, rec, o, Classify(d, s.policy, o, env.at), env);
  }

  /** The closed row, the task row and the log entry carry what the exit was classified
      as. */
  predicate OneStory(before: Rec, after: Rec, r: Detect.DetectResult)
    requires before.attempts != []
  {
    && after.attempts != [] && before.log < after.log
    && RowTells(LastRow(before), LastRow(after), r)
    && after.task.lastOutcome == Some(r.category) && after.task.lastResetAt == r.resetAt
    && (var e := after.log[|before.log|].entry;
        e == LoggedExit(r.category, r.matchedRule) || (e.LoggedChange? && e.lastOutcome == Some(r.category)))
  }

  lemma FinishTells(s: Sup, rec: Rec, next: Task, to: Status, reason: string, r: Detect.DetectResult, env: Env)
    requires var w := Store.WriteAttempt(rec, CurrentWrite(s));
             w.Ok? && rec.attempts != [] && w.value.attempts != [] && RowTells(LastRow(rec), LastRow(w.value), r)
    requires next.lastOutcome == Some(r.category) && next.lastResetAt == r.resetAt
    ensures var out := Finish(s, rec, next, to, reason, r, env);
            out.ok ==> OneStory(rec, out.rec, r)
  {
    WriteKeepsRows(rec, CurrentWrite(s));
  }

  lemma ScheduleTells(d: Deps, s: Sup, rec: Rec, next: Task, r: Detect.DetectResult, env: Env)
    requires var w := Store.WriteAttempt(rec, CurrentWrite(s));
             w.Ok? && rec.attempts != [] && w.value.attempts != [] && RowTells(LastRow(rec), LastRow(w.value), r)
    requires next.lastOutcome == Some(r.category) && next.lastResetAt == r.resetAt
    ensures var out := ScheduleRetry(d, s, rec, next, r, env);
            out.ok ==> OneStory(rec, out.rec, r)
  {
    WriteKeepsRows(rec, CurrentWrite(s));
  }

  /** A committed exit leaves attempt row, task row and event log with the category and
      reset time it was classified with, and row and log with the rule that matched; an
      exit that matched no rule leaves in the row whatever rule it had. */
  lemma ExitTellsOneStory(d: Deps, s: Sup, rec: Rec, o: AttemptOutput, env: Env)
    requires Good(d, s, rec) && s.current.Some? && (rec.task.status.Running? || rec.task.status.Paused?)
    ensures var out := Handle(d, s, rec, AttemptExit(o), env);
            rec.attempts != [] && (out.ok ==> OneStory(rec, out.rec, Classify(d, s.policy, o, env.at)))
  {
    var r := Classify(d, s.policy, o, env.at);
    var closed := CloseAttempt(s, o, r, env.at);
    var next := AfterExit(d, s, o, r, env.at);
    WriteCloses(s, rec, o, r, env);
    WriteKeepsRows(rec, CurrentWrite(closed));
    if rec.task.status.Running? {
      var to, reason := ExitShape(d, s, rec, o, env);
      if to.Waiting? {
        ScheduleTells(d, closed, rec, next, r, env);
      } else {
        FinishTells(closed, rec, next, to, reason, r, env);
      }
    }
  }

  lemma HandleRows(d: Deps, s: Sup, rec: Rec, ev: Event, env: Env)
    requires Good(d, s, rec) && !Terminal(rec.task.status)
    ensures RowsFollow(s, rec, ev, env, Handle(d, s, rec, ev, env))
  {
    var status := s.task.status;
    match ev
    case Start => if status.Pending? { SpawnRows(d, s, rec, StartCause, ev, env, KeepTimer); }
    case TimerFire => if status.Waiting? { WakeRows(d, s, rec, TimerCause, ev, env); }
    case AvailabilityOk => if status.Waiting? { WakeRows(d, s, rec, AvailabilityCause, ev, env); }
    case UserResume => if status.Paused? || status.Waiting? { WakeRows(d, s, rec, ResumeCause, ev, env); }
    case AttemptExit(o) =>
      if status.Running? {
        ExitRows(d, s, rec, o, env);
      } else if status.Paused? {
        PausedExitRows(d, s, rec, o, env);
      }
    case UserPause =>
    case UserStop =>
  }

  // ---- Which rows stay open ----

  /** A RUNNING task's latest attempt is open, on every run. */
  lemma {:induction false} RunningLastOpen(w: Setup, c: Core, steps: seq<Step>)
    requires Fresh(c)
    ensures var rec := Run(w, c, steps).rec;
            rec.task.status.Running? ==> rec.attempts != [] && LastRow(rec).endedAt.None?
  {
    if steps != [] {
      var front := steps[..|steps| - 1];
      RunningLastOpen(w, c, front);
      RunKeepsInv(w, c, front);
      var before := Run(w, c, front);
      match steps[|steps| - 1]
      case Deliver(ev, env) => if before.sup.Some? { HandleRows(w.deps, before.sup.value, before.rec, ev, env); }
      case Crash =>
      case Recover(renv) =>
        if !Terminal(before.rec.task.status) { ReconcileKeeps(w.deps, w.cfg, before.rec, renv); }
    }
  }

  /** Recovery closes one row, the first open one. */
  lemma RecoveryClosesFirst(c: Config, rec: Rec, renv: RecoverEnv)
    requires RecInv(rec) && rec.task.status.Running? && ReconcileTask(c, rec, renv).rec != rec
    ensures var after := ReconcileTask(c, rec, renv).rec;
            var i := FirstOpen(rec.attempts);
            && after.task.status.Waiting? && |after.attempts| == |rec.attempts|
            && (i.None? ==> after.attempts == rec.attempts)
            && (i.Some? ==>
                  && after.attempts == rec.attempts[i.value := after.attempts[i.value]]
                  && after.attempts[i.value].endedAt == Some(renv.now)
                  && after.attempts[i.value].outcome == Some(Unknown)
                  && after.attempts[i.value].matchedRule == Some(Interrupted))
  {
    var i := FirstOpen(rec.attempts);
    if i.Some? {
      RewriteAt(rec, i.value, Orphaned(rec.attempts, renv.now).row);
    }
  }

  /** Recovery of an interrupted attempt closes that attempt, and so leaves none open,
      exactly when no earlier row is open; otherwise it closes an earlier row and the
      interrupted one stays open. */
  lemma RecoveryClosesLastIff(c: Config, rec: Rec, renv: RecoverEnv)
    requires RecInv(rec) && rec.task.status.Running? && ReconcileTask(c, rec, renv).rec != rec
    requires rec.attempts != [] && LastRow(rec).endedAt.None?
    ensures var after := ReconcileTask(c, rec, renv).rec;
            && |after.attempts| == |rec.attempts|
            && (LastRow(after).endedAt.Some? <==> AtMostLastOpen(rec))
            && (AtMostLastOpen(rec) ==>
                  && NoneOpen(after)
                  && LastRow(after).outcome == Some(Unknown) && LastRow(after).matchedRule == Some(Interrupted)
                  && after.attempts == rec.attempts[|rec.attempts| - 1 := LastRow(after)])
            && (!AtMostLastOpen(rec) ==> LastRow(after) == LastRow(rec))
  {
    RecoveryClosesFirst(c, rec, renv);
    var i := FirstOpen(rec.attempts);
    assert i.Some? && (i.value == |rec.attempts| - 1 <==> AtMostLastOpen(rec));
  }

  /** Recovery after any run: of a task the crash left RUNNING, it closes the
      interrupted attempt exactly when that is the only open one. */
  lemma CrashClosesInterruptedIff(w: Setup, c: Core, steps: seq<Step>, renv: RecoverEnv)
    requires Fresh(c) && Run(w, c, steps).rec.task.status.Running?
    requires ReconcileTask(w.cfg, Run(w, c, steps).rec, renv).ok
    ensures var before := Run(w, c, steps).rec;
            var after := Run(w, c, steps + [Crash] + [Recover(renv)]).rec;
            && before.attempts != [] && |after.attempts| == |before.attempts|
            && (LastRow(after).endedAt.Some? <==> AtMostLastOpen(before))
            && (LastRow(after).endedAt.Some? <==> NoneOpen(after))
  {
    RunKeepsInv(w, c, steps);
    RunningLastOpen(w, c, steps);
    RunStep(w, c, steps, Crash);
    RunStep(w, c, steps + [Crash], Recover(renv));
    var rec := Run(w, c, steps).rec;
    ReconcileKeeps(w.deps, w.cfg, rec, renv);
    RecoveryClosesLastIff(w.cfg, rec, renv);
  }

  lemma StopKeepsRows(w: Setup, c: Core, step: Step)
    requires CoreInv(w, c) && !Terminal(c.rec.task.status) && Next(w, c, step).rec.task.status.Stopped?
    ensures Next(w, c, step).rec.attempts == c.rec.attempts
  {
    match step
    case Deliver(ev, env) => if c.sup.Some? { HandleRows(w.deps, c.sup.value, c.rec, ev, env); }
    case Crash =>
    case Recover(renv) => ReconcileKeeps(w.deps, w.cfg, c.rec, renv);
  }

  /** The step that stops a task changes no attempt row. */
  lemma StoppingStep(w: Setup, c: Core, steps: seq<Step>, step: Step)
    requires Fresh(c) && !Terminal(Run(w, c, steps).rec.task.status)
    requires Run(w, c, steps + [step]).rec.task.status.Stopped?
    ensures Run(w, c, steps + [step]).rec.attempts == Run(w, c, steps).rec.attempts
  {
    RunKeepsInv(w, c, steps);
    RunStep(w, c, steps, step);
    StopKeepsRows(w, Run(w, c, steps), step);
  }

  predicate LastIsOpen(rec: Rec) {
    rec.attempts != [] && LastRow(rec).endedAt.None?
  }

  /** And none changes after it: an attempt open at the stop, as a RUNNING task's latest
      is, stays open for good. */
  lemma StoppedRowsStay(w: Setup, c: Core, steps: seq<Step>, step: Step, more: seq<Step>)
    requires Fresh(c) && !Terminal(Run(w, c, steps).rec.task.status)
    requires Run(w, c, steps + [step]).rec.task.status.Stopped?
    ensures var before := Run(w, c, steps).rec;
            var after := Run(w, c, steps + [step] + more).rec;
            && after.attempts == before.attempts && after.task.status.Stopped?
            && (before.task.status.Running? ==> LastIsOpen(after))
  {
    StoppingStep(w, c, steps, step);
    RunningLastOpen(w, c, steps);
    RunExtends(w, c, steps + [step], more);
  }

  /** A committed resume from PAUSED leaves at most one row open exactly when no row
      was open before it. */
  lemma ResumeKeepsSingleIff(d: Deps, s: Sup, rec: Rec, env: Env)
    requires Good(d, s, rec) && rec.task.status.Paused?
    requires var out := Handle(d, s, rec, UserResume, env);
             out.ok && out.rec.task.status.Running?
    ensures AtMostLastOpen(Handle(d, s, rec, UserResume, env).rec) <==> NoneOpen(rec)
  {
    var out := Handle(d, s, rec, UserResume, env);
    HandleRows(d, s, rec, UserResume, env);
    forall i | 0 <= i < |rec.attempts| ensures out.rec.attempts[i] == rec.attempts[i] {
      assert out.rec.attempts[i] == out.rec.attempts[..|rec.attempts|][i];
    }
  }

  /** Whichever child an exit came from, a RUNNING task records it on its latest
      attempt: after an early resume the old child's exit lands on the new attempt. */
  lemma EveryExitClosesLatest(d: Deps, s: Sup, rec: Rec, o: AttemptOutput, env: Env)
    requires Good(d, s, rec) && rec.task.status.Running?
    ensures var out := Handle(d, s, rec, AttemptExit(o), env);
            out.ok ==> LastClosed(rec, o, env.at, out.rec) && LastRow(out.rec).attemptNo == rec.task.totalAttempts
  {
    HandleRows(d, s, rec, AttemptExit(o), env);
  }
}
