/** Session continuity over whole runs (internal/supervisor/session.go): a session
    ref, once known, is the task's for good, and later attempts resume it. */
module Sessions {
  import opened Types
  import opened Machine
  import opened Lifecycle
  import opened Effects
  import opened Runs
  import Store

  /** The command for attempt `no` of a task with this ref and mode: the provider's
      session is resumed whenever there is one to resume. */
  function Expected(canResume: bool, mode: SessionMode, ref: string, no: int): Command {
    if ref != "" && canResume && (no > 1 || mode.ExistingSession?) then ResumeCommand(ref) else StartCommand(ref)
  }

  /** A known ref stays; a new one comes only with the exit that revealed it, in the
      transaction that logs that exit. */
  predicate RefKept(d: Deps, s: Sup, rec: Rec, ev: Event, after: Rec) {
    && after.task.sessionMode == rec.task.sessionMode
    && (RefOf(rec.task) != "" ==> after.task.sessionRef == rec.task.sessionRef)
    && (RefOf(rec.task) == "" && RefOf(after.task) != "" ==>
          && ev.AttemptExit?
          && d.extractRef(Bounded(s.policy, ev.output)) == after.task.sessionRef
          && |after.log| > |rec.log|
          && (var e := after.log[|rec.log|].entry;
              e.LoggedExit? || (e.LoggedChange? && e.lastOutcome.Some?)))
  }

  /** Every child spawned is the next attempt, with the expected command; it is logged
      as what it was, or, when that could not be committed, killed. */
  predicate SpawnsExpected(d: Deps, rec: Rec, out: Out) {
    forall k :: 0 <= k < |out.calls| && out.calls[k].Spawned? ==>
      && out.calls[k].attemptNo == rec.task.totalAttempts + 1
      && out.calls[k].command == Expected(d.canResume, rec.task.sessionMode, RefOf(rec.task), out.calls[k].attemptNo)
      && (if out.ok then LogsStart(rec, out.rec, out.calls[k])
          else k + 1 < |out.calls| && out.calls[k + 1].Killed?)
  }

  predicate SessionKept(d: Deps, s: Sup, rec: Rec, ev: Event, out: Out) {
    RefKept(d, s, rec, ev, out.rec) && SpawnsExpected(d, rec, out)
  }

  /** The spawn is logged, and as a resume exactly when it was one. */
  predicate LogsStart(before: Rec, after: Rec, spawn: HostCall)
    requires spawn.Spawned?
  {
    && |after.log| == |before.log| + 1
    && var e := after.log[|before.log|].entry;
       e.LoggedStart? && e.attempt == spawn.attemptNo && (e.resumed <==> spawn.command.ResumeCommand?)
  }

  lemma FinishSession(d: Deps, s: Sup, rec: Rec, next: Task, to: Status, reason: string, r: Detect.DetectResult,
                      env: Env)
    ensures var out := Finish(s, rec, next, to, reason, r, env);
            && out.calls == []
            && (out.rec != rec ==>
                  && out.rec.task.sessionRef == next.sessionRef && out.rec.task.sessionMode == next.sessionMode
                  && |out.rec.log| > |rec.log|
                  && out.rec.log[|rec.log|].entry == LoggedChange(to, reason, Some(r.category)))
  {
    Effects.WriteKeepsRows(rec, CurrentWrite(s));
  }

  lemma ScheduleSession(d: Deps, s: Sup, rec: Rec, next: Task, r: Detect.DetectResult, env: Env)
    ensures var out := ScheduleRetry(d, s, rec, next, r, env);
            && out.calls == []
            && (out.rec != rec ==>
                  && out.rec.task.sessionRef == next.sessionRef && out.rec.task.sessionMode == next.sessionMode
                  && |out.rec.log| > |rec.log|
                  && out.rec.log[|rec.log|].entry.LoggedExit?)
  {
    Effects.WriteKeepsRows(rec, CurrentWrite(s));
  }

  /** The row after an exit keeps a known ref, or takes the one the output revealed. */
  lemma AfterExitRef(d: Deps, s: Sup, o: AttemptOutput, r: Detect.DetectResult, now: Time)
    ensures var next := AfterExit(d, s, o, r, now);
            && next.sessionMode == s.task.sessionMode
            && (RefOf(s.task) != "" ==> next.sessionRef == s.task.sessionRef)
            && (RefOf(s.task) == "" && RefOf(next) != "" ==> d.extractRef(Bounded(s.policy, o)) == next.sessionRef)
            && (RefOf(next) != RefOf(s.task) ==> next.sessionRef.Some?)
  {
  }

  lemma ExitSession(d: Deps, s: Sup, rec: Rec, o: AttemptOutput, env: Env)
    requires Good(d, s, rec) && rec.task.status.Running?
    ensures SessionKept(d, s, rec, AttemptExit(o), HandleExit(d, s, rec, o, env))
  {
    var r := Classify(d, s.policy, o, env.at);
    var closed := CloseAttempt(s, o, r, env.at);
    var next := AfterExit(d, s, o, r, env.at);
    AfterExitRef(d, s, o, r, env.at);
    var to, reason := ExitShape(d, s, rec, o, env);
    if to.Waiting? {
      ScheduleSession(d, closed, rec, next, r, env);
    } else {
      FinishSession(d, closed, rec, next, to, reason, r, env);
    }
  }

  lemma PausedExitSession(d: Deps, s: Sup, rec: Rec, o: AttemptOutput, env: Env)
    requires Good(d, s, rec) && rec.task.status.Paused?
    ensures SessionKept(d, s, rec, AttemptExit(o), RecordPausedExit(d, s, rec, o, env))
  {
    Effects.WriteKeepsRows(rec, CurrentWrite(CloseAttempt(s, o, Classify(d, s.policy, o, env.at), env.at)));
  }

  lemma FailSession(d: Deps, s: Sup, rec: Rec, reason: string, ev: Event, env: Env, timer: TimerAct)
    requires SameButWait(s, rec)
    ensures SessionKept(d, s, rec, ev, Fail(s, rec, reason, env, timer))
  {
  }

  lemma CommandIsExpected(d: Deps, t: Task)
    requires t.totalAttempts >= 0
    ensures BuildCommand(d, t) == Expected(d.canResume, t.sessionMode, RefOf(t), t.totalAttempts + 1)
  {
  }

  lemma OneSpawn(d: Deps, rec: Rec, out: Out, no: int, cmd: Command)
    requires out.calls == if out.ok then [Spawned(no, cmd)] else [Spawned(no, cmd), Killed]
    requires no == rec.task.totalAttempts + 1
    requires cmd == Expected(d.canResume, rec.task.sessionMode, RefOf(rec.task), no)
    requires out.ok ==> LogsStart(rec, out.rec, Spawned(no, cmd))
    ensures SpawnsExpected(d, rec, out)
  {
  }

  /** What a committed start does to the session and the log. */
  lemma StartCommits(s: Sup, rec: Rec, a: Attempt, cause: Cause, cmd: Command, next: Task, fault: Store.Fault)
    requires a.pid.Some? && next.sessionRef == rec.task.sessionRef && next.sessionMode == rec.task.sessionMode
    ensures var e := EventRow(a.startedAt, LoggedStart(a.attemptNo, cause, cmd.ResumeCommand?, a.pid.value));
            var c := Store.Commit(rec, Store.Insert(a), [e], next, fault);
            c.Some? ==>
              && LogsStart(rec, c.value, Spawned(a.attemptNo, cmd))
              && c.value.task.sessionRef == rec.task.sessionRef && c.value.task.sessionMode == rec.task.sessionMode
  {
  }

  /** The branch in which a child is spawned, whether or not its row is committed. */
  lemma StartSession(d: Deps, s: Sup, rec: Rec, cause: Cause, ev: Event, env: Env, timer: TimerAct)
    requires RecInv(rec) && SameButWait(s, rec) && env.pathsOk && env.buildOk && env.spawned.Some?
    ensures SessionKept(d, s, rec, ev, SpawnAttempt(d, s, rec, cause, env, timer))
  {
    CommandIsExpected(d, s.task);
    var out := SpawnAttempt(d, s, rec, cause, env, timer);
    var no := s.task.totalAttempts + 1;
    var cmd := BuildCommand(d, s.task);
    StartCommits(s, rec, NewAttempt(s, env), cause, cmd,
                 s.task.(status := Running, currentAttempt := no, totalAttempts := no, nextWakeAt := None,
                         updatedAt := env.at), env.fault);
    OneSpawn(d, rec, out, no, cmd);
  }

  lemma SpawnSession(d: Deps, s: Sup, rec: Rec, cause: Cause, ev: Event, env: Env, timer: TimerAct)
    requires RecInv(rec) && SameButWait(s, rec)
    ensures SessionKept(d, s, rec, ev, SpawnAttempt(d, s, rec, cause, env, timer))
  {
    if env.pathsOk {
      if !env.buildOk {
        FailSession(d, s, rec, "build command", ev, env, timer);
      } else if env.spawned.None? {
        FailSession(d, s, rec, "spawn attempt", ev, env, timer);
      } else {
        StartSession(d, s, rec, cause, ev, env, timer);
      }
    }
  }

  lemma WakeSession(d: Deps, s: Sup, rec: Rec, cause: Cause, ev: Event, env: Env)
    requires RecInv(rec) && s.task == rec.task
    ensures SessionKept(d, s, rec, ev, Wake(d, s, rec, cause, env))
  {
    SpawnSession(d, LeaveWait(s, env.wakeAt), rec, cause, ev, env, CancelTimer);
  }

  lemma PauseSession(d: Deps, s: Sup, rec: Rec, env: Env)
    requires s.task == rec.task
    ensures SessionKept(d, s, rec, UserPause, Pause(s, rec, env))
  {
  }

  lemma StopSession(d: Deps, s: Sup, rec: Rec, env: Env)
    requires s.task == rec.task
    ensures SessionKept(d, s, rec, UserStop, Stop(s, rec, env))
  {
  }

  lemma HandleSession(d: Deps, s: Sup, rec: Rec, ev: Event, env: Env)
    requires Good(d, s, rec)
    ensures SessionKept(d, s, rec, ev, Handle(d, s, rec, ev, env))
  {
    var status := s.task.status;
    match ev
    case Start => if status.Pending? { SpawnSession(d, s, rec, StartCause, ev, env, KeepTimer); }
    case TimerFire => if status.Waiting? { WakeSession(d, s, rec, TimerCause, ev, env); }
    case AvailabilityOk => if status.Waiting? { WakeSession(d, s, rec, AvailabilityCause, ev, env); }
    case UserResume => if status.Paused? || status.Waiting? { WakeSession(d, s, rec, ResumeCause, ev, env); }
    case AttemptExit(o) =>
      if status.Running? {
        ExitSession(d, s, rec, o, env);
      } else if status.Paused? {
        PausedExitSession(d, s, rec, o, env);
      }
    case UserPause => if status.Running? || status.Waiting? { PauseSession(d, s, rec, env); }
    case UserStop => StopSession(d, s, rec, env);
  }

  lemma NextKeepsRef(w: Setup, c: Core, step: Step)
    requires CoreInv(w, c)
    ensures Next(w, c, step).rec.task.sessionMode == c.rec.task.sessionMode
    ensures RefOf(c.rec.task) != "" ==> Next(w, c, step).rec.task.sessionRef == c.rec.task.sessionRef
  {
    if step.Deliver? && c.sup.Some? {
      HandleSession(w.deps, c.sup.value, c.rec, step.ev, step.env);
    }
  }

  lemma {:induction false} RunFromKeepsRef(w: Setup, c: Core, steps: seq<Step>)
    requires CoreInv(w, c) && RefOf(c.rec.task) != ""
    ensures Run(w, c, steps).rec.task.sessionRef == c.rec.task.sessionRef
    ensures Run(w, c, steps).rec.task.sessionMode == c.rec.task.sessionMode
  {
    if steps != [] {
      var front := steps[..|steps| - 1];
      RunFromKeepsRef(w, c, front);
      RunFromKeepsInv(w, c, front);
      NextKeepsRef(w, Run(w, c, front), steps[|steps| - 1]);
    }
  }

  /** A non-empty session ref is the same in every later row, whatever happens. */
  lemma RefIsForever(w: Setup, c: Core, steps: seq<Step>, more: seq<Step>)
    requires Fresh(c) && RefOf(Run(w, c, steps).rec.task) != ""
    ensures Run(w, c, steps + more).rec.task.sessionRef == Run(w, c, steps).rec.task.sessionRef
    ensures Run(w, c, steps + more).rec.task.sessionMode == Run(w, c, steps).rec.task.sessionMode
  {
    RunSplit(w, c, steps, more);
    RunKeepsInv(w, c, steps);
    RunFromKeepsRef(w, Run(w, c, steps), more);
  }

  /** Once a ref is known, every attempt spawned by any continuation, the first
      attempt of an existing session included, resumes exactly that ref when the
      provider can resume. */
  lemma LaterAttemptsResume(w: Setup, c: Core, steps: seq<Step>, more: seq<Step>, ev: Event, env: Env)
    requires Fresh(c) && RefOf(Run(w, c, steps).rec.task) != "" && w.deps.canResume
    requires Run(w, c, steps + more).sup.Some?
    ensures var here := Run(w, c, steps + more);
            var out := Handle(w.deps, here.sup.value, here.rec, ev, env);
            forall k :: 0 <= k < |out.calls| && out.calls[k].Spawned?
                        && (out.calls[k].attemptNo > 1 || here.rec.task.sessionMode.ExistingSession?) ==>
              out.calls[k].command == ResumeCommand(RefOf(Run(w, c, steps).rec.task))
  {
    RefIsForever(w, c, steps, more);
    RunKeepsInv(w, c, steps + more);
    var here := Run(w, c, steps + more);
    HandleSession(w.deps, here.sup.value, here.rec, ev, env);
  }

  /** A ref that appears in a run appears with the exit whose output revealed it, in
      the same committed transaction as that exit's log entry. */
  lemma RefComesWithItsExit(w: Setup, c: Core, steps: seq<Step>, step: Step)
    requires Fresh(c) && RefOf(Run(w, c, steps).rec.task) == ""
    requires RefOf(Run(w, c, steps + [step]).rec.task) != ""
    ensures var before := Run(w, c, steps);
            var after := Run(w, c, steps + [step]);
            && step.Deliver? && step.ev.AttemptExit? && before.sup.Some?
            && w.deps.extractRef(Bounded(before.sup.value.policy, step.ev.output)) == after.rec.task.sessionRef
            && |after.rec.log| > |before.rec.log|
            && var e := after.rec.log[|before.rec.log|].entry;
               e.LoggedExit? || (e.LoggedChange? && e.lastOutcome.Some?)
  {
    RunKeepsInv(w, c, steps);
    var before := Run(w, c, steps);
    RunStep(w, c, steps, step);
    if step.Deliver? && before.sup.Some? {
      HandleSession(w.deps, before.sup.value, before.rec, step.ev, step.env);
    }
  }
}
