/** The supervisor object (internal/supervisor/supervisor.go): its methods update
    its own fields, the store, the timers, and the host, and each one is proved to
    leave all of them as the Machine functions say. */
module Supervisor {
  import opened Types
  import opened Machine
  import Db = Store
  import Timers
  import Lifecycle
  import Runs

  /** The process runner: spawning and killing may fail; every attempt at either is
      recorded. */
  class Host {
    var calls: seq<HostCall>

    constructor ()
      ensures calls == []
    {
      calls := [];
    }

    method Spawn(attemptNo: int, command: Command, outcome: Option<int>) returns (pid: Option<int>)
      modifies this
      ensures pid == outcome
      ensures calls == old(calls) + if outcome.Some? then [Spawned(attemptNo, command)] else []
    {
      if outcome.Some? {
        calls := calls + [Spawned(attemptNo, command)];
      }
      pid := outcome;
    }

    method Kill(outcome: bool) returns (ok: bool)
      modifies this
      ensures ok == outcome && calls == old(calls) + [Killed]
    {
      calls := calls + [Killed];
      ok := outcome;
    }
  }

  /** Spawning does nothing to the timers itself. */
  lemma SpawnKeepsTimer(d: Deps, s: Sup, rec: Rec, cause: Cause, env: Env, timer: TimerAct)
    ensures SpawnAttempt(d, s, rec, cause, env, timer) ==
            SpawnAttempt(d, s, rec, cause, env, KeepTimer).(timer := timer)
  {
  }

  /** The two ends of a start whose child was spawned: recorded, or killed. */
  lemma SpawnedOutcome(d: Deps, s: Sup, rec: Rec, cause: Cause, env: Env)
    requires env.pathsOk && env.buildOk && env.spawned.Some?
    ensures var a := NewAttempt(s, env);
            var command := BuildCommand(d, s.task);
            var next := s.task.(status := Running, currentAttempt := a.attemptNo, totalAttempts := a.attemptNo,
                                nextWakeAt := None, updatedAt := env.at);
            var e := EventRow(env.at, LoggedStart(a.attemptNo, cause, command.ResumeCommand?, env.spawned.value));
            var c := Db.Commit(rec, Db.Insert(a), [e], next, env.fault);
            Machine.SpawnAttempt(d, s, rec, cause, env, KeepTimer) ==
              if c.Some? then
                Out(true, s.(task := next, current := Some(a)), c.value, KeepTimer, [Spawned(a.attemptNo, command)])
              else Out(false, s, rec, KeepTimer, [Spawned(a.attemptNo, command), Killed])
  {
  }

  class Supervisor {
    const deps: Deps
    const policy: SupPolicy
    const id: string
    const store: Db.Store
    const timers: Timers.Manager
    const host: Host

    var task: Task
    var waitingSince: Option<Time>
    var current: Option<Attempt>
    var probing: bool

    constructor (task: Task, policy: SupPolicy, deps: Deps, store: Db.Store, timers: Timers.Manager, host: Host)
      ensures View() == Sup(policy, task, None, None, false)
      ensures this.deps == deps && this.id == task.id
      ensures this.store == store && this.timers == timers && this.host == host
    {
      this.task, this.policy, this.deps, this.id := task, policy, deps, task.id;
      this.store, this.timers, this.host := store, timers, host;
      waitingSince, current, probing := None, None, false;
    }

    function View(): Sup
      reads this
    {
      Sup(policy, task, waitingSince, current, probing)
    }

    predicate Valid()
      reads this, store, timers
    {
      && Timers.Inv(timers.View())
      && id in store.rows && task.id == id && store.rows[id].task.id == id
    }

    function Stored(): Rec
      reads this, store
      requires id in store.rows
    {
      store.rows[id]
    }

    /** This object, the task's rows, the timers, and the host are as `out` says,
        and no other task's rows have changed. */
    twostate predicate Became(out: Out, ok: bool, env: Env)
      requires old(Valid())
      reads this, store, timers, host
    {
      && ok == out.ok
      && View() == out.sup
      && store.Get(id) == Some(out.rec)
      && (forall other :: other != id ==> store.Get(other) == old(store.Get(other)))
      && timers.View() == AfterTimer(old(timers.View()), id, out.timer, env.armAt)
      && host.calls == old(host.calls) + out.calls
      && Valid()
    }

    /** Commits the row with its attempt and events, and only then replaces the task
        in memory. */
    method Persist(next: Task, w: Db.AttemptWrite, evs: seq<EventRow>, fault: Db.Fault) returns (ok: bool)
      requires Valid() && next.id == id
      modifies this, store
      ensures var c := Db.Commit(old(Stored()), w, evs, next, fault);
              && ok == c.Some?
              && store.Get(id) == Some(if ok then c.value else old(Stored()))
              && View() == if ok then old(View()).(task := next) else old(View())
      ensures forall other :: other != id ==> store.Get(other) == old(store.Get(other))
      ensures Valid()
    {
      Db.ScriptIsCommit(Stored(), w, evs, next, fault);
      ok := store.UpdateTaskTx(id, Db.Script(w, evs, next), fault);
      if ok {
        task := next;
      }
    }

    method Fail(reason: string, env: Env) returns (ok: bool)
      requires Valid()
      modifies this, store
      ensures Became(old(Machine.Fail(View(), Stored(), reason, env, KeepTimer)), ok, env)
    {
      var next := task.(status := Failed, exitReason := Some(reason), nextWakeAt := None, updatedAt := env.failAt);
      ok := Persist(next, Db.NoAttempt, [EventRow(env.failAt, LoggedChange(Failed, reason, None))], env.fault);
    }

    method SpawnAttempt(cause: Cause, env: Env) returns (ok: bool)
      requires Valid()
      modifies this, store, host
      ensures Became(old(Machine.SpawnAttempt(deps, View(), Stored(), cause, env, KeepTimer)), ok, env)
    {
      ghost var s, rec := View(), Stored();
      var attemptNo := task.totalAttempts + 1;
      if !env.pathsOk {
        return false;
      }
      var command := BuildCommand(deps, task);
      if !env.buildOk {
        ok := Fail("build command", env);
        return;
      }
      var pid := host.Spawn(attemptNo, command, env.spawned);
      if pid.None? {
        ok := Fail("spawn attempt", env);
        return;
      }
      SpawnedOutcome(deps, s, rec, cause, env);
      var attempt := Attempt(env.attemptId, task.id, attemptNo, pid, env.at, None, None, None, None, None);
      var next := task.(status := Running, currentAttempt := attemptNo, totalAttempts := attemptNo,
                        nextWakeAt := None, updatedAt := env.at);
      ok := Persist(next, Db.Insert(attempt),
                    [EventRow(env.at, LoggedStart(attemptNo, cause, command.ResumeCommand?, pid.value))], env.fault);
      if !ok {
        var _ := host.Kill(env.killOk);
        return;
      }
      current := Some(attempt);
    }

    method Wake(cause: Cause, env: Env) returns (ok: bool)
      requires Valid()
      modifies this, store, timers, host
      ensures Became(old(Machine.Wake(deps, View(), Stored(), cause, env)), ok, env)
    {
      timers.Cancel(task.id);
      probing := false;
      if task.status.Waiting? && waitingSince.Some? {
        task := task.(cumulativeWaitMs := task.cumulativeWaitMs + Millis(SubTime(env.wakeAt, waitingSince.value)));
        waitingSince := None;
      }
      ghost var left := LeaveWait(old(View()), env.wakeAt);
      assert View() == left && Stored() == old(Stored());
      SpawnKeepsTimer(deps, left, Stored(), cause, env, CancelTimer);
      label spawning:
      ok := SpawnAttempt(cause, env);
      assert Became@spawning(Machine.SpawnAttempt(deps, left, old(Stored()), cause, env, KeepTimer), ok, env);
    }

    method CloseAttempt(o: AttemptOutput, r: Detect.DetectResult, now: Time)
      modifies this
      ensures View() == Machine.CloseAttempt(old(View()), o, r, now)
    {
      if current.Some? {
        var a := current.value;
        a := a.(endedAt := Some(now), exitCode := Some(o.exitCode), outcome := Some(r.category), resetAt := r.resetAt);
        if r.matchedRule != "" {
          a := a.(matchedRule := Some(r.matchedRule));
        }
        current := Some(a);
      }
    }

    method Finish(next: Task, to: Status, reason: string, r: Detect.DetectResult, env: Env) returns (ok: bool)
      requires Valid() && next.id == id
      modifies this, store
      ensures Became(old(Machine.Finish(View(), Stored(), next, to, reason, r, env)), ok, env)
    {
      var done := next.(status := to, exitReason := Some(reason), nextWakeAt := None);
      ok := Persist(done, CurrentWrite(View()),
                    [EventRow(next.updatedAt, LoggedChange(to, reason, Some(r.category)))], env.fault);
    }

    /** The retryable case of an exit: commit WAITING, then arm the timer. */
    method Schedule(next: Task, r: Detect.DetectResult, env: Env) returns (ok: bool)
      requires Valid() && next.id == id
      modifies this, store, timers
      ensures Became(old(Machine.ScheduleRetry(deps, View(), Stored(), next, r, env)), ok, env)
    {
      var wake := ProposedWake(View(), r, env);
      var waiting := next.(status := Waiting, nextWakeAt := Some(wake));
      ok := Persist(waiting, CurrentWrite(View()), [ExitRow(r, env.at), EventRow(env.at, LoggedWake(wake))], env.fault);
      if !ok {
        return;
      }
      waitingSince := Some(env.at);
      timers.ArmTask(task.id, wake, env.armAt);
      if r.category.QuotaExhausted? {
        if deps.hasProbe && policy.probeInterval > 0 && !probing {
          probing := true;
        }
      }
    }

    method HandleAttemptExit(o: AttemptOutput, env: Env) returns (ok: bool)
      requires Valid()
      modifies this, store, timers
      ensures Became(old(HandleExit(deps, View(), Stored(), o, env)), ok, env)
    {
      var r := Classify(deps, policy, o, env.at);
      var next := AfterExit(deps, View(), o, r, env.at);
      var hit := CapHit(View(), r, env);
      CloseAttempt(o, r, env.at);
      if r.category.Success? {
        ok := Finish(next, Succeeded, "success", r, env);
      } else if FailsOn(policy, r.category) {
        var reason := r.matchedRule;
        if reason == "" {
          reason := "unknown outcome (on_unknown=fail)";
        }
        ok := Finish(next, Failed, reason, r, env);
      } else if !hit.CapNone? {
        ok := Finish(next, Failed, "cap exceeded: " + CapName(hit), r, env);
      } else {
        ok := Schedule(next, r, env);
      }
    }

    method RecordPausedExit(o: AttemptOutput, env: Env) returns (ok: bool)
      requires Valid()
      modifies this, store
      ensures Became(old(Machine.RecordPausedExit(deps, View(), Stored(), o, env)), ok, env)
    {
      var r := Classify(deps, policy, o, env.at);
      var next := AfterExit(deps, View(), o, r, env.at);
      CloseAttempt(o, r, env.at);
      ok := Persist(next, CurrentWrite(View()), [ExitRow(r, env.at)], env.fault);
    }

    method Pause(env: Env) returns (ok: bool)
      requires Valid()
      modifies this, store, timers
      ensures Became(old(Machine.Pause(View(), Stored(), env)), ok, env)
    {
      timers.Cancel(task.id);
      probing := false;
      var next := task;
      if next.status.Waiting? && waitingSince.Some? {
        next := next.(cumulativeWaitMs := next.cumulativeWaitMs + Millis(SubTime(env.at, waitingSince.value)));
        waitingSince := None;
      }
      var from := next.status;
      next := next.(status := Paused, nextWakeAt := None, updatedAt := env.at);
      ok := Persist(next, Db.NoAttempt, [EventRow(env.at, LoggedAction(PauseAction, from))], env.fault);
    }

    method Stop(env: Env) returns (ok: bool)
      requires Valid()
      modifies this, store, timers, host
      ensures Became(old(Machine.Stop(View(), Stored(), env)), ok, env)
    {
      timers.Cancel(task.id);
      probing := false;
      if task.status.Running? || task.status.Paused? {
        var killed := host.Kill(env.killOk);
        if !killed {
          return false;
        }
      }
      var from := task.status;
      var next := task.(status := Stopped, exitReason := Some("stopped by user"), nextWakeAt := None,
                        updatedAt := env.at);
      ok := Persist(next, Db.NoAttempt, [EventRow(env.at, LoggedAction(StopAction, from))], env.fault);
    }

    /** Applies one event; one that does not apply in the current state is ignored. */
    method Handle(ev: Event, env: Env) returns (ok: bool)
      requires Valid()
      modifies this, store, timers, host
      ensures Became(old(Machine.Handle(deps, View(), Stored(), ev, env)), ok, env)
    {
      ok := true;
      match ev {
        case Start =>
          if task.status.Pending? { ok := SpawnAttempt(StartCause, env); }
        case TimerFire =>
          if task.status.Waiting? && !TooEarly(task, env.guardAt) { ok := Wake(TimerCause, env); }
        case AvailabilityOk =>
          if task.status.Waiting? { ok := Wake(AvailabilityCause, env); }
        case UserResume =>
          if task.status.Paused? || task.status.Waiting? { ok := Wake(ResumeCause, env); }
        case AttemptExit(o) =>
          if task.status.Running? {
            ok := HandleAttemptExit(o, env);
          } else if task.status.Paused? {
            ok := RecordPausedExit(o, env);
          }
        case UserPause =>
          if task.status.Running? || task.status.Waiting? { ok := Pause(env); }
        case UserStop =>
          if !Terminal(task.status) { ok := Stop(env); }
      }
    }

    /** The event loop over a finite queue: the run that delivers its events one after
        another, which ends at the first error or terminal state. At every head of the
        loop memory agrees with the store and the rows replay from their log; after an
        error the rows are still sound. */
    method Run(queue: seq<(Event, Env)>, ghost w: Runs.Setup) returns (ok: bool, handled: nat)
      requires Valid() && Lifecycle.Good(deps, View(), Stored()) && w.deps == deps
      modifies this, store, timers, host
      ensures Valid() && handled <= |queue|
      ensures Runs.Alive(View(), Stored(), ok) ==
              Runs.Run(w, old(Runs.Alive(View(), Stored(), true)), Runs.Deliveries(queue))
      ensures Lifecycle.RecInv(Stored())
      ensures ok ==> Lifecycle.Agrees(deps, View(), Stored())
      ensures ok ==> handled == |queue| || Terminal(task.status)
      ensures forall other :: other != id ==> store.Get(other) == old(store.Get(other))
    {
      handled := 0;
      ok := true;
      ghost var start := Runs.Alive(View(), Stored(), true);
      while handled < |queue| && !Terminal(task.status)
        invariant Valid() && handled <= |queue|
        invariant Lifecycle.Good(deps, View(), Stored())
        invariant Runs.Alive(View(), Stored(), true) == Runs.Run(w, start, Runs.Deliveries(queue[..handled]))
        invariant forall other :: other != id ==> store.Get(other) == old(store.Get(other))
        decreases |queue| - handled
      {
        var (ev, env) := queue[handled];
        Runs.LoopTurn(w, start, queue, handled, View(), Stored());
        ok := Handle(ev, env);
        if !ok {
          return;
        }
        handled := handled + 1;
      }
      assert queue[..|queue|] == queue;
      if Terminal(task.status) {
        Runs.DeliverRest(w, start, queue, handled);
      }
    }
  }
}
