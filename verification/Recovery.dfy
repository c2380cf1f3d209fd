/** Policy parsing and crash recovery (internal/daemon/policy.go, reconcile.go):
    what a starting daemon does with each stored task. */
module Recovery {
  import opened Types
  import opened Machine
  import opened Lifecycle
  import Db = Store
  import Scheduler
  import Timers

  // ---- Configuration ----

  /** A duration in the task's config snapshot, as text that may not parse. */
  datatype DurationText = Empty | Parsed(value: Duration) | Garbled
  datatype DeadlineText = NoDeadline | Relative(after: Duration) | Absolute(at: Time) | GarbledDeadline

  datatype Config = Config(
    backoffBase: DurationText,
    backoffFactor: real,
    backoffMax: DurationText,
    backoffJitter: real,
    resetBuffer: DurationText,
    maxAttempts: int,
    deadline: DeadlineText,
    maxTotalWait: DurationText,
    onUnknown: string,
    onInterrupt: string,
    pollInterval: DurationText,
    scanBytes: int)

  /** Every duration must parse, but an empty total-wait cap means none. */
  predicate Parses(c: Config) {
    && c.backoffBase.Parsed? && c.backoffMax.Parsed? && c.resetBuffer.Parsed? && c.pollInterval.Parsed?
    && !c.maxTotalWait.Garbled? && !c.deadline.GarbledDeadline?
  }

  /** A relative deadline is anchored at `now`, each time a policy is built. */
  function BuildPolicy(c: Config, now: Time): Option<SupPolicy> {
    if !Parses(c) then None
    else
      var deadline := match c.deadline
        case Relative(d) => Some(now + d)
        case Absolute(t) => Some(t)
        case _ => None;
      Some(SupPolicy(
        Scheduler.Policy(c.backoffBase.value, c.backoffFactor, c.backoffMax.value, c.backoffJitter,
                         c.resetBuffer.value, c.maxAttempts, deadline,
                         if c.maxTotalWait.Parsed? then c.maxTotalWait.value else 0),
        c.onUnknown, c.scanBytes, c.pollInterval.value))
  }

  /** A policy says what the snapshot's texts say, each in its own place; a relative
      deadline counts from `now`, and an empty total-wait cap is none. */
  lemma PolicyReads(c: Config, now: Time)
    ensures BuildPolicy(c, now).Some? <==>
            && c.backoffBase.Parsed? && c.backoffMax.Parsed? && c.resetBuffer.Parsed? && c.pollInterval.Parsed?
            && (c.maxTotalWait.Parsed? || c.maxTotalWait.Empty?)
            && (c.deadline.NoDeadline? || c.deadline.Relative? || c.deadline.Absolute?)
    ensures BuildPolicy(c, now).Some? ==>
            var p := BuildPolicy(c, now).value;
            && Parsed(p.scheduler.backoffBase) == c.backoffBase && Parsed(p.scheduler.backoffMax) == c.backoffMax
            && Parsed(p.scheduler.resetBuffer) == c.resetBuffer && Parsed(p.probeInterval) == c.pollInterval
            && p.scheduler.backoffFactor == c.backoffFactor && p.scheduler.backoffJitter == c.backoffJitter
            && p.scheduler.maxAttempts == c.maxAttempts && p.onUnknown == c.onUnknown && p.scanBytes == c.scanBytes
            && (c.maxTotalWait == Parsed(p.scheduler.maxTotalWait)
                || (c.maxTotalWait.Empty? && p.scheduler.maxTotalWait == 0))
            && (c.deadline.NoDeadline? <==> p.scheduler.deadline.None?)
            && (c.deadline.Relative? ==> p.scheduler.deadline == Some(now + c.deadline.after))
            && (c.deadline.Absolute? ==> p.scheduler.deadline == Some(c.deadline.at))
  {
  }

  /** Rebuilding a policy later changes nothing but a relative deadline, which
      moves by exactly the time elapsed. */
  lemma OnlyRelativeDeadlineMoves(c: Config, t1: Time, t2: Time)
    requires Parses(c)
    ensures var p1 := BuildPolicy(c, t1).value;
            var p2 := BuildPolicy(c, t2).value;
            && p2 == p1.(scheduler := p1.scheduler.(deadline := p2.scheduler.deadline))
            && (p1.scheduler.deadline.Some? <==> p2.scheduler.deadline.Some?)
            && (p1.scheduler.deadline.Some? ==>
                  p2.scheduler.deadline.value - p1.scheduler.deadline.value ==
                    if c.deadline.Relative? then t2 - t1 else 0)
  {
  }

  // ---- One task ----

  /** Clock readings and fallible outcomes while one task is recovered. */
  datatype RecoverEnv = RecoverEnv(
    now: Time, startAt: Time, armAt: Time,
    snapshotOk: bool, providerOk: bool, listOk: bool, rulesOk: bool,
    fault: Db.Fault, draw: real)

  const Interrupted := "daemon_interrupted"

  /** The first attempt row without an end time. */
  function FirstOpen(rows: seq<Attempt>): (i: Option<nat>)
    ensures i.Some? ==> i.value < |rows| && rows[i.value].endedAt.None?
    ensures i.Some? ==> forall k :: 0 <= k < i.value ==> rows[k].endedAt.Some?
    ensures i.None? ==> forall k :: 0 <= k < |rows| ==> rows[k].endedAt.Some?
  {
    if rows == [] then None
    else if rows[0].endedAt.None? then Some(0)
    else
      var rest := FirstOpen(rows[1..]);
      if rest.Some? then Some(rest.value + 1) else None
  }

  function Orphaned(rows: seq<Attempt>, now: Time): Db.AttemptWrite {
    var i := FirstOpen(rows);
    if i.None? then Db.NoAttempt
    else Db.Rewrite(rows[i.value].(endedAt := Some(now), outcome := Some(Unknown), matchedRule := Some(Interrupted)))
  }

  function InterruptWake(c: Config, p: SupPolicy, t: Task, env: RecoverEnv): Time {
    if c.onInterrupt != "resume_now" then Scheduler.NextWake(p.scheduler, t.totalAttempts, None, env.now, env.draw)
    else env.now
  }

  function InterruptedRow(t: Task, wake: Time, now: Time): Task {
    t.(status := Waiting, lastOutcome := Some(Unknown), lastResetAt := None, nextWakeAt := Some(wake), updatedAt := now)
  }

  function InterruptedEvents(wake: Time, now: Time): seq<EventRow> {
    [EventRow(now, LoggedExit(Unknown, Interrupted)), EventRow(now, LoggedWake(wake))]
  }

  /** Close the orphaned attempt and move the task to WAITING; None is an error. */
  function RecoverInterrupted(c: Config, rec: Rec, env: RecoverEnv): Option<Rec> {
    var p := BuildPolicy(c, env.now);
    if p.None? || !env.listOk then None
    else
      var wake := InterruptWake(c, p.value, rec.task, env);
      Db.Commit(rec, Orphaned(rec.attempts, env.now), InterruptedEvents(wake, env.now),
                InterruptedRow(rec.task, wake, env.now), env.fault)
  }

  /** The result of recovering one task: its rows, its new supervisor, the wake time
      to arm, and whether a start event is posted. */
  datatype Recovered = Recovered(ok: bool, rec: Rec, sup: Option<Sup>, arm: Option<Time>, start: bool)

  function ReconcileTask(c: Config, rec: Rec, env: RecoverEnv): Recovered {
    if !env.snapshotOk || !env.providerOk then Recovered(false, rec, None, None, false)
    else
      var r := if rec.task.status.Running? then RecoverInterrupted(c, rec, env) else Some(rec);
      if r.None? then Recovered(false, rec, None, None, false)
      else
        var p := BuildPolicy(c, env.startAt);
        if p.None? || !env.rulesOk then Recovered(false, r.value, None, None, false)
        else
          var t := r.value.task;
          Recovered(true, r.value, Some(Sup(p.value, t, None, None, false)),
                    if !t.status.Waiting? then None
                    else if t.nextWakeAt.Some? then t.nextWakeAt
                    else Some(env.armAt),
                    t.status.Pending?)
  }

  lemma OrphanedWorks(rec: Rec, now: Time)
    requires RowsNumbered(rec)
    ensures var w := Db.WriteAttempt(rec, Orphaned(rec.attempts, now));
            w.Ok? && w.value.task == rec.task && RowsNumbered(w.value)
  {
    var i := FirstOpen(rec.attempts);
    if i.Some? {
      RewriteAt(rec, i.value, Orphaned(rec.attempts, now).row);
    }
  }

  lemma ReconcileKeepsRows(c: Config, rec: Rec, env: RecoverEnv)
    requires RecInv(rec) && !Terminal(rec.task.status)
    ensures var r := ReconcileTask(c, rec, env).rec;
            RecInv(r) && !Terminal(r.task.status) && (rec.task.status.Running? ==> r == rec || r.task.status.Waiting?)
  {
    if rec.task.status.Running? && BuildPolicy(c, env.now).Some? {
      OrphanedWorks(rec, env.now);
      var wake := InterruptWake(c, BuildPolicy(c, env.now).value, rec.task, env);
      Replay2(rec.log, InterruptedEvents(wake, env.now)[0], InterruptedEvents(wake, env.now)[1]);
    }
  }

  /** Recovery keeps the rows well formed and replayable, commits at most the one
      interruption transaction, and a recovered task is never RUNNING: it has a
      supervisor that agrees with its rows, its wake time armed if it is WAITING,
      and its start posted if it never began. */
  lemma ReconcileKeeps(d: Deps, c: Config, rec: Rec, env: RecoverEnv)
    requires RecInv(rec) && !Terminal(rec.task.status)
    ensures var r := ReconcileTask(c, rec, env);
            && RecInv(r.rec)
            && (r.ok <==> r.sup.Some?)
            && (!rec.task.status.Running? ==> r.rec == rec)
            && (r.ok ==>
                  && !r.rec.task.status.Running? && !Terminal(r.rec.task.status)
                  && Agrees(d, r.sup.value, r.rec)
                  && r.sup == Some(Sup(BuildPolicy(c, env.startAt).value, r.rec.task, None, None, false))
                  && r.arm == r.rec.task.nextWakeAt
                  && (r.start <==> r.rec.task.status.Pending?))
  {
    ReconcileKeepsRows(c, rec, env);
  }

  /** A task with sound rows is recovered exactly when its config, provider and
      rules load and, if it was interrupted, its attempts list and the database
      accepts the transaction: no constraint of its own can stop it. */
  lemma RecoveredIff(c: Config, rec: Rec, env: RecoverEnv)
    requires RecInv(rec) && !Terminal(rec.task.status)
    ensures ReconcileTask(c, rec, env).ok <==>
            && env.snapshotOk && env.providerOk && Parses(c) && env.rulesOk
            && (rec.task.status.Running? ==>
                  env.listOk && !Db.Struck(env.fault, if FirstOpen(rec.attempts).Some? then 4 else 3))
  {
    OrphanedWorks(rec, env.now);
  }

  /** An interrupted task's row becomes WAITING with outcome UNKNOWN and no reset time,
      and changes in nothing else; it wakes at once under resume_now, and otherwise when
      its backoff, counted by its attempts so far, says. Its first open attempt row ends
      now, as UNKNOWN and interrupted. */
  lemma InterruptedBecomes(c: Config, rec: Rec, env: RecoverEnv)
    requires RecInv(rec) && rec.task.status.Running? && ReconcileTask(c, rec, env).rec != rec
    ensures BuildPolicy(c, env.now).Some?
    ensures var p := BuildPolicy(c, env.now).value.scheduler;
            var wake := if c.onInterrupt == "resume_now" then env.now
                        else Scheduler.NextWake(p, rec.task.totalAttempts, None, env.now, env.draw);
            var after := ReconcileTask(c, rec, env).rec;
            && after.task == rec.task.(status := Waiting, lastOutcome := Some(Unknown), lastResetAt := None,
                                       nextWakeAt := Some(wake), updatedAt := env.now)
            && after.log == rec.log + [EventRow(env.now, LoggedExit(Unknown, "daemon_interrupted")),
                                       EventRow(env.now, LoggedWake(wake))]
            && (if FirstOpen(rec.attempts).None? then after.attempts == rec.attempts
                else
                  var i := FirstOpen(rec.attempts).value;
                  after.attempts == rec.attempts[i := rec.attempts[i].(
                    endedAt := Some(env.now), outcome := Some(Unknown), matchedRule := Some("daemon_interrupted"))])
  {
    var i := FirstOpen(rec.attempts);
    if i.Some? {
      RewriteAt(rec, i.value, Orphaned(rec.attempts, env.now).row);
    }
  }

  /** An interrupted task wakes at once under resume_now; otherwise after a backoff that
      neither falls short of the least delay nor passes the deadline. */
  lemma InterruptedWake(c: Config, rec: Rec, env: RecoverEnv)
    requires rec.task.status.Running? && ReconcileTask(c, rec, env).ok
    requires Scheduler.Sane(BuildPolicy(c, env.now).value.scheduler) && 0.0 <= env.draw < 1.0
    ensures var p := BuildPolicy(c, env.now).value.scheduler;
            var wake := ReconcileTask(c, rec, env).rec.task.nextWakeAt;
            && wake.Some?
            && (c.onInterrupt == "resume_now" ==> wake.value == env.now)
            && (c.onInterrupt != "resume_now" ==>
                  && (p.deadline.Some? ==> wake.value <= p.deadline.value)
                  && (wake.value < env.now ==> p.deadline.Some? && p.deadline.value < env.now)
                  && (p.deadline.None? ==> wake.value - env.now >= Scheduler.LeastDelay(p)))
  {
    var p := BuildPolicy(c, env.now).value.scheduler;
    Scheduler.NextWakeBounds(p, rec.task.totalAttempts, None, env.now, env.draw);
    Scheduler.DelayAtLeast(p, if rec.task.totalAttempts < 1 then 1 else rec.task.totalAttempts, env.draw);
    var w := Db.WriteAttempt(rec, Orphaned(rec.attempts, env.now));
    assert w.Ok? ==> w.value.task == rec.task;
  }

  // ---- Every task ----

  datatype Runtime = Runtime(sup: Sup, queue: seq<Event>)

  /** What the daemon holds: the store's rows, the timers, and the live runtimes. */
  datatype World = World(rows: map<string, Rec>, timers: Timers.State, runtimes: map<string, Runtime>)

  /** A task that recovery works on. */
  predicate Needs(w: World, id: string) {
    id in w.rows && !Terminal(w.rows[id].task.status) && id !in w.runtimes
  }

  function Apply(w: World, id: string, r: Recovered, armAt: Time): World
    requires Timers.Inv(w.timers)
  {
    World(w.rows[id := r.rec],
          if r.arm.Some? then Timers.ArmAt(w.timers, id, r.arm.value, armAt) else w.timers,
          if r.sup.Some? then w.runtimes[id := Runtime(r.sup.value, if r.start then [Start] else [])] else w.runtimes)
  }

  function ReconcileOne(c: Config, w: World, id: string, env: RecoverEnv): (v: World)
    requires Timers.Inv(w.timers)
    ensures Timers.Inv(v.timers)
  {
    if !Needs(w, id) then w
    else
      var r := ReconcileTask(c, w.rows[id], env);
      assert r.arm.Some? ==> Timers.Inv(Timers.ArmAt(w.timers, id, r.arm.value, env.armAt)) by {
        if r.arm.Some? { Timers.ArmKeepsInv(w.timers, id, r.arm.value, env.armAt); }
      }
      Apply(w, id, r, env.armAt)
  }

  /** Tasks in listing order; one that fails does not stop the others. */
  function ReconcileAll(configs: string -> Config, w: World, ids: seq<string>, envs: string -> RecoverEnv): (v: World)
    requires Timers.Inv(w.timers)
    ensures Timers.Inv(v.timers)
  {
    if ids == [] then w
    else
      var id := ids[|ids| - 1];
      ReconcileOne(configs(id), ReconcileAll(configs, w, ids[..|ids| - 1], envs), id, envs(id))
  }

  predicate Distinct(ids: seq<string>) {
    forall i, j :: 0 <= i < j < |ids| ==> ids[i] != ids[j]
  }

  predicate SameTask(v: World, w: World, id: string) {
    && (id in v.rows <==> id in w.rows) && (id in w.rows ==> v.rows[id] == w.rows[id])
    && (id in v.runtimes <==> id in w.runtimes) && (id in w.runtimes ==> v.runtimes[id] == w.runtimes[id])
    && Timers.ArmedAt(v.timers, id) == Timers.ArmedAt(w.timers, id)
  }

  lemma OneIsLocal(c: Config, w: World, id: string, env: RecoverEnv, other: string)
    requires Timers.Inv(w.timers) && other != id
    ensures SameTask(ReconcileOne(c, w, id, env), w, other)
  {
    if Needs(w, id) {
      var r := ReconcileTask(c, w.rows[id], env);
      if r.arm.Some? {
        Timers.ArmingIsLocal(w.timers, id, r.arm.value, env.armAt, other);
      }
    }
  }

  /** Each listed task ends up exactly as if it alone had been reconciled. */
  lemma {:induction false} ReconcileIsPointwise(configs: string -> Config, w: World, ids: seq<string>,
                                                envs: string -> RecoverEnv, id: string)
    requires Timers.Inv(w.timers) && Distinct(ids)
    ensures SameTask(ReconcileAll(configs, w, ids, envs),
                     if id in ids then ReconcileOne(configs(id), w, id, envs(id)) else w, id)
  {
    if ids != [] {
      var front := ids[..|ids| - 1];
      var last := ids[|ids| - 1];
      var mid := ReconcileAll(configs, w, front, envs);
      ReconcileIsPointwise(configs, w, front, envs, id);
      assert ids == front + [last];
      if id == last {
        SameStartSameEnd(configs(id), mid, w, id, envs(id));
      } else {
        OneIsLocal(configs(last), mid, last, envs(last), id);
      }
    }
  }

  lemma SameStartSameEnd(c: Config, v: World, w: World, id: string, env: RecoverEnv)
    requires Timers.Inv(v.timers) && Timers.Inv(w.timers) && SameTask(v, w, id)
    ensures SameTask(ReconcileOne(c, v, id, env), ReconcileOne(c, w, id, env), id)
  {
    if Needs(w, id) {
      var r := ReconcileTask(c, w.rows[id], env);
      if r.arm.Some? {
        Timers.ArmingIsLocal(v.timers, id, r.arm.value, env.armAt, id);
        Timers.ArmingIsLocal(w.timers, id, r.arm.value, env.armAt, id);
      }
    }
  }

  /** After reconciling, every listed task that needed it and recovered without
      error is not RUNNING, has a runtime whose supervisor agrees with its rows, is
      armed at its wake time if it is WAITING, and has its start posted if it is
      PENDING; one that failed still has sound rows and no runtime. */
  lemma AfterReconcile(d: Deps, configs: string -> Config, w: World, ids: seq<string>, envs: string -> RecoverEnv,
                       id: string)
    requires Timers.Inv(w.timers) && Distinct(ids)
    requires id in ids && id in w.rows && id !in w.runtimes
    requires !Terminal(w.rows[id].task.status) && RecInv(w.rows[id])
    ensures var v := ReconcileAll(configs, w, ids, envs);
            && id in v.rows && RecInv(v.rows[id])
            && (id in v.runtimes <==> ReconcileTask(configs(id), w.rows[id], envs(id)).ok)
            && (id in v.runtimes ==>
                  && !v.rows[id].task.status.Running?
                  && Agrees(d, v.runtimes[id].sup, v.rows[id])
                  && (v.rows[id].task.status.Waiting? ==> Timers.ArmedAt(v.timers, id) == v.rows[id].task.nextWakeAt)
                  && v.runtimes[id].queue == if v.rows[id].task.status.Pending? then [Start] else [])
  {
    ReconcileIsPointwise(configs, w, ids, envs, id);
    ReconcileKeeps(d, configs(id), w.rows[id], envs(id));
    var r := ReconcileTask(configs(id), w.rows[id], envs(id));
    if r.arm.Some? {
      Timers.ArmingIsLocal(w.timers, id, r.arm.value, envs(id).armAt, id);
    }
  }

  /** A task with a live runtime is untouched, whatever recovery meets. */
  lemma LiveTasksUntouched(configs: string -> Config, w: World, ids: seq<string>, envs: string -> RecoverEnv,
                           id: string)
    requires Timers.Inv(w.timers) && Distinct(ids) && id in w.runtimes
    ensures SameTask(ReconcileAll(configs, w, ids, envs), w, id)
  {
    ReconcileIsPointwise(configs, w, ids, envs, id);
  }

  /** What keeps recovery from doing anything to a task: for an interrupted one, that it
      cannot be read or its transaction is refused; for any other, that it cannot be
      given a runtime. */
  predicate Stuck(c: Config, rec: Rec, env: RecoverEnv) {
    || !env.snapshotOk || !env.providerOk || !Parses(c)
    || (if rec.task.status.Running?
        then !env.listOk || Db.Struck(env.fault, if FirstOpen(rec.attempts).Some? then 4 else 3)
        else !env.rulesOk)
  }

  lemma StuckIff(c: Config, rec: Rec, env: RecoverEnv)
    requires RecInv(rec) && !Terminal(rec.task.status)
    ensures var r := ReconcileTask(c, rec, env);
            !r.ok && r.rec == rec <==> Stuck(c, rec, env)
  {
    OrphanedWorks(rec, env.now);
    if rec.task.status.Running? && RecoverInterrupted(c, rec, env).Some? {
      assert RecoverInterrupted(c, rec, env).value.task.status.Waiting?;
    }
  }

  predicate AllStuck(configs: string -> Config, w: World, ids: seq<string>, envs: string -> RecoverEnv) {
    forall id :: id in ids && Needs(w, id) ==> Stuck(configs(id), w.rows[id], envs(id))
  }

  /** The listed tasks that recovery works on have sound rows. */
  predicate SoundRows(w: World, ids: seq<string>) {
    forall id :: id in ids && Needs(w, id) ==> RecInv(w.rows[id])
  }

  lemma {:induction false} StuckStays(configs: string -> Config, w: World, ids: seq<string>,
                                      envs: string -> RecoverEnv)
    requires Timers.Inv(w.timers) && SoundRows(w, ids) && AllStuck(configs, w, ids, envs)
    ensures ReconcileAll(configs, w, ids, envs) == w
  {
    if ids != [] {
      var last := ids[|ids| - 1];
      StuckStays(configs, w, ids[..|ids| - 1], envs);
      if Needs(w, last) {
        StuckIff(configs(last), w.rows[last], envs(last));
        assert w.rows[last := w.rows[last]] == w.rows;
      }
    }
  }

  /** A pass changes nothing exactly when every listed task that needs recovery is
      stuck. */
  lemma ReconcileIdleIff(configs: string -> Config, w: World, ids: seq<string>, envs: string -> RecoverEnv)
    requires Timers.Inv(w.timers) && Distinct(ids) && SoundRows(w, ids)
    ensures ReconcileAll(configs, w, ids, envs) == w <==> AllStuck(configs, w, ids, envs)
  {
    if AllStuck(configs, w, ids, envs) {
      StuckStays(configs, w, ids, envs);
    } else {
      var id :| id in ids && Needs(w, id) && !Stuck(configs(id), w.rows[id], envs(id));
      ReconcileIsPointwise(configs, w, ids, envs, id);
      StuckIff(configs(id), w.rows[id], envs(id));
    }
  }

  /** What a first pass leaves of a listed task for a second one to work on. */
  lemma LeftOver(configs: string -> Config, w: World, ids: seq<string>, envs: string -> RecoverEnv, id: string)
    requires Timers.Inv(w.timers) && Distinct(ids) && SoundRows(w, ids) && id in ids
    ensures var v := ReconcileAll(configs, w, ids, envs);
            && (Needs(v, id) <==> Needs(w, id) && !ReconcileTask(configs(id), w.rows[id], envs(id)).ok)
            && (Needs(v, id) ==>
                  v.rows[id] == ReconcileTask(configs(id), w.rows[id], envs(id)).rec && RecInv(v.rows[id]))
  {
    ReconcileIsPointwise(configs, w, ids, envs, id);
    if Needs(w, id) {
      ReconcileKeepsRows(configs(id), w.rows[id], envs(id));
    }
  }

  /** A second pass changes no row, timer or runtime exactly when every listed task that
      the first failed to recover is stuck in the second, as the first left its rows. */
  lemma ReconcileTwiceIff(configs: string -> Config, w: World, ids: seq<string>, envs: string -> RecoverEnv,
                          again: string -> RecoverEnv)
    requires Timers.Inv(w.timers) && Distinct(ids) && SoundRows(w, ids)
    ensures var v := ReconcileAll(configs, w, ids, envs);
            ReconcileAll(configs, v, ids, again) == v <==>
              forall id :: id in ids && Needs(w, id) ==>
                var r := ReconcileTask(configs(id), w.rows[id], envs(id));
                r.ok || Stuck(configs(id), r.rec, again(id))
  {
    var v := ReconcileAll(configs, w, ids, envs);
    forall id | id in ids
      ensures Needs(v, id) <==> Needs(w, id) && !ReconcileTask(configs(id), w.rows[id], envs(id)).ok
      ensures Needs(v, id) ==> v.rows[id] == ReconcileTask(configs(id), w.rows[id], envs(id)).rec && RecInv(v.rows[id])
    {
      LeftOver(configs, w, ids, envs, id);
    }
    ReconcileIdleIff(configs, v, ids, again);
  }

  lemma {:induction false} NothingNeeded(configs: string -> Config, w: World, ids: seq<string>,
                                         envs: string -> RecoverEnv)
    requires Timers.Inv(w.timers)
    requires forall id :: id in ids ==> !Needs(w, id)
    ensures ReconcileAll(configs, w, ids, envs) == w
  {
    if ids != [] {
      NothingNeeded(configs, w, ids[..|ids| - 1], envs);
    }
  }

  /** When a first pass recovers every task it lists, a second pass changes no row,
      timer or runtime, whatever the second pass would meet. */
  lemma ReconcileTwice(configs: string -> Config, w: World, ids: seq<string>, envs: string -> RecoverEnv,
                       again: string -> RecoverEnv)
    requires Timers.Inv(w.timers) && Distinct(ids)
    requires forall id :: id in ids && Needs(w, id) ==> ReconcileTask(configs(id), w.rows[id], envs(id)).ok
    ensures var v := ReconcileAll(configs, w, ids, envs);
            ReconcileAll(configs, v, ids, again) == v
  {
    var v := ReconcileAll(configs, w, ids, envs);
    forall id | id in ids ensures !Needs(v, id) {
      ReconcileIsPointwise(configs, w, ids, envs, id);
    }
    NothingNeeded(configs, v, ids, again);
  }
}
