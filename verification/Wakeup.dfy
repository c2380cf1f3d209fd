/** No lost wake-up: a live WAITING task always has its wake-up coming. */
module Wakeup {
  import opened Types
  import opened Machine
  import opened Lifecycle
  import opened Effects
  import opened Recovery
  import opened Runs
  import opened System
  import Timers

  /** The live arm of this task is set for `wake`. */
  predicate Armed(s: State, wake: Time) {
    Timers.ArmedAt(s.timers, s.rec.task.id) == Some(wake)
  }

  /** Arm `a` of this task, set for `wake`, has passed the locked check, and its fire
      is about to be posted or is queued. */
  predicate InFlight(s: State, a: nat, wake: Time) {
    && a < |s.timers.arms|
    && s.timers.arms[a].task == s.rec.task.id && s.timers.arms[a].at == wake && s.timers.arms[a].claimed
    && (s.timers.arms[a].pc.Firing? || Fire(a) in s.queue)
  }

  ghost predicate WakeComing(s: State, wake: Time) {
    Armed(s, wake) || (s.now >= wake && exists a :: InFlight(s, a, wake))
  }

  /** An arm's timer has gone off only once the clock reached its due time, and an arm of
      this task is due at its wake time, or at the latest at once if that has passed. */
  ghost predicate ArmsOnTime(s: State) {
    forall a :: 0 <= a < |s.timers.arms| ==>
      && (s.timers.arms[a].pc.Expired? || s.timers.arms[a].claimed ==> s.now >= s.timers.arms[a].due)
      && (s.timers.arms[a].task == s.rec.task.id ==>
            && s.timers.arms[a].at <= s.timers.arms[a].due
            && (s.timers.arms[a].due <= s.timers.arms[a].at || s.timers.arms[a].due <= s.now))
  }

  ghost predicate WakeInv(s: State) {
    && ArmsOnTime(s)
    && (s.sup.Some? && s.rec.task.status.Waiting? ==>
          s.rec.task.nextWakeAt.Some? && WakeComing(s, s.rec.task.nextWakeAt.value))
    && (s.sup.None? || !s.rec.task.status.Waiting? ==> s.rec.task.id !in s.timers.active)
  }

  /** Whatever this step arms is less than an int64 of nanoseconds away. */
  predicate Near(w: Setup, s: State, m: Move)
    requires Timers.Inv(s.timers)
  {
    Enabled(s, m) ==>
      match m
      case HandleNext(env) =>
        var out := Handle(w.deps, s.sup.value, s.rec, EventOf(s.queue[0]), env);
        out.timer.ArmTimer? ==> out.timer.at - env.armAt <= MAX_INT64
      case Starts(renv) =>
        var r := ReconcileTask(w.cfg, s.rec, renv);
        !Terminal(s.rec.task.status) && r.arm.Some? ==> r.arm.value - renv.armAt <= MAX_INT64
      case _ => true
  }

  ghost predicate NearWakes(w: Setup, s: State, moves: seq<Move>)
    requires Sound(w, s)
  {
    moves == [] ||
    (NearWakes(w, s, moves[..|moves| - 1]) && Near(w, RunAll(w, s, moves[..|moves| - 1]), moves[|moves| - 1]))
  }

  // ---- What one event does to the timer ----

  predicate TimerFollows(s: Sup, rec: Rec, out: Out) {
    && (out.timer.ArmTimer? ==> out.ok && out.rec.task.status.Waiting? && out.rec.task.nextWakeAt == Some(out.timer.at))
    && (out.ok && out.rec.task.status.Waiting? && !rec.task.status.Waiting? ==> out.timer.ArmTimer?)
    && (out.ok && out.rec.task.status.Waiting? && rec.task.status.Waiting? ==>
          out.timer.KeepTimer? && out.rec == rec)
    && (rec.task.status.Waiting? && (!out.ok || !out.rec.task.status.Waiting?) ==> out.timer.CancelTimer?)
  }

  lemma FailFollows(s: Sup, rec: Rec, reason: string, env: Env)
    ensures var out := Fail(s, rec, reason, env, CancelTimer);
            out.timer.CancelTimer? && (out.ok ==> out.rec.task.status.Failed?)
  {
  }

  lemma WakeFollows(d: Deps, s: Sup, rec: Rec, cause: Cause, env: Env)
    ensures var out := Wake(d, s, rec, cause, env);
            out.timer.CancelTimer? && (out.ok ==> !out.rec.task.status.Waiting?)
  {
    FailFollows(LeaveWait(s, env.wakeAt), rec, "build command", env);
    FailFollows(LeaveWait(s, env.wakeAt), rec, "spawn attempt", env);
  }

  lemma FinishFollows(s: Sup, rec: Rec, next: Task, to: Status, reason: string, r: Detect.DetectResult, env: Env)
    requires Terminal(to)
    ensures var out := Finish(s, rec, next, to, reason, r, env);
            out.timer.KeepTimer? && (out.ok ==> !out.rec.task.status.Waiting?)
  {
  }

  lemma ScheduleFollows(d: Deps, s: Sup, rec: Rec, next: Task, r: Detect.DetectResult, env: Env)
    ensures var out := ScheduleRetry(d, s, rec, next, r, env);
            if out.ok then out.rec.task.status.Waiting? && out.timer == ArmTimer(ProposedWake(s, r, env))
                           && out.rec.task.nextWakeAt == Some(ProposedWake(s, r, env))
            else out.timer.KeepTimer?
  {
  }

  lemma ExitFollows(d: Deps, s: Sup, rec: Rec, o: AttemptOutput, env: Env)
    requires Good(d, s, rec) && rec.task.status.Running?
    ensures TimerFollows(s, rec, HandleExit(d, s, rec, o, env))
  {
    var r := Classify(d, s.policy, o, env.at);
    var closed := CloseAttempt(s, o, r, env.at);
    var next := AfterExit(d, s, o, r, env.at);
    var to, reason := ExitShape(d, s, rec, o, env);
    if to.Waiting? {
      ScheduleFollows(d, closed, rec, next, r, env);
    } else {
      FinishFollows(closed, rec, next, to, reason, r, env);
    }
  }

  lemma PausedExitFollows(d: Deps, s: Sup, rec: Rec, o: AttemptOutput, env: Env)
    requires Good(d, s, rec) && rec.task.status.Paused?
    ensures TimerFollows(s, rec, RecordPausedExit(d, s, rec, o, env))
  {
  }

  lemma StartFollows(d: Deps, s: Sup, rec: Rec, env: Env)
    requires Good(d, s, rec) && rec.task.status.Pending?
    ensures TimerFollows(s, rec, SpawnAttempt(d, s, rec, StartCause, env, KeepTimer))
  {
  }

  lemma HandleFollows(d: Deps, s: Sup, rec: Rec, ev: Event, env: Env)
    requires Good(d, s, rec) && !Terminal(rec.task.status)
    ensures TimerFollows(s, rec, Handle(d, s, rec, ev, env))
  {
    var status := s.task.status;
    match ev
    case Start => if status.Pending? { StartFollows(d, s, rec, env); }
    case TimerFire => WakeFollows(d, s, rec, TimerCause, env);
    case AvailabilityOk => WakeFollows(d, s, rec, AvailabilityCause, env);
    case UserResume => WakeFollows(d, s, rec, ResumeCause, env);
    case AttemptExit(o) =>
      if status.Running? {
        ExitFollows(d, s, rec, o, env);
      } else if status.Paused? {
        PausedExitFollows(d, s, rec, o, env);
      }
    case UserPause =>
    case UserStop =>
  }

  /** A fire handled at or after the wake time is never ignored: the task leaves
      WAITING, or the call fails and the supervisor ends. */
  lemma DueFireWakes(d: Deps, s: Sup, rec: Rec, env: Env)
    requires Good(d, s, rec) && rec.task.status.Waiting? && env.guardAt >= rec.task.nextWakeAt.value
    ensures var out := Handle(d, s, rec, TimerFire, env);
            !out.ok || !out.rec.task.status.Waiting?
  {
    WakeFollows(d, s, rec, TimerCause, env);
  }

  // ---- Each step keeps the wake-up coming ----

  predicate TimerMove(m: Move) {
    m.Tick? || m.ArmMove? || m.CancelSeen? || m.FireArm? || m.OtherTask?
  }

  lemma OtherTaskOnTime(w: Setup, s: State, m: Move)
    requires Timers.Inv(s.timers) && ArmsOnTime(s) && Enabled(s, m) && m.OtherTask?
    ensures ArmsOnTime(Advance(w, s, m))
  {
  }

  lemma TimerMovesOnTime(w: Setup, s: State, m: Move)
    requires Timers.Inv(s.timers) && ArmsOnTime(s) && Enabled(s, m) && TimerMove(m)
    ensures ArmsOnTime(Advance(w, s, m))
  {
    if m.OtherTask? {
      OtherTaskOnTime(w, s, m);
    }
  }

  /** What has passed the locked check stays in flight until it is handled. */
  lemma InFlightStays(w: Setup, s: State, m: Move, a: nat, wake: Time)
    requires Timers.Inv(s.timers) && Enabled(s, m) && TimerMove(m) && InFlight(s, a, wake) && s.sup.Some?
    ensures InFlight(Advance(w, s, m), a, wake)
  {
    assert Timers.ArmOk(s.timers, a);
  }

  /** A live arm stays live until its own locked check puts its fire in flight. */
  lemma ArmedStays(w: Setup, s: State, m: Move, wake: Time) returns (a: nat)
    requires Timers.Inv(s.timers) && Enabled(s, m) && TimerMove(m) && Armed(s, wake)
    ensures Armed(Advance(w, s, m), wake) || InFlight(Advance(w, s, m), a, wake)
  {
    a := s.timers.active[s.rec.task.id];
    assert Timers.ArmOk(s.timers, a);
  }

  /** Steps of the timers and the clock move a wake-up along but never drop it. */
  lemma TimerMovesKeep(w: Setup, s: State, m: Move)
    requires Sound(w, s) && WakeInv(s) && Enabled(s, m) && TimerMove(m)
    ensures WakeInv(Advance(w, s, m))
  {
    TimerMovesOnTime(w, s, m);
    var t := Advance(w, s, m);
    if s.sup.Some? && s.rec.task.status.Waiting? {
      var wake := s.rec.task.nextWakeAt.value;
      if Armed(s, wake) {
        var a := ArmedStays(w, s, m, wake);
      } else {
        var a :| InFlight(s, a, wake);
        InFlightStays(w, s, m, a, wake);
      }
    } else {
      NoneArmedStays(w, s, m);
    }
  }

  lemma NoneArmedStays(w: Setup, s: State, m: Move)
    requires Timers.Inv(s.timers) && Enabled(s, m) && TimerMove(m) && s.rec.task.id !in s.timers.active
    ensures s.rec.task.id !in Advance(w, s, m).timers.active
  {
  }

  lemma QueueMovesKeep(w: Setup, s: State, m: Move)
    requires Sound(w, s) && WakeInv(s) && Enabled(s, m)
    requires m.Post? || m.ChildExits?
    ensures WakeInv(Advance(w, s, m))
  {
    var t := Advance(w, s, m);
    if s.sup.Some? && s.rec.task.status.Waiting? && !Armed(s, s.rec.task.nextWakeAt.value) {
      var a :| InFlight(s, a, s.rec.task.nextWakeAt.value);
      assert InFlight(t, a, s.rec.task.nextWakeAt.value);
    }
  }

  lemma HandleMoveKeeps(w: Setup, s: State, env: Env)
    requires Sound(w, s) && WakeInv(s) && Enabled(s, HandleNext(env)) && Near(w, s, HandleNext(env))
    ensures WakeInv(Advance(w, s, HandleNext(env)))
  {
    var t := Advance(w, s, HandleNext(env));
    var sup := s.sup.value;
    var ev := EventOf(s.queue[0]);
    var out := Handle(w.deps, sup, s.rec, ev, env);
    HandleFollows(w.deps, sup, s.rec, ev, env);
    HandleKeeps(w.deps, sup, s.rec, ev, env);
    HandleMoves(w.deps, sup, s.rec, ev, env);
    OnTimeAfter(s, t, out.timer, env);
    if t.sup.Some? && t.rec.task.status.Waiting? && s.rec.task.status.Waiting? {
      var wake := s.rec.task.nextWakeAt.value;
      if !Armed(s, wake) {
        var a :| InFlight(s, a, wake);
        if s.queue[0] == Fire(a) {
          DueFireWakes(w.deps, sup, s.rec, env);
        }
        assert InFlight(t, a, wake);
      }
    }
  }

  /** The one timer operation of a Handle call keeps arms on time. */
  lemma OnTimeAfter(s: State, t: State, act: TimerAct, env: Env)
    requires Timers.Inv(s.timers) && ArmsOnTime(s) && t.rec.task.id == s.rec.task.id
    requires t.timers == AfterTimer(s.timers, s.rec.task.id, act, env.armAt)
    requires s.now <= t.now && env.armAt <= t.now
    requires act.ArmTimer? ==> act.at - env.armAt <= MAX_INT64
    ensures ArmsOnTime(t)
  {
  }

  lemma StartMoveKeeps(w: Setup, s: State, renv: RecoverEnv)
    requires Sound(w, s) && WakeInv(s) && Enabled(s, Starts(renv)) && Near(w, s, Starts(renv))
    ensures WakeInv(Advance(w, s, Starts(renv)))
  {
    var t := Advance(w, s, Starts(renv));
    if !Terminal(s.rec.task.status) {
      ReconcileKeeps(w.deps, w.cfg, s.rec, renv);
      var r := ReconcileTask(w.cfg, s.rec, renv);
      if r.arm.Some? {
        Timers.ArmingIsLocal(s.timers, s.rec.task.id, r.arm.value, renv.armAt, s.rec.task.id);
      }
    }
  }

  /** In every interleaving of handling, timer expiry, the locked check, user actions,
      child exits, other tasks' timers, failures, crashes and restarts, under a clock
      that does not go back: a live WAITING task has an active arm for its wake time,
      or a fire of such an arm that is due and not yet handled; and a task that is not
      WAITING, or has no supervisor, has no active arm. */
  lemma {:induction false} NoLostWakeup(w: Setup, c: Core, now: Time, moves: seq<Move>)
    requires Fresh(c) && NearWakes(w, Begin(w, c, now), moves)
    ensures WakeInv(RunAll(w, Begin(w, c, now), moves))
  {
    if moves != [] {
      var front := moves[..|moves| - 1];
      var m := moves[|moves| - 1];
      NoLostWakeup(w, c, now, front);
      var s := RunAll(w, Begin(w, c, now), front);
      if Enabled(s, m) {
        match m
        case HandleNext(env) => HandleMoveKeeps(w, s, env);
        case Starts(renv) => StartMoveKeeps(w, s, renv);
        case Crashes =>
        case Post(_) => QueueMovesKeep(w, s, m);
        case ChildExits(_, _) => QueueMovesKeep(w, s, m);
        case _ => TimerMovesKeep(w, s, m);
      }
    }
  }

  /** Once the wake time has come, the wake-up can always take its next step: its timer
      can go off, its locked check can run, its fire can be posted unless the queue is
      full, or it is already queued. */
  lemma DueWakeupCanProceed(w: Setup, s: State) returns (a: nat)
    requires Sound(w, s) && WakeInv(s) && s.sup.Some? && s.rec.task.status.Waiting?
    requires s.now >= s.rec.task.nextWakeAt.value
    ensures a < |s.timers.arms| && s.timers.arms[a].task == s.rec.task.id
    ensures s.timers.arms[a].at == s.rec.task.nextWakeAt.value
    ensures || Enabled(s, ArmMove(a, false)) || Enabled(s, ArmMove(a, true))
            || Enabled(s, FireArm(a)) || |s.queue| >= QUEUE_CAPACITY
            || Fire(a) in s.queue
  {
    var wake := s.rec.task.nextWakeAt.value;
    if Armed(s, wake) {
      a := s.timers.active[s.rec.task.id];
      assert Timers.IsActive(s.timers, a) && Timers.ArmOk(s.timers, a);
    } else {
      a :| InFlight(s, a, wake);
    }
  }

  // ---- When a wake-up is lost ----

  /** A live task that waits with no wake-up coming. */
  ghost predicate Lost(s: State) {
    && s.sup.Some? && s.rec.task.status.Waiting? && s.rec.task.nextWakeAt.Some?
    && !WakeComing(s, s.rec.task.nextWakeAt.value)
  }

  lemma EarlyFireIsIgnored(w: Setup, s: State, env: Env)
    requires Timers.Inv(s.timers) && s.sup.Some? && s.sup.value.task == s.rec.task && s.rec.task.status.Waiting?
    requires s.queue != [] && s.queue[0].Fire? && Timely(s, env)
    requires s.rec.task.nextWakeAt.Some? && env.guardAt < s.rec.task.nextWakeAt.value
    ensures var t := Advance(w, s, HandleNext(env));
            t.sup == s.sup && t.rec == s.rec && t.queue == s.queue[1..] && t.timers == s.timers
  {
  }

  /** Handling the last fire of a live wait loses the wake-up exactly when it is handled
      before the wake time: whatever else is queued, the task is then still WAITING with
      no timer of its own left. */
  lemma FireLostIff(w: Setup, s: State, env: Env)
    requires Sound(w, s) && s.sup.Some? && s.rec.task.status.Waiting? && Enabled(s, HandleNext(env))
    requires s.queue[0].Fire? && s.rec.task.id !in s.timers.active
    requires forall k :: 1 <= k < |s.queue| ==> !s.queue[k].Fire?
    requires forall b: nat :: b < |s.timers.arms| && s.timers.arms[b].task == s.rec.task.id ==>
               !s.timers.arms[b].pc.Firing?
    ensures Lost(Advance(w, s, HandleNext(env))) <==> env.guardAt < s.rec.task.nextWakeAt.value
  {
    if env.guardAt < s.rec.task.nextWakeAt.value {
      EarlyFireIsIgnored(w, s, env);
    } else {
      DueFireWakes(w.deps, s.sup.value, s.rec, env);
    }
  }

  /** The three steps from expiry to the queue, for an arm that is live and due. */
  lemma FirePipeline(w: Setup, s: State, a: nat) returns (s1: State, s2: State, s3: State)
    requires Timers.Inv(s.timers) && s.sup.Some? && |s.queue| < QUEUE_CAPACITY
    requires Timers.IsActive(s.timers, a) && s.timers.arms[a].task == s.rec.task.id
    requires s.timers.arms[a].pc.Selecting? && s.timers.arms[a].due <= s.now
    ensures s1 == Advance(w, s, ArmMove(a, false)) && Timers.Inv(s1.timers)
    ensures s2 == Advance(w, s1, ArmMove(a, true)) && Timers.Inv(s2.timers)
    ensures s3 == Advance(w, s2, FireArm(a)) && Timers.Inv(s3.timers) && a < |s3.timers.arms|
    ensures var fired := s.timers.arms[a].(pc := Timers.Done, claimed := true, fires := s3.timers.arms[a].fires);
            s3 == s.(queue := s.queue + [Fire(a)],
                     timers := Timers.State(s.timers.active - {s.rec.task.id}, s.timers.arms[a := fired]))
  {
    assert Timers.ArmOk(s.timers, a);
    var expired := s.timers.arms[a].(pc := Timers.Expired);
    var firing := s.timers.arms[a].(pc := Timers.Firing, claimed := true);
    s1 := Advance(w, s, ArmMove(a, false));
    Timers.NextKeepsInv(s.timers, Timers.DoExpire(a, s.now));
    assert s1 == s.(timers := Timers.State(s.timers.active, s.timers.arms[a := expired]));
    s2 := Advance(w, s1, ArmMove(a, true));
    Timers.NextKeepsInv(s1.timers, Timers.DoClaim(a));
    assert s2 == s1.(timers := Timers.State(s.timers.active - {s.rec.task.id}, s1.timers.arms[a := firing]));
    s3 := Advance(w, s2, FireArm(a));
    Timers.NextKeepsInv(s2.timers, Timers.DoFire(a));
  }

  /** A live wait with an empty queue whose timer is due before its wake time. */
  predicate DueEarly(s: State, a: nat) {
    && Timers.Inv(s.timers)
    && s.sup.Some? && s.sup.value.task == s.rec.task && s.rec.task.status.Waiting? && s.queue == []
    && s.rec.task.nextWakeAt.Some? && s.now < s.rec.task.nextWakeAt.value
    && Timers.IsActive(s.timers, a) && s.timers.arms[a].task == s.rec.task.id
    && s.timers.arms[a].pc.Selecting? && s.timers.arms[a].due <= s.now
  }

  /** Its timer going off and the fire being handled at once loses it. */
  lemma FourStepsLose(w: Setup, s: State, a: nat) returns (s1: State, s2: State, s3: State)
    requires DueEarly(s, a)
    ensures s1 == Advance(w, s, ArmMove(a, false)) && Timers.Inv(s1.timers)
    ensures s2 == Advance(w, s1, ArmMove(a, true)) && Timers.Inv(s2.timers)
    ensures s3 == Advance(w, s2, FireArm(a)) && Timers.Inv(s3.timers)
    ensures Lost(Advance(w, s3, HandleNext(Instant(s.now))))
  {
    s1, s2, s3 := FirePipeline(w, s, a);
    EarlyFireIsIgnored(w, s3, Instant(s.now));
  }

  lemma EarlyTimerLoses(w: Setup, s: State, moves: seq<Move>, a: nat) returns (more: seq<Move>)
    requires Sound(w, s) && DueEarly(RunAll(w, s, moves), a)
    ensures Lost(RunAll(w, s, more))
  {
    var now := RunAll(w, s, moves).now;
    var s1, s2, s3 := FourStepsLose(w, RunAll(w, s, moves), a);
    var m1 := moves + [ArmMove(a, false)];
    RunAllStep(w, s, moves, ArmMove(a, false));
    var m2 := m1 + [ArmMove(a, true)];
    RunAllStep(w, s, m1, ArmMove(a, true));
    var m3 := m2 + [FireArm(a)];
    RunAllStep(w, s, m2, FireArm(a));
    more := m3 + [HandleNext(Instant(now))];
    RunAllStep(w, s, m3, HandleNext(Instant(now)));
  }

  /** A live wait whose timer is due before its wake time has a continuation that loses
      it, once nothing else is queued that matters. */
  lemma EarlyArmCanLose(w: Setup, s: State, a: nat) returns (moves: seq<Move>)
    requires Sound(w, s) && s.sup.Some? && s.rec.task.status.Waiting?
    requires s.rec.task.nextWakeAt.Some? && s.now < s.rec.task.nextWakeAt.value
    requires forall k: nat :: k < |s.queue| ==> Ignored(w.deps, s, k)
    requires Timers.IsActive(s.timers, a) && s.timers.arms[a].task == s.rec.task.id
    requires s.timers.arms[a].pc.Selecting? && s.timers.arms[a].due < s.rec.task.nextWakeAt.value
    ensures Lost(RunAll(w, s, moves))
  {
    var k := |s.queue|;
    var due := if s.timers.arms[a].due <= s.now then s.now else s.timers.arms[a].due;
    RunsDown(w, s, k);
    RunAllStep(w, s, Handlings(k, s.now), Tick(due));
    assert RunAll(w, s, Handlings(k, s.now) + [Tick(due)]) == s.(queue := [], now := due);
    moves := EarlyTimerLoses(w, s, Handlings(k, s.now) + [Tick(due)], a);
  }

  /** This step leaves a live wait armed more than an int64 of nanoseconds ahead, before
      its wake time and with nothing queued that matters. */
  predicate ArmsFar(w: Setup, s: State, env: Env)
    requires Timers.Inv(s.timers) && Enabled(s, HandleNext(env))
  {
    var t := Advance(w, s, HandleNext(env));
    && !Near(w, s, HandleNext(env))
    && t.sup.Some? && t.rec.task.nextWakeAt.Some? && t.now < t.rec.task.nextWakeAt.value
    && forall k: nat :: k < |t.queue| ==> Ignored(w.deps, t, k)
  }

  /** Such a step has a continuation that loses the wake-up. */
  lemma FarArmingCanLose(w: Setup, s: State, env: Env) returns (moves: seq<Move>)
    requires Sound(w, s) && Enabled(s, HandleNext(env)) && ArmsFar(w, s, env)
    ensures var t := Advance(w, s, HandleNext(env));
            Sound(w, t) && Lost(RunAll(w, t, moves))
  {
    var t := Advance(w, s, HandleNext(env));
    NextKeepsSound(w, s, HandleNext(env));
    HandleFollows(w.deps, s.sup.value, s.rec, EventOf(s.queue[0]), env);
    HandleMoves(w.deps, s.sup.value, s.rec, EventOf(s.queue[0]), env);
    moves := EarlyArmCanLose(w, t, t.timers.active[t.rec.task.id]);
  }

  /** So has a start that arms a recovered wait that far ahead, whatever else holds: of the
      two steps that arm, neither can do without the bound NearWakes puts on it. */
  lemma FarRearmCanLose(w: Setup, s: State, renv: RecoverEnv) returns (moves: seq<Move>)
    requires Sound(w, s) && Enabled(s, Starts(renv)) && !Near(w, s, Starts(renv))
    ensures var t := Advance(w, s, Starts(renv));
            Sound(w, t) && Lost(RunAll(w, t, moves))
  {
    var t := Advance(w, s, Starts(renv));
    NextKeepsSound(w, s, Starts(renv));
    ReconcileKeeps(w.deps, w.cfg, s.rec, renv);
    moves := EarlyArmCanLose(w, t, t.timers.active[t.rec.task.id]);
  }
}
