/** The whole engine around one task: its rows, its supervisor and event queue, the
    timers shared with every other task, the children it spawned, and the clock, in
    any interleaving (internal/daemon/daemon.go wires them). */
module System {
  import opened Types
  import opened Machine
  import opened Lifecycle
  import opened Recovery
  import opened Runs
  import Timers
  import Db = Store

  /** A queued event, with the arm or the child it came from. */
  datatype Queued =
    | Fire(arm: nat)
    | Exit(attemptNo: int, output: AttemptOutput)
    | Other(ev: Event)

  function EventOf(q: Queued): Event {
    match q
    case Fire(_) => TimerFire
    case Exit(_, o) => AttemptExit(o)
    case Other(ev) => ev
  }

  const QUEUE_CAPACITY: nat := 16

  /** `starting` holds from the moment a process begins, or the task is created,
      until its one attempt to give the task a runtime. `children` are the attempts
      whose process has not been seen to exit by this daemon process; `tracked` is the
      one the runtime's process slot holds, the only one a kill reaches. */
  datatype State = State(
    rec: Rec, sup: Option<Sup>, timers: Timers.State, queue: seq<Queued>,
    children: set<int>, tracked: Option<int>, now: Time, starting: bool)

  datatype Move =
    | Tick(t: Time)
    | Post(ev: Event)                                   // a user action or a probe's success
    | ChildExits(attemptNo: int, output: AttemptOutput)
    | ArmMove(a: nat, claim: bool)                      // expiry, or the locked check
    | CancelSeen(a: nat)
    | FireArm(a: nat)                                   // the callback posts to the queue
    | OtherTask(step: Timers.Step)                      // another task arms or cancels
    | HandleNext(env: Env)
    | Crashes
    | Starts(renv: RecoverEnv)

  /** A spawned child takes over the process slot. */
  function TrackedAfter(calls: seq<HostCall>, tracked: Option<int>): Option<int> {
    if calls != [] && calls[0].Spawned? then Some(calls[0].attemptNo) else tracked
  }

  predicate Posted(ev: Event) {
    !ev.TimerFire? && !ev.AttemptExit?
  }

  function SpawnedBy(calls: seq<HostCall>): set<int> {
    set k | 0 <= k < |calls| && calls[k].Spawned? :: calls[k].attemptNo
  }

  /** The readings of this Handle call come after the present and in order. */
  predicate Timely(s: State, e: Env) {
    s.now <= e.guardAt <= e.wakeAt <= e.at <= e.failAt && e.at <= e.armAt
  }

  function Later(e: Env): Time {
    if e.failAt >= e.armAt then e.failAt else e.armAt
  }

  predicate Enabled(s: State, m: Move)
    requires Timers.Inv(s.timers)
  {
    match m
    case Tick(t) => t >= s.now
    case Post(ev) => Posted(ev) && s.sup.Some? && |s.queue| < QUEUE_CAPACITY
    case ChildExits(no, _) => no in s.children && (s.sup.Some? ==> |s.queue| < QUEUE_CAPACITY)
    case ArmMove(a, claim) =>
      Timers.Enabled(s.timers, if claim then Timers.DoClaim(a) else Timers.DoExpire(a, s.now))
    case CancelSeen(a) => Timers.Enabled(s.timers, Timers.DoSeeCancel(a))
    case FireArm(a) =>
      Timers.Enabled(s.timers, Timers.DoFire(a)) && (s.sup.Some? ==> |s.queue| < QUEUE_CAPACITY)
    case OtherTask(step) => (step.DoArm? || step.DoCancel?) && step.id != s.rec.task.id
    case HandleNext(env) => s.sup.Some? && s.queue != [] && Timely(s, env)
    case Crashes => true
    case Starts(renv) => s.starting && s.now <= renv.now <= renv.startAt <= renv.armAt
  }

  function Handled(d: Deps, s: State, env: Env): State
    requires Timers.Inv(s.timers) && s.sup.Some? && s.queue != []
  {
    var out := Handle(d, s.sup.value, s.rec, EventOf(s.queue[0]), env);
    var live := Survivor(out);
    State(out.rec, live, AfterTimer(s.timers, s.rec.task.id, out.timer, env.armAt),
          if live.Some? then s.queue[1..] else [],
          s.children + SpawnedBy(out.calls), TrackedAfter(out.calls, s.tracked), Later(env), s.starting)
  }

  function Started(w: Setup, s: State, renv: RecoverEnv): State
    requires Timers.Inv(s.timers)
  {
    if Terminal(s.rec.task.status) then s.(starting := false, now := renv.armAt)
    else
      var r := ReconcileTask(w.cfg, s.rec, renv);
      State(r.rec, r.sup,
            if r.arm.Some? then Timers.ArmAt(s.timers, s.rec.task.id, r.arm.value, renv.armAt) else s.timers,
            if r.start then [Other(Start)] else [], s.children, s.tracked, renv.armAt, false)
  }

  function Advance(w: Setup, s: State, m: Move): State
    requires Timers.Inv(s.timers)
  {
    if !Enabled(s, m) then s
    else
      match m
      case Tick(t) => s.(now := t)
      case Post(ev) => s.(queue := s.queue + [Other(ev)])
      case ChildExits(no, o) =>
        // Whichever child it was, its exit empties the process slot.
        s.(children := s.children - {no}, tracked := None,
           queue := if s.sup.Some? then s.queue + [Exit(no, o)] else s.queue)
      case ArmMove(a, claim) =>
        s.(timers := Timers.Next(s.timers, if claim then Timers.DoClaim(a) else Timers.DoExpire(a, s.now)))
      case CancelSeen(a) => s.(timers := Timers.Next(s.timers, Timers.DoSeeCancel(a)))
      case FireArm(a) =>
        s.(timers := Timers.Next(s.timers, Timers.DoFire(a)),
           queue := if s.sup.Some? && s.timers.arms[a].task == s.rec.task.id then s.queue + [Fire(a)] else s.queue)
      case OtherTask(step) => s.(timers := Timers.Next(s.timers, step))
      case HandleNext(env) => Handled(w.deps, s, env)
      case Crashes => State(s.rec, None, Timers.Idle, [], {}, None, s.now, true)
      case Starts(renv) => Started(w, s, renv)
  }

  function Initial(c: Core, now: Time): State {
    State(c.rec, None, Timers.Idle, [], {}, None, now, true)
  }

  function CoreOf(s: State): Core {
    Core(s.rec, s.sup)
  }

  /** What every reachable state satisfies. */
  predicate Sound(w: Setup, s: State) {
    && Timers.Inv(s.timers)
    && CoreInv(w, CoreOf(s))
    && (s.sup.None? ==> s.queue == [])
    && (forall k :: 0 <= k < |s.queue| && s.queue[k].Other? ==> Posted(s.queue[k].ev))
    && (s.starting ==> s.sup.None?)
  }

  lemma AfterTimerInv(ts: Timers.State, id: string, act: TimerAct, armAt: Time)
    requires Timers.Inv(ts)
    ensures Timers.Inv(AfterTimer(ts, id, act, armAt))
  {
    match act
    case KeepTimer =>
    case CancelTimer => Timers.NextKeepsInv(ts, Timers.DoCancel(id));
    case ArmTimer(at) => Timers.NextKeepsInv(ts, Timers.DoArm(id, at, armAt));
  }

  /** Each step of the whole engine is, on the rows and the supervisor, one step of a
      run or none: whatever is proved of every run holds here. */
  lemma NextIsCoreStep(w: Setup, s: State, m: Move) returns (step: Option<Step>)
    requires Sound(w, s)
    ensures CoreOf(Advance(w, s, m)) == if step.Some? then Runs.Next(w, CoreOf(s), step.value) else CoreOf(s)
  {
    step := None;
    if Enabled(s, m) {
      match m
      case HandleNext(env) => step := Some(Deliver(EventOf(s.queue[0]), env));
      case Crashes => step := Some(Crash);
      case Starts(renv) => step := Some(Recover(renv));
      case _ =>
    }
  }

  /** The timers stay well formed, whatever the step. */
  lemma TimersStaySound(w: Setup, s: State, m: Move)
    requires Sound(w, s) && Enabled(s, m)
    ensures Timers.Inv(Advance(w, s, m).timers)
  {
    match m
    case ArmMove(a, claim) =>
      Timers.NextKeepsInv(s.timers, if claim then Timers.DoClaim(a) else Timers.DoExpire(a, s.now));
    case CancelSeen(a) => Timers.NextKeepsInv(s.timers, Timers.DoSeeCancel(a));
    case FireArm(a) => Timers.NextKeepsInv(s.timers, Timers.DoFire(a));
    case OtherTask(t) => Timers.NextKeepsInv(s.timers, t);
    case HandleNext(env) =>
      AfterTimerInv(s.timers, s.rec.task.id, Handle(w.deps, s.sup.value, s.rec, EventOf(s.queue[0]), env).timer,
                    env.armAt);
    case Starts(renv) =>
      if !Terminal(s.rec.task.status) {
        ReconcileKeeps(w.deps, w.cfg, s.rec, renv);
        var r := ReconcileTask(w.cfg, s.rec, renv);
        if r.arm.Some? {
          Timers.NextKeepsInv(s.timers, Timers.DoArm(s.rec.task.id, r.arm.value, renv.armAt));
        }
      }
    case _ =>
  }

  /** Only a live supervisor has a queue, and it holds no fire or exit but those a
      timer or a child put there. */
  lemma QueueStaysSound(w: Setup, s: State, m: Move)
    requires Sound(w, s) && Enabled(s, m)
    ensures var t := Advance(w, s, m);
            && (t.sup.None? ==> t.queue == [])
            && (forall k :: 0 <= k < |t.queue| && t.queue[k].Other? ==> Posted(t.queue[k].ev))
            && (t.starting ==> t.sup.None?)
  {
    if m.Starts? && !Terminal(s.rec.task.status) {
      ReconcileKeeps(w.deps, w.cfg, s.rec, m.renv);
    }
  }

  lemma NextKeepsSound(w: Setup, s: State, m: Move)
    requires Sound(w, s)
    ensures Sound(w, Advance(w, s, m))
  {
    if Enabled(s, m) {
      var step := NextIsCoreStep(w, s, m);
      if step.Some? {
        Runs.NextKeepsInv(w, CoreOf(s), step.value);
      }
      TimersStaySound(w, s, m);
      QueueStaysSound(w, s, m);
    }
  }

  ghost function RunAll(w: Setup, s: State, moves: seq<Move>): (t: State)
    requires Sound(w, s)
    ensures Sound(w, t)
  {
    if moves == [] then s
    else
      var mid := RunAll(w, s, moves[..|moves| - 1]);
      NextKeepsSound(w, mid, moves[|moves| - 1]);
      Advance(w, mid, moves[|moves| - 1])
  }

  /** The state a run of the whole engine begins in. */
  ghost function Begin(w: Setup, c: Core, now: Time): (s: State)
    requires Fresh(c)
    ensures s == Initial(c, now) && Sound(w, s)
  {
    RunKeepsInv(w, c, []);
    Initial(c, now)
  }

  lemma RunAllStep(w: Setup, s: State, moves: seq<Move>, m: Move)
    requires Sound(w, s)
    ensures RunAll(w, s, moves + [m]) == Advance(w, RunAll(w, s, moves), m)
  {
    assert (moves + [m])[..|moves|] == moves;
  }

  // ---- Letting the queue run down ----

  /** Readings that all happen at once, with nothing failing. */
  function Instant(t: Time): Env {
    Env(t, t, t, t, t, true, true, None, true, Db.NoFault, "", 0.0)
  }

  /** The k-th queued event, handled now, would change nothing. */
  predicate Ignored(d: Deps, s: State, k: nat)
    requires s.sup.Some? && k < |s.queue|
  {
    Handle(d, s.sup.value, s.rec, EventOf(s.queue[k]), Instant(s.now)) == Ignore(s.sup.value, s.rec)
  }

  function Handlings(k: nat, t: Time): (moves: seq<Move>)
    ensures |moves| == k
  {
    seq(k, i => HandleNext(Instant(t)))
  }

  /** Events that change nothing can all be handled at one instant, and then are gone. */
  lemma {:induction false} RunsDown(w: Setup, s: State, k: nat)
    requires Sound(w, s) && s.sup.Some? && k <= |s.queue|
    requires forall i: nat :: i < k ==> Ignored(w.deps, s, i)
    ensures RunAll(w, s, Handlings(k, s.now)) == s.(queue := s.queue[k..])
  {
    if k > 0 {
      RunsDown(w, s, k - 1);
      var mid := s.(queue := s.queue[k - 1..]);
      assert Handlings(k, s.now) == Handlings(k - 1, s.now) + [HandleNext(Instant(s.now))];
      RunAllStep(w, s, Handlings(k - 1, s.now), HandleNext(Instant(s.now)));
      assert mid.queue[0] == s.queue[k - 1] && mid.queue[1..] == s.queue[k..];
      assert Ignored(w.deps, s, k - 1);
      IgnoredStep(w, mid);
    }
  }

  lemma IgnoredStep(w: Setup, s: State)
    requires Sound(w, s) && s.sup.Some? && s.queue != [] && Ignored(w.deps, s, 0)
    ensures Advance(w, s, HandleNext(Instant(s.now))) == s.(queue := s.queue[1..])
  {
    assert s.children + SpawnedBy([]) == s.children;
  }
}
