/** Concrete runs that show what the exact conditions exclude: inputs the engine can
    receive on which it does not do what its design says. Each holds for every task id
    and every two attempt ids. */
module Witness {
  import opened Types
  import opened Machine
  import opened Lifecycle
  import opened Recovery
  import opened Runs
  import opened Waits
  import opened System
  import opened Attempts
  import opened Exits
  import opened Wakeup
  import Db = Store
  import Effects
  import Detect
  import Scheduler
  import Timers

  // ---- One configured task ----

  /** Reset times a second after the epoch and in the year 2370. */
  const NearReset: Time := Detect.NS_PER_SEC
  const FarReset: Time := 12_622_780_800 * Detect.NS_PER_SEC

  const ResetAt := Detect.Extractor("stdout", "at", "unix_seconds", "")
  const Limit := Detect.Rule("limit", RateLimit, 0, Detect.Match([1], "", "", ""), Some(ResetAt))
  const Quota := Detect.Rule("quota", QuotaExhausted, 0, Detect.Match([3], "", "", ""), Some(ResetAt))

  /** Output with anything in it names the far reset time, other output the near one. */
  function Reads(): Detect.Oracle {
    Detect.Oracle(
      (p: string) => Some(Detect.Regex((b: bytes) => true, (b: bytes) => Some(if b == [] then "1" else "12622780800"))),
      (s: string) => None, (s: string) => Some(if s == "1" then 1 else 12_622_780_800),
      (s: string) => None, (s: string) => None, (f: string, s: string) => None)
  }

  function Agent(): Deps {
    Deps(Reads(), [Detect.CompiledRule(Limit, None, None, None), Detect.CompiledRule(Quota, None, None, None)],
         0, true, (o: AttemptOutput) => None, true)
  }

  function Ended(code: int, far: bool): AttemptOutput {
    AttemptOutput(code, if far then [49] else [], [])
  }

  /** Exit code 1 is a rate limit and 3 exhausted quota; 2 matches no rule. */
  lemma Classified(p: SupPolicy, code: int, far: bool, now: Time)
    requires 1 <= code <= 3 && now < (if far then FarReset else NearReset) && p.scanBytes >= 1
    ensures Classify(Agent(), p, Ended(code, far), now) ==
            if code == 1 then Detect.DetectResult(RateLimit, "limit", Some(if far then FarReset else NearReset))
            else if code == 3 then
              Detect.DetectResult(QuotaExhausted, "quota", Some(if far then FarReset else NearReset))
            else Detect.DetectResult(Unknown, "", None)
  {
    var input := Detect.Input(code, if far then [49] else [], []);
    var engine := Agent().engine;
    assert engine[1..] == [engine[1]] && [engine[1]][1..] == [];
    assert Detect.Matches(engine[0], input) <==> code == 1;
    assert Detect.Matches(engine[1], input) <==> code == 3;
    assert Detect.FirstMatch([], input) == None;
    assert Detect.FirstMatch(engine, input) ==
           if code == 1 then Some(Limit) else if code == 3 then Some(Quota) else None;
  }

  const Snapshot := Config(
    Parsed(30_000_000_000), 2.0, Parsed(3_600_000_000_000), 0.0, Parsed(0), 0, NoDeadline, Empty,
    "retry", "resume_now", Parsed(30_000_000_000), 65536)

  /** A task of this agent: its configuration, its id, and its first two attempts' ids. */
  datatype Case = Case(cfg: Config, id: string, first: string, second: string)

  predicate Usable(k: Case) {
    Parses(k.cfg) && k.cfg.scanBytes >= 1 && k.first != k.second
  }

  function Given(k: Case): Setup {
    Setup(k.cfg, Agent())
  }

  function Created(k: Case): Core {
    Core(FreshRec(k.id, NewSession, None, 0), None)
  }

  function Policy(k: Case): SupPolicy
    requires Usable(k)
  {
    BuildPolicy(k.cfg, 0).value
  }

  const Loaded := RecoverEnv(0, 0, 0, true, true, true, true, Db.NoFault, 0.0)

  /** Nothing fails, and a child that starts gets this row. */
  function Fine(row: string): Env {
    Env(0, 0, 0, 0, 0, true, true, Some(1), true, Db.NoFault, row, 0.0)
  }

  // ---- The engine, step by step ----

  function Row(k: Case, status: Status, attempts: int): Task {
    Created(k).rec.task.(status := status, currentAttempt := attempts, totalAttempts := attempts)
  }

  function OpenRow(k: Case, no: int): Attempt {
    Attempt(if no == 1 then k.first else k.second, k.id, no, Some(1), 0, None, None, None, None, None)
  }

  function LoadedState(k: Case): State
    requires Usable(k)
  {
    State(Created(k).rec, Some(Sup(Policy(k), Created(k).rec.task, None, None, false)), Timers.Idle, [Other(Start)],
          {}, None, 0, false)
  }

  /** The first attempt is running. */
  function RunningState(k: Case): State
    requires Usable(k)
  {
    State(Rec(Row(k, Running, 1), [OpenRow(k, 1)], [EventRow(0, LoggedStart(1, StartCause, false, 1))]),
          Some(Sup(Policy(k), Row(k, Running, 1), None, Some(OpenRow(k, 1)), false)), Timers.Idle, [], {1}, Some(1), 0,
          false)
  }

  /** The task is paused, with its child alive. */
  function PausedState(k: Case): State
    requires Usable(k)
  {
    var s := RunningState(k);
    var rec := Rec(Row(k, Paused, 1), s.rec.attempts, s.rec.log + [EventRow(0, LoggedAction(PauseAction, Running))]);
    s.(rec := rec, sup := Some(s.sup.value.(task := rec.task)))
  }

  lemma Loads(k: Case)
    requires Usable(k)
    ensures Advance(Given(k), Initial(Created(k), 0), Starts(Loaded)) == LoadedState(k)
  {
  }

  lemma Spawns(no: int, command: Command)
    ensures SpawnedBy([Spawned(no, command)]) == {no}
  {
    assert [Spawned(no, command)][0] == Spawned(no, command);
  }

  lemma Begins(k: Case)
    requires Usable(k)
    ensures Advance(Given(k), LoadedState(k), HandleNext(Fine(k.first))) == RunningState(k)
  {
    Spawns(1, StartCommand(""));
    assert [] + [OpenRow(k, 1)] == [OpenRow(k, 1)];
  }

  lemma Posts(k: Case, s: State, ev: Event)
    requires Timers.Inv(s.timers) && Posted(ev) && s.sup.Some? && s.queue == []
    ensures Advance(Given(k), s, Post(ev)) == s.(queue := [Other(ev)])
  {
    assert [] + [Other(ev)] == [Other(ev)];
  }

  lemma Pauses(k: Case)
    requires Usable(k)
    ensures Advance(Given(k), RunningState(k).(queue := [Other(UserPause)]), HandleNext(Fine(""))) == PausedState(k)
  {
    assert {1} + SpawnedBy([]) == {1};
  }

  /** What handling leaves when it succeeds and the task goes on. */
  lemma HandledOn(k: Case, s: State, env: Env, out: Out)
    requires Timers.Inv(s.timers) && Enabled(s, HandleNext(env))
    requires out == Handle(Agent(), s.sup.value, s.rec, EventOf(s.queue[0]), env)
    requires out.ok && !Terminal(out.sup.task.status)
    ensures var t := Advance(Given(k), s, HandleNext(env));
            && t.sup == Some(out.sup) && t.rec == out.rec && t.queue == s.queue[1..] && t.now == Later(env)
            && t.timers == AfterTimer(s.timers, s.rec.task.id, out.timer, env.armAt)
            && t.children == s.children + SpawnedBy(out.calls) && t.tracked == TrackedAfter(out.calls, s.tracked)
  {
  }

  lemma ReachesRunning(k: Case) returns (moves: seq<Move>)
    requires Usable(k)
    ensures RunAll(Given(k), Begin(Given(k), Created(k), 0), moves) == RunningState(k)
  {
    var w, b := Given(k), Begin(Given(k), Created(k), 0);
    var m1 := [Starts(Loaded)];
    moves := m1 + [HandleNext(Fine(k.first))];
    RunAllStep(w, b, [], Starts(Loaded));
    RunAllStep(w, b, m1, HandleNext(Fine(k.first)));
    assert [] + [Starts(Loaded)] == m1;
    Loads(k);
    Begins(k);
  }

  lemma ReachesPaused(k: Case) returns (moves: seq<Move>)
    requires Usable(k)
    ensures RunAll(Given(k), Begin(Given(k), Created(k), 0), moves) == PausedState(k)
  {
    var w, b := Given(k), Begin(Given(k), Created(k), 0);
    var m2 := ReachesRunning(k);
    var m3 := m2 + [Post(UserPause)];
    moves := m3 + [HandleNext(Fine(""))];
    RunAllStep(w, b, m2, Post(UserPause));
    RunAllStep(w, b, m3, HandleNext(Fine("")));
    Posts(k, RunningState(k), UserPause);
    Pauses(k);
  }

  lemma RunningIsSound(k: Case)
    requires Usable(k)
    ensures Sound(Given(k), RunningState(k)) && Good(Agent(), RunningState(k).sup.value, RunningState(k).rec)
  {
    var moves := ReachesRunning(k);
    assert Sound(Given(k), RunAll(Given(k), Begin(Given(k), Created(k), 0), moves));
  }

  /** The first two steps, as a run. */
  function Started(k: Case): seq<Step> {
    [Recover(Loaded)] + [Deliver(Start, Fine(k.first))]
  }

  lemma LoadsCore(k: Case)
    requires Usable(k)
    ensures Next(Given(k), Created(k), Recover(Loaded)) == CoreOf(LoadedState(k))
  {
    Loads(k);
  }

  lemma BeginsCore(k: Case)
    requires Usable(k)
    ensures Next(Given(k), CoreOf(LoadedState(k)), Deliver(Start, Fine(k.first))) == CoreOf(RunningState(k))
  {
    Begins(k);
  }

  lemma RunsToRunning(k: Case)
    requires Usable(k)
    ensures Run(Given(k), Created(k), Started(k)) == CoreOf(RunningState(k))
  {
    var w, c := Given(k), Created(k);
    RunStep(w, c, [], Recover(Loaded));
    RunStep(w, c, [Recover(Loaded)], Deliver(Start, Fine(k.first)));
    assert [] + [Recover(Loaded)] == [Recover(Loaded)];
    assert Run(w, c, []) == c;
    LoadsCore(k);
    BeginsCore(k);
  }

  lemma PausesCore(k: Case)
    requires Usable(k)
    ensures Next(Given(k), CoreOf(RunningState(k)), Deliver(UserPause, Fine(""))) == CoreOf(PausedState(k))
  {
    Pauses(k);
  }

  lemma RunsToPaused(k: Case)
    requires Usable(k)
    ensures Run(Given(k), Created(k), Started(k) + [Deliver(UserPause, Fine(""))]) == CoreOf(PausedState(k))
  {
    RunsToRunning(k);
    RunStep(Given(k), Created(k), Started(k), Deliver(UserPause, Fine("")));
    PausesCore(k);
  }

  /** A resume from PAUSED runs the second attempt. */
  lemma ResumesAnew(k: Case, s: Sup)
    requires Usable(k) && s.task == PausedState(k).rec.task && s.policy == Policy(k)
    ensures var out := Handle(Agent(), s, PausedState(k).rec, UserResume, Fine(k.second));
            && out.ok && out.rec.task == Row(k, Running, 2) && out.rec.attempts == [OpenRow(k, 1)] + [OpenRow(k, 2)]
            && out.sup.task == out.rec.task && out.sup.current == Some(OpenRow(k, 2)) && out.sup.policy == s.policy
            && out.calls == [Spawned(2, StartCommand(""))] && out.timer == CancelTimer
  {
  }

  // ---- Recovery can close the wrong attempt ----

  /** Restarted while paused, the task is resumed with its first attempt's row open. */
  lemma ResumedRun(k: Case) returns (steps: seq<Step>)
    requires Usable(k)
    ensures var here := Run(Given(k), Created(k), steps).rec;
            here.task == Row(k, Running, 2) && here.attempts == [OpenRow(k, 1)] + [OpenRow(k, 2)]
  {
    var w, c := Given(k), Created(k);
    var s3 := Started(k) + [Deliver(UserPause, Fine(""))];
    var s4 := s3 + [Crash];
    var s5 := s4 + [Recover(Loaded)];
    steps := s5 + [Deliver(UserResume, Fine(k.second))];
    RunsToPaused(k);
    RunStep(w, c, s3, Crash);
    RunStep(w, c, s4, Recover(Loaded));
    RunStep(w, c, s5, Deliver(UserResume, Fine(k.second)));
    ResumesAnew(k, Sup(Policy(k), Row(k, Paused, 1), None, None, false));
  }

  /** Paused, restarted, resumed and restarted again: recovery closes the first attempt,
      which was paused, and the second, which was interrupted, stays open. */
  lemma RecoveryClosesAnother(id: string, first: string, second: string)
    returns (w: Setup, c: Core, steps: seq<Step>, renv: RecoverEnv)
    requires first != second
    ensures Fresh(c) && c.rec.task.id == id && Run(w, c, steps).rec.task.status.Running?
    ensures var after := Run(w, c, steps + [Crash] + [Recover(renv)]).rec;
            && after.task.status.Waiting? && |after.attempts| == 2
            && after.attempts[0].matchedRule == Some(Interrupted)
            && after.attempts[1].endedAt.None?
  {
    var k := Case(Snapshot, id, first, second);
    w, c, renv := Given(k), Created(k), Loaded;
    steps := ResumedRun(k);
    RunKeepsInv(w, c, steps);
    var rec := Run(w, c, steps).rec;
    RecoveredIff(w.cfg, rec, renv);
    CrashClosesInterruptedIff(w, c, steps, renv);
    RunStep(w, c, steps, Crash);
    RunStep(w, c, steps + [Crash], Recover(renv));
    RecoveryClosesFirst(w.cfg, rec, renv);
  }

  // ---- max_attempts can be exceeded ----

  /** With one attempt allowed, a pause and a resume make a second. */
  lemma AttemptsBeyondCap(id: string, first: string, second: string) returns (w: Setup, c: Core, steps: seq<Step>)
    requires first != second
    ensures Fresh(c) && c.rec.task.id == id && w.cfg.maxAttempts == 1
    ensures Run(w, c, steps).rec.task.totalAttempts == 2
  {
    var k := Case(Snapshot.(maxAttempts := 1), id, first, second);
    w, c := Given(k), Created(k);
    var s3 := Started(k) + [Deliver(UserPause, Fine(""))];
    steps := s3 + [Deliver(UserResume, Fine(k.second))];
    RunsToPaused(k);
    RunStep(w, c, s3, Deliver(UserResume, Fine(k.second)));
    ResumesAnew(k, PausedState(k).sup.value);
  }

  // ---- Memory can diverge from the store ----

  lemma NothingCaps(k: Case, r: Detect.DetectResult)
    requires Usable(k) && k.cfg == Snapshot && r.resetAt.Some? && r.resetAt.value > 0
    ensures CapHit(RunningState(k).sup.value, r, Fine("")).CapNone?
    ensures ProposedWake(RunningState(k).sup.value, r, Fine("")) == r.resetAt.value
  {
  }

  /** What an exit that is retried and committed leaves. */
  lemma Retried(d: Deps, s: Sup, rec: Rec, o: AttemptOutput, env: Env)
    requires Good(d, s, rec) && rec.task.status.Running? && env.fault.NoFault?
    requires var r := Classify(d, s.policy, o, env.at);
             Verdict(s.policy, r.category, CapHit(s, r, env)).Waiting?
    ensures var r := Classify(d, s.policy, o, env.at);
            var out := Handle(d, s, rec, AttemptExit(o), env);
            && out.ok && out.sup.task == out.rec.task && out.rec.task.status.Waiting? && out.calls == []
            && out.rec.task.id == rec.task.id && out.rec.task.cumulativeWaitMs == rec.task.cumulativeWaitMs
            && out.rec.task.nextWakeAt == Some(ProposedWake(s, r, env))
            && out.rec.task.lastOutcome == Some(r.category)
            && out.sup.policy == s.policy && out.sup.waitingSince == Some(env.at)
            && out.timer == ArmTimer(ProposedWake(s, r, env))
  {
    var to, reason := ExitShape(d, s, rec, o, env);
    ExitOkIff(d, s, rec, o, env);
    HandleKeeps(d, s, rec, AttemptExit(o), env);
  }

  /** What handling the first exit leaves: a wait for the reset time its output names. */
  lemma ExitWaits(k: Case, code: int, far: bool)
    requires Usable(k) && k.cfg == Snapshot && (code == 1 || code == 3)
    ensures var s := RunningState(k);
            var out := Handle(Agent(), s.sup.value, s.rec, AttemptExit(Ended(code, far)), Fine(""));
            var reset := if far then FarReset else NearReset;
            && out.ok && out.sup.task == out.rec.task && out.rec.task.status.Waiting?
            && out.rec.task.nextWakeAt == Some(reset) && out.rec.task.id == k.id && out.calls == []
            && out.rec.task.lastOutcome == Some(if code == 1 then RateLimit else QuotaExhausted)
            && out.sup.waitingSince == Some(0) && out.timer == ArmTimer(reset)
  {
    var s := RunningState(k);
    RunningIsSound(k);
    Classified(Policy(k), code, far, 0);
    NothingCaps(k, Classify(Agent(), Policy(k), Ended(code, far), 0));
    Retried(Agent(), s.sup.value, s.rec, Ended(code, far), Fine(""));
  }

  /** A task whose first exit left it waiting. */
  lemma RunsToWaiting(k: Case, code: int, far: bool) returns (steps: seq<Step>)
    requires Usable(k) && k.cfg == Snapshot && (code == 1 || code == 3)
    ensures var here := Run(Given(k), Created(k), steps);
            && here.sup.Some? && here.sup.value.task == here.rec.task && here.rec.task.status.Waiting?
            && here.sup.value.waitingSince == Some(0)
            && here.rec.task.lastOutcome == Some(if code == 1 then RateLimit else QuotaExhausted)
  {
    steps := Started(k) + [Deliver(AttemptExit(Ended(code, far)), Fine(""))];
    RunsToRunning(k);
    RunStep(Given(k), Created(k), Started(k), Deliver(AttemptExit(Ended(code, far)), Fine("")));
    ExitWaits(k, code, far);
  }

  /** A millisecond into a wait it is resumed, and the commit of the new attempt fails: the
      wait has been accounted in memory and not in the store. */
  lemma MemoryDiverges(id: string, first: string, second: string)
    returns (w: Setup, c: Core, steps: seq<Step>, env: Env)
    requires first != second
    ensures Fresh(c) && c.rec.task.id == id && Run(w, c, steps).sup.Some?
    ensures var here := Run(w, c, steps);
            var out := Handle(w.deps, here.sup.value, here.rec, UserResume, env);
            !out.ok && out.sup.task != out.rec.task
  {
    var k := Case(Snapshot, id, first, second);
    w, c := Given(k), Created(k);
    steps := RunsToWaiting(k, 1, true);
    env := Fine(second).(wakeAt := NS_PER_MS, at := NS_PER_MS, failAt := NS_PER_MS, armAt := NS_PER_MS,
                         fault := Db.CommitFails);
    RunKeepsInv(w, c, steps);
    var here := Run(w, c, steps);
    DivergesIff(w.deps, here.sup.value, here.rec, UserResume, env);
  }

  /** The commit of a first exit fails: the attempt is closed in memory and open in the
      store. */
  lemma AttemptDiverges(id: string, first: string, second: string)
    returns (w: Setup, c: Core, steps: seq<Step>, o: AttemptOutput, env: Env)
    requires first != second
    ensures Fresh(c) && c.rec.task.id == id && Run(w, c, steps).sup.Some?
    ensures var here := Run(w, c, steps);
            var out := Handle(w.deps, here.sup.value, here.rec, AttemptExit(o), env);
            !out.ok && !CurrentStored(out.sup, out.rec)
  {
    var k := Case(Snapshot, id, first, second);
    w, c, steps, o, env := Given(k), Created(k), Started(k), Ended(1, true), Fine("").(fault := Db.CommitFails);
    RunsToRunning(k);
    RunningIsSound(k);
    AttemptDivergesIff(w.deps, RunningState(k).sup.value, RunningState(k).rec, AttemptExit(o), env);
  }

  // ---- A second pass can change what a first one left ----

  /** The first pass cannot commit the recovery of an interrupted task; the second can. */
  lemma SecondPassRecovers(id: string, first: string, second: string)
    returns (configs: string -> Config, w: World, ids: seq<string>,
             envs: string -> RecoverEnv, again: string -> RecoverEnv)
    requires first != second
    ensures Timers.Inv(w.timers) && Distinct(ids) && SoundRows(w, ids)
    ensures var v := ReconcileAll(configs, w, ids, envs);
            ReconcileAll(configs, v, ids, again) != v
  {
    var k := Case(Snapshot, id, first, second);
    configs, ids := (i: string) => Snapshot, [id];
    envs, again := (i: string) => Loaded.(fault := Db.CommitFails), (i: string) => Loaded;
    w := World(map[id := RunningState(k).rec], Timers.Idle, map[]);
    RunningIsSound(k);
    assert Needs(w, id);
    StuckIff(Snapshot, w.rows[id], envs(id));
    ReconcileTwiceIff(configs, w, ids, envs, again);
  }

  // ---- A recovered quota wait has no prober ----

  /** A task with a probe that waits on exhausted quota is restarted: it still waits on
      exhausted quota, and nothing probes. */
  lemma RecoveredQuotaNotProbed(id: string, first: string, second: string) returns (w: Setup, c: Core, steps: seq<Step>)
    requires first != second
    ensures Fresh(c) && c.rec.task.id == id && w.deps.hasProbe
    ensures var here := Run(w, c, steps);
            && here.sup.Some? && here.rec.task.status.Waiting? && here.rec.task.lastOutcome == Some(QuotaExhausted)
            && here.sup.value.policy.probeInterval > 0 && !here.sup.value.probing
  {
    var k := Case(Snapshot, id, first, second);
    w, c := Given(k), Created(k);
    var s3 := RunsToWaiting(k, 3, true);
    var s4 := s3 + [Crash];
    steps := s4 + [Recover(Loaded)];
    RunStep(w, c, s3, Crash);
    RunStep(w, c, s4, Recover(Loaded));
  }

  // ---- A wake-up can be lost ----

  /** The first child has exited, naming the far reset time. */
  function ExitedState(k: Case): State
    requires Usable(k)
  {
    RunningState(k).(children := {}, tracked := None, queue := [Exit(1, Ended(1, true))])
  }

  lemma ChildEnds(k: Case)
    requires Usable(k)
    ensures Advance(Given(k), RunningState(k), ChildExits(1, Ended(1, true))) == ExitedState(k)
  {
    assert RunningState(k).children - {1} == {};
    assert [] + [Exit(1, Ended(1, true))] == [Exit(1, Ended(1, true))];
  }

  /** Handling the first exit arms a timer that is due at the greatest int64. */
  lemma ExitArmsFar(k: Case)
    requires Usable(k) && k.cfg == Snapshot
    ensures var s := ExitedState(k);
            var t := Advance(Given(k), s, HandleNext(Fine("")));
            && t.sup.Some? && t.rec.task.status.Waiting? && t.rec.task.nextWakeAt == Some(FarReset)
            && t.queue == [] && t.now == 0
            && t.timers == Timers.ArmAt(Timers.Idle, k.id, FarReset, 0) && t.rec.task.id == k.id
  {
    ExitWaits(k, 1, true);
    var s := ExitedState(k);
    HandledOn(k, s, Fine(""), Handle(Agent(), s.sup.value, s.rec, AttemptExit(Ended(1, true)), Fine("")));
  }

  /** The run up to there. */
  lemma ReachesFarWait(k: Case) returns (moves: seq<Move>)
    requires Usable(k) && k.cfg == Snapshot
    ensures var s := ExitedState(k);
            RunAll(Given(k), Begin(Given(k), Created(k), 0), moves) == Advance(Given(k), s, HandleNext(Fine("")))
  {
    var w, b := Given(k), Begin(Given(k), Created(k), 0);
    var m2 := ReachesRunning(k);
    var m3 := m2 + [ChildExits(1, Ended(1, true))];
    moves := m3 + [HandleNext(Fine(""))];
    RunAllStep(w, b, m2, ChildExits(1, Ended(1, true)));
    RunAllStep(w, b, m3, HandleNext(Fine("")));
    ChildEnds(k);
  }

  /** Its timer goes off early, the fire is ignored, and nothing wakes the task again. */
  lemma WakeupLost(id: string, first: string, second: string)
    returns (w: Setup, c: Core, moves: seq<Move>, more: seq<Move>)
    requires first != second
    ensures Fresh(c) && c.rec.task.id == id
    ensures Lost(RunAll(w, RunAll(w, Begin(w, c, 0), moves), more))
  {
    var k := Case(Snapshot, id, first, second);
    w, c := Given(k), Created(k);
    moves := ReachesFarWait(k);
    ExitArmsFar(k);
    more := EarlyArmCanLose(w, RunAll(w, Begin(w, c, 0), moves), 0);
  }

  // ---- An exit can be recorded on another attempt ----

  /** Resumed while its first child lives, the task has two. */
  lemma ReachesTwo(k: Case) returns (moves: seq<Move>)
    requires Usable(k)
    ensures var t := RunAll(Given(k), Begin(Given(k), Created(k), 0), moves);
            && t.sup.Some? && t.rec.task == Row(k, Running, 2) && t.rec.attempts == [OpenRow(k, 1)] + [OpenRow(k, 2)]
            && t.sup.value.current == Some(OpenRow(k, 2)) && t.sup.value.policy == Policy(k)
            && t.children == {1, 2} && t.tracked == Some(2) && t.queue == [] && t.now == 0
  {
    var w, b := Given(k), Begin(Given(k), Created(k), 0);
    var m4 := ReachesPaused(k);
    var m5 := m4 + [Post(UserResume)];
    moves := m5 + [HandleNext(Fine(k.second))];
    RunAllStep(w, b, m4, Post(UserResume));
    RunAllStep(w, b, m5, HandleNext(Fine(k.second)));
    Posts(k, PausedState(k), UserResume);
    ResumesOver(k);
  }

  lemma ResumesOver(k: Case)
    requires Usable(k)
    ensures var t := Advance(Given(k), PausedState(k).(queue := [Other(UserResume)]), HandleNext(Fine(k.second)));
            && t.sup.Some? && t.rec.task == Row(k, Running, 2) && t.rec.attempts == [OpenRow(k, 1)] + [OpenRow(k, 2)]
            && t.sup.value.current == Some(OpenRow(k, 2)) && t.sup.value.policy == Policy(k)
            && t.children == {1, 2} && t.tracked == Some(2) && t.queue == [] && t.now == 0
  {
    var s := PausedState(k).(queue := [Other(UserResume)]);
    ResumesAnew(k, s.sup.value);
    HandledOn(k, s, Fine(k.second), Handle(Agent(), s.sup.value, s.rec, UserResume, Fine(k.second)));
    Spawns(2, StartCommand(""));
  }

  /** Started, paused and resumed while its first child lives: that child's exit closes
      the second attempt's row. */
  lemma ExitMisrecorded(id: string, first: string, second: string)
    returns (w: Setup, c: Core, moves: seq<Move>, more: seq<Move>)
    requires first != second
    ensures Fresh(c) && c.rec.task.id == id
    ensures var s := RunAll(w, RunAll(w, Begin(w, c, 0), moves), more);
            Misrecords(w, s, Instant(s.now), 1)
  {
    var k := Case(Snapshot, id, first, second);
    w, c := Given(k), Created(k);
    moves := ReachesTwo(k);
    more := OldChildExits(w, RunAll(w, Begin(w, c, 0), moves), 1);
  }

  // ---- A stop can miss a live child ----

  /** With two children alive, the first one's exit empties the process slot; a stop then
      reports its kill done, and the second child lives on. */
  lemma StopMissesChild(id: string, first: string, second: string)
    returns (w: Setup, c: Core, moves: seq<Move>)
    requires first != second
    ensures Fresh(c) && c.rec.task.id == id
    ensures var s := RunAll(w, Begin(w, c, 0), moves);
            s.rec.task.status.Stopped? && 2 in s.children
  {
    var k := Case(Snapshot, id, first, second);
    w, c := Given(k), Created(k);
    var b := Begin(w, c, 0);
    var m6 := ReachesTwo(k);
    var m7 := m6 + [Post(UserStop)];
    var m8 := m7 + [ChildExits(1, Ended(1, false))];
    moves := m8 + [HandleNext(Fine(""))];
    RunAllStep(w, b, m6, Post(UserStop));
    RunAllStep(w, b, m7, ChildExits(1, Ended(1, false)));
    RunAllStep(w, b, m8, HandleNext(Fine("")));
    Posts(k, RunAll(w, b, m6), UserStop);
    FirstEnds(k, RunAll(w, b, m7));
    StopsAlone(k, RunAll(w, b, m8));
  }

  lemma FirstEnds(k: Case, s: State)
    requires Usable(k) && Timers.Inv(s.timers) && s.sup.Some? && s.queue == [Other(UserStop)] && s.children == {1, 2}
    ensures var t := Advance(Given(k), s, ChildExits(1, Ended(1, false)));
            && t == s.(children := t.children, tracked := None, queue := t.queue)
            && 2 in t.children && t.queue != [] && t.queue[0] == Other(UserStop)
  {
  }

  lemma StopsAlone(k: Case, s: State)
    requires Usable(k) && Timers.Inv(s.timers) && s.sup.Some? && s.sup.value.task == s.rec.task
    requires s.rec.task == Row(k, Running, 2) && 2 in s.children && s.now == 0
    requires s.queue != [] && s.queue[0] == Other(UserStop)
    ensures var t := Advance(Given(k), s, HandleNext(Fine("")));
            t.rec.task.status.Stopped? && 2 in t.children
  {
  }

  // ---- A row can keep a rule its last exit did not match ----

  /** Handling an exit while paused, with nothing else queued. */
  lemma PausedExit(k: Case, s: State, no: int, code: int)
    requires Usable(k) && Sound(Given(k), s) && PausedIdle(k, s) && no in s.children && 1 <= code <= 2
    ensures var t := Advance(Given(k), Advance(Given(k), s, ChildExits(no, Ended(code, true))), HandleNext(Fine("")));
            && PausedIdle(k, t) && t.children == s.children - {no}
            && s.rec.attempts != [] && t.rec.attempts != []
            && RowTells(LastRow(s.rec), LastRow(t.rec), Classify(Agent(), Policy(k), Ended(code, true), 0))
  {
    var o := Ended(code, true);
    var u := s.(children := s.children - {no}, tracked := None, queue := [Exit(no, o)]);
    assert [] + [Exit(no, o)] == [Exit(no, o)];
    assert Advance(Given(k), s, ChildExits(no, o)) == u;
    PausedExitOut(k, s.sup.value, s.rec, code);
    HandledOn(k, u, Fine(""), Handle(Agent(), s.sup.value, s.rec, AttemptExit(o), Fine("")));
    assert u.children + SpawnedBy([]) == u.children;
  }

  lemma PausedExitOut(k: Case, s: Sup, rec: Rec, code: int)
    requires Usable(k) && Good(Agent(), s, rec) && rec.task.status.Paused? && s.current.Some? && s.policy == Policy(k)
    requires 1 <= code <= 2
    ensures var o := Ended(code, true);
            var out := Handle(Agent(), s, rec, AttemptExit(o), Fine(""));
            && out.ok && out.rec.task.status.Paused? && out.sup.task == out.rec.task && out.sup.current.Some?
            && out.sup.policy == Policy(k) && out.calls == []
            && rec.attempts != [] && out.rec.attempts != []
            && RowTells(LastRow(rec), LastRow(out.rec), Classify(Agent(), Policy(k), o, 0))
  {
    ExitOkIff(Agent(), s, rec, Ended(code, true), Fine(""));
    HandleKeeps(Agent(), s, rec, AttemptExit(Ended(code, true)), Fine(""));
    ExitTellsOneStory(Agent(), s, rec, Ended(code, true), Fine(""));
  }

  lemma PausesAgain(k: Case, s: State)
    requires Usable(k) && Sound(Given(k), s) && s.sup.Some? && s.rec.task.status.Running?
    requires s.queue == [Other(UserPause)] && s.now == 0 && s.sup.value.policy == Policy(k) && s.sup.value.current.Some?
    ensures var t := Advance(Given(k), s, HandleNext(Fine("")));
            && t.sup.Some? && t.rec.task.status.Paused? && t.rec.attempts == s.rec.attempts
            && t.sup.value.current == s.sup.value.current && t.sup.value.policy == Policy(k)
            && t.queue == [] && t.now == 0 && t.children == s.children
  {
    var out := Handle(Agent(), s.sup.value, s.rec, UserPause, Fine(""));
    HandledOn(k, s, Fine(""), out);
    assert s.children + SpawnedBy([]) == s.children;
  }

  /** Paused with an attempt to record exits on, and nothing queued. */
  predicate PausedIdle(k: Case, s: State)
    requires Usable(k)
  {
    && s.sup.Some? && s.rec.task.status.Paused? && s.sup.value.current.Some? && s.sup.value.policy == Policy(k)
    && s.queue == [] && s.now == 0
  }

  lemma ReachesPausedTwo(k: Case) returns (moves: seq<Move>)
    requires Usable(k)
    ensures var s := RunAll(Given(k), Begin(Given(k), Created(k), 0), moves);
            PausedIdle(k, s) && s.children == {1, 2}
  {
    var w, b := Given(k), Begin(Given(k), Created(k), 0);
    var m6 := ReachesTwo(k);
    var m7 := m6 + [Post(UserPause)];
    moves := m7 + [HandleNext(Fine(""))];
    RunAllStep(w, b, m6, Post(UserPause));
    RunAllStep(w, b, m7, HandleNext(Fine("")));
    Posts(k, RunAll(w, b, m6), UserPause);
    PausesAgain(k, RunAll(w, b, m7));
  }

  lemma RecordsExit(k: Case, moves: seq<Move>, no: int, code: int) returns (more: seq<Move>)
    requires Usable(k) && 1 <= code <= 2
    requires var s := RunAll(Given(k), Begin(Given(k), Created(k), 0), moves); PausedIdle(k, s) && no in s.children
    ensures var s := RunAll(Given(k), Begin(Given(k), Created(k), 0), moves);
            var t := RunAll(Given(k), Begin(Given(k), Created(k), 0), more);
            && PausedIdle(k, t) && t.children == s.children - {no} && s.rec.attempts != [] && t.rec.attempts != []
            && RowTells(LastRow(s.rec), LastRow(t.rec), Classify(Agent(), Policy(k), Ended(code, true), 0))
  {
    var w, b := Given(k), Begin(Given(k), Created(k), 0);
    var mid := moves + [ChildExits(no, Ended(code, true))];
    more := mid + [HandleNext(Fine(""))];
    RunAllStep(w, b, moves, ChildExits(no, Ended(code, true)));
    RunAllStep(w, b, mid, HandleNext(Fine("")));
    PausedExit(k, RunAll(w, b, moves), no, code);
  }

  /** Paused with two children alive, both exits are recorded on the second attempt: the
      first matches a rule, the second none, and the row ends UNKNOWN by that rule. */
  lemma StaleRule(id: string, first: string, second: string) returns (w: Setup, c: Core, moves: seq<Move>)
    requires first != second
    ensures Fresh(c) && c.rec.task.id == id
    ensures var rec := RunAll(w, Begin(w, c, 0), moves).rec;
            rec.attempts != [] && LastRow(rec).outcome == Some(Unknown) && LastRow(rec).matchedRule == Some("limit")
  {
    var k := Case(Snapshot, id, first, second);
    w, c := Given(k), Created(k);
    var m8 := ReachesPausedTwo(k);
    var m10 := RecordsExit(k, m8, 1, 1);
    moves := RecordsExit(k, m10, 2, 2);
    Classified(Policy(k), 1, true, 0);
    Classified(Policy(k), 2, true, 0);
  }

  // ---- The total wait can pass its cap ----

  const HOUR: Duration := 3_600_000_000_000

  /** Nothing fails, and everything happens at t. */
  function FineAt(t: Time, row: string): Env {
    Fine(row).(guardAt := t, wakeAt := t, at := t, failAt := t, armAt := t)
  }

  /** A live task with this many attempts and this wait accounted, waiting since then. */
  predicate Here(k: Case, c: Core, status: Status, attempts: int, waitedMs: int, since: Option<Time>)
    requires Usable(k)
  {
    && c.sup.Some? && c.sup.value.policy == Policy(k) && c.sup.value.waitingSince == since
    && c.rec.task.status == status && c.rec.task.totalAttempts == attempts && c.rec.task.cumulativeWaitMs == waitedMs
  }

  function Capped(id: string, first: string, second: string): Case {
    Case(Snapshot.(maxTotalWait := Parsed(72 * HOUR)), id, first, second)
  }

  /** An exit of a task that has waited a second at most is retried at the reset time its
      output names, however far that is, unless it is the first and that is too far. */
  lemma RetriesAt(k: Case, c: Core, t: Time, waitedMs: int, far: bool)
    requires Usable(k) && k == Capped(k.id, k.first, k.second) && CoreInv(Given(k), c)
    requires Here(k, c, Running, c.rec.task.totalAttempts, waitedMs, None)
    requires (t == 0 && waitedMs == 0 && !far) || (t == NearReset && waitedMs == 1000 && far)
    ensures var n := Next(Given(k), c, Deliver(AttemptExit(Ended(1, far)), FineAt(t, "")));
            && Here(k, n, Waiting, c.rec.task.totalAttempts, waitedMs, Some(t))
            && n.rec.task.nextWakeAt == Some(if far then FarReset else NearReset)
  {
    var s := c.sup.value;
    var o, env := Ended(1, far), FineAt(t, "");
    Classified(Policy(k), 1, far, t);
    var r := Classify(Agent(), Policy(k), o, t);
    if far {
      assert SubTime(FarReset, NearReset) == MAX_INT64;
      assert Wrap64(1_000_000_000 + MAX_INT64) == 1_000_000_000 + MAX_INT64 - 0x1_0000_0000_0000_0000;
    }
    assert CapHit(s, r, env).CapNone?;
    Retried(Agent(), s, c.rec, o, env);
  }

  /** A second later the wait is over and the second attempt runs. */
  lemma WakesOnce(k: Case, c: Core)
    requires Usable(k) && CoreInv(Given(k), c) && Here(k, c, Waiting, 1, 0, Some(0))
    requires c.rec.task.nextWakeAt == Some(NearReset) && IdsOf(c.rec) == [k.first]
    ensures Here(k, Next(Given(k), c, Deliver(TimerFire, FineAt(NearReset, k.second))), Running, 2, 1000, None)
  {
    var env := FineAt(NearReset, k.second);
    assert |IdsOf(c.rec)| == 1 && IdsOf(c.rec)[0] == c.rec.attempts[0].id;
    assert !Refused(c.rec, env);
    HandleAccounts(Agent(), c.sup.value, c.rec, TimerFire, env);
    SpawnOkIff(Agent(), LeaveWait(c.sup.value, NearReset), c.rec, TimerCause, env, CancelTimer);
  }

  function IdsOf(rec: Rec): seq<string> {
    seq(|rec.attempts|, i requires 0 <= i < |rec.attempts| => rec.attempts[i].id)
  }

  /** A hundred hours into the next wait it is paused, long before its wake time. */
  lemma PausesLate(k: Case, c: Core)
    requires Usable(k) && CoreInv(Given(k), c) && Here(k, c, Waiting, 2, 1000, Some(NearReset))
    ensures Next(Given(k), c, Deliver(UserPause, FineAt(NearReset + 100 * HOUR, ""))).rec.task.cumulativeWaitMs
            == 1000 + 360_000_000
  {
    HandleAccounts(Agent(), c.sup.value, c.rec, UserPause, FineAt(NearReset + 100 * HOUR, ""));
  }

  /** With 72 hours of waiting allowed, a second's wait and then one for a far reset time,
      ended by a pause after a hundred hours: all of them are accounted, none of them
      late. */
  lemma TotalWaitPassesCap(id: string, first: string, second: string)
    returns (w: Setup, c: Core, steps: seq<Step>, last: Step)
    requires first != second
    ensures Fresh(c) && c.rec.task.id == id && BuildPolicy(w.cfg, 0).Some?
    ensures var before := Run(w, c, steps).rec.task;
            before.status.Waiting? && before.nextWakeAt.Some? && last.Deliver? && last.env.at < before.nextWakeAt.value
    ensures Run(w, c, steps + [last]).rec.task.cumulativeWaitMs * NS_PER_MS
            > BuildPolicy(w.cfg, 0).value.scheduler.maxTotalWait
  {
    var k := Capped(id, first, second);
    w, c := Given(k), Created(k);
    var e1 := Deliver(AttemptExit(Ended(1, false)), FineAt(0, ""));
    var e2 := Deliver(TimerFire, FineAt(NearReset, second));
    var e3 := Deliver(AttemptExit(Ended(1, true)), FineAt(NearReset, ""));
    last := Deliver(UserPause, FineAt(NearReset + 100 * HOUR, ""));
    var s3 := Started(k) + [e1];
    var s4 := s3 + [e2];
    steps := s4 + [e3];
    RunsToRunning(k);
    RunStep(w, c, Started(k), e1);
    RunStep(w, c, s3, e2);
    RunStep(w, c, s4, e3);
    RunStep(w, c, steps, last);
    RunKeepsInv(w, c, Started(k));
    RunKeepsInv(w, c, s3);
    RunKeepsInv(w, c, s4);
    RunKeepsInv(w, c, steps);
    RetriesAt(k, CoreOf(RunningState(k)), 0, 0, false);
    KeepsIds(k);
    WakesOnce(k, Run(w, c, s3));
    RetriesAt(k, Run(w, c, s4), NearReset, 1000, true);
    PausesLate(k, Run(w, c, steps));
  }

  lemma KeepsIds(k: Case)
    requires Usable(k)
    ensures var s := RunningState(k);
            IdsOf(Handle(Agent(), s.sup.value, s.rec, AttemptExit(Ended(1, false)), FineAt(0, "")).rec) == [k.first]
  {
    var s := RunningState(k);
    RunningIsSound(k);
    Effects.HandleMoves(Agent(), s.sup.value, s.rec, AttemptExit(Ended(1, false)), FineAt(0, ""));
    HandleKeeps(Agent(), s.sup.value, s.rec, AttemptExit(Ended(1, false)), FineAt(0, ""));
  }

  // ---- A Retry-After can be dropped ----

  /** A Retry-After of three centuries is read as a time in the past, and so as none. */
  lemma RetryAfterDropped() returns (o: Detect.Oracle, x: Detect.Extractor, input: Detect.Input)
    ensures x.kind == "http_retry_after" && o.parseInt64("9467085600") == Some(9_467_085_600)
    ensures var re := o.compile(x.regex);
            re.Some? && re.value.capture(Detect.SourceBytes(x.source, input)) == Some("9467085600")
    ensures Detect.ExtractReset(o, x, input, 0, 0) == None
  {
    o := Reads().(compile := (p: string) => Some(Detect.Regex((b: bytes) => true, (b: bytes) => Some("9467085600"))),
                  parseInt64 := (s: string) => Some(9_467_085_600));
    x, input := Detect.Extractor("any", "after", "http_retry_after", ""), Detect.Input(1, [], []);
    assert Wrap64(9_467_085_600 * Detect.NS_PER_SEC) == 9_467_085_600_000_000_000 - 0x1_0000_0000_0000_0000;
  }
}
