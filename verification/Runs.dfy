/** Whole runs of one task: any sequence of delivered events, crashes and
    recoveries, with any dependency failing at any point. A run starts from the row
    task creation commits; the first Recover step stands for startRuntime. */
module Runs {
  import opened Types
  import opened Machine
  import opened Lifecycle
  import opened Effects
  import opened Recovery

  /** What stays fixed over a task's life: its config snapshot and its provider. */
  datatype Setup = Setup(cfg: Config, deps: Deps)

  /** The stored rows, and the live supervisor if there is one. */
  datatype Core = Core(rec: Rec, sup: Option<Sup>)

  datatype Step =
    | Deliver(ev: Event, env: Env)
    | Crash
    | Recover(renv: RecoverEnv)

  /** The row of a task just created. */
  function FreshRec(id: string, mode: SessionMode, ref: Option<string>, now: Time): Rec {
    Rec(Task(id, mode, ref, Pending, 0, 0, None, None, None, 0, None, now, now), [], [])
  }

  predicate Fresh(c: Core) {
    c.sup.None? && c.rec == FreshRec(c.rec.task.id, c.rec.task.sessionMode, c.rec.task.sessionRef, c.rec.task.createdAt)
  }

  /** The loop ends, and the runtime with it, at an error or a terminal state. */
  function Survivor(out: Out): Option<Sup> {
    if out.ok && !Terminal(out.sup.task.status) then Some(out.sup) else None
  }

  function Next(w: Setup, c: Core, step: Step): Core {
    match step
    case Deliver(ev, env) =>
      if c.sup.None? then c
      else
        var out := Handle(w.deps, c.sup.value, c.rec, ev, env);
        Core(out.rec, Survivor(out))
    case Crash => c.(sup := None)
    case Recover(renv) =>
      if c.sup.Some? || Terminal(c.rec.task.status) then c
      else
        var r := ReconcileTask(w.cfg, c.rec, renv);
        Core(r.rec, r.sup)
  }

  function Run(w: Setup, c: Core, steps: seq<Step>): Core {
    if steps == [] then c else Next(w, Run(w, c, steps[..|steps| - 1]), steps[|steps| - 1])
  }

  lemma RunStep(w: Setup, c: Core, steps: seq<Step>, step: Step)
    ensures Run(w, c, steps + [step]) == Next(w, Run(w, c, steps), step)
  {
    assert (steps + [step])[..|steps|] == steps;
  }

  lemma {:induction false} RunSplit(w: Setup, c: Core, xs: seq<Step>, ys: seq<Step>)
    ensures Run(w, c, xs + ys) == Run(w, Run(w, c, xs), ys)
  {
    if ys == [] {
      assert xs + ys == xs;
    } else {
      RunSplit(w, c, xs, ys[..|ys| - 1]);
      assert (xs + ys)[..|xs + ys| - 1] == xs + ys[..|ys| - 1];
    }
  }

  /** Events taken off a queue one after another. */
  function Deliveries(queue: seq<(Event, Env)>): (steps: seq<Step>)
    ensures |steps| == |queue|
  {
    seq(|queue|, i requires 0 <= i < |queue| => Deliver(queue[i].0, queue[i].1))
  }

  /** With no supervisor left nothing is delivered. */
  lemma {:induction false} NobodyHandles(w: Setup, c: Core, queue: seq<(Event, Env)>)
    requires c.sup.None?
    ensures Run(w, c, Deliveries(queue)) == c
  {
    if queue != [] {
      NobodyHandles(w, c, queue[..|queue| - 1]);
      assert Deliveries(queue)[..|queue| - 1] == Deliveries(queue[..|queue| - 1]);
    }
  }

  lemma DeliverNext(w: Setup, c: Core, queue: seq<(Event, Env)>, n: nat)
    requires n < |queue|
    ensures Run(w, c, Deliveries(queue[..n + 1])) ==
            Next(w, Run(w, c, Deliveries(queue[..n])), Deliver(queue[n].0, queue[n].1))
  {
    assert Deliveries(queue[..n + 1])[..n] == Deliveries(queue[..n]);
  }

  /** The rows, and the supervisor while its loop runs. */
  function Alive(s: Sup, rec: Rec, running: bool): Core {
    Core(rec, if running && !Terminal(s.task.status) then Some(s) else None)
  }

  /** One turn of the loop: the next event is delivered, and the loop goes on unless that
      fails or ends the task. */
  lemma LoopTurn(w: Setup, c: Core, queue: seq<(Event, Env)>, n: nat, s: Sup, rec: Rec)
    requires n < |queue| && Good(w.deps, s, rec) && !Terminal(s.task.status)
    requires Run(w, c, Deliveries(queue[..n])) == Alive(s, rec, true)
    ensures var out := Handle(w.deps, s, rec, queue[n].0, queue[n].1);
            && RecInv(out.rec) && (out.ok ==> Good(w.deps, out.sup, out.rec))
            && Run(w, c, Deliveries(queue[..n + 1])) == Alive(out.sup, out.rec, out.ok)
            && (!out.ok ==> Run(w, c, Deliveries(queue)) == Alive(out.sup, out.rec, out.ok))
  {
    var out := Handle(w.deps, s, rec, queue[n].0, queue[n].1);
    HandleKeeps(w.deps, s, rec, queue[n].0, queue[n].1);
    DeliverNext(w, c, queue, n);
    if !out.ok {
      DeliverRest(w, c, queue, n + 1);
    }
  }

  /** Once the loop has ended, the rest of the queue changes nothing. */
  lemma DeliverRest(w: Setup, c: Core, queue: seq<(Event, Env)>, n: nat)
    requires n <= |queue| && Run(w, c, Deliveries(queue[..n])).sup.None?
    ensures Run(w, c, Deliveries(queue)) == Run(w, c, Deliveries(queue[..n]))
  {
    assert Deliveries(queue) == Deliveries(queue[..n]) + Deliveries(queue[n..]);
    RunSplit(w, c, Deliveries(queue[..n]), Deliveries(queue[n..]));
    NobodyHandles(w, Run(w, c, Deliveries(queue[..n])), queue[n..]);
  }

  // ---- Soundness of every run ----

  /** The policy was built from this config, at some time. */
  predicate FromConfig(cfg: Config, p: SupPolicy) {
    && Parses(cfg)
    && var q := BuildPolicy(cfg, 0).value;
       && p == q.(scheduler := q.scheduler.(deadline := p.scheduler.deadline))
       && (p.scheduler.deadline.Some? <==> q.scheduler.deadline.Some?)
       && (!cfg.deadline.Relative? ==> p == q)
  }

  predicate CoreInv(w: Setup, c: Core) {
    && RecInv(c.rec)
    && (c.sup.Some? ==>
          Agrees(w.deps, c.sup.value, c.rec) && !Terminal(c.rec.task.status) && FromConfig(w.cfg, c.sup.value.policy))
  }

  lemma NextKeepsInv(w: Setup, c: Core, step: Step)
    requires CoreInv(w, c)
    ensures CoreInv(w, Next(w, c, step))
  {
    match step
    case Deliver(ev, env) =>
      if c.sup.Some? {
        HandleKeeps(w.deps, c.sup.value, c.rec, ev, env);
        HandleMoves(w.deps, c.sup.value, c.rec, ev, env);
      }
    case Crash =>
    case Recover(renv) =>
      if c.sup.None? && !Terminal(c.rec.task.status) {
        ReconcileKeeps(w.deps, w.cfg, c.rec, renv);
        if Parses(w.cfg) {
          OnlyRelativeDeadlineMoves(w.cfg, 0, renv.startAt);
        }
      }
  }

  lemma {:induction false} RunFromKeepsInv(w: Setup, c: Core, steps: seq<Step>)
    requires CoreInv(w, c)
    ensures CoreInv(w, Run(w, c, steps))
  {
    if steps != [] {
      RunFromKeepsInv(w, c, steps[..|steps| - 1]);
      NextKeepsInv(w, Run(w, c, steps[..|steps| - 1]), steps[|steps| - 1]);
    }
  }

  lemma RunKeepsInv(w: Setup, c: Core, steps: seq<Step>)
    requires Fresh(c)
    ensures CoreInv(w, Run(w, c, steps))
  {
    RunFromKeepsInv(w, c, steps);
  }

  /** After any run, whatever failed and wherever it crashed, replaying the event log
      from creation gives exactly the stored status, attempt count, wake time, last
      outcome and exit reason. */
  lemma LogReplaysToRow(w: Setup, c: Core, steps: seq<Step>)
    requires Fresh(c)
    ensures var rec := Run(w, c, steps).rec;
            Replay(rec.log) == SummaryOf(rec.task)
  {
    RunKeepsInv(w, c, steps);
  }

  /** A crash at any point of any run leaves sound rows; recovering then yields a
      task that is not RUNNING and has a supervisor agreeing with its rows, exactly
      when config, provider, rules and database let it. */
  lemma CrashAnywhereRecovers(w: Setup, c: Core, steps: seq<Step>, renv: RecoverEnv)
    requires Fresh(c) && !Terminal(Run(w, c, steps).rec.task.status)
    ensures var crashed := Run(w, c, steps + [Crash]);
            var back := Run(w, c, steps + [Crash] + [Recover(renv)]);
            && crashed.rec == Run(w, c, steps).rec && RecInv(crashed.rec)
            && RecInv(back.rec)
            && (back.sup.Some? <==> ReconcileTask(w.cfg, crashed.rec, renv).ok)
            && (back.sup.Some? ==>
                  !back.rec.task.status.Running? && Agrees(w.deps, back.sup.value, back.rec))
  {
    RunKeepsInv(w, c, steps);
    RunStep(w, c, steps, Crash);
    RunStep(w, c, steps + [Crash], Recover(renv));
    ReconcileKeeps(w.deps, w.cfg, Run(w, c, steps).rec, renv);
  }

  // ---- History only grows ----

  lemma NextExtends(w: Setup, c: Core, step: Step)
    requires CoreInv(w, c)
    ensures Extends(c.rec, Next(w, c, step).rec)
  {
    if step.Deliver? && c.sup.Some? {
      HandleMoves(w.deps, c.sup.value, c.rec, step.ev, step.env);
    }
  }

  lemma {:induction false} RunFromExtends(w: Setup, c: Core, steps: seq<Step>)
    requires CoreInv(w, c)
    ensures Extends(c.rec, Run(w, c, steps).rec)
  {
    if steps != [] {
      var front := steps[..|steps| - 1];
      RunFromExtends(w, c, front);
      RunFromKeepsInv(w, c, front);
      NextExtends(w, Run(w, c, front), steps[|steps| - 1]);
    }
  }

  /** The log is append-only over any continuation, attempts are never removed, and
      a terminal task is final. */
  lemma RunExtends(w: Setup, c: Core, steps: seq<Step>, more: seq<Step>)
    requires Fresh(c)
    ensures Extends(Run(w, c, steps).rec, Run(w, c, steps + more).rec)
  {
    RunSplit(w, c, steps, more);
    RunKeepsInv(w, c, steps);
    RunFromExtends(w, Run(w, c, steps), more);
  }

  // ---- The attempt budget ----

  /** The two ways a run can go beyond a cap of `max` attempts, once it has made that many:
      a resume from PAUSED, and the recovery of an interrupted attempt. */
  predicate Exempt(max: int, before: Core, step: Step, after: Core) {
    && before.rec.task.totalAttempts >= max
    && (|| (step.Deliver? && step.ev.UserResume? && before.rec.task.status.Paused?
            && after.rec.task.totalAttempts > before.rec.task.totalAttempts)
        || (step.Recover? && before.rec.task.status.Running? && after.rec.task.status.Waiting?))
  }

  function Exemptions(w: Setup, c: Core, steps: seq<Step>): nat {
    if steps == [] then 0
    else
      var front := steps[..|steps| - 1];
      var mid := Run(w, c, front);
      var last := steps[|steps| - 1];
      Exemptions(w, c, front) + if Exempt(w.cfg.maxAttempts, mid, last, Next(w, mid, last)) then 1 else 0
  }

  lemma NextIsLegal(w: Setup, c: Core, step: Step)
    requires CoreInv(w, c)
    ensures var n := Next(w, c, step);
            && LegalMove(c.rec.task, n.rec.task)
            && (c.rec.task.status.Running? && n.rec.task.status.Waiting? && step.Deliver? && w.cfg.maxAttempts != 0
                ==> c.rec.task.totalAttempts < w.cfg.maxAttempts)
            && (c.rec.task.status.Paused? && n.rec.task.status.Running? ==> step.Deliver? && step.ev.UserResume?)
  {
    if step.Deliver? && c.sup.Some? {
      HandleMoves(w.deps, c.sup.value, c.rec, step.ev, step.env);
    }
  }

  /** With max_attempts = M >= 1 a run never makes more than M attempts beyond its
      exempt steps, all of them taken with M attempts or more made, and never waits for an
      attempt beyond that budget. */
  lemma {:induction false} AttemptBudget(w: Setup, c: Core, steps: seq<Step>)
    requires Fresh(c) && w.cfg.maxAttempts >= 1
    ensures var t := Run(w, c, steps).rec.task;
            var k := Exemptions(w, c, steps);
            && t.totalAttempts <= w.cfg.maxAttempts + k
            && (t.status.Waiting? ==> t.totalAttempts <= w.cfg.maxAttempts + k - 1)
            && (t.status.Pending? ==> t.totalAttempts == 0)
  {
    if steps != [] {
      var front := steps[..|steps| - 1];
      AttemptBudget(w, c, front);
      RunKeepsInv(w, c, front);
      NextIsLegal(w, Run(w, c, front), steps[|steps| - 1]);
    }
  }

  // ---- Finitely many transitions ----

  function Changes(w: Setup, c: Core, steps: seq<Step>): nat {
    if steps == [] then 0
    else
      var front := steps[..|steps| - 1];
      Changes(w, c, front) +
      if Run(w, c, front).rec.task.status != Run(w, c, steps).rec.task.status then 1 else 0
  }

  function Rank(s: Status): nat {
    match s
    case Pending => 3
    case Running => 3
    case Waiting => 2
    case Paused => 1
    case _ => 0
  }

  /** A measure for a run that may make at most `budget` attempts. */
  function Measure(budget: int, t: Task): int {
    4 * (budget - t.totalAttempts) + Rank(t.status)
  }

  /** Every status change decreases the measure, and nothing increases it. */
  lemma ChangeDecreases(w: Setup, c: Core, step: Step, budget: int)
    requires CoreInv(w, c)
    ensures var n := Next(w, c, step);
            && Measure(budget, n.rec.task) <= Measure(budget, c.rec.task)
            && (n.rec.task.status != c.rec.task.status ==> Measure(budget, n.rec.task) < Measure(budget, c.rec.task))
  {
    NextIsLegal(w, c, step);
  }

  /** A run makes at most 4 * (M + k) + 3 status changes, k being its exemptions: a
      run that is resumed and interrupted finitely often comes to rest. */
  lemma {:induction false} FinitelyManyChanges(w: Setup, c: Core, steps: seq<Step>)
    requires Fresh(c) && w.cfg.maxAttempts >= 1
    ensures var t := Run(w, c, steps).rec.task;
            Changes(w, c, steps) + Rank(t.status) <= 4 * t.totalAttempts + 3
    ensures Changes(w, c, steps) <= 4 * (w.cfg.maxAttempts + Exemptions(w, c, steps)) + 3
  {
    AttemptBudget(w, c, steps);
    if steps != [] {
      var front := steps[..|steps| - 1];
      FinitelyManyChanges(w, c, front);
      RunKeepsInv(w, c, front);
      ChangeDecreases(w, Run(w, c, front), steps[|steps| - 1], 0);
    }
  }
}
