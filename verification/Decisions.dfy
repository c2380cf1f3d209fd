/** What an exit leads to, end to end: from the rules a task is configured with and the
    tail of its child's output to the status that is committed. */
module Decisions {
  import opened Types
  import opened Machine
  import opened Lifecycle
  import opened Transitions
  import Detect
  import Scheduler

  /** The supervisor's engine is the one startRuntime builds from these rules. */
  ghost predicate BuiltFrom(d: Deps, builtin: seq<Detect.Rule>, user: seq<Detect.Rule>) {
    && Detect.Compiles(d.oracle, Detect.EngineRules(builtin, user))
    && d.engine == Detect.CompileAll(d.oracle, Detect.EngineRules(builtin, user))
  }

  function ScannedInput(p: SupPolicy, o: AttemptOutput): Detect.Input {
    Detect.Input(o.exitCode, Detect.Tail(o.stdout, p.scanBytes), Detect.Tail(o.stderr, p.scanBytes))
  }

  /** What the best matching rule among the merged slots says of the scanned output: its
      category, its name, and the reset time its extractor names. */
  ghost predicate Decided(d: Deps, p: SupPolicy, o: AttemptOutput, builtin: seq<Detect.Rule>, user: seq<Detect.Rule>,
                          now: Time, r: Detect.DetectResult) {
    var slots := Detect.PreSort(builtin, user);
    var input := ScannedInput(p, o);
    if exists j :: 0 <= j < |slots| && Detect.RuleMatches(d.oracle, slots[j], input)
    then exists w :: && Detect.Wins(d.oracle, slots, input, w)
                     && r.category == slots[w].category && r.matchedRule == slots[w].name
                     && Detect.ResetIsNamed(d.oracle, slots[w], input, now, d.zone, r.resetAt)
    else r == Detect.DetectResult(Unknown, "", None)
  }

  lemma ClassifiedByWinner(d: Deps, p: SupPolicy, o: AttemptOutput, builtin: seq<Detect.Rule>, user: seq<Detect.Rule>,
                           now: Time)
    requires BuiltFrom(d, builtin, user) && Detect.ReadsDays(d.oracle)
    ensures Decided(d, p, o, builtin, user, now, Classify(d, p, o, now))
  {
    var w := Detect.ClassifyReportsWinner(d.oracle, builtin, user, ScannedInput(p, o), now, d.zone);
  }

  /** The wait so far and the proposed one, as the design adds them. */
  function DesignCap(s: Sup, r: Detect.DetectResult, env: Env): Scheduler.Cap {
    Scheduler.DocumentedCap(s.policy.scheduler, s.task.totalAttempts, env.at, s.task.cumulativeWaitMs * NS_PER_MS,
                            Proposed(s.policy.scheduler, s.task, r.resetAt, env) - env.at)
  }

  /** A sane policy and draw, and a wait so far that an int64 of nanoseconds holds. */
  predicate InRange(s: Sup, env: Env) {
    && Scheduler.Sane(s.policy.scheduler) && 0.0 <= env.draw < 1.0
    && 0 <= s.task.cumulativeWaitMs * NS_PER_MS <= MAX_INT64
  }

  lemma CapIsDesignedIff(s: Sup, r: Detect.DetectResult, env: Env)
    requires InRange(s, env) && Outcome(s.policy.onUnknown, r.category, false) == Waiting
    ensures CapHit(s, r, env) == DesignCap(s, r, env) <==> CapExact(s, r, env)
  {
    var p := s.policy.scheduler;
    var wake := ProposedWake(s, r, env);
    Scheduler.NextWakeBounds(p, s.task.totalAttempts, r.resetAt, env.at, env.draw);
    if wake >= env.at {
      Scheduler.CapAtExitIff(p, s.task.totalAttempts, env.at, s.task.cumulativeWaitMs * NS_PER_MS, wake);
    }
  }

  /** The two caps differ only in whether the total-wait cap is seen. */
  lemma CapsDifferOnTotal(s: Sup, r: Detect.DetectResult, env: Env)
    ensures CapHit(s, r, env) == DesignCap(s, r, env)
            <==> (CapHit(s, r, env).CapNone? <==> DesignCap(s, r, env).CapNone?)
  {
  }

  /** An exit of a RUNNING task is recorded as the best matching rule says, with all that
      follows from it. Once committed it leads where that rule and the documented caps say
      exactly when the outcome or an earlier cap decides, no total-wait cap is set, or the
      total fits. */
  lemma ExitIsDecided(d: Deps, s: Sup, rec: Rec, o: AttemptOutput, env: Env,
                      builtin: seq<Detect.Rule>, user: seq<Detect.Rule>) returns (r: Detect.DetectResult)
    requires Good(d, s, rec) && rec.task.status.Running? && BuiltFrom(d, builtin, user)
    requires InRange(s, env) && Detect.ReadsDays(d.oracle)
    ensures var out := Handle(d, s, rec, AttemptExit(o), env);
            && Decided(d, s.policy, o, builtin, user, env.at, r)
            && ExitLeaves(d, s, rec, o, r, env, out)
            && (out.ok ==>
                  (out.rec.task.status == Outcome(s.policy.onUnknown, r.category, !DesignCap(s, r, env).CapNone?)
                   <==> CapExact(s, r, env)))
  {
    r := Classify(d, s.policy, o, env.at);
    ClassifiedByWinner(d, s.policy, o, builtin, user, env.at);
    ExitDoes(d, s, rec, o, env);
    VerdictIs(s, r, env);
    if Outcome(s.policy.onUnknown, r.category, false) == Waiting {
      CapIsDesignedIff(s, r, env);
      CapsDifferOnTotal(s, r, env);
    }
  }
}
