/** Child exits: every exit is recorded against the attempt whose child it was as long
    as a paused task is resumed only when none of its children can still report; and
    only one attempt is ever open if it is resumed only once its attempt is closed. */
module Exits {
  import opened Types
  import opened Machine
  import opened Lifecycle
  import opened Effects
  import opened Recovery
  import opened Runs
  import opened System
  import opened Attempts
  import Timers

  predicate NoExits(q: seq<Queued>) {
    forall k :: 0 <= k < |q| ==> !q[k].Exit?
  }

  /** The k-th event is the exit of attempt `no`, and the only exit. */
  predicate ExitAt(q: seq<Queued>, no: int, k: int) {
    0 <= k < |q| && q[k].Exit? && q[k].attemptNo == no && NoExits(q[..k]) && NoExits(q[k + 1..])
  }

  /** Exactly one exit is queued, that of attempt `no`. */
  ghost predicate OneExit(q: seq<Queued>, no: int) {
    exists k :: ExitAt(q, no, k)
  }

  /** The child of the latest attempt is alive, or its exit is queued; nothing else is. */
  ghost predicate Outstanding(s: State) {
    || (s.children == {s.rec.task.totalAttempts} && NoExits(s.queue))
    || (s.children == {} && OneExit(s.queue, s.rec.task.totalAttempts))
  }

  predicate Quiet(s: State) {
    s.children == {} && NoExits(s.queue)
  }

  /** A child that has not reported is the latest attempt's, and only a task that is
      RUNNING or PAUSED on it has one. */
  ghost predicate ExitInv(s: State) {
    var status := s.rec.task.status;
    && (s.starting ==> s.children == {})
    && (s.sup.Some? ==>
          && (status.Running? ==> Outstanding(s))
          && (status.Pending? || status.Waiting? ==> Quiet(s))
          && (status.Paused? ==> Quiet(s) || (Outstanding(s) && s.sup.value.current.Some?)))
  }

  /** This move handles a resume of a paused task. */
  predicate Resumes(s: State, m: Move) {
    m.HandleNext? && s.sup.Some? && s.queue != [] && s.queue[0] == Other(UserResume) && s.rec.task.status.Paused?
  }

  ghost predicate QuietRun(w: Setup, s: State, moves: seq<Move>)
    requires Sound(w, s)
  {
    moves == [] ||
    (var front := moves[..|moves| - 1];
     var here := RunAll(w, s, front);
     QuietRun(w, s, front) && (Resumes(here, moves[|moves| - 1]) ==> Quiet(here)))
  }

  // ---- One exit in a queue ----

  lemma NoExitsRest(q: seq<Queued>)
    requires q != [] && NoExits(q)
    ensures NoExits(q[1..])
  {
  }

  /** Popping an event that is not the exit keeps it queued; popping it leaves none. */
  lemma PopExit(q: seq<Queued>, no: int)
    requires OneExit(q, no)
    ensures q != []
    ensures q[0].Exit? ==> q[0].attemptNo == no && NoExits(q[1..])
    ensures !q[0].Exit? ==> OneExit(q[1..], no)
  {
    var k :| ExitAt(q, no, k);
    if k > 0 {
      assert q[..k][0] == q[0];
      PopAt(q, no, k);
    }
  }

  lemma PopAt(q: seq<Queued>, no: int, k: int)
    requires ExitAt(q, no, k) && k > 0
    ensures ExitAt(q[1..], no, k - 1)
  {
    assert q[1..][..k - 1] == q[..k][1..];
    assert q[1..][k..] == q[k + 1..];
  }

  lemma PushNone(q: seq<Queued>, item: Queued)
    requires !item.Exit? && NoExits(q)
    ensures NoExits(q + [item])
  {
  }

  lemma SliceOfPush(q: seq<Queued>, item: Queued, k: int)
    requires 0 <= k < |q|
    ensures (q + [item])[..k] == q[..k] && (q + [item])[k + 1..] == q[k + 1..] + [item]
  {
  }

  lemma PushAt(q: seq<Queued>, item: Queued, no: int, k: int)
    requires !item.Exit? && ExitAt(q, no, k)
    ensures ExitAt(q + [item], no, k)
  {
    SliceOfPush(q, item, k);
    PushNone(q[k + 1..], item);
  }

  lemma PushOther(q: seq<Queued>, item: Queued, no: int)
    requires !item.Exit?
    ensures NoExits(q) ==> NoExits(q + [item])
    ensures OneExit(q, no) ==> OneExit(q + [item], no)
  {
    if NoExits(q) {
      PushNone(q, item);
    }
    if OneExit(q, no) {
      var k :| ExitAt(q, no, k);
      PushAt(q, item, no, k);
    }
  }

  lemma PushExit(q: seq<Queued>, no: int, o: AttemptOutput)
    requires NoExits(q)
    ensures OneExit(q + [Exit(no, o)], no)
  {
    var p := q + [Exit(no, o)];
    assert p[..|q|] == q && p[|q| + 1..] == [];
    assert ExitAt(p, no, |q|);
  }

  // ---- Each step keeps exits with their attempts ----

  lemma ChildMoves(w: Setup, s: State, m: Move)
    requires Sound(w, s) && ExitInv(s) && Enabled(s, m) && m.ChildExits?
    ensures ExitInv(Advance(w, s, m)) && (s.sup.Some? ==> !Quiet(s))
  {
    var no := s.rec.task.totalAttempts;
    if NoExits(s.queue) {
      PushExit(s.queue, m.attemptNo, m.output);
    }
    assert s.sup.Some? ==> s.children == {no};
  }

  lemma QuietMoves(w: Setup, s: State, m: Move)
    requires Sound(w, s) && ExitInv(s) && Enabled(s, m)
    requires !m.HandleNext? && !m.Starts? && !m.ChildExits?
    ensures ExitInv(Advance(w, s, m)) && (m.Crashes? || (Quiet(s) ==> Quiet(Advance(w, s, m))))
  {
    var no := s.rec.task.totalAttempts;
    match m
    case Post(ev) => PushOther(s.queue, Other(ev), no);
    case FireArm(a) => PushOther(s.queue, Fire(a), no);
    case _ =>
  }

  /** The queue and the children after one event that the supervisor survives. */
  lemma QueueAfter(d: Deps, s: State, t: State, out: Out, env: Env)
    requires ExitInv(s) && s.sup.Some? && !Terminal(s.rec.task.status) && s.queue != []
    requires Agrees(d, s.sup.value, s.rec)
    requires s.queue[0].Other? ==> Posted(s.queue[0].ev)
    requires t.rec == out.rec && t.sup == Some(out.sup) && t.queue == s.queue[1..]
    requires t.children == s.children + SpawnedBy(out.calls) && out.ok
    requires RowsFollow(s.sup.value, s.rec, EventOf(s.queue[0]), env, out) && LegalMove(s.rec.task, out.rec.task)
    requires s.rec.task.status.Paused? && out.rec.task.status.Running? ==> Quiet(s)
    ensures t.rec.task.status.Running? ==> Outstanding(t)
    ensures t.rec.task.status.Pending? || t.rec.task.status.Waiting? ==> Quiet(t)
    ensures t.rec.task.status.Paused? ==>
              || Quiet(t)
              || (Outstanding(t) && t.sup.value.current.Some? && !Quiet(s) && t.rec.attempts == s.rec.attempts)
  {
    if OneExit(s.queue, s.rec.task.totalAttempts) {
      PopExit(s.queue, s.rec.task.totalAttempts);
    }
    if NoExits(s.queue) {
      NoExitsRest(s.queue);
    }
    var before := s.rec.task.status;
    if !before.Running? && t.rec.task.status.Running? {
      assert Quiet(s);
    } else if s.queue[0].Exit? {
      assert before.Running? || before.Paused?;
      assert Quiet(t);
    } else {
      assert t.children == s.children;
      assert Outstanding(s) ==> Outstanding(t);
      assert Quiet(s) ==> Quiet(t);
    }
  }

  lemma HandleMoveExits(w: Setup, s: State, env: Env)
    requires Sound(w, s) && ExitInv(s) && Enabled(s, HandleNext(env))
    requires Resumes(s, HandleNext(env)) ==> Quiet(s)
    ensures var t := Advance(w, s, HandleNext(env));
            && ExitInv(t)
            && (t.sup.Some? && t.rec.task.status.Paused? ==>
                  Quiet(t) || (!Quiet(s) && t.rec.attempts == s.rec.attempts))
  {
    var sup := s.sup.value;
    var ev := EventOf(s.queue[0]);
    var out := Handle(w.deps, sup, s.rec, ev, env);
    HandleRows(w.deps, sup, s.rec, ev, env);
    HandleMoves(w.deps, sup, s.rec, ev, env);
    HandleKeeps(w.deps, sup, s.rec, ev, env);
    if Survivor(out).Some? {
      QueueAfter(w.deps, s, Advance(w, s, HandleNext(env)), out, env);
    }
  }

  lemma StartMoveExits(w: Setup, s: State, renv: RecoverEnv)
    requires Sound(w, s) && ExitInv(s) && Enabled(s, Starts(renv))
    ensures ExitInv(Advance(w, s, Starts(renv)))
    ensures var t := Advance(w, s, Starts(renv)); t.sup.Some? ==> Quiet(t)
  {
    if !Terminal(s.rec.task.status) {
      ReconcileKeeps(w.deps, w.cfg, s.rec, renv);
    }
  }

  /** On every run that resumes a paused task only when none of its children is alive or
      has an exit queued, whatever attempt rows are open: at most one child or queued
      exit is outstanding, that of the latest attempt. */
  lemma {:induction false} ExitsStayInv(w: Setup, c: Core, now: Time, moves: seq<Move>)
    requires Fresh(c) && QuietRun(w, Begin(w, c, now), moves)
    ensures ExitInv(RunAll(w, Begin(w, c, now), moves))
  {
    if moves != [] {
      var front := moves[..|moves| - 1];
      var m := moves[|moves| - 1];
      ExitsStayInv(w, c, now, front);
      var s := RunAll(w, Begin(w, c, now), front);
      if Enabled(s, m) {
        match m
        case HandleNext(env) => HandleMoveExits(w, s, env);
        case Starts(renv) => StartMoveExits(w, s, renv);
        case ChildExits(_, _) => ChildMoves(w, s, m);
        case _ => QuietMoves(w, s, m);
      }
    }
  }

  /** The queued exit at the head is that of the latest attempt, and handling it closes
      that attempt's row alone. */
  predicate FindsItsAttempt(w: Setup, s: State, env: Env)
    requires s.sup.Some? && s.queue != [] && s.queue[0].Exit?
  {
    var out := Handle(w.deps, s.sup.value, s.rec, EventOf(s.queue[0]), env);
    && (s.rec.task.status.Running? || s.rec.task.status.Paused?)
    && (out.ok ==>
          && LastClosed(s.rec, s.queue[0].output, env.at, out.rec)
          && LastRow(s.rec).attemptNo == s.queue[0].attemptNo)
  }

  lemma HeadExitFindsIt(w: Setup, s: State, env: Env)
    requires Sound(w, s) && ExitInv(s) && Enabled(s, HandleNext(env)) && s.queue[0].Exit?
    ensures FindsItsAttempt(w, s, env)
  {
    HandleRows(w.deps, s.sup.value, s.rec, EventOf(s.queue[0]), env);
    if OneExit(s.queue, s.rec.task.totalAttempts) {
      PopExit(s.queue, s.rec.task.totalAttempts);
    }
  }

  /** On such runs the exit of a child, once handled and committed, is recorded on the
      row of the attempt that spawned it, and on no other row. */
  lemma ExitFindsItsAttempt(w: Setup, c: Core, now: Time, moves: seq<Move>, env: Env)
    requires Fresh(c) && QuietRun(w, Begin(w, c, now), moves)
    requires var s := RunAll(w, Begin(w, c, now), moves);
             Enabled(s, HandleNext(env)) && s.queue[0].Exit?
    ensures FindsItsAttempt(w, RunAll(w, Begin(w, c, now), moves), env)
  {
    ExitsStayInv(w, c, now, moves);
    HeadExitFindsIt(w, RunAll(w, Begin(w, c, now), moves), env);
  }

  // ---- What a stop's kill reaches ----

  /** Every live child is the one in the runtime's process slot. */
  predicate KillReaches(s: State) {
    s.sup.Some? ==> forall no :: no in s.children ==> s.tracked == Some(no)
  }

  predicate SpawnLeads(calls: seq<HostCall>) {
    forall k :: 1 <= k < |calls| ==> !calls[k].Spawned?
  }

  lemma StartLeads(d: Deps, s: Sup, rec: Rec, cause: Cause, env: Env, timer: TimerAct)
    ensures SpawnLeads(SpawnAttempt(d, s, rec, cause, env, timer).calls)
  {
  }

  lemma ExitCallsNothing(d: Deps, s: Sup, rec: Rec, o: AttemptOutput, env: Env)
    ensures HandleExit(d, s, rec, o, env).calls == []
  {
    var to, reason := ExitShape(d, s, rec, o, env);
  }

  /** A call spawns one child at most, and before anything else. */
  lemma SpawnsFirst(d: Deps, s: Sup, rec: Rec, ev: Event, env: Env)
    ensures SpawnLeads(Handle(d, s, rec, ev, env).calls)
  {
    match ev
    case Start => StartLeads(d, s, rec, StartCause, env, KeepTimer);
    case TimerFire => StartLeads(d, LeaveWait(s, env.wakeAt), rec, TimerCause, env, CancelTimer);
    case AvailabilityOk => StartLeads(d, LeaveWait(s, env.wakeAt), rec, AvailabilityCause, env, CancelTimer);
    case UserResume => StartLeads(d, LeaveWait(s, env.wakeAt), rec, ResumeCause, env, CancelTimer);
    case AttemptExit(o) => ExitCallsNothing(d, s, rec, o, env);
    case UserPause =>
    case UserStop =>
  }

  lemma SpawnedThenTracked(calls: seq<HostCall>, tracked: Option<int>)
    requires SpawnLeads(calls)
    ensures SpawnedBy(calls) == {} ==> TrackedAfter(calls, tracked) == tracked
    ensures forall no :: SpawnedBy(calls) == {no} ==> TrackedAfter(calls, tracked) == Some(no)
  {
    if calls != [] && calls[0].Spawned? {
      assert calls[0].attemptNo in SpawnedBy(calls);
    }
  }

  lemma HandleMoveTracks(w: Setup, s: State, env: Env)
    requires Sound(w, s) && ExitInv(s) && KillReaches(s) && Enabled(s, HandleNext(env))
    requires Resumes(s, HandleNext(env)) ==> Quiet(s)
    ensures KillReaches(Advance(w, s, HandleNext(env)))
  {
    var sup, ev := s.sup.value, EventOf(s.queue[0]);
    var out := Handle(w.deps, sup, s.rec, ev, env);
    if out.ok {
      HandleRows(w.deps, sup, s.rec, ev, env);
      HandleMoves(w.deps, sup, s.rec, ev, env);
      SpawnsFirst(w.deps, sup, s.rec, ev, env);
      SpawnedThenTracked(out.calls, s.tracked);
      KillReachesAfter(s, Advance(w, s, HandleNext(env)), out);
    }
  }

  lemma KillReachesAfter(s: State, t: State, out: Out)
    requires ExitInv(s) && KillReaches(s) && s.sup.Some?
    requires t.children == s.children + SpawnedBy(out.calls) && t.tracked == TrackedAfter(out.calls, s.tracked)
    requires || (SpawnedBy(out.calls) == {} && t.tracked == s.tracked)
             || (exists no :: SpawnedBy(out.calls) == {no} && t.tracked == Some(no) && Quiet(s))
    ensures KillReaches(t)
  {
  }

  /** On runs that resume only when no child can still report, a live child is always the
      one a kill would reach. */
  lemma {:induction false} KillReachesAll(w: Setup, c: Core, now: Time, moves: seq<Move>)
    requires Fresh(c) && QuietRun(w, Begin(w, c, now), moves)
    ensures KillReaches(RunAll(w, Begin(w, c, now), moves))
  {
    if moves != [] {
      var front := moves[..|moves| - 1];
      var m := moves[|moves| - 1];
      KillReachesAll(w, c, now, front);
      ExitsStayInv(w, c, now, front);
      var s := RunAll(w, Begin(w, c, now), front);
      if m.HandleNext? && Enabled(s, m) {
        HandleMoveTracks(w, s, m.env);
      } else {
        OtherMovesTrack(w, s, m);
      }
    }
  }

  lemma OtherMovesTrack(w: Setup, s: State, m: Move)
    requires Sound(w, s) && ExitInv(s) && KillReaches(s) && (m.HandleNext? ==> !Enabled(s, m))
    ensures KillReaches(Advance(w, s, m))
  {
    if m.ChildExits? && Enabled(s, m) && s.sup.Some? {
      assert s.children == {s.rec.task.totalAttempts};
    }
  }

  /** So a stop that is recorded leaves no child alive but the one it has killed: if any
      was alive, its kill was asked for, reported to succeed, and reached it. */
  lemma StopLeavesNone(w: Setup, c: Core, now: Time, moves: seq<Move>, env: Env)
    requires Fresh(c) && QuietRun(w, Begin(w, c, now), moves)
    requires var s := RunAll(w, Begin(w, c, now), moves);
             && Enabled(s, HandleNext(env))
             && Advance(w, s, HandleNext(env)).rec.task.status.Stopped?
    ensures var s := RunAll(w, Begin(w, c, now), moves);
            var t := Advance(w, s, HandleNext(env));
            t.children != {} ==>
              && t.children == s.children && s.tracked.Some? && s.children == {s.tracked.value}
              && env.killOk && Handle(w.deps, s.sup.value, s.rec, EventOf(s.queue[0]), env).calls == [Killed]
  {
    KillReachesAll(w, c, now, moves);
    ExitsStayInv(w, c, now, moves);
    StopKills(w, RunAll(w, Begin(w, c, now), moves), env);
  }

  lemma StopKills(w: Setup, s: State, env: Env)
    requires Sound(w, s) && ExitInv(s) && KillReaches(s) && Enabled(s, HandleNext(env))
    requires Advance(w, s, HandleNext(env)).rec.task.status.Stopped?
    ensures var t := Advance(w, s, HandleNext(env));
            t.children != {} ==>
              && t.children == s.children && s.tracked.Some? && s.children == {s.tracked.value}
              && env.killOk && Handle(w.deps, s.sup.value, s.rec, EventOf(s.queue[0]), env).calls == [Killed]
  {
    var ev := EventOf(s.queue[0]);
    if s.rec.task.status.Running? || s.rec.task.status.Paused? {
      StoppedMeansKilled(w.deps, s.sup.value, s.rec, ev, env);
    } else {
      HandleRows(w.deps, s.sup.value, s.rec, ev, env);
    }
  }

  // ---- Resuming too early ----

  /** A committed resume keeps exits with their attempts exactly when no child of the
      paused task is alive or has an exit queued. */
  lemma ResumeKeepsExitsIff(w: Setup, s: State, env: Env)
    requires Sound(w, s) && ExitInv(s) && Enabled(s, HandleNext(env)) && Resumes(s, HandleNext(env))
    requires var t := Advance(w, s, HandleNext(env)); t.sup.Some? && t.rec.task.status.Running?
    ensures ExitInv(Advance(w, s, HandleNext(env))) <==> Quiet(s)
  {
    if Quiet(s) {
      HandleMoveExits(w, s, env);
    } else {
      ResumedOver(w, s, env);
      var t := Advance(w, s, HandleNext(env));
      var n := s.rec.task.totalAttempts;
      if OneExit(s.queue, n) {
        PopExit(s.queue, n);
        assert !NoExits(t.queue);
      } else {
        assert n in t.children;
      }
    }
  }

  /** What such a resume leaves: the next attempt's child beside the old one. */
  lemma ResumedOver(w: Setup, s: State, env: Env)
    requires Sound(w, s) && Enabled(s, HandleNext(env)) && Resumes(s, HandleNext(env))
    requires var t := Advance(w, s, HandleNext(env)); t.sup.Some? && t.rec.task.status.Running?
    ensures var t := Advance(w, s, HandleNext(env));
            var n := s.rec.task.totalAttempts;
            && t.rec.task.totalAttempts == n + 1
            && t.children == s.children + {n + 1} && t.queue == s.queue[1..]
  {
    var ev := EventOf(s.queue[0]);
    HandleRows(w.deps, s.sup.value, s.rec, ev, env);
    HandleMoves(w.deps, s.sup.value, s.rec, ev, env);
  }

  /** The exit of attempt n is next, and handling it closes the row of attempt n + 1. */
  predicate Misrecords(w: Setup, s: State, env: Env, n: int) {
    && Timers.Inv(s.timers) && Enabled(s, HandleNext(env)) && s.queue[0].Exit? && s.queue[0].attemptNo == n
    && var out := Handle(w.deps, s.sup.value, s.rec, EventOf(s.queue[0]), env);
       && out.ok && LastClosed(s.rec, s.queue[0].output, env.at, out.rec)
       && LastRow(out.rec).attemptNo == n + 1
  }

  lemma RunningMisrecords(w: Setup, s: State, n: int)
    requires Sound(w, s) && s.sup.Some? && s.rec.task.status.Running? && s.rec.task.totalAttempts == n + 1
    requires s.queue != [] && s.queue[0].Exit? && s.queue[0].attemptNo == n
    ensures Misrecords(w, s, Instant(s.now), n)
  {
    AcceptedExit(w.deps, s.sup.value, s.rec, s.queue[0].output, Instant(s.now));
  }

  lemma AcceptedExit(d: Deps, s: Sup, rec: Rec, o: AttemptOutput, env: Env)
    requires Good(d, s, rec) && rec.task.status.Running? && env.fault.NoFault?
    ensures var out := Handle(d, s, rec, AttemptExit(o), env);
            out.ok && LastClosed(rec, o, env.at, out.rec) && LastRow(out.rec).attemptNo == rec.task.totalAttempts
  {
    ExitOkIff(d, s, rec, o, env);
    EveryExitClosesLatest(d, s, rec, o, env);
  }

  /** A RUNNING task ignores every queued event but an exit, a pause and a stop. */
  lemma RunningIgnores(w: Setup, s: State, k: nat)
    requires Sound(w, s) && s.sup.Some? && s.rec.task.status.Running? && k < |s.queue|
    requires !s.queue[k].Exit? && s.queue[k] != Other(UserPause) && s.queue[k] != Other(UserStop)
    ensures Ignored(w.deps, s, k)
  {
  }

  /** After a resume that came too early there is a continuation in which the old child's
      exit is recorded on the new attempt, unless a queued pause or stop forestalls it. */
  lemma EarlyResumeMisrecords(w: Setup, s: State, env: Env) returns (moves: seq<Move>)
    requires Sound(w, s) && ExitInv(s) && Enabled(s, HandleNext(env)) && Resumes(s, HandleNext(env)) && !Quiet(s)
    requires var t := Advance(w, s, HandleNext(env)); t.sup.Some? && t.rec.task.status.Running?
    requires forall k :: 1 <= k < |s.queue| ==> s.queue[k] != Other(UserPause) && s.queue[k] != Other(UserStop)
    ensures var t := Advance(w, s, HandleNext(env));
            && Sound(w, t)
            && var u := RunAll(w, t, moves);
               Misrecords(w, u, Instant(u.now), s.rec.task.totalAttempts)
  {
    var n := s.rec.task.totalAttempts;
    var t := Advance(w, s, HandleNext(env));
    NextKeepsSound(w, s, HandleNext(env));
    ResumedOver(w, s, env);
    if NoExits(s.queue) {
      moves := OldChildExits(w, t, n);
    } else {
      var k :| ExitAt(s.queue, n, k);
      PopAt(s.queue, n, k);
      moves := OldExitNext(w, t, n, k - 1);
    }
  }

  /** The old child is still alive: it exits once the queue has run down. */
  lemma OldChildExits(w: Setup, t: State, n: int) returns (moves: seq<Move>)
    requires Sound(w, t) && t.sup.Some? && t.rec.task.status.Running? && t.rec.task.totalAttempts == n + 1
    requires n in t.children && NoExits(t.queue)
    requires forall k :: 0 <= k < |t.queue| ==> t.queue[k] != Other(UserPause) && t.queue[k] != Other(UserStop)
    ensures var u := RunAll(w, t, moves); Misrecords(w, u, Instant(u.now), n)
  {
    var k := |t.queue|;
    forall i: nat | i < k ensures Ignored(w.deps, t, i) {
      RunningIgnores(w, t, i);
    }
    RunsDown(w, t, k);
    var exits := ChildExits(n, AttemptOutput(0, [], []));
    moves := Handlings(k, t.now) + [exits];
    RunAllStep(w, t, Handlings(k, t.now), exits);
    RunningMisrecords(w, RunAll(w, t, moves), n);
  }

  /** The old child's exit is already queued: it is next once what precedes it is gone. */
  lemma OldExitNext(w: Setup, t: State, n: int, k: nat) returns (moves: seq<Move>)
    requires Sound(w, t) && t.sup.Some? && t.rec.task.status.Running? && t.rec.task.totalAttempts == n + 1
    requires ExitAt(t.queue, n, k)
    requires forall i :: 0 <= i < k ==> t.queue[i] != Other(UserPause) && t.queue[i] != Other(UserStop)
    ensures var u := RunAll(w, t, moves); Misrecords(w, u, Instant(u.now), n)
  {
    forall i: nat | i < k ensures Ignored(w.deps, t, i) {
      assert t.queue[..k][i] == t.queue[i];
      RunningIgnores(w, t, i);
    }
    moves := Handlings(k, t.now);
    RunsDown(w, t, k);
    RunningMisrecords(w, RunAll(w, t, moves), n);
  }

  // ---- One open attempt ----

  predicate RowsInv(rec: Rec) {
    var status := rec.task.status;
    && AtMostLastOpen(rec)
    && (status.Running? ==> OnlyLastOpen(rec))
    && (status.Pending? || status.Waiting? || status.Succeeded? || status.Failed? ==> NoneOpen(rec))
  }

  ghost predicate SingleInv(s: State) {
    RowsInv(s.rec) && ExitInv(s) && (s.sup.Some? && s.rec.task.status.Paused? ==> Quiet(s) || OnlyLastOpen(s.rec))
  }

  /** A resume from PAUSED is handled only when no attempt row is open. */
  predicate Disciplined(s: State, m: Move) {
    Resumes(s, m) ==> NoneOpen(s.rec)
  }

  ghost predicate DisciplinedRun(w: Setup, s: State, moves: seq<Move>)
    requires Sound(w, s)
  {
    moves == [] ||
    (DisciplinedRun(w, s, moves[..|moves| - 1]) && Disciplined(RunAll(w, s, moves[..|moves| - 1]), moves[|moves| - 1]))
  }

  lemma HandleMoveSingle(w: Setup, s: State, env: Env)
    requires Sound(w, s) && SingleInv(s) && Enabled(s, HandleNext(env)) && Disciplined(s, HandleNext(env))
    ensures SingleInv(Advance(w, s, HandleNext(env)))
  {
    HandleMoveExits(w, s, env);
    var sup := s.sup.value;
    var ev := EventOf(s.queue[0]);
    HandleRows(w.deps, sup, s.rec, ev, env);
    HandleMoves(w.deps, sup, s.rec, ev, env);
    HandleKeeps(w.deps, sup, s.rec, ev, env);
    RowsAfter(s, sup, ev, env, Handle(w.deps, sup, s.rec, ev, env));
  }

  /** The rows' half of the invariant, after one event. */
  lemma RowsAfter(s: State, sup: Sup, ev: Event, env: Env, out: Out)
    requires RowsInv(s.rec) && s.sup == Some(sup) && RecInv(s.rec) && !Terminal(s.rec.task.status)
    requires s.queue != [] && ev == EventOf(s.queue[0]) && Disciplined(s, HandleNext(env))
    requires s.queue[0].Other? ==> Posted(s.queue[0].ev)
    requires RowsFollow(sup, s.rec, ev, env, out) && LegalMove(s.rec.task, out.rec.task) && RecInv(out.rec)
    requires s.rec.task.status.Paused? && out.rec.task.status.Running? ==> ev.UserResume?
    requires s.rec.task.status.Running? ==> sup.current.Some?
    ensures RowsInv(out.rec)
  {
    if out.ok && !s.rec.task.status.Running? && out.rec.task.status.Running? {
      assert NoneOpen(s.rec);
      forall i | 0 <= i < |out.rec.attempts| - 1 ensures out.rec.attempts[i].endedAt.Some? {
        assert out.rec.attempts[i] == out.rec.attempts[..|s.rec.attempts|][i];
      }
    }
  }

  lemma StartMoveSingle(w: Setup, s: State, renv: RecoverEnv)
    requires Sound(w, s) && SingleInv(s) && Enabled(s, Starts(renv))
    ensures SingleInv(Advance(w, s, Starts(renv)))
  {
    StartMoveExits(w, s, renv);
    if !Terminal(s.rec.task.status) {
      ReconcileKeeps(w.deps, w.cfg, s.rec, renv);
      if s.rec.task.status.Running? && ReconcileTask(w.cfg, s.rec, renv).rec != s.rec {
        RecoveryClosesLastIff(w.cfg, s.rec, renv);
        RecoveryClosesFirst(w.cfg, s.rec, renv);
      }
    }
  }

  /** On every run that resumes a paused task only once its attempt is closed: a
      RUNNING task has exactly one open attempt row, the latest; WAITING, SUCCEEDED and
      FAILED have none; PAUSED and STOPPED have at most that one; and at most one child
      or queued exit is outstanding, that of the latest attempt. */
  lemma {:induction false} SingleOpenAttempt(w: Setup, c: Core, now: Time, moves: seq<Move>)
    requires Fresh(c) && DisciplinedRun(w, Begin(w, c, now), moves)
    ensures SingleInv(RunAll(w, Begin(w, c, now), moves))
  {
    if moves != [] {
      var front := moves[..|moves| - 1];
      var m := moves[|moves| - 1];
      SingleOpenAttempt(w, c, now, front);
      var s := RunAll(w, Begin(w, c, now), front);
      if Enabled(s, m) {
        match m
        case HandleNext(env) => HandleMoveSingle(w, s, env);
        case Starts(renv) => StartMoveSingle(w, s, renv);
        case ChildExits(_, _) => ChildMoves(w, s, m);
        case _ => QuietMoves(w, s, m);
      }
    }
  }
}
