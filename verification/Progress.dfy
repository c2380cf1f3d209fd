/** Nothing stalls: while a task is neither paused nor over, what it waits for next is on
    its way. */
module Progress {
  import opened Types
  import opened Machine
  import opened Lifecycle
  import opened Effects
  import opened Recovery
  import opened Runs
  import opened System
  import opened Attempts
  import Transitions
  import Wakeup

  /** The exit of attempt `no` is queued. */
  ghost predicate ExitQueued(q: seq<Queued>, no: int) {
    exists k :: 0 <= k < |q| && q[k].Exit? && q[k].attemptNo == no
  }

  predicate StartQueued(q: seq<Queued>) {
    exists k :: 0 <= k < |q| && q[k] == Other(Start)
  }

  /** A task not yet begun has its start queued; a RUNNING one has the child of its latest
      attempt alive, or that child's exit queued. */
  ghost predicate Coming(s: State) {
    s.sup.Some? ==>
      && (s.rec.task.status.Pending? ==> StartQueued(s.queue))
      && (s.rec.task.status.Running? ==>
            s.rec.task.totalAttempts in s.children || ExitQueued(s.queue, s.rec.task.totalAttempts))
  }

  lemma Pushed(q: seq<Queued>, item: Queued, no: int)
    ensures ExitQueued(q, no) ==> ExitQueued(q + [item], no)
    ensures StartQueued(q) ==> StartQueued(q + [item])
    ensures item.Exit? && item.attemptNo == no ==> ExitQueued(q + [item], no)
  {
    var p := q + [item];
    assert p[|q|] == item && forall k :: 0 <= k < |q| ==> p[k] == q[k];
  }

  /** Popping an event loses no other. */
  lemma Popped(q: seq<Queued>, no: int)
    requires q != []
    ensures ExitQueued(q, no) && !q[0].Exit? ==> ExitQueued(q[1..], no)
    ensures StartQueued(q) && q[0] != Other(Start) ==> StartQueued(q[1..])
  {
    assert forall k :: 1 <= k < |q| ==> q[k] == q[1..][k - 1];
  }

  lemma PushMovesKeep(w: Setup, s: State, m: Move)
    requires Sound(w, s) && Coming(s) && Enabled(s, m) && (m.Post? || m.FireArm? || m.ChildExits?)
    ensures Coming(Advance(w, s, m))
  {
    var no := s.rec.task.totalAttempts;
    match m
    case Post(ev) => Pushed(s.queue, Other(ev), no);
    case FireArm(a) => Pushed(s.queue, Fire(a), no);
    case ChildExits(n, o) => Pushed(s.queue, Exit(n, o), no);
  }

  /** A start that is handled begins the task, ends it, or ends its supervisor. */
  lemma HandleMoveKeeps(w: Setup, s: State, env: Env)
    requires Sound(w, s) && Coming(s) && Enabled(s, HandleNext(env))
    ensures Coming(Advance(w, s, HandleNext(env)))
  {
    var sup := s.sup.value;
    var ev := EventOf(s.queue[0]);
    Popped(s.queue, s.rec.task.totalAttempts);
    HandleRows(w.deps, sup, s.rec, ev, env);
    HandleMoves(w.deps, sup, s.rec, ev, env);
    if ev.Start? && s.rec.task.status.Pending? {
      Transitions.StartDoes(w.deps, sup, s.rec, env);
    }
  }

  lemma StartMoveKeeps(w: Setup, s: State, renv: RecoverEnv)
    requires Sound(w, s) && Enabled(s, Starts(renv))
    ensures Coming(Advance(w, s, Starts(renv)))
  {
    if !Terminal(s.rec.task.status) {
      ReconcileKeeps(w.deps, w.cfg, s.rec, renv);
      assert [Other(Start)][0] == Other(Start);
    }
  }

  lemma {:induction false} NoLostExit(w: Setup, c: Core, now: Time, moves: seq<Move>)
    requires Fresh(c)
    ensures Coming(RunAll(w, Begin(w, c, now), moves))
  {
    if moves != [] {
      var front := moves[..|moves| - 1];
      var m := moves[|moves| - 1];
      NoLostExit(w, c, now, front);
      var s := RunAll(w, Begin(w, c, now), front);
      if Enabled(s, m) {
        match m
        case HandleNext(env) => HandleMoveKeeps(w, s, env);
        case Starts(renv) => StartMoveKeeps(w, s, renv);
        case Post(_) => PushMovesKeep(w, s, m);
        case FireArm(_) => PushMovesKeep(w, s, m);
        case ChildExits(_, _) => PushMovesKeep(w, s, m);
        case _ =>
      }
    }
  }

  /** On every run, whatever fails: a live task that is neither paused nor over has its
      next event on the way. A PENDING one has its start queued; a RUNNING one its child
      alive or that child's exit queued; a WAITING one, as long as wake times are near,
      its wake-up coming. */
  lemma NothingStalls(w: Setup, c: Core, now: Time, moves: seq<Move>)
    requires Fresh(c) && Wakeup.NearWakes(w, Begin(w, c, now), moves)
    ensures var s := RunAll(w, Begin(w, c, now), moves);
            s.sup.Some? ==>
              match s.rec.task.status
              case Pending => StartQueued(s.queue)
              case Running => s.rec.task.totalAttempts in s.children || ExitQueued(s.queue, s.rec.task.totalAttempts)
              case Waiting => s.rec.task.nextWakeAt.Some? && Wakeup.WakeComing(s, s.rec.task.nextWakeAt.value)
              case Paused => true
              case _ => false
  {
    NoLostExit(w, c, now, moves);
    Wakeup.NoLostWakeup(w, c, now, moves);
  }
}
