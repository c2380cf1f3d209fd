/** One wake timer per waiting task (internal/scheduler/timer.go). Each arm is a
    goroutine waiting for its timer or its cancel channel; a check under the lock
    suppresses the fire of an arm that lost a race. */
module Timers {
  import opened Types

  /** Where the wait goroutine of an arm stands. */
  datatype Pc =
    | Selecting  // waiting for the timer or the cancel channel
    | Expired    // received from the timer, lock not yet taken
    | Firing     // found itself current under the lock, callback not yet called
    | Done

  datatype Arm = Arm(task: string, at: Time, due: Time, pc: Pc, closes: nat, claimed: bool, fires: nat)

  /** `active` maps a task to its live arm; an arm's index is its identity. */
  datatype State = State(active: map<string, nat>, arms: seq<Arm>)

  const Idle := State(map[], [])

  predicate IsActive(s: State, a: nat) {
    a < |s.arms| && s.arms[a].task in s.active && s.active[s.arms[a].task] == a
  }

  /** NewTimer(at - now): the difference saturates, and one not positive is due
      at once. */
  function Due(at: Time, now: Time): Time {
    var d := SubTime(at, now);
    if d <= 0 then now else now + d
  }

  /** A timer is never due before the wake time it was armed for exactly when the
      wake time is less than an int64 of nanoseconds away. */
  lemma DueNotEarlyIff(at: Time, now: Time)
    ensures Due(at, now) >= at <==> at - now <= MAX_INT64
  {
  }

  /** A timer is due at its wake time, at once if that has passed, or an int64 of
      nanoseconds ahead if it is further. */
  lemma DueExactly(at: Time, now: Time)
    ensures Due(at, now) == if at <= now then now else if at - now <= MAX_INT64 then at else now + MAX_INT64
  {
  }

  function Closed(arm: Arm): Arm {
    arm.(closes := arm.closes + 1)
  }

  /** Delete the task's entry and close its cancel channel, if it has one. */
  function Release(s: State, id: string): State
    requires id in s.active ==> s.active[id] < |s.arms|
  {
    if id !in s.active then s
    else
      var a := s.active[id];
      State(s.active - {id}, s.arms[a := Closed(s.arms[a])])
  }

  function ArmAt(s: State, id: string, at: Time, now: Time): State
    requires id in s.active ==> s.active[id] < |s.arms|
  {
    var r := Release(s, id);
    State(r.active[id := |r.arms|], r.arms + [Arm(id, at, Due(at, now), Selecting, 0, false, 0)])
  }

  /** Every active arm closed except those of the tasks in `keep`. */
  function ReleaseExcept(s: State, keep: set<string>): State {
    State(map id | id in s.active && id in keep :: s.active[id],
          seq(|s.arms|, a requires 0 <= a < |s.arms| =>
            if IsActive(s, a) && s.arms[a].task !in keep then Closed(s.arms[a]) else s.arms[a]))
  }

  lemma ReleaseOneMore(s: State, keep: set<string>, id: string)
    requires Inv(s) && keep <= s.active.Keys && id in keep
    ensures var r := ReleaseExcept(s, keep);
            var a := s.active[id];
            && a < |s.arms|
            && ReleaseExcept(s, keep - {id}) == State(r.active - {id}, r.arms[a := Closed(r.arms[a])])
  {
    var r := ReleaseExcept(s, keep);
    var t := ReleaseExcept(s, keep - {id});
    var a := s.active[id];
    forall b | 0 <= b < |s.arms| ensures t.arms[b] == r.arms[a := Closed(r.arms[a])][b] {
      assert IsActive(s, b) && s.arms[b].task == id ==> b == a;
    }
    assert t.arms == r.arms[a := Closed(r.arms[a])];
  }

  function ReleaseAll(s: State): State {
    ReleaseExcept(s, {})
  }

  /** The locked section of the wait goroutine. */
  function Claim(s: State, a: nat): State
    requires a < |s.arms|
  {
    if IsActive(s, a) then
      State(s.active - {s.arms[a].task}, s.arms[a := s.arms[a].(pc := Firing, claimed := true)])
    else
      s.(arms := s.arms[a := s.arms[a].(pc := Done)])
  }

  /** The wake time of the task's live arm. */
  function ArmedAt(s: State, id: string): Option<Time> {
    if id in s.active && s.active[id] < |s.arms| then Some(s.arms[s.active[id]].at) else None
  }

  datatype Step =
    | DoArm(id: string, at: Time, now: Time)
    | DoCancel(id: string)
    | DoStop
    | DoExpire(a: nat, now: Time)
    | DoSeeCancel(a: nat)
    | DoClaim(a: nat)
    | DoFire(a: nat)

  predicate Enabled(s: State, step: Step) {
    match step
    case DoArm(_, _, _) => true
    case DoCancel(_) => true
    case DoStop => true
    case DoExpire(a, now) => a < |s.arms| && s.arms[a].pc.Selecting? && now >= s.arms[a].due
    case DoSeeCancel(a) => a < |s.arms| && s.arms[a].pc.Selecting? && s.arms[a].closes > 0
    case DoClaim(a) => a < |s.arms| && s.arms[a].pc.Expired?
    case DoFire(a) => a < |s.arms| && s.arms[a].pc.Firing?
  }

  /** A step that is not enabled changes nothing. */
  function Next(s: State, step: Step): State
    requires Inv(s)
  {
    if !Enabled(s, step) then s
    else
      match step
      case DoArm(id, at, now) => ArmAt(s, id, at, now)
      case DoCancel(id) => Release(s, id)
      case DoStop => ReleaseAll(s)
      case DoExpire(a, _) => s.(arms := s.arms[a := s.arms[a].(pc := Expired)])
      case DoSeeCancel(a) => s.(arms := s.arms[a := s.arms[a].(pc := Done)])
      case DoClaim(a) => Claim(s, a)
      case DoFire(a) => s.(arms := s.arms[a := s.arms[a].(pc := Done, fires := s.arms[a].fires + 1)])
  }

  /** Exactly one of active, cancelled, fired. */
  predicate OneFate(s: State, a: nat)
    requires a < |s.arms|
  {
    var cancelled := s.arms[a].closes == 1;
    var fired := s.arms[a].claimed;
    && (IsActive(s, a) || cancelled || fired)
    && !(IsActive(s, a) && cancelled) && !(IsActive(s, a) && fired) && !(cancelled && fired)
  }

  predicate ArmOk(s: State, a: nat)
    requires a < |s.arms|
  {
    var arm := s.arms[a];
    && OneFate(s, a)
    && arm.closes <= 1
    && arm.fires == (if arm.claimed && arm.pc.Done? then 1 else 0)
    && (arm.claimed <==> arm.pc.Firing? || arm.fires > 0)
    && (IsActive(s, a) ==> arm.pc.Selecting? || arm.pc.Expired?)
  }

  predicate Inv(s: State) {
    && (forall id :: id in s.active ==> s.active[id] < |s.arms| && s.arms[s.active[id]].task == id)
    && (forall a :: 0 <= a < |s.arms| ==> ArmOk(s, a))
  }

  /** Arming one task leaves every other task's arm alone. */
  lemma ArmingIsLocal(s: State, id: string, at: Time, now: Time, other: string)
    requires Inv(s)
    ensures ArmedAt(ArmAt(s, id, at, now), other) == if other == id then Some(at) else ArmedAt(s, other)
  {
    if other != id && other in s.active {
      assert s.arms[s.active[other]].task == other;
    }
  }

  lemma ReleaseKeepsInv(s: State, id: string)
    requires Inv(s)
    ensures Inv(Release(s, id))
  {
    var t := Release(s, id);
    forall a | 0 <= a < |t.arms| ensures ArmOk(t, a) {
      assert ArmOk(s, a);
    }
  }

  lemma ArmKeepsInv(s: State, id: string, at: Time, now: Time)
    requires Inv(s)
    ensures Inv(ArmAt(s, id, at, now))
  {
    ReleaseKeepsInv(s, id);
    var r := Release(s, id);
    var t := ArmAt(s, id, at, now);
    forall a | 0 <= a < |t.arms| ensures ArmOk(t, a) {
      if a < |r.arms| {
        assert ArmOk(r, a);
      }
    }
  }

  lemma ReleaseAllKeepsInv(s: State)
    requires Inv(s)
    ensures Inv(ReleaseAll(s))
  {
    var t := ReleaseAll(s);
    forall a | 0 <= a < |t.arms| ensures ArmOk(t, a) {
      assert ArmOk(s, a);
    }
  }

  /** The steps of one wait goroutine. */
  lemma ArmStepKeepsInv(s: State, step: Step)
    requires Inv(s) && !step.DoArm? && !step.DoCancel? && !step.DoStop?
    ensures Inv(Next(s, step))
  {
    var t := Next(s, step);
    forall a | 0 <= a < |t.arms| ensures ArmOk(t, a) {
      assert ArmOk(s, a);
    }
  }

  lemma NextKeepsInv(s: State, step: Step)
    requires Inv(s)
    ensures Inv(Next(s, step))
    ensures |s.arms| <= |Next(s, step).arms|
  {
    match step
    case DoArm(id, at, now) => ArmKeepsInv(s, id, at, now);
    case DoCancel(id) => ReleaseKeepsInv(s, id);
    case DoStop => ReleaseAllKeepsInv(s);
    case _ => ArmStepKeepsInv(s, step);
  }

  ghost function Run(s: State, steps: seq<Step>): (t: State)
    requires Inv(s)
    ensures Inv(t)
  {
    if steps == [] then s
    else
      var mid := Run(s, steps[..|steps| - 1]);
      NextKeepsInv(mid, steps[|steps| - 1]);
      Next(mid, steps[|steps| - 1])
  }

  /** What happened to an arm so far never unhappens. */
  predicate Continues(s: State, t: State, a: nat)
    requires a < |s.arms|
  {
    && a < |t.arms|
    && t.arms[a].task == s.arms[a].task && t.arms[a].at == s.arms[a].at
    && s.arms[a].closes <= t.arms[a].closes
    && s.arms[a].fires <= t.arms[a].fires
    && (s.arms[a].claimed ==> t.arms[a].claimed)
  }

  lemma NextContinues(s: State, step: Step, a: nat)
    requires Inv(s) && a < |s.arms|
    ensures Continues(s, Next(s, step), a)
  {
  }

  lemma {:induction false} RunContinues(s: State, steps: seq<Step>, a: nat)
    requires Inv(s) && a < |s.arms|
    ensures Continues(s, Run(s, steps), a)
  {
    if steps != [] {
      var mid := Run(s, steps[..|steps| - 1]);
      RunContinues(s, steps[..|steps| - 1], a);
      NextContinues(mid, steps[|steps| - 1], a);
    }
  }

  lemma {:induction false} RunSplit(s: State, xs: seq<Step>, ys: seq<Step>)
    requires Inv(s)
    ensures Run(s, xs + ys) == Run(Run(s, xs), ys)
  {
    if ys == [] {
      assert xs + ys == xs;
    } else {
      RunSplit(s, xs, ys[..|ys| - 1]);
      assert (xs + ys)[..|xs + ys| - 1] == xs + ys[..|ys| - 1];
    }
  }

  /** In every interleaving each arm has exactly one fate, its callback runs at
      most once, and its channel is closed at most once. */
  lemma EveryArmOneFate(steps: seq<Step>)
    ensures var s := Run(Idle, steps);
            forall a :: 0 <= a < |s.arms| ==>
              && OneFate(s, a) && s.arms[a].fires <= 1 && s.arms[a].closes <= 1
              && (s.arms[a].fires == 1 ==> s.arms[a].claimed)
  {
    var s := Run(Idle, steps);
    forall a | 0 <= a < |s.arms|
      ensures && OneFate(s, a) && s.arms[a].fires <= 1 && s.arms[a].closes <= 1
              && (s.arms[a].fires == 1 ==> s.arms[a].claimed)
    {
      assert ArmOk(s, a);
    }
  }

  predicate Releases(step: Step, id: string) {
    step.DoStop? || step == DoCancel(id) || (step.DoArm? && step.id == id)
  }

  /** An arm still active when Cancel, Stop, or a re-arm of its task runs never
      calls the callback, whatever was or will be interleaved. */
  lemma ReleasedNeverFires(before: seq<Step>, step: Step, after: seq<Step>, a: nat)
    requires IsActive(Run(Idle, before), a)
    requires Releases(step, Run(Idle, before).arms[a].task)
    ensures var s := Run(Idle, before + [step] + after);
            a < |s.arms| && s.arms[a].fires == 0 && s.arms[a].closes == 1 && !IsActive(s, a)
  {
    var s := Run(Idle, before);
    RunSplit(Idle, before, [step]);
    assert [step][..0] == [];
    assert Run(s, []) == s;
    var t := Run(Idle, before + [step]);
    assert t == Next(s, step);
    assert ArmOk(s, a);
    assert t.arms[a].closes == 1;
    RunSplit(Idle, before + [step], after);
    RunContinues(t, after, a);
    assert ArmOk(Run(t, after), a);
  }

  /** Every wait goroutine ends: one that is not done is the task's live arm, waiting for
      its timer, or has a step to take whatever the time. */
  lemma GoroutinesEnd(steps: seq<Step>, a: nat)
    requires a < |Run(Idle, steps).arms| && !Run(Idle, steps).arms[a].pc.Done?
    ensures var s := Run(Idle, steps);
            || (IsActive(s, a) && s.arms[a].pc.Selecting?)
            || Enabled(s, DoSeeCancel(a)) || Enabled(s, DoClaim(a)) || Enabled(s, DoFire(a))
  {
    assert ArmOk(Run(Idle, steps), a);
  }

  class Manager {
    var active: map<string, nat>
    var arms: seq<Arm>

    constructor ()
      ensures View() == Idle
    {
      active, arms := map[], [];
    }

    function View(): State
      reads this
    {
      State(active, arms)
    }

    /** Replaces any arm of the task with a new one. */
    method ArmTask(id: string, at: Time, now: Time)
      requires Inv(View())
      modifies this
      ensures View() == ArmAt(old(View()), id, at, now) && Inv(View())
    {
      NextKeepsInv(View(), DoArm(id, at, now));
      if id in active {
        var stale := active[id];
        active := active - {id};
        arms := arms[stale := Closed(arms[stale])];
      }
      active := active[id := |arms|];
      arms := arms + [Arm(id, at, Due(at, now), Selecting, 0, false, 0)];
    }

    method Cancel(id: string)
      requires Inv(View())
      modifies this
      ensures View() == Release(old(View()), id) && Inv(View())
    {
      NextKeepsInv(View(), DoCancel(id));
      if id in active {
        var a := active[id];
        active := active - {id};
        arms := arms[a := Closed(arms[a])];
      }
    }

    predicate Armed(id: string)
      reads this
    {
      id in active
    }

    /** The locked section of the wait goroutine of arm `a`. */
    method TryClaim(a: nat) returns (current: bool)
      requires Inv(View()) && a < |arms| && arms[a].pc.Expired?
      modifies this
      ensures current <==> IsActive(old(View()), a)
      ensures View() == Claim(old(View()), a) && Inv(View())
    {
      NextKeepsInv(View(), DoClaim(a));
      var id := arms[a].task;
      current := id in active && active[id] == a;
      if current {
        active := active - {id};
        arms := arms[a := arms[a].(pc := Firing, claimed := true)];
      } else {
        arms := arms[a := arms[a].(pc := Done)];
      }
    }

    /** Cancels every armed timer. */
    method Stop()
      requires Inv(View())
      modifies this
      ensures View() == ReleaseAll(old(View())) && Inv(View()) && active == map[]
    {
      ghost var s0 := View();
      NextKeepsInv(s0, DoStop);
      assert View() == ReleaseExcept(s0, active.Keys);
      while active != map[]
        invariant active.Keys <= s0.active.Keys
        invariant View() == ReleaseExcept(s0, active.Keys)
        decreases active.Keys
      {
        var id :| id in active;
        var a := active[id];
        ReleaseOneMore(s0, active.Keys, id);
        active := active - {id};
        arms := arms[a := Closed(arms[a])];
      }
      assert active.Keys == {};
    }
  }
}
