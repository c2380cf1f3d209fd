/** The availability probe's failure backoff (internal/daemon/probe.go). */
module Probe {
  import opened Types

  const BASE: Duration := 60_000_000_000
  const MAXIMUM: Duration := 900_000_000_000

  datatype Answer = Available | Unavailable | ProbeError

  function Pow2(k: nat): nat {
    if k == 0 then 1 else 2 * Pow2(k - 1)
  }

  /** One minute doubled for each failure after the first, at most fifteen. */
  function Delay(failures: nat): Duration {
    var d := BASE * Pow2(if failures == 0 then 0 else failures - 1);
    if d <= MAXIMUM then d else MAXIMUM
  }

  /** A minute after the first failure, doubled by each further one, fifteen at most. */
  lemma DelayDoubles(failures: nat)
    requires failures >= 1
    ensures Delay(1) == 60_000_000_000
    ensures var doubled := 2 * Delay(failures);
            Delay(failures + 1) == if doubled <= 900_000_000_000 then doubled else 900_000_000_000
  {
    assert Pow2(failures) == 2 * Pow2(failures - 1);
  }

  lemma {:induction false} Pow2Grows(j: nat, k: nat)
    requires j <= k
    ensures 1 <= Pow2(j) <= Pow2(k)
  {
    if k > 0 {
      Pow2Grows(if j < k then j else k - 1, k - 1);
    }
  }

  /** One call: the reading before it, the command's answer if it is run, and the
      reading after a failure to run. */
  datatype Call = Call(now: Time, answer: Answer, after: Time)

  datatype State = State(failures: nat, nextAllowed: Option<Time>)

  const Idle := State(0, None)

  predicate Runs(s: State, c: Call) {
    s.nextAllowed.None? || c.now >= s.nextAllowed.value
  }

  function Next(s: State, c: Call): State {
    if !Runs(s, c) then s
    else if c.answer.ProbeError? then State(s.failures + 1, Some(c.after + Delay(s.failures + 1)))
    else Idle
  }

  class Runner {
    var failures: nat
    var nextAllowed: Option<Time>

    constructor ()
      ensures View() == Idle
    {
      failures, nextAllowed := 0, None;
    }

    function View(): State
      reads this
    {
      State(failures, nextAllowed)
    }

    /** The doubling loop computes the closed form. */
    method BackoffDelay() returns (d: Duration)
      ensures d == Delay(failures)
    {
      d := BASE;
      var i := 1;
      while i < failures
        invariant 1 <= i && (i > 1 ==> i <= failures)
        invariant d == BASE * Pow2(i - 1) && (i > 1 ==> d < MAXIMUM)
        decreases failures - i
      {
        d := d * 2;
        if d >= MAXIMUM {
          Pow2Grows(i, failures - 1);
          return MAXIMUM;
        }
        i := i + 1;
      }
      if d > MAXIMUM {
        return MAXIMUM;
      }
    }

    /** Reports availability; while backing off the command is not run. */
    method Probe(c: Call) returns (available: bool)
      modifies this
      ensures View() == Next(old(View()), c)
      ensures var waits := old(nextAllowed).Some? && c.now < old(nextAllowed).value;
              && (available <==> !waits && c.answer.Available?)
              && (waits ==> View() == old(View()))
              && (!waits && c.answer.ProbeError? ==>
                    failures == old(failures) + 1 && nextAllowed == Some(c.after + Delay(failures)))
              && (!waits && !c.answer.ProbeError? ==> failures == 0 && nextAllowed.None?)
    {
      if nextAllowed.Some? && c.now < nextAllowed.value {
        return false;
      }
      match c.answer {
        case Available =>
          failures, nextAllowed := 0, None;
          available := true;
        case Unavailable =>
          failures, nextAllowed := 0, None;
          available := false;
        case ProbeError =>
          failures := failures + 1;
          var d := BackoffDelay();
          nextAllowed := Some(c.after + d);
          available := false;
      }
    }
  }

  // ---- Any sequence of calls ----

  function After(calls: seq<Call>): State {
    if calls == [] then Idle else Next(After(calls[..|calls| - 1]), calls[|calls| - 1])
  }

  predicate RunsAt(calls: seq<Call>, i: nat)
    requires i < |calls|
  {
    Runs(After(calls[..i]), calls[i])
  }

  /** A failure count stands exactly while a next allowed time does. */
  lemma {:induction false} FailuresIffBackingOff(calls: seq<Call>)
    ensures After(calls).failures == 0 <==> After(calls).nextAllowed.None?
  {
    if calls != [] {
      FailuresIffBackingOff(calls[..|calls| - 1]);
    }
  }

  /** Between a call that failed to run its command and the next call that does run
      it, nothing changes. */
  lemma {:induction false} SuppressedChangesNothing(calls: seq<Call>, i: nat, j: nat)
    requires i <= j <= |calls|
    requires forall k :: i <= k < j ==> !RunsAt(calls, k)
    ensures After(calls[..j]) == After(calls[..i])
  {
    if i < j {
      SuppressedChangesNothing(calls, i, j - 1);
      assert calls[..j][..j - 1] == calls[..j - 1];
      assert !RunsAt(calls, j - 1);
    }
  }

  /** Two successive executions, the first of them an error, are apart by at least the
      delay of the failure count that error reached. */
  lemma ExecutionsAreApart(calls: seq<Call>, i: nat, j: nat)
    requires i < j < |calls|
    requires RunsAt(calls, i) && calls[i].answer.ProbeError? && RunsAt(calls, j)
    requires forall k :: i < k < j ==> !RunsAt(calls, k)
    ensures calls[j].now >= calls[i].after + Delay(After(calls[..i + 1]).failures)
  {
    assert calls[..i + 1][..i] == calls[..i];
    SuppressedChangesNothing(calls, i + 1, j);
  }

  /** When the first error of the present streak was over. */
  function StreakStart(calls: seq<Call>): Option<Time> {
    if calls == [] then None
    else
      var front := calls[..|calls| - 1];
      var last := calls[|calls| - 1];
      if !Runs(After(front), last) then StreakStart(front)
      else if !last.answer.ProbeError? then None
      else if After(front).failures == 0 then Some(last.after)
      else StreakStart(front)
  }

  function SumDelays(k: nat): Duration {
    if k == 0 then 0 else SumDelays(k - 1) + Delay(k)
  }

  /** After k consecutive errors the next allowed time is at least the sum of the k
      delays past the first, so any execution in the streak is that far from it. */
  lemma {:induction false} StreakSpansDelays(calls: seq<Call>)
    requires forall k :: 0 <= k < |calls| ==> calls[k].after >= calls[k].now
    ensures var s := After(calls);
            s.failures > 0 ==>
              && StreakStart(calls).Some?
              && s.nextAllowed.Some?
              && s.nextAllowed.value >= StreakStart(calls).value + SumDelays(s.failures)
              && forall c :: Runs(s, c) ==> c.now >= StreakStart(calls).value + SumDelays(s.failures)
  {
    if calls != [] {
      var front := calls[..|calls| - 1];
      StreakSpansDelays(front);
      FailuresIffBackingOff(front);
    }
  }
}
