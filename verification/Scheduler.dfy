/** Wake-time arithmetic and retry caps (internal/scheduler/wake.go, caps.go).
    float64 steps are exact reals; int64 steps saturate or wrap as Go's do. */
module Scheduler {
  import opened Types

  datatype Policy = Policy(
    backoffBase: Duration,
    backoffFactor: real,
    backoffMax: Duration,
    backoffJitter: real,
    resetBuffer: Duration,
    maxAttempts: int,
    deadline: Option<Time>,
    maxTotalWait: Duration)

  /** What configuration loading leaves unchecked and the arithmetic relies on. */
  predicate Sane(p: Policy) {
    && 0 <= p.backoffBase <= MAX_INT64
    && p.backoffFactor >= 1.0
    && 0 <= p.backoffMax <= MAX_INT64
    && 0.0 <= p.backoffJitter <= 1.0
    && 0 <= p.resetBuffer
    && 0 <= p.maxTotalWait <= MAX_INT64
  }

  function Pow(f: real, k: nat): real {
    if k == 0 then 1.0 else f * Pow(f, k - 1)
  }

  /** base * f^k, kept as one recursive value; ScaledIsPower relates it to Pow. */
  function Scaled(base: real, f: real, k: nat): real {
    if k == 0 then base else f * Scaled(base, f, k - 1)
  }

  function Trunc(x: real): int {
    if x >= 0.0 then x.Floor else -((-x).Floor)
  }

  function ClampToInt64(x: real): int {
    if x >= MAX_INT64 as real then MAX_INT64
    else if x <= MIN_INT64 as real then MIN_INT64
    else Trunc(x)
  }

  function Capped(scaled: real, top: Duration): int {
    var maxNs := top as real;
    ClampToInt64(if scaled > maxNs then maxNs else scaled)
  }

  function BackoffFor(p: Policy, n: int): Duration
    requires n >= 1
  {
    Capped(Scaled(p.backoffBase as real, p.backoffFactor, n - 1), p.backoffMax)
  }

  /** A fraction of something not negative is between none and all of it. */
  lemma PartOf(x: real, part: real)
    requires x >= 0.0 && 0.0 <= part <= 1.0
    ensures 0.0 <= x * part <= x
  {
    assert x * part >= 0.0;
    assert x * (1.0 - part) >= 0.0;
  }

  /** The ends of the jitter interval, and the point drawn in an interval. */
  function Low(b: Duration, jitter: real): (lo: real)
    ensures 0 <= b && 0.0 <= jitter <= 1.0 ==> 0.0 <= lo <= b as real
  {
    assert 0 <= b && 0.0 <= jitter <= 1.0 ==> 0.0 <= b as real * (1.0 - jitter) <= b as real by {
      if 0 <= b && 0.0 <= jitter <= 1.0 { PartOf(b as real, 1.0 - jitter); }
    }
    b as real * (1.0 - jitter)
  }

  function High(b: Duration, jitter: real): (hi: real)
    ensures 0 <= b && 0.0 <= jitter <= 1.0 ==> b as real <= hi
  {
    assert 0 <= b && 0.0 <= jitter <= 1.0 ==> b as real <= b as real * (1.0 + jitter) by {
      if 0 <= b && 0.0 <= jitter <= 1.0 { PartOf(b as real, jitter); }
    }
    b as real * (1.0 + jitter)
  }

  function Drawn(lo: real, hi: real, draw: real): (d: real)
    ensures lo <= hi && 0.0 <= draw <= 1.0 ==> lo <= d <= hi
  {
    assert lo <= hi && 0.0 <= draw <= 1.0 ==> 0.0 <= (hi - lo) * draw <= hi - lo by {
      if lo <= hi && 0.0 <= draw <= 1.0 { PartOf(hi - lo, draw); }
    }
    lo + (hi - lo) * draw
  }

  function Jittered(backoff: Duration, jitter: real, draw: real): Duration {
    if jitter == 0.0 then backoff
    else ClampToInt64(Drawn(Low(backoff, jitter), High(backoff, jitter), draw))
  }

  /** `draw` is the uniform random number in [0, 1). */
  function JitteredDelay(p: Policy, n: int, draw: real): Duration
    requires n >= 1
  {
    Jittered(BackoffFor(p, n), p.backoffJitter, draw)
  }

  function NextWake(p: Policy, n: int, resetAt: Option<Time>, now: Time, draw: real): Time {
    var n := if n < 1 then 1 else n;
    var candidate :=
      if resetAt.Some? && resetAt.value > now then resetAt.value + p.resetBuffer
      else now + JitteredDelay(p, n, draw);
    if p.deadline.Some? && p.deadline.value < candidate then p.deadline.value else candidate
  }

  datatype Cap = CapNone | CapMaxAttempts | CapDeadline | CapMaxTotalWait

  /** The cap check as the code performs it: the two waits are added in int64. */
  function ExceededCap(p: Policy, attemptNo: int, now: Time, cumulativeWait: Duration, proposedWait: Duration): Cap {
    if p.maxAttempts != 0 && attemptNo >= p.maxAttempts then CapMaxAttempts
    else if p.deadline.Some? && now >= p.deadline.value then CapDeadline
    else if p.maxTotalWait != 0 && Wrap64(cumulativeWait + proposedWait) > p.maxTotalWait then CapMaxTotalWait
    else CapNone
  }

  /** The cap check as the design states it, over unbounded sums. */
  function DocumentedCap(p: Policy, attemptNo: int, now: Time, cumulativeWait: Duration, proposedWait: Duration): Cap {
    if p.maxAttempts != 0 && attemptNo >= p.maxAttempts then CapMaxAttempts
    else if p.deadline.Some? && now >= p.deadline.value then CapDeadline
    else if p.maxTotalWait != 0 && cumulativeWait + proposedWait > p.maxTotalWait then CapMaxTotalWait
    else CapNone
  }

  // ---- Arithmetic helpers ----

  lemma {:induction false} ScaledIsPower(base: real, f: real, k: nat)
    ensures Scaled(base, f, k) == base * Pow(f, k)
  {
    if k > 0 {
      ScaledIsPower(base, f, k - 1);
      var x := Pow(f, k - 1);
      assert f * (base * x) == base * (f * x);
    }
  }

  lemma {:induction false} ScaledMonotone(base: real, f: real, j: nat, k: nat)
    requires base >= 0.0 && f >= 1.0 && j <= k
    ensures 0.0 <= Scaled(base, f, j) <= Scaled(base, f, k)
  {
    if j < k {
      ScaledMonotone(base, f, j, k - 1);
      MulGe(Scaled(base, f, k - 1), f);
    } else if k > 0 {
      ScaledMonotone(base, f, 0, k - 1);
      MulGe(Scaled(base, f, k - 1), f);
    }
  }

  lemma MulGe(x: real, f: real)
    requires f >= 1.0 && x >= 0.0
    ensures f * x >= x
  {
    assert f * x - x == (f - 1.0) * x;
  }

  lemma ClampMono(x: real, y: real)
    requires x <= y
    ensures ClampToInt64(x) <= ClampToInt64(y)
  {
  }

  lemma ClampOfInt(i: int)
    requires MIN_INT64 <= i <= MAX_INT64
    ensures ClampToInt64(i as real) == i
  {
  }

  /** Capping at a maximum and converting to an integer preserves order. */
  lemma CappedMono(x: real, y: real, top: int)
    requires 0.0 <= x <= y && 0 <= top <= MAX_INT64
    ensures 0 <= Capped(x, top) <= Capped(y, top) <= top
  {
    var t := top as real;
    var cx := if x > t then t else x;
    var cy := if y > t then t else y;
    ClampMono(0.0, cx);
    ClampMono(cx, cy);
    ClampMono(cy, t);
    ClampOfInt(0);
    ClampOfInt(top);
  }

  // ---- Properties of the backoff and the wake time ----

  /** Backoff never decreases from one attempt to the next and never exceeds its
      configured maximum. */
  lemma BackoffMonotone(p: Policy, m: int, n: int)
    requires Sane(p) && 1 <= m <= n
    ensures 0 <= BackoffFor(p, m) <= BackoffFor(p, n) <= p.backoffMax
  {
    ScaledMonotone(p.backoffBase as real, p.backoffFactor, m - 1, n - 1);
    CappedMono(Scaled(p.backoffBase as real, p.backoffFactor, m - 1),
               Scaled(p.backoffBase as real, p.backoffFactor, n - 1), p.backoffMax);
  }

  /** The first backoff is the smaller of the base and the maximum. */
  lemma FirstBackoff(p: Policy)
    requires Sane(p)
    ensures BackoffFor(p, 1) == if p.backoffBase <= p.backoffMax then p.backoffBase else p.backoffMax
  {
    assert (p.backoffBase as real).Floor == p.backoffBase;
    assert (p.backoffMax as real).Floor == p.backoffMax;
  }

  lemma JitterBounds(backoff: int, j: real, draw: real)
    requires 0 <= backoff <= MAX_INT64 && 0.0 <= j <= 1.0 && 0.0 <= draw < 1.0
    ensures var d := Jittered(backoff, j, draw);
            0 <= Low(backoff, j).Floor <= d && d as real <= High(backoff, j)
  {
    var lo, hi := Low(backoff, j), High(backoff, j);
    ClampBetween(lo, Drawn(lo, hi, draw), hi, backoff);
  }

  lemma ClampBetween(lo: real, d: real, hi: real, b: int)
    requires 0.0 <= lo <= d <= hi && lo <= b as real && 0 <= b <= MAX_INT64
    ensures 0 <= lo.Floor <= ClampToInt64(d)
    ensures ClampToInt64(d) as real <= hi
  {
    ClampMono(lo, d);
  }

  /** The drawn delay lies between b(1-j), rounded down, and b(1+j). */
  lemma DelayBounds(p: Policy, n: int, draw: real)
    requires Sane(p) && n >= 1 && 0.0 <= draw < 1.0
    ensures var b := BackoffFor(p, n);
            && 0 <= Low(b, p.backoffJitter).Floor <= JitteredDelay(p, n, draw)
            && JitteredDelay(p, n, draw) as real <= High(b, p.backoffJitter)
  {
    BackoffMonotone(p, n, n);
    JitterBounds(BackoffFor(p, n), p.backoffJitter, draw);
  }

  /** The least delay any attempt can be given, in whole nanoseconds. */
  function LeastDelay(p: Policy): Duration {
    Low(if p.backoffBase <= p.backoffMax then p.backoffBase else p.backoffMax, p.backoffJitter).Floor
  }

  lemma LowMono(x: int, y: int, j: real)
    requires 0 <= x <= y && 0.0 <= j <= 1.0
    ensures Low(x, j) <= Low(y, j)
  {
    PartOf(y as real - x as real, 1.0 - j);
    assert (y as real - x as real) * (1.0 - j) == y as real * (1.0 - j) - x as real * (1.0 - j);
  }

  lemma DelayAtLeast(p: Policy, n: int, draw: real)
    requires Sane(p) && n >= 1 && 0.0 <= draw < 1.0
    ensures JitteredDelay(p, n, draw) >= LeastDelay(p)
  {
    FirstBackoff(p);
    BackoffMonotone(p, 1, n);
    LowMono(BackoffFor(p, 1), BackoffFor(p, n), p.backoffJitter);
    JitterBounds(BackoffFor(p, n), p.backoffJitter, draw);
  }

  /** Backoff is base * factor^(n-1), rounded down, up to its maximum. */
  lemma BackoffExactly(p: Policy, n: int)
    requires Sane(p) && n >= 1
    ensures var exact := p.backoffBase as real * Pow(p.backoffFactor, n - 1);
            BackoffFor(p, n) == if exact >= p.backoffMax as real then p.backoffMax else exact.Floor
  {
    ScaledIsPower(p.backoffBase as real, p.backoffFactor, n - 1);
    ScaledMonotone(p.backoffBase as real, p.backoffFactor, 0, n - 1);
    ClampOfInt(p.backoffMax);
  }

  /** The drawn delay is backoff * (1 - j + 2*j*draw), rounded down, up to an int64. */
  lemma DelayExactly(p: Policy, n: int, draw: real)
    requires Sane(p) && n >= 1 && 0.0 <= draw < 1.0
    ensures var exact := BackoffFor(p, n) as real * (1.0 - p.backoffJitter + 2.0 * p.backoffJitter * draw);
            JitteredDelay(p, n, draw) == if exact >= MAX_INT64 as real then MAX_INT64 else exact.Floor
  {
    var b, j := BackoffFor(p, n), p.backoffJitter;
    BackoffMonotone(p, n, n);
    Spread(b as real, j, draw);
    ClampOfInt(b);
    DrawnExactly(b, j, draw);
  }

  lemma Spread(b: real, j: real, draw: real)
    ensures b * (1.0 - j) + (b * (1.0 + j) - b * (1.0 - j)) * draw == b * (1.0 - j + 2.0 * j * draw)
  {
    var x := b * j;
    assert b * (1.0 - j) == b - x && b * (1.0 + j) == b + x;
    assert (b + x - (b - x)) * draw == 2.0 * (x * draw);
    assert b * (2.0 * j * draw) == 2.0 * (x * draw);
    assert b * (1.0 - j + 2.0 * j * draw) == b * (1.0 - j) + b * (2.0 * j * draw);
  }

  lemma DrawnExactly(b: int, j: real, draw: real)
    requires 0 <= b <= MAX_INT64 && 0.0 <= j <= 1.0 && 0.0 <= draw < 1.0
    ensures var exact := Drawn(Low(b, j), High(b, j), draw);
            exact >= 0.0 && (j == 0.0 ==> exact == b as real)
            && Jittered(b, j, draw) == if exact >= MAX_INT64 as real then MAX_INT64 else exact.Floor
  {
  }

  /** `w` is `candidate`, or the deadline if that comes first. */
  predicate Soonest(w: Time, candidate: Time, deadline: Option<Time>) {
    || (w == candidate && (deadline.Some? ==> candidate <= deadline.value))
    || (deadline.Some? && w == deadline.value && deadline.value < candidate)
  }

  /** A wake time is the reset time and its buffer, if that reset time is in the future,
      and otherwise now and the delay of this attempt; an earlier deadline, and nothing
      else, replaces it. */
  lemma NextWakeExactly(p: Policy, n: int, resetAt: Option<Time>, now: Time, draw: real)
    ensures var w := NextWake(p, n, resetAt, now, draw);
            if resetAt.Some? && resetAt.value > now then Soonest(w, resetAt.value + p.resetBuffer, p.deadline)
            else Soonest(w, now + JitteredDelay(p, if n < 1 then 1 else n, draw), p.deadline)
  {
  }

  /** So with no reset time to come, it lies within the jitter interval past now, unless
      the deadline comes before the interval's end. */
  lemma NextWakeInterval(p: Policy, n: int, resetAt: Option<Time>, now: Time, draw: real)
    requires Sane(p) && 0.0 <= draw < 1.0 && (resetAt.None? || resetAt.value <= now)
    ensures var w := NextWake(p, n, resetAt, now, draw);
            var b := BackoffFor(p, if n < 1 then 1 else n);
            var lo, hi := now + Low(b, p.backoffJitter).Floor, now as real + High(b, p.backoffJitter);
            || (lo <= w && w as real <= hi)
            || (p.deadline.Some? && w == p.deadline.value && w as real < hi)
  {
    DelayBounds(p, if n < 1 then 1 else n, draw);
  }

  /** A reset time in the future decides alone: no draw changes the wake time. */
  lemma ResetDecides(p: Policy, n: int, reset: Time, now: Time, draw1: real, draw2: real)
    requires reset > now
    ensures NextWake(p, n, Some(reset), now, draw1) == NextWake(p, n, Some(reset), now, draw2)
    ensures p.deadline.None? ==> NextWake(p, n, Some(reset), now, draw1) == reset + p.resetBuffer
  {
  }

  /** A wake time is never after the deadline, and never before now unless the
      deadline itself has passed. */
  lemma NextWakeBounds(p: Policy, n: int, resetAt: Option<Time>, now: Time, draw: real)
    requires Sane(p) && 0.0 <= draw < 1.0
    ensures var w := NextWake(p, n, resetAt, now, draw);
            && (p.deadline.Some? ==> w <= p.deadline.value)
            && (w < now ==> p.deadline.Some? && p.deadline.value < now)
  {
    DelayBounds(p, if n < 1 then 1 else n, draw);
  }

  /** With no deadline every wait is at least the smaller of the least delay and
      the reset buffer. */
  lemma WaitAtLeast(p: Policy, n: int, resetAt: Option<Time>, now: Time, draw: real)
    requires Sane(p) && p.deadline.None? && 0.0 <= draw < 1.0
    ensures var w := NextWake(p, n, resetAt, now, draw) - now;
            w >= LeastDelay(p) || w >= p.resetBuffer
  {
    DelayAtLeast(p, if n < 1 then 1 else n, draw);
  }

  /** When no cap trips, the deadline is still ahead, so the scheduled wake time
      lies between now and the deadline. */
  lemma UncappedWakeInWindow(p: Policy, n: int, resetAt: Option<Time>, now: Time, draw: real, cumulative: Duration)
    requires Sane(p) && 0.0 <= draw < 1.0
    requires var w := NextWake(p, n, resetAt, now, draw);
             ExceededCap(p, n, now, cumulative, SubTime(w, now)).CapNone?
    ensures var w := NextWake(p, n, resetAt, now, draw);
            now <= w && (p.deadline.Some? ==> w <= p.deadline.value)
  {
    NextWakeBounds(p, n, resetAt, now, draw);
  }

  // ---- The caps: code against design ----

  /** The code's cap check agrees with the design exactly when an earlier cap
      decides, no total-wait cap is set, or the sum fits in an int64. */
  lemma CapAgreesIff(p: Policy, attemptNo: int, now: Time, cumulative: Duration, proposed: Duration)
    requires 0 <= p.maxTotalWait <= MAX_INT64
    requires 0 <= cumulative <= MAX_INT64 && 0 <= proposed <= MAX_INT64
    ensures ExceededCap(p, attemptNo, now, cumulative, proposed)
            == DocumentedCap(p, attemptNo, now, cumulative, proposed)
            <==>
            || (p.maxAttempts != 0 && attemptNo >= p.maxAttempts)
            || (p.deadline.Some? && now >= p.deadline.value)
            || p.maxTotalWait == 0
            || cumulative + proposed <= MAX_INT64
  {
    if cumulative + proposed > MAX_INT64 {
      assert Wrap64(cumulative + proposed) == cumulative + proposed - 0x1_0000_0000_0000_0000;
    }
  }

  /** The cap check of a wait of any length, its length saturated as the code does, is
      right about the total-wait cap: the sum fits in an int64, and a cap of the
      greatest int64 is not met by a wait beyond it. */
  predicate TotalFits(p: Policy, waited: Duration, wait: Duration) {
    waited + SubTime(wait, 0) <= MAX_INT64 && (p.maxTotalWait == MAX_INT64 ==> wait <= MAX_INT64)
  }

  /** The check made at an exit agrees with the design exactly when an earlier cap
      decides, no total-wait cap is set, or the total fits. */
  lemma CapAtExitIff(p: Policy, attemptNo: int, now: Time, waited: Duration, wake: Time)
    requires 0 <= p.maxTotalWait <= MAX_INT64 && 0 <= waited <= MAX_INT64 && now <= wake
    ensures ExceededCap(p, attemptNo, now, waited, SubTime(wake, now))
            == DocumentedCap(p, attemptNo, now, waited, wake - now)
            <==>
            || (p.maxAttempts != 0 && attemptNo >= p.maxAttempts)
            || (p.deadline.Some? && now >= p.deadline.value)
            || p.maxTotalWait == 0
            || TotalFits(p, waited, wake - now)
  {
    var proposed := SubTime(wake, now);
    assert proposed == SubTime(wake - now, 0);
    if waited + proposed > MAX_INT64 {
      assert Wrap64(waited + proposed) == waited + proposed - 0x1_0000_0000_0000_0000;
    }
  }

  /** A 72-hour total-wait cap lets a wait of centuries through once a single
      millisecond has been waited: the saturated proposal overflows the sum. */
  lemma CapOverflowWitness()
    ensures var p := Policy(30_000_000_000, 2.0, 3_600_000_000_000, 0.0, 15_000_000_000, 0, None, 259_200_000_000_000);
            && Sane(p)
            && ExceededCap(p, 2, 0, NS_PER_MS, SubTime(12_622_780_800_000_000_000, 0)).CapNone?
            && DocumentedCap(p, 2, 0, NS_PER_MS, 12_622_780_800_000_000_000).CapMaxTotalWait?
  {
    assert SubTime(12_622_780_800_000_000_000, 0) == MAX_INT64;
    assert Wrap64(NS_PER_MS + MAX_INT64) == NS_PER_MS + MAX_INT64 - 0x1_0000_0000_0000_0000;
  }
}
