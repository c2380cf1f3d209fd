/** Values shared by every component: optional values, int64 arithmetic as the
    source's machine integers perform it, and the rows the store keeps. */
module Types {

  datatype Option<+T> = None | Some(value: T)

  /** An instant in nanoseconds; a length of time in nanoseconds. */
  type Time = int
  type Duration = int

  newtype byte = x: int | 0 <= x < 256
  type bytes = seq<byte>

  const MAX_INT64: int := 0x7fff_ffff_ffff_ffff
  const MIN_INT64: int := -0x8000_0000_0000_0000
  const NS_PER_MS: int := 1_000_000

  /** Two's-complement addition and multiplication wrap around. */
  function Wrap64(x: int): (r: int)
    ensures MIN_INT64 <= r <= MAX_INT64
    ensures MIN_INT64 <= x <= MAX_INT64 ==> r == x
  {
    (x - MIN_INT64) % 0x1_0000_0000_0000_0000 + MIN_INT64
  }

  /** The difference of two instants saturates at the int64 bounds. */
  function SubTime(a: Time, b: Time): (r: Duration)
    ensures MIN_INT64 <= r <= MAX_INT64
    ensures MIN_INT64 <= a - b <= MAX_INT64 ==> r == a - b
  {
    if a - b > MAX_INT64 then MAX_INT64 else if a - b < MIN_INT64 then MIN_INT64 else a - b
  }

  /** Whole milliseconds of a duration, truncated toward zero. */
  function Millis(d: Duration): int {
    if d >= 0 then d / NS_PER_MS else -(-d / NS_PER_MS)
  }

  datatype Status = Pending | Running | Waiting | Paused | Succeeded | Failed | Stopped

  predicate Terminal(s: Status) {
    s.Succeeded? || s.Failed? || s.Stopped?
  }

  /** Outcome categories; Invalid stands for any other text in a rule. */
  datatype Category =
    | Success | RateLimit | QuotaExhausted | SessionLimit | TransientError | FatalError | Unknown
    | Invalid(text: string)

  datatype SessionMode = NewSession | ExistingSession

  datatype Task = Task(
    id: string,
    sessionMode: SessionMode,
    sessionRef: Option<string>,
    status: Status,
    currentAttempt: int,
    totalAttempts: int,
    nextWakeAt: Option<Time>,
    lastOutcome: Option<Category>,
    lastResetAt: Option<Time>,
    cumulativeWaitMs: int,
    exitReason: Option<string>,
    createdAt: Time,
    updatedAt: Time)

  datatype Attempt = Attempt(
    id: string,
    taskId: string,
    attemptNo: int,
    pid: Option<int>,
    startedAt: Time,
    endedAt: Option<Time>,
    exitCode: Option<int>,
    outcome: Option<Category>,
    resetAt: Option<Time>,
    matchedRule: Option<string>)

  datatype Cause = StartCause | TimerCause | AvailabilityCause | ResumeCause
  datatype Action = PauseAction | StopAction

  /** The typed detail of one event row. */
  datatype LogEntry =
    | LoggedStart(attempt: int, cause: Cause, resumed: bool, pid: int)
    | LoggedExit(outcome: Category, rule: string)
    | LoggedWake(nextWakeAt: Time)
    | LoggedAction(action: Action, from: Status)
    | LoggedChange(to: Status, reason: string, lastOutcome: Option<Category>)

  datatype EventRow = EventRow(ts: Time, entry: LogEntry)

  /** Everything the store holds about one task: its row, its attempt rows in
      insertion order, and its event log. */
  datatype Rec = Rec(task: Task, attempts: seq<Attempt>, log: seq<EventRow>)

  lemma AppendTwo<T>(s: seq<T>, x: T, y: T)
    ensures s + [x, y] == s + [x] + [y]
  {
  }

  lemma Regroup<T>(a: seq<T>, b: seq<T>, c: seq<T>)
    ensures a + (b + c) == (a + b) + c
  {
  }
}
