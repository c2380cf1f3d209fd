/** The transactional store (internal/store/crud.go): typed mutations inside one
    write transaction that either all commit or leave the database unchanged. */
module Store {
  import opened Types

  datatype Error = NotFound | Duplicate | ForeignKey | Infrastructure
  datatype Result<+T> = Ok(value: T) | Err(error: Error)

  datatype TxOp =
    | CreateTask(task: Task)
    | UpdateTask(task: Task)
    | AddAttempt(attempt: Attempt)
    | UpdateAttempt(attempt: Attempt)
    | AppendEvent(row: EventRow)

  /** Where the database itself fails during a transaction, if it does. */
  datatype Fault = NoFault | BeginFails | OpFails(at: nat) | CommitFails

  predicate Struck(fault: Fault, ops: nat) {
    fault.BeginFails? || fault.CommitFails? || (fault.OpFails? && fault.at < ops)
  }

  /** The first row with this id. */
  function IndexOf(rows: seq<Attempt>, id: string): (i: Option<nat>)
    ensures i.Some? ==> i.value < |rows| && rows[i.value].id == id
    ensures i.None? ==> forall k :: 0 <= k < |rows| ==> rows[k].id != id
  {
    if rows == [] then None
    else if rows[0].id == id then Some(0)
    else
      var rest := IndexOf(rows[1..], id);
      if rest.Some? then Some(rest.value + 1) else None
  }

  /** UNIQUE(task_id, attempt_no) together with the primary key. */
  predicate Clashes(rows: seq<Attempt>, a: Attempt) {
    exists k :: 0 <= k < |rows| && (rows[k].id == a.id || rows[k].attemptNo == a.attemptNo)
  }

  /** The task row's id and creation time are never rewritten. */
  function RewriteTask(row: Task, t: Task): Task {
    t.(id := row.id, createdAt := row.createdAt)
  }

  /** An attempt row keeps its id, task, and number. */
  function RewriteAttempt(row: Attempt, a: Attempt): Attempt {
    a.(id := row.id, taskId := row.taskId, attemptNo := row.attemptNo)
  }

  function InsertRow(rec: Rec, a: Attempt): Result<Rec> {
    if a.taskId != rec.task.id then Err(ForeignKey)
    else if Clashes(rec.attempts, a) then Err(Duplicate)
    else Ok(rec.(attempts := rec.attempts + [a]))
  }

  function RewriteRow(rec: Rec, a: Attempt): Result<Rec> {
    var i := IndexOf(rec.attempts, a.id);
    if i.None? then Err(NotFound)
    else Ok(rec.(attempts := rec.attempts[i.value := RewriteAttempt(rec.attempts[i.value], a)]))
  }

  /** One statement against one task's rows; None is a task that does not exist. */
  function ApplyOp(r: Option<Rec>, op: TxOp): Result<Option<Rec>> {
    match op
    case CreateTask(t) => if r.Some? then Err(Duplicate) else Ok(Some(Rec(t, [], [])))
    case UpdateTask(t) =>
      if r.None? || r.value.task.id != t.id then Err(NotFound)
      else Ok(Some(r.value.(task := RewriteTask(r.value.task, t))))
    case AddAttempt(a) =>
      if r.None? then Err(ForeignKey)
      else match InsertRow(r.value, a) { case Ok(x) => Ok(Some(x)) case Err(e) => Err(e) }
    case UpdateAttempt(a) =>
      if r.None? then Err(NotFound)
      else match RewriteRow(r.value, a) { case Ok(x) => Ok(Some(x)) case Err(e) => Err(e) }
    case AppendEvent(row) =>
      if r.None? then Err(ForeignKey) else Ok(Some(r.value.(log := r.value.log + [row])))
  }

  /** A whole script, stopping at its first error. */
  function ApplyOps(r: Option<Rec>, ops: seq<TxOp>): Result<Option<Rec>> {
    if ops == [] then Ok(r)
    else
      match ApplyOps(r, ops[..|ops| - 1])
      case Err(e) => Err(e)
      case Ok(mid) => ApplyOp(mid, ops[|ops| - 1])
  }

  lemma {:induction false} ApplyOpsSplit(r: Option<Rec>, xs: seq<TxOp>, ys: seq<TxOp>)
    ensures ApplyOps(r, xs + ys) ==
            match ApplyOps(r, xs) { case Err(e) => Err(e) case Ok(mid) => ApplyOps(mid, ys) }
  {
    if ys == [] {
      assert xs + ys == xs;
    } else {
      var front := ys[..|ys| - 1];
      assert (xs + ys)[..|xs + ys| - 1] == xs + front;
      ApplyOpsSplit(r, xs, front);
    }
  }

  // ---- What no transaction can break ----

  predicate Unique(rows: seq<Attempt>) {
    forall i, j :: 0 <= i < j < |rows| ==> rows[i].id != rows[j].id && rows[i].attemptNo != rows[j].attemptNo
  }

  /** The attempts table's constraints: primary key, UNIQUE(task_id, attempt_no), and
      the reference to the task. */
  predicate Intact(r: Option<Rec>) {
    r.Some? ==>
      && Unique(r.value.attempts)
      && forall i :: 0 <= i < |r.value.attempts| ==> r.value.attempts[i].taskId == r.value.task.id
  }

  lemma {:induction false} ConstraintsKept(r: Option<Rec>, ops: seq<TxOp>)
    requires Intact(r) && ApplyOps(r, ops).Ok?
    ensures Intact(ApplyOps(r, ops).value)
  {
    if ops != [] {
      ConstraintsKept(r, ops[..|ops| - 1]);
    }
  }

  /** Rows are never removed or renumbered and events never rewritten. */
  predicate Grows(before: Option<Rec>, after: Option<Rec>) {
    before.Some? ==>
      && after.Some?
      && after.value.task.id == before.value.task.id && after.value.task.createdAt == before.value.task.createdAt
      && before.value.log <= after.value.log
      && |before.value.attempts| <= |after.value.attempts|
      && forall i :: 0 <= i < |before.value.attempts| ==>
           && after.value.attempts[i].id == before.value.attempts[i].id
           && after.value.attempts[i].attemptNo == before.value.attempts[i].attemptNo
  }

  lemma {:induction false} ScriptsOnlyGrow(r: Option<Rec>, ops: seq<TxOp>)
    requires ApplyOps(r, ops).Ok?
    ensures Grows(r, ApplyOps(r, ops).value)
  {
    if ops != [] {
      ScriptsOnlyGrow(r, ops[..|ops| - 1]);
    }
  }

  /** The rows of every task, keyed by task id. */
  class Store {
    var rows: map<string, Rec>

    constructor ()
      ensures rows == map[]
    {
      rows := map[];
    }

    function Get(id: string): Option<Rec>
      reads this
    {
      if id in rows then Some(rows[id]) else None
    }

    /** Runs the script in one write transaction on the rows of task `id`.
        Whatever fails, and wherever, the database is left exactly as it was;
        otherwise every statement has taken effect and no other task's rows moved. */
    method UpdateTaskTx(id: string, ops: seq<TxOp>, fault: Fault) returns (ok: bool)
      modifies this
      ensures ok <==> !Struck(fault, |ops|) && ApplyOps(old(Get(id)), ops).Ok?
      ensures ok ==> Get(id) == ApplyOps(old(Get(id)), ops).value
      ensures ok ==> forall other :: other != id ==> Get(other) == old(Get(other))
      ensures !ok ==> rows == old(rows)
    {
      if fault.BeginFails? {
        return false;
      }
      var tx := Get(id);
      var i := 0;
      while i < |ops|
        invariant 0 <= i <= |ops|
        invariant ApplyOps(old(Get(id)), ops[..i]) == Ok(tx)
        invariant rows == old(rows)
        invariant old(Get(id)).Some? ==> tx.Some?
        invariant fault.OpFails? ==> fault.at >= i
      {
        if fault == OpFails(i) {
          return false;
        }
        assert ops[..i + 1][..i] == ops[..i];
        var step := ApplyOp(tx, ops[i]);
        if step.Err? {
          assert ops == ops[..i + 1] + ops[i + 1..];
          ApplyOpsSplit(old(Get(id)), ops[..i + 1], ops[i + 1..]);
          return false;
        }
        tx := step.value;
        i := i + 1;
      }
      assert ops[..i] == ops;
      if fault.CommitFails? {
        return false;
      }
      if tx.Some? {
        rows := rows[id := tx.value];
      }
      ok := true;
    }
  }

  // ---- The one shape of transaction the lifecycle uses ----

  datatype AttemptWrite = NoAttempt | Insert(row: Attempt) | Rewrite(row: Attempt)

  function Appends(evs: seq<EventRow>): (ops: seq<TxOp>)
    ensures |ops| == |evs|
  {
    seq(|evs|, i requires 0 <= i < |evs| => AppendEvent(evs[i]))
  }

  function AttemptOps(w: AttemptWrite): seq<TxOp> {
    match w
    case NoAttempt => []
    case Insert(a) => [AddAttempt(a)]
    case Rewrite(a) => [UpdateAttempt(a)]
  }

  /** Attempt row first, then the events, then the task row. */
  function Script(w: AttemptWrite, evs: seq<EventRow>, next: Task): seq<TxOp> {
    AttemptOps(w) + Appends(evs) + [UpdateTask(next)]
  }

  function WriteAttempt(rec: Rec, w: AttemptWrite): Result<Rec> {
    match w
    case NoAttempt => Ok(rec)
    case Insert(a) => InsertRow(rec, a)
    case Rewrite(a) => RewriteRow(rec, a)
  }

  /** What such a transaction leaves behind, or None when nothing is committed. */
  function Commit(rec: Rec, w: AttemptWrite, evs: seq<EventRow>, next: Task, fault: Fault): Option<Rec> {
    if Struck(fault, |Script(w, evs, next)|) || next.id != rec.task.id then None
    else
      match WriteAttempt(rec, w)
      case Err(_) => None
      case Ok(r) => Some(Rec(RewriteTask(rec.task, next), r.attempts, rec.log + evs))
  }

  lemma {:induction false} AppendsApply(rec: Rec, evs: seq<EventRow>)
    ensures ApplyOps(Some(rec), Appends(evs)) == Ok(Some(rec.(log := rec.log + evs)))
  {
    if evs == [] {
      assert rec.log + evs == rec.log;
    } else {
      var n := |evs| - 1;
      AppendsApply(rec, evs[..n]);
      assert Appends(evs)[..n] == Appends(evs[..n]);
      assert rec.log + evs[..n] + [evs[n]] == rec.log + evs;
    }
  }

  lemma OneOp(r: Option<Rec>, op: TxOp)
    ensures ApplyOps(r, [op]) == ApplyOp(r, op)
  {
    assert [op][..0] == [];
    assert ApplyOps(r, []) == Ok(r);
  }

  /** Running the script statement by statement is the same as Commit. */
  lemma ScriptIsCommit(rec: Rec, w: AttemptWrite, evs: seq<EventRow>, next: Task, fault: Fault)
    ensures var ops := Script(w, evs, next);
            var run := ApplyOps(Some(rec), ops);
            Commit(rec, w, evs, next, fault) == if !Struck(fault, |ops|) && run.Ok? then run.value else None
  {
    var head := AttemptOps(w);
    var body := Appends(evs);
    var last := [UpdateTask(next)];
    ApplyOpsSplit(Some(rec), head + body, last);
    ApplyOpsSplit(Some(rec), head, body);
    assert ApplyOps(Some(rec), []) == Ok(Some(rec));
    if w.Insert? {
      OneOp(Some(rec), AddAttempt(w.row));
    } else if w.Rewrite? {
      OneOp(Some(rec), UpdateAttempt(w.row));
    }
    match WriteAttempt(rec, w) {
      case Err(_) =>
      case Ok(r) =>
        AppendsApply(r, evs);
        OneOp(Some(r.(log := r.log + evs)), UpdateTask(next));
    }
  }
}
