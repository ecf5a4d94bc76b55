/** Optimistic concurrency: how many status updates that expect one version can be accepted in a run. */
module Concurrency {
  import opened PyValues
  import opened Identity
  import opened Tasks
  import opened TaskRuns

  /** The call is a status update of the task that names the version it expects. */
  predicate Expects(op: TaskOp, id: string, v: int) {
    op.Updating? && op.id == id && IsInt(ExpectedVersion(op.payload)) && IntValue(ExpectedVersion(op.payload)) == v
  }

  predicate Wins(db: TaskDb, op: TaskOp, id: string, v: int) {
    Expects(op, id, v) && CanUpdate(db, id, op.payload, op.enforce)
  }

  /** The accepted updates of a task that expect one version, over a run. */
  function Winners(rt: Runtime, db: TaskDb, ops: seq<TaskOp>, id: string, v: int): nat
    decreases |ops|
  {
    if ops == [] then 0
    else (if Wins(db, ops[0], id, v) then 1 else 0) + Winners(rt, Step(rt, db, ops[0]), ops[1..], id, v)
  }

  /** How many more such updates a state leaves room for. */
  function Room(db: TaskDb, id: string, v: int): nat {
    if id !in db.rows then 2
    else
      var current := VersionOf(db.rows[id].payload);
      if current.None? || current.value > v then 0 else if current.value == v then 1 else 2
  }

  /** What a payload's version reads after `n` was written to it: 0 reads as 1. */
  function ReadBack(n: int): int {
    if n == 0 then 1 else n
  }

  lemma UpdatedVersion(rt: Runtime, row: TaskRow, id: string, payload: Obj, now: int)
    requires VersionOf(row.payload).Some?
    ensures VersionOf(UpdatedRow(rt, row, id, payload, now).payload)
            == Some(ReadBack(IntValue(NextVersion(VersionOf(row.payload).value, ExpectedVersion(payload)))))
  {
    hide VersionOf, ExpectedVersion, NormalStatus, StatusOf, Restated, Versioned, Lookup, AsDict, FieldsOf, NextVersion;
    VersionEntry(row.payload);
    var next := NextVersion(VersionOf(row.payload).value, ExpectedVersion(payload));
    NextVersionGrows(VersionOf(row.payload).value, ExpectedVersion(payload));
    RestatedVersion(rt, row.payload, NormalStatus(rt, payload), FieldsOf(Lookup(row.payload, "version")), id, next,
        now);
  }

  lemma CanceledVersion(
      rt: Runtime, row: TaskRow, id: string, cancel: Obj, status: string, error: Option<string>, now: int)
    requires ValidRuntime(rt) && VersionOf(row.payload).Some? && status != ""
    ensures VersionOf(CanceledRow(rt, row, id, cancel, status, error, now).payload)
            == Some(ReadBack(VersionOf(row.payload).value + 1))
  {
    hide VersionOf, Restated, Versioned, Lookup, FieldsOf, CanceledRow;
    var full := CancelEntry(rt, row, id, cancel, status, error, now);
    var next := JInt(VersionOf(row.payload).value + 1);
    RestatedVersion(rt, row.payload, full, FieldsOf(Lookup(row.payload, "version")), id, next, now);
  }

  lemma AdmittedIsNew(rt: Runtime, db: TaskDb, payload: Obj, newId: string, newId2: string, now: int)
    ensures var admitted := Admit(rt, db, payload, newId, newId2, now);
            admitted.Some? ==> admitted.value.0 !in db.rows
  {
    hide NewTask, TaskIdOf, StatusOf;
  }

  /** The payload of a task before and after a step. */
  lemma StepRow(rt: Runtime, db: TaskDb, op: TaskOp, id: string)
    requires id in db.rows
    ensures var next := Step(rt, db, op);
            && id in next.rows
            && next.rows[id].payload ==
               if op.Updating? && op.id == id && CanUpdate(db, id, op.payload, op.enforce)
               then UpdatedRow(rt, db.rows[id], id, op.payload, op.now).payload
               else if op.Canceling? && op.id == id && CanCancel(db, id)
               then CanceledRow(rt, db.rows[id], id, op.cancel, op.status, op.error, op.now).payload
               else db.rows[id].payload
  {
    hide Admit, UpdatedRow, CanceledRow, VersionOf, ExpectedVersion, Addressee, ExecutedElsewhere;
    match op
    case Creating(payload, newId, newId2, now) => AdmittedIsNew(rt, db, payload, newId, newId2, now);
    case Updating(i, payload, enforce, now) =>
    case Canceling(i, cancel, status, error, now) =>
    case Claiming(listener) => hide AgentPage, FirstRequest, DeliveryKey, Cursor;
    case Elsewhere(event) =>
  }

  /** An accepted update takes a place, and no call gives one back. */
  lemma StepTakesRoom(rt: Runtime, db: TaskDb, op: TaskOp, id: string, v: int)
    requires ValidRuntime(rt) && NamedStatus(op)
    ensures Room(Step(rt, db, op), id, v) + (if Wins(db, op, id, v) then 1 else 0) <= Room(db, id, v)
  {
    hide Step, UpdatedRow, CanceledRow, VersionOf, ExpectedVersion;
    if id in db.rows {
      StepRow(rt, db, op, id);
      var row := db.rows[id];
      if VersionOf(row.payload).Some? {
        if op.Updating? {
          UpdatedVersion(rt, row, id, op.payload, op.now);
        }
        if op.Canceling? {
          CanceledVersion(rt, row, id, op.cancel, op.status, op.error, op.now);
        }
      }
    }
  }

  /** Over any run at most two accepted updates of a task expect the same version, at most one once the task has
      reached that version, and none after it. */
  lemma {:induction false} WinnersBounded(rt: Runtime, db: TaskDb, ops: seq<TaskOp>, id: string, v: int)
    requires ValidRuntime(rt) && forall op :: op in ops ==> NamedStatus(op)
    ensures Winners(rt, db, ops, id, v) <= Room(db, id, v)
    decreases |ops|
  {
    hide Room, Step, Wins;
    if ops == [] {
    } else {
      StepTakesRoom(rt, db, ops[0], id, v);
      WinnersBounded(rt, Step(rt, db, ops[0]), ops[1..], id, v);
    }
  }

  /** Of the writers that read the version of an open task, the first one wins and it alone, whatever else is called
      in between. */
  lemma OneWriterWins(rt: Runtime, db: TaskDb, ops: seq<TaskOp>, id: string, v: int)
    requires ValidRuntime(rt) && forall op :: op in ops ==> NamedStatus(op)
    requires id in db.rows && !db.rows[id].terminal && VersionOf(db.rows[id].payload) == Some(v)
    requires ops != [] && Expects(ops[0], id, v)
    ensures Winners(rt, db, ops, id, v) == 1 && Wins(db, ops[0], id, v)
  {
    hide Step, VersionOf, ExpectedVersion;
    WinnersBounded(rt, db, ops, id, v);
  }

  /** Two is the exact bound: an update that expects a version ahead of the task makes that version the current one,
      so a second one that expects it is accepted as long as the task stays open. */
  lemma AheadWinsTwice(rt: Runtime, db: TaskDb, a: TaskOp, b: TaskOp, id: string, v: int)
    requires Expects(a, id, v) && Expects(b, id, v) && v != 0
    requires id in db.rows && !db.rows[id].terminal
    requires VersionOf(db.rows[id].payload).Some? && VersionOf(db.rows[id].payload).value < v
    requires !Step(rt, db, a).rows[id].terminal
    ensures Winners(rt, db, [a, b], id, v) == 2
  {
    hide VersionOf, ExpectedVersion, UpdatedRow;
    UpdatedVersion(rt, db.rows[id], id, a.payload, a.now);
    var next := Step(rt, db, a);
    assert VersionOf(next.rows[id].payload) == Some(v);
    assert [a, b][1..] == [b] && [b][1..] == [];
    assert Winners(rt, next, [b], id, v) == 1;
  }
}
