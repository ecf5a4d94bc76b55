/** What every run of the task store keeps: rows that repeat the log, columns that repeat the payload, versions that
    grow, terminal states that absorb, and requests to agents in their proper order. */
module TaskRuns {
  import opened PyValues
  import opened Identity
  import opened Events
  import opened Tasks

  predicate TaskEventOf(e: Event, id: string) {
    e.stream.TaskStream? && e.subject == id
  }

  predicate ExecuteFor(e: Event, id: string) {
    e.stream.AgentStream? && e.body.ExecuteBody? && e.body.taskId == id
  }

  predicate CancelFor(e: Event, id: string) {
    e.stream.AgentStream? && e.body.CancelBody? && e.body.taskId == id
  }

  /** The event is about the task. */
  predicate About(e: Event, id: string) {
    TaskEventOf(e, id) || ExecuteFor(e, id) || CancelFor(e, id)
  }

  /** The index columns agree with the payload and with the kind of the event that wrote it. */
  predicate ColumnsOk(row: TaskRow, kind: Kind) {
    row.status == StatusOf(row.payload, "STATUS_CREATED") && row.assignee == AssigneeOf(row.payload) &&
    (row.terminal <==> row.status in TERMINAL || kind == Canceled)
  }

  /** The row repeats the last task event of its id. */
  predicate RowOk(db: TaskDb, id: string)
    requires id in db.rows
  {
    var row := db.rows[id];
    0 < row.sequence <= |db.log| && ColumnsOk(row, db.log[row.sequence - 1].kind) &&
    TaskEventOf(db.log[row.sequence - 1], id) && db.log[row.sequence - 1].body == TaskBody(row.payload) &&
    forall i :: row.sequence <= i < |db.log| ==> !TaskEventOf(db.log[i], id)
  }

  predicate TableOk(db: TaskDb) {
    (forall id :: id in db.rows ==> RowOk(db, id)) &&
    forall i :: 0 <= i < |db.log| && db.log[i].stream.TaskStream? ==>
        db.log[i].body.TaskBody? && db.log[i].subject in db.rows
  }

  /** Of two events of a task the earlier is no cancel, the later no create, and the status version has grown. */
  predicate InTurn(a: Event, b: Event) {
    a.body.TaskBody? && b.body.TaskBody? && a.kind != Canceled && b.kind != Create &&
    VersionOf(a.body.task).Some? && VersionOf(b.body.task).Some? &&
    VersionOf(a.body.task).value < VersionOf(b.body.task).value
  }

  predicate TurnsOk(log: Log) {
    forall i, j :: 0 <= i < j < |log| && log[i].stream.TaskStream? && TaskEventOf(log[j], log[i].subject)
      ==> InTurn(log[i], log[j])
  }

  /** A request goes to the addressee of its task; a cancel is of a terminal task, and follows the execute request
      unless the task is executed elsewhere. */
  predicate RequestOk(db: TaskDb, i: nat)
    requires i < |db.log|
  {
    var e := db.log[i];
    IsRequest(e) && e.body.taskId in db.rows &&
    var row := db.rows[e.body.taskId];
    e.subject == Addressee(row.assignee) &&
    (e.body.ExecuteBody? ==> !ExecutedElsewhere(row.payload)) &&
    (e.body.CancelBody? ==>
       row.terminal &&
       (!ExecutedElsewhere(row.payload) ==> exists j :: 0 <= j < i && ExecuteFor(db.log[j], e.body.taskId)))
  }

  predicate RequestsOk(db: TaskDb) {
    (forall i :: 0 <= i < |db.log| && db.log[i].stream.AgentStream? ==> RequestOk(db, i)) &&
    forall i, j :: 0 <= i < j < |db.log| && db.log[i].stream.AgentStream? && IsRequest(db.log[i]) ==>
      if db.log[i].body.ExecuteBody? then !ExecuteFor(db.log[j], db.log[i].body.taskId)
      else !CancelFor(db.log[j], db.log[i].body.taskId)
  }

  /** Every task that is not executed elsewhere has been sent. */
  predicate AllSent(db: TaskDb) {
    forall id :: id in db.rows && !ExecutedElsewhere(db.rows[id].payload) ==>
      exists j :: 0 <= j < |db.log| && ExecuteFor(db.log[j], id)
  }

  predicate Core(db: TaskDb) {
    IdsOk(db.log) && TableOk(db) && TurnsOk(db.log) && RequestsOk(db)
  }

  predicate Consistent(db: TaskDb) {
    Core(db) && AllSent(db)
  }

  /* One more event. */

  predicate Pushed(log: Log, log': Log, e: Event) {
    log' == log + [e] && e.id == |log| + 1
  }

  lemma PushIds(log: Log, log': Log, e: Event)
    requires IdsOk(log) && Pushed(log, log', e)
    ensures IdsOk(log')
  {
  }

  /** An event of another kind leaves the table as good as it was. */
  lemma PushTable(db: TaskDb, db': TaskDb, e: Event)
    requires TableOk(db) && Pushed(db.log, db'.log, e) && db'.rows == db.rows && !e.stream.TaskStream?
    ensures TableOk(db')
  {
    hide ColumnsOk;
    forall id | id in db'.rows ensures RowOk(db', id) {
      assert RowOk(db, id);
    }
  }

  lemma PushTurns(log: Log, log': Log, e: Event)
    requires TurnsOk(log) && Pushed(log, log', e)
    requires forall i :: 0 <= i < |log| && log[i].stream.TaskStream? && TaskEventOf(e, log[i].subject) ==>
        InTurn(log[i], e)
    ensures TurnsOk(log')
  {
    hide InTurn;
  }

  /** Requests stay proper when the log grows by another kind of event and open tasks may change. */
  lemma PushRequests(db: TaskDb, db': TaskDb, e: Event)
    requires RequestsOk(db) && Pushed(db.log, db'.log, e) && !e.stream.AgentStream?
    requires forall id :: id in db.rows ==> id in db'.rows && SameRequests(db.rows[id], db'.rows[id])
    ensures RequestsOk(db')
  {
    hide ExecutedElsewhere;
    forall i | 0 <= i < |db'.log| && db'.log[i].stream.AgentStream? ensures RequestOk(db', i) {
      assert db'.log[i] == db.log[i] && RequestOk(db, i);
      var t := db.log[i].body.taskId;
      if db.log[i].body.CancelBody? && !ExecutedElsewhere(db.rows[t].payload) {
        var j :| 0 <= j < i && ExecuteFor(db.log[j], t);
        assert ExecuteFor(db'.log[j], t);
      }
    }
  }

  /** Two rows of a task that look alike to its requests; the later may be terminal. */
  predicate SameRequests(row: TaskRow, row': TaskRow) {
    row'.assignee == row.assignee && ExecutedElsewhere(row'.payload) == ExecutedElsewhere(row.payload) &&
    (row.terminal ==> row'.terminal)
  }

  /** A new row, or a proper change of an open one. */
  predicate ProperWrite(db: TaskDb, id: string, row: TaskRow, kind: Kind) {
    ColumnsOk(row, kind) &&
    if id !in db.rows then kind == Create
    else
      kind != Create && !db.rows[id].terminal && SameRequests(db.rows[id], row) &&
      VersionOf(db.rows[id].payload).Some? && VersionOf(row.payload).Some? &&
      VersionOf(db.rows[id].payload).value < VersionOf(row.payload).value
  }

  lemma ColumnsFrame(row: TaskRow, kind: Kind, n: nat)
    requires ColumnsOk(row, kind)
    ensures ColumnsOk(row.(sequence := n), kind)
  {
    hide StatusOf, AssigneeOf;
  }

  lemma WriteTable(db: TaskDb, id: string, row: TaskRow, kind: Kind, now: int)
    requires TableOk(db) && ProperWrite(db, id, row, kind)
    ensures TableOk(Write(db, id, row, kind, now))
  {
    hide ColumnsOk, SameRequests, VersionOf;
    var db' := Write(db, id, row, kind, now);
    ColumnsFrame(row, kind, |db.log| + 1);
    forall t | t in db'.rows ensures RowOk(db', t) {
      if t != id {
        assert RowOk(db, t);
      }
    }
  }

  lemma WriteTurns(db: TaskDb, id: string, row: TaskRow, kind: Kind, now: int)
    requires TableOk(db) && TurnsOk(db.log) && ProperWrite(db, id, row, kind)
    ensures TurnsOk(Write(db, id, row, kind, now).log)
  {
    hide StatusOf, AssigneeOf, SameRequests, VersionOf;
    var db' := Write(db, id, row, kind, now);
    var e := db'.log[|db.log|];
    forall i | 0 <= i < |db.log| && db.log[i].stream.TaskStream? && TaskEventOf(e, db.log[i].subject)
      ensures InTurn(db.log[i], e)
    {
      assert RowOk(db, id);
      var last := db.rows[id].sequence - 1;
      if i < last {
        assert InTurn(db.log[i], db.log[last]);
      }
    }
    PushTurns(db.log, db'.log, e);
  }

  lemma WriteKeeps(db: TaskDb, id: string, row: TaskRow, kind: Kind, now: int)
    requires Core(db) && ProperWrite(db, id, row, kind)
    ensures Core(Write(db, id, row, kind, now))
  {
    hide TableOk, TurnsOk, RequestsOk, ColumnsOk, VersionOf, ExecutedElsewhere;
    var db' := Write(db, id, row, kind, now);
    WriteTable(db, id, row, kind, now);
    WriteTurns(db, id, row, kind, now);
    PushIds(db.log, db'.log, db'.log[|db.log|]);
    PushRequests(db, db', db'.log[|db.log|]);
  }

  /** A proper request: the first of its kind for its task. */
  predicate ProperRequest(db: TaskDb, subject: string, body: Body) {
    (body.ExecuteBody? || body.CancelBody?) && body.taskId in db.rows &&
    var row := db.rows[body.taskId];
    subject == Addressee(row.assignee) &&
    if body.ExecuteBody? then
      !ExecutedElsewhere(row.payload) && forall i :: 0 <= i < |db.log| ==> !ExecuteFor(db.log[i], body.taskId)
    else
      row.terminal && (forall i :: 0 <= i < |db.log| ==> !CancelFor(db.log[i], body.taskId)) &&
      (!ExecutedElsewhere(row.payload) ==> exists j :: 0 <= j < |db.log| && ExecuteFor(db.log[j], body.taskId))
  }

  lemma PushRequest(db: TaskDb, db': TaskDb, e: Event)
    requires RequestsOk(db) && Pushed(db.log, db'.log, e) && db'.rows == db.rows
    requires e.stream.AgentStream? && ProperRequest(db, e.subject, e.body)
    ensures RequestsOk(db')
  {
    hide ExecutedElsewhere;
    forall i | 0 <= i < |db'.log| && db'.log[i].stream.AgentStream? ensures RequestOk(db', i) {
      var t := if i < |db.log| then db.log[i].body else e.body;
      assert i < |db.log| ==> RequestOk(db, i);
      if t.CancelBody? && !ExecutedElsewhere(db.rows[t.taskId].payload) {
        var j :| 0 <= j < i && ExecuteFor(db.log[j], t.taskId);
        assert ExecuteFor(db'.log[j], t.taskId);
      }
    }
  }

  lemma SendKeeps(db: TaskDb, subject: string, kind: Kind, body: Body, now: int)
    requires Core(db) && ProperRequest(db, subject, body)
    ensures Core(Send(db, subject, kind, body, now))
  {
    hide TableOk, TurnsOk, RequestsOk, ProperRequest;
    var db' := Send(db, subject, kind, body, now);
    var e := db'.log[|db.log|];
    PushIds(db.log, db'.log, e);
    PushTable(db, db', e);
    PushTurns(db.log, db'.log, e);
    PushRequest(db, db', e);
  }

  /* The calls make proper writes and requests. */

  /** The row has the status, the assignee and the flag that its payload asks for. */
  lemma ColumnsOfRestated(rt: Runtime, row: TaskRow, row': TaskRow, status: Obj, version: Obj, kind: Kind, now: int)
    requires "status" in status && status["status"] == JStr(row'.status) && row'.status != ""
    requires row.assignee == AssigneeOf(row.payload)
    requires row'.assignee == row.assignee && (row'.terminal <==> row'.status in TERMINAL || kind == Canceled)
    requires row'.payload == Restated(rt, row.payload, status, version, now)
    ensures ColumnsOk(row', kind)
  {
    hide Restated, StatusOf, AssigneeOf, ExecutedElsewhere;
    RestatedStatus(rt, row.payload, status, version, now, "STATUS_CREATED");
    RestatedFrame(rt, row.payload, status, version, now);
  }

  lemma RequestsOfRestated(rt: Runtime, row: TaskRow, row': TaskRow, status: Obj, version: Obj, now: int)
    requires !row.terminal && row'.assignee == row.assignee
    requires row'.payload == Restated(rt, row.payload, status, version, now)
    ensures SameRequests(row, row')
  {
    hide Restated, StatusOf, AssigneeOf, ExecutedElsewhere;
    RestatedFrame(rt, row.payload, status, version, now);
  }

  lemma AssigneeColumn(db: TaskDb, id: string)
    requires TableOk(db) && id in db.rows
    ensures db.rows[id].assignee == AssigneeOf(db.rows[id].payload)
  {
    hide StatusOf, AssigneeOf;
    assert RowOk(db, id);
  }

  /** Reading the version entry succeeds only on an object or on nothing. */
  lemma VersionEntry(payload: Obj)
    requires VersionOf(payload).Some?
    ensures AsDict(Lookup(payload, "version")) == Some(FieldsOf(Lookup(payload, "version")))
  {
    hide CurrentVersion;
    assert Lookup(payload, "version").JObj? || !Truthy(Lookup(payload, "version"));
  }

  /** What restating a row with a named status and a later version gives. */
  lemma RestatedProper(
      rt: Runtime, db: TaskDb, id: string, row': TaskRow, status: Obj, next: Json, kind: Kind, now: int)
    requires TableOk(db) && id in db.rows && !db.rows[id].terminal && VersionOf(db.rows[id].payload).Some?
    requires "status" in status && status["status"] == JStr(row'.status) && row'.status != ""
    requires IsInt(next) && IntValue(next) > VersionOf(db.rows[id].payload).value
    requires row'.assignee == db.rows[id].assignee && (row'.terminal <==> row'.status in TERMINAL || kind == Canceled)
    requires kind != Create
    requires row'.payload == Restated(rt, db.rows[id].payload, status,
                                      Versioned(FieldsOf(Lookup(db.rows[id].payload, "version")), id, next), now)
    ensures ProperWrite(db, id, row', kind)
  {
    hide Versioned, Restated, VersionOf, TableOk, Lookup, ColumnsOk, SameRequests, FieldsOf, AssigneeOf;
    var row, version := db.rows[id], FieldsOf(Lookup(db.rows[id].payload, "version"));
    var entry := Versioned(version, id, next);
    AssigneeColumn(db, id);
    ColumnsOfRestated(rt, row, row', status, entry, kind, now);
    RequestsOfRestated(rt, row, row', status, entry, now);
    RestatedVersion(rt, row.payload, status, version, id, next, now);
  }

  lemma StatusNamed(rt: Runtime, payload: Obj, status: Obj, default': string)
    requires "status" in status && status["status"].JStr? && status["status"].s != ""
    ensures StatusOf(status, default') == status["status"].s
  {
    hide StatusOf, Restated;
    RestatedStatus(rt, payload, status, map[], 0, default');
  }

  lemma NextVersionGrows(current: int, expected: Json)
    ensures var next := NextVersion(current, expected); IsInt(next) && IntValue(next) > current
  {
  }

  lemma UpdateProper(rt: Runtime, db: TaskDb, id: string, payload: Obj, now: int)
    requires ValidRuntime(rt) && TableOk(db) && id in db.rows && !db.rows[id].terminal
    requires VersionOf(db.rows[id].payload).Some?
    ensures ProperWrite(db, id, UpdatedRow(rt, db.rows[id], id, payload, now), Update)
  {
    hide ValidRuntime, NormalStatus, Versioned, Restated, StatusOf, VersionOf, ExpectedVersion, TableOk, AsDict, Lookup,
         FieldsOf, NextVersion, ProperWrite;
    var row := db.rows[id];
    VersionEntry(row.payload);
    var status := NormalStatus(rt, payload);
    NormalStatusNamed(rt, payload);
    StatusNamed(rt, row.payload, status, row.status);
    NextVersionGrows(VersionOf(row.payload).value, ExpectedVersion(payload));
    var next := NextVersion(VersionOf(row.payload).value, ExpectedVersion(payload));
    RestatedProper(rt, db, id, UpdatedRow(rt, row, id, payload, now), status, next, Update, now);
  }

  /** The status entry a cancel writes. */
  lemma CancelEntry(rt: Runtime, row: TaskRow, id: string, cancel: Obj, status: string, error: Option<string>, now: int)
      returns (full: Obj)
    requires ValidRuntime(rt) && VersionOf(row.payload).Some? && status != ""
    ensures var row' := CanceledRow(rt, row, id, cancel, status, error, now);
            && "status" in full && full["status"] == JStr(row'.status) && row'.status != ""
            && row'.payload ==
               Restated(rt, row.payload, full,
                        Versioned(FieldsOf(Lookup(row.payload, "version")), id,
                            JInt(VersionOf(row.payload).value + 1)), now)
  {
    assert AsDict(Lookup(row.payload, "version")).value == FieldsOf(Lookup(row.payload, "version"));
    PyStrNotEmpty(rt, Or(Lookup(cancel, "status"), JStr(status)));
    var row' := CanceledRow(rt, row, id, cancel, status, error, now);
    var plain: Obj := map["status" := JStr(row'.status), "cancel" := JObj(cancel)];
    full := plain;
    if error.Some? {
      var e := JObj(map["code" := JStr(error.value), "message" := Or(Lookup(cancel, "reason"), JStr("cancelled"))]);
      full := plain["taskError" := e]["task_error" := e];
    }
    hide Restated, Versioned, VersionOf, PyStr;
  }

  lemma CanceledFrame(
      rt: Runtime, row: TaskRow, id: string, cancel: Obj, status: string, error: Option<string>, now: int)
    requires VersionOf(row.payload).Some?
    ensures var row' := CanceledRow(rt, row, id, cancel, status, error, now);
            row'.terminal && row'.assignee == row.assignee
  {
    hide VersionOf, Versioned, Restated, PyStr, Lookup, AsDict;
  }

  lemma CancelProper(
      rt: Runtime, db: TaskDb, id: string, cancel: Obj, status: string, error: Option<string>, now: int)
    requires ValidRuntime(rt) && TableOk(db) && CanCancel(db, id) && status != ""
    ensures ProperWrite(db, id, CanceledRow(rt, db.rows[id], id, cancel, status, error, now), Canceled)
  {
    hide ValidRuntime, Versioned, Restated, VersionOf, TableOk, Lookup, CanceledRow, FieldsOf, ProperWrite;
    var row, row' := db.rows[id], CanceledRow(rt, db.rows[id], id, cancel, status, error, now);
    CanceledFrame(rt, row, id, cancel, status, error, now);
    var full := CancelEntry(rt, row, id, cancel, status, error, now);
    RestatedProper(rt, db, id, row', full, JInt(VersionOf(row.payload).value + 1), Canceled, now);
  }

  /** No request about a task that has no row. */
  lemma NothingSent(db: TaskDb, id: string)
    requires RequestsOk(db) && id !in db.rows
    ensures forall i :: 0 <= i < |db.log| ==> !ExecuteFor(db.log[i], id)
  {
    hide ExecutedElsewhere;
    forall i | 0 <= i < |db.log| ensures !ExecuteFor(db.log[i], id) {
      if db.log[i].stream.AgentStream? {
        assert RequestOk(db, i);
      }
    }
  }

  /** No cancel request about an open task. */
  lemma NotCanceled(db: TaskDb, id: string)
    requires RequestsOk(db) && id in db.rows && !db.rows[id].terminal
    ensures forall i :: 0 <= i < |db.log| ==> !CancelFor(db.log[i], id)
  {
    hide ExecutedElsewhere;
    forall i | 0 <= i < |db.log| ensures !CancelFor(db.log[i], id) {
      if db.log[i].stream.AgentStream? {
        assert RequestOk(db, i);
      }
    }
  }

  /** What was sent stays sent. */
  lemma SentStays(db: TaskDb, db': TaskDb)
    requires AllSent(db) && db.log <= db'.log && db'.rows.Keys == db.rows.Keys
    requires forall id :: id in db.rows ==>
        ExecutedElsewhere(db'.rows[id].payload) == ExecutedElsewhere(db.rows[id].payload)
    ensures AllSent(db')
  {
    hide ExecutedElsewhere;
    forall id | id in db'.rows && !ExecutedElsewhere(db'.rows[id].payload)
      ensures exists j :: 0 <= j < |db'.log| && ExecuteFor(db'.log[j], id)
    {
      var j :| 0 <= j < |db.log| && ExecuteFor(db.log[j], id);
      assert db'.log[j] == db.log[j];
    }
  }

  lemma AdmittedProper(rt: Runtime, db: TaskDb, payload: Obj, newId: string, newId2: string, now: int)
    ensures var admitted := Admit(rt, db, payload, newId, newId2, now);
            admitted.Some? ==>
              admitted.value.0 !in db.rows && ProperWrite(db, admitted.value.0, admitted.value.1, Create)
  {
    hide NewTask, TaskIdOf, StatusOf, AssigneeOf, ExecutedElsewhere, VersionOf;
  }

  /** A new task and its request are all sent. */
  lemma SentWithNew(db: TaskDb, next: TaskDb, id: string)
    requires AllSent(db) && db.log <= next.log && next.rows.Keys == db.rows.Keys + {id}
    requires forall t :: t in db.rows && t != id ==> next.rows[t] == db.rows[t]
    requires !ExecutedElsewhere(next.rows[id].payload) ==>
               exists j :: 0 <= j < |next.log| && ExecuteFor(next.log[j], id)
    ensures AllSent(next)
  {
    hide ExecutedElsewhere;
    forall t | t in next.rows && !ExecutedElsewhere(next.rows[t].payload)
      ensures exists j :: 0 <= j < |next.log| && ExecuteFor(next.log[j], t)
    {
      if t != id {
        var j :| 0 <= j < |db.log| && ExecuteFor(db.log[j], t);
        assert next.log[j] == db.log[j];
      }
    }
  }

  lemma CreateKeeps(rt: Runtime, db: TaskDb, payload: Obj, newId: string, newId2: string, now: int)
    requires Consistent(db)
    ensures Consistent(CreateTask(rt, db, payload, newId, newId2, now))
  {
    hide Admit, ExecutedElsewhere, VersionOf, TableOk, TurnsOk, RequestsOk, AllSent, ColumnsOk, SameRequests;
    var admitted := Admit(rt, db, payload, newId, newId2, now);
    if admitted.Some? {
      var (id, row) := admitted.value;
      var written, next := Write(db, id, row, Create, now), CreateTask(rt, db, payload, newId, newId2, now);
      AdmittedProper(rt, db, payload, newId, newId2, now);
      WriteKeeps(db, id, row, Create, now);
      NothingSent(db, id);
      if !ExecutedElsewhere(row.payload) {
        assert forall i :: 0 <= i < |written.log| ==> !ExecuteFor(written.log[i], id);
        SendKeeps(written, Addressee(row.assignee), ExecuteRequest, ExecuteBody(id, row.payload, row.assignee), now);
        assert ExecuteFor(next.log[|written.log|], id);
      }
      hide Core, Addressee;
      SentWithNew(db, next, id);
    }
  }

  lemma UpdateKeeps(rt: Runtime, db: TaskDb, id: string, payload: Obj, enforce: bool, now: int)
    requires ValidRuntime(rt) && Consistent(db)
    ensures Consistent(UpdateStatus(rt, db, id, payload, enforce, now))
  {
    hide ExpectedVersion, VersionOf, TableOk, TurnsOk, RequestsOk, ColumnsOk, ExecutedElsewhere, UpdatedRow, AllSent;
    if CanUpdate(db, id, payload, enforce) {
      UpdateProper(rt, db, id, payload, now);
      var row := UpdatedRow(rt, db.rows[id], id, payload, now);
      WriteKeeps(db, id, row, Update, now);
      SentStays(db, Write(db, id, row, Update, now));
    }
  }

  lemma CancelKeeps(
      rt: Runtime, db: TaskDb, id: string, cancel: Obj, status: string, error: Option<string>, now: int)
    requires ValidRuntime(rt) && Consistent(db) && status != ""
    ensures Consistent(Cancel(rt, db, id, cancel, status, error, now))
  {
    hide VersionOf, TableOk, TurnsOk, RequestsOk, StatusOf, AssigneeOf, ExecutedElsewhere, CanceledRow;
    if CanCancel(db, id) {
      CancelProper(rt, db, id, cancel, status, error, now);
      var row := CanceledRow(rt, db.rows[id], id, cancel, status, error, now);
      var written, next := Write(db, id, row, Canceled, now), Cancel(rt, db, id, cancel, status, error, now);
      NotCanceled(db, id);
      WriteKeeps(db, id, row, Canceled, now);
      SentStays(db, written);
      assert forall i :: 0 <= i < |written.log| ==> !CancelFor(written.log[i], id);
      SendKeeps(written, Addressee(row.assignee), CancelRequest, CancelBody(id, row.payload, cancel), now);
      SentStays(written, next);
    }
  }

  lemma ForeignKeeps(db: TaskDb, db': TaskDb, e: Event)
    requires Consistent(db) && Pushed(db.log, db'.log, e) && db'.rows == db.rows
    requires !e.stream.TaskStream? && !e.stream.AgentStream?
    ensures Consistent(db')
  {
    hide TableOk, TurnsOk, RequestsOk, AllSent, ExecutedElsewhere;
    PushIds(db.log, db'.log, e);
    PushTable(db, db', e);
    PushTurns(db.log, db'.log, e);
    PushRequests(db, db', e);
    SentStays(db, db');
  }

  lemma StepKeeps(rt: Runtime, db: TaskDb, op: TaskOp)
    requires ValidRuntime(rt) && Consistent(db) && NamedStatus(op)
    ensures Consistent(Step(rt, db, op))
  {
    hide Consistent, CreateTask, UpdateStatus, Cancel;
    match op
    case Creating(payload, newId, newId2, now) => CreateKeeps(rt, db, payload, newId, newId2, now);
    case Updating(id, payload, enforce, now) => UpdateKeeps(rt, db, id, payload, enforce, now);
    case Canceling(id, cancel, status, error, now) => CancelKeeps(rt, db, id, cancel, status, error, now);
    case Claiming(listener) => SameTable(db, Claim(db, listener));
    case Elsewhere(event) =>
      var next := Step(rt, db, op);
      if next != db {
        ForeignKeeps(db, next, next.log[|db.log|]);
      }
  }

  lemma SameTable(db: TaskDb, db': TaskDb)
    requires Consistent(db) && db'.log == db.log && db'.rows == db.rows
    ensures Consistent(db')
  {
    hide ColumnsOk, ExecutedElsewhere, TurnsOk, AllSent;
    forall id | id in db'.rows ensures RowOk(db', id) {
      assert RowOk(db, id);
    }
    hide RowOk;
    forall i | 0 <= i < |db'.log| && db'.log[i].stream.AgentStream? ensures RequestOk(db', i) {
      assert RequestOk(db, i);
    }
    hide RequestOk;
    SentStays(db, db');
  }

  /** Every reachable state is consistent. */
  lemma {:induction false} RunConsistent(rt: Runtime, db: TaskDb, ops: seq<TaskOp>)
    requires ValidRuntime(rt) && Consistent(db) && forall op :: op in ops ==> NamedStatus(op)
    ensures Consistent(Run(rt, db, ops))
    decreases |ops|
  {
    if ops == [] {
    } else {
      hide Consistent, Step;
      StepKeeps(rt, db, ops[0]);
      RunConsistent(rt, Step(rt, db, ops[0]), ops[1..]);
    }
  }

  lemma EmptyConsistent()
    ensures Consistent(EMPTY)
  {
  }

  /* Terminal states absorb. */

  lemma StepAbsorbs(rt: Runtime, db: TaskDb, op: TaskOp, id: string)
    requires id in db.rows && db.rows[id].terminal
    ensures var next := Step(rt, db, op);
            && db.log <= next.log && id in next.rows && next.rows[id] == db.rows[id]
            && forall i :: |db.log| <= i < |next.log| ==> !About(next.log[i], id)
  {
    hide NewTask, StatusOf, AssigneeOf, UpdatedRow, CanceledRow, VersionOf, ExecutedElsewhere, ExpectedVersion;
    if op.Creating? {
      var admitted := Admit(rt, db, op.payload, op.newId, op.newId2, op.now);
      assert admitted.Some? ==> admitted.value.0 != id;
    }
    hide Admit;
  }

  /** After a task is terminal its row never changes and no event about it is logged. */
  lemma {:induction false} TerminalAbsorbs(rt: Runtime, db: TaskDb, ops: seq<TaskOp>, id: string)
    requires id in db.rows && db.rows[id].terminal
    ensures var last := Run(rt, db, ops);
            && db.log <= last.log && id in last.rows && last.rows[id] == db.rows[id]
            && forall i :: |db.log| <= i < |last.log| ==> !About(last.log[i], id)
    decreases |ops|
  {
    if ops == [] {
    } else {
      StepAbsorbs(rt, db, ops[0], id);
      hide Step, About;
      TerminalAbsorbs(rt, Step(rt, db, ops[0]), ops[1..], id);
    }
  }
}
