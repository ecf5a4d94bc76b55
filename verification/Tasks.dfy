/** The task table: a versioned state machine, its index columns, and the requests sent to agents. */
module Tasks {
  import opened PyValues
  import opened Text
  import opened Identity
  import opened Events

  const TERMINAL: set<string> := {
    "SUCCEEDED", "FAILED", "CANCELED", "CANCELLED", "DONE_OK", "DONE_NOT_OK",
    "STATUS_DONE_OK", "STATUS_DONE_NOT_OK", "STATUS_CANCELED", "STATUS_CANCELLED"}

  datatype TaskRow = TaskRow(
    payload: Obj, status: string, assignee: Option<string>, created: int, updated: int, terminal: bool, sequence: nat)

  /** The table, the log, and the delivery cursors the store keeps in memory. */
  datatype TaskDb = TaskDb(log: Log, rows: map<string, TaskRow>, delivery: map<string, int>)

  /* Reading and writing the payload. */

  /** `o.get("status") or o.get("state") or o.get("taskStatus")` */
  function StatusEntry(o: Obj): Json {
    Or(Or(Lookup(o, "status"), Lookup(o, "state")), Lookup(o, "taskStatus"))
  }

  function StatusOf(payload: Obj, default': string): string {
    var raw := StatusEntry(payload);
    var text := if raw.JObj? then Or(Lookup(raw.fields, "status"), Lookup(raw.fields, "state")) else raw;
    if text.JStr? && text.s != "" then text.s else default'
  }

  function NestedStatus(payload: Obj): Json {
    var named := if Lookup(payload, "newStatus").JObj? then payload["newStatus"] else Lookup(payload, "new_status");
    if !named.JObj? && Lookup(payload, "status").JObj? then payload["status"] else named
  }

  function NormalStatus(rt: Runtime, payload: Obj): Obj {
    var nested := NestedStatus(payload);
    var result := if nested.JObj? then nested.fields else payload;
    var status := Or(Or(StatusEntry(result), StatusEntry(payload)), JStr("STATUS_CREATED"));
    result["status" := JStr(PyStr(rt, status))]
  }

  /** `version.get("statusVersion") or version.get("status_version") or 1` as an integer; None says it raises. */
  function CurrentVersion(version: Obj): Option<int> {
    PyInt(Or(Or(Lookup(version, "statusVersion"), Lookup(version, "status_version")), JInt(1)))
  }

  /** The status version a payload stands at; None says that reading it raises. */
  function VersionOf(payload: Obj): Option<int> {
    var version := AsDict(Lookup(payload, "version"));
    if version.None? then None else CurrentVersion(version.value)
  }

  /** The version a status update expects, JSON null when it names none. */
  function ExpectedVersion(payload: Obj): Json {
    if IsInt(Lookup(payload, "statusVersion")) then payload["statusVersion"]
    else if IsInt(Lookup(payload, "status_version")) then payload["status_version"]
    else
      var version := FieldsOf(Lookup(payload, "version"));
      if IsInt(Lookup(version, "statusVersion")) then version["statusVersion"]
      else if IsInt(Lookup(version, "status_version")) then version["status_version"]
      else JNull
  }

  /** The version entry after a change of status. */
  function Versioned(version: Obj, id: string, statusVersion: Json): Obj {
    var named := version["taskId" := JStr(id)]["task_id" := JStr(id)];
    var numbered := named["statusVersion" := statusVersion]["status_version" := statusVersion];
    var defined := SetDefault(numbered, "definitionVersion", JInt(1));
    SetDefault(defined, "definition_version", defined["definitionVersion"])
  }

  /** The payload after a change of status. */
  function Restated(rt: Runtime, payload: Obj, status: Obj, version: Obj, now: int): Obj {
    var time := JStr(rt.printTime(now));
    payload["status" := JObj(status)]["lastUpdateTime" := time]["last_update_time" := time]["version" := JObj(version)]
  }

  function NormalSpecification(specification: Obj): Obj {
    if Lookup(specification, "@type").JStr? && "type" !in specification
    then specification["type" := specification["@type"]]
    else if Lookup(specification, "type").JStr? && "@type" !in specification
    then specification["@type" := specification["type"]]
    else specification
  }

  /** Copies a non-empty string entry to its second spelling. */
  function Mirror(o: Obj, key: string, other: string): Obj {
    if Lookup(o, key).JStr? && Truthy(o[key]) && other !in o then o[other := o[key]] else o
  }

  function NormalSystem(system: Obj): Obj {
    Mirror(Mirror(system, "entityId", "entity_id"), "serviceName", "service_name")
  }

  function WithObject(o: Obj, key: string, f: Obj -> Obj): Obj {
    if Lookup(o, key).JObj? then o[key := JObj(f(o[key].fields))] else o
  }

  function NormalRelations(relations: Obj): Obj {
    WithObject(relations, "assignee", assignee => WithObject(assignee, "system", NormalSystem))
  }

  function InitialVersion(version: Obj, id: string): Obj {
    var named := SetDefault(SetDefault(version, "taskId", JStr(id)), "task_id", JStr(id));
    var defined := SetDefault(SetDefault(named, "definitionVersion", JInt(1)), "definition_version", JInt(1));
    SetDefault(SetDefault(defined, "statusVersion", JInt(1)), "status_version", JInt(1))
  }

  function InitialStatus(rt: Runtime, payload: Obj): Obj {
    var status := Lookup(payload, "status");
    NormalStatus(rt, if status.JObj? then status.fields else map["status" := Or(status, JStr("STATUS_CREATED"))])
  }

  const SANDBOX := JObj(map["system" := JObj(map[
    "serviceName" := JStr("local-compat-sandbox"), "service_name" := JStr("local-compat-sandbox")])])

  function WithAuthor(payload: Obj): Obj {
    var p := if "author" in payload && "createdBy" !in payload && "created_by" !in payload
             then payload["createdBy" := payload["author"]]["created_by" := payload["author"]] else payload;
    var q := SetDefault(p, "createdBy", SANDBOX);
    SetDefault(SetDefault(SetDefault(q, "created_by", q["createdBy"]), "lastUpdatedBy", q["createdBy"]),
               "last_updated_by", q["createdBy"])
  }

  function WithDefaults(payload: Obj, id: string, time: Json): Obj {
    var p := SetDefault(SetDefault(payload, "taskId", JStr(id)), "task_id", JStr(id));
    var q := SetDefault(SetDefault(p, "createTime", time), "create_time", time);
    SetDefault(SetDefault(q, "lastUpdateTime", time), "last_update_time", time)
  }

  function WithSpellings(payload: Obj): Obj {
    var p := WithObject(Mirror(payload, "displayName", "display_name"), "specification", NormalSpecification);
    WithObject(p, "relations", NormalRelations)
  }

  /** The payload of a new task; None says that its version entry is not an object. */
  function NewTask(rt: Runtime, payload: Obj, newId: string, now: int): Option<Obj> {
    var version := AsDict(Lookup(payload, "version"));
    if version.None? then None
    else
      var named := TaskIdOf(payload);
      var id := if named.Some? then named.value else newId;
      var time := JStr(rt.printTime(now));
      var dated := WithDefaults(payload["version" := JObj(InitialVersion(version.value, id))], id, time);
      Some(WithAuthor(WithSpellings(dated["status" := JObj(InitialStatus(rt, payload))])))
  }

  predicate ExecutedElsewhere(payload: Obj) {
    Truthy(if "isExecutedElsewhere" in payload then payload["isExecutedElsewhere"]
           else Lookup(payload, "is_executed_elsewhere"))
  }

  /** `assignee or "*"` */
  function Addressee(assignee: Option<string>): string {
    if assignee.Some? && assignee.value != "" then assignee.value else "*"
  }

  /* The calls. */

  /** Stores a row and logs its payload on the task stream; the row's sequence is the id of that event. */
  function Write(db: TaskDb, id: string, row: TaskRow, kind: Kind, now: int): TaskDb {
    db.(log := AddEvent(db.log, TaskStream, id, kind, now, TaskBody(row.payload)),
        rows := db.rows[id := row.(sequence := |db.log| + 1)])
  }

  function Send(db: TaskDb, subject: string, kind: Kind, body: Body, now: int): TaskDb {
    db.(log := AddEvent(db.log, AgentStream, subject, kind, now, body))
  }

  /** The row a create stores and its id; None says it raises. `newId` and `newId2` are the ids made up when the
      payload names none. */
  function Admit(
      rt: Runtime, db: TaskDb, payload: Obj, newId: string, newId2: string, now: int): Option<(string, TaskRow)>
  {
    var p := NewTask(rt, payload, newId, now);
    if p.None? then None
    else
      var named := TaskIdOf(p.value);
      var id := if named.Some? then named.value else newId2;
      if id in db.rows then None
      else
        var status := StatusOf(p.value, "STATUS_CREATED");
        Some((id, TaskRow(p.value, status, AssigneeOf(p.value), now, now, status in TERMINAL, 0)))
  }

  function CreateTask(rt: Runtime, db: TaskDb, payload: Obj, newId: string, newId2: string, now: int): TaskDb {
    var admitted := Admit(rt, db, payload, newId, newId2, now);
    if admitted.None? then db
    else
      var (id, row) := admitted.value;
      var created := Write(db, id, row, Create, now);
      if ExecutedElsewhere(row.payload) then created
      else Send(created, Addressee(row.assignee), ExecuteRequest, ExecuteBody(id, row.payload, row.assignee), now)
  }

  /** The update is accepted: the task is open and the expected version, if any, is not behind. */
  predicate CanUpdate(db: TaskDb, id: string, payload: Obj, enforce: bool) {
    id in db.rows && !db.rows[id].terminal && VersionOf(db.rows[id].payload).Some? &&
    var expected := ExpectedVersion(payload);
    if IsInt(expected) then IntValue(expected) >= VersionOf(db.rows[id].payload).value else !enforce
  }

  /** `max(current + 1, expected)` */
  function NextVersion(current: int, expected: Json): Json {
    if IsInt(expected) && IntValue(expected) > current + 1 then expected else JInt(current + 1)
  }

  function UpdatedRow(rt: Runtime, row: TaskRow, id: string, payload: Obj, now: int): TaskRow
    requires VersionOf(row.payload).Some?
  {
    var status := NormalStatus(rt, payload);
    var next := NextVersion(VersionOf(row.payload).value, ExpectedVersion(payload));
    var version := Versioned(AsDict(Lookup(row.payload, "version")).value, id, next);
    var name := StatusOf(status, row.status);
    row.(payload := Restated(rt, row.payload, status, version, now),
         status := name, updated := now, terminal := name in TERMINAL)
  }

  function UpdateStatus(rt: Runtime, db: TaskDb, id: string, payload: Obj, enforce: bool, now: int): TaskDb {
    if !CanUpdate(db, id, payload, enforce) then db
    else Write(db, id, UpdatedRow(rt, db.rows[id], id, payload, now), Update, now)
  }

  predicate CanCancel(db: TaskDb, id: string) {
    id in db.rows && !db.rows[id].terminal && VersionOf(db.rows[id].payload).Some?
  }

  function CanceledRow(
      rt: Runtime, row: TaskRow, id: string, cancel: Obj, status: string, error: Option<string>, now: int): TaskRow
    requires VersionOf(row.payload).Some?
  {
    var name := PyStr(rt, Or(Lookup(cancel, "status"), JStr(status)));
    var plain: Obj := map["status" := JStr(name), "cancel" := JObj(cancel)];
    var full := if error.None? then plain
                else
                  var e := JObj(map["code" := JStr(error.value),
                                    "message" := Or(Lookup(cancel, "reason"), JStr("cancelled"))]);
                  plain["taskError" := e]["task_error" := e];
    var version := Versioned(AsDict(Lookup(row.payload, "version")).value, id, JInt(VersionOf(row.payload).value + 1));
    row.(payload := Restated(rt, row.payload, full, version, now), status := name, updated := now, terminal := true)
  }

  function Cancel(
      rt: Runtime, db: TaskDb, id: string, cancel: Obj, status: string, error: Option<string>, now: int): TaskDb
  {
    if !CanCancel(db, id) then db
    else
      var row := CanceledRow(rt, db.rows[id], id, cancel, status, error, now);
      Send(Write(db, id, row, Canceled, now), Addressee(row.assignee), CancelRequest,
           CancelBody(id, row.payload, cancel), now)
  }

  /* Delivery to agents. */

  /** The cursor a listener uses. */
  function DeliveryKey(listener: Option<string>): string {
    Addressee(listener)
  }

  /** The events a listener polls: its own and those for everyone, or all of them. */
  function AddressedTo(listener: Option<string>): Subjects {
    if listener.Some? then OneOf([listener.value, "*"]) else AnySubject
  }

  function Cursor(db: TaskDb, listener: Option<string>): int {
    var key := DeliveryKey(listener);
    if key in db.delivery then db.delivery[key] else 0
  }

  predicate IsRequest(e: Event) {
    e.body.ExecuteBody? || e.body.CancelBody?
  }

  /** The first request of a page, and how many events were looked at to find it. */
  function FirstRequest(page: seq<Event>): (n: nat)
    ensures n <= |page|
    ensures n < |page| ==> IsRequest(page[n])
    ensures forall i :: 0 <= i < n ==> !IsRequest(page[i])
  {
    if page == [] || IsRequest(page[0]) then 0 else 1 + FirstRequest(page[1..])
  }

  function AgentPage(db: TaskDb, listener: Option<string>): seq<Event> {
    PollEvents(db.log, AgentStream, Cursor(db, listener), 100, AddressedTo(listener))
  }

  /** What a claim returns. */
  function Claimed(db: TaskDb, listener: Option<string>): Option<Event> {
    var page := AgentPage(db, listener);
    var n := FirstRequest(page);
    if n < |page| then Some(page[n]) else None
  }

  function Claim(db: TaskDb, listener: Option<string>): TaskDb {
    var page := AgentPage(db, listener);
    if page == [] then db
    else
      var n := FirstRequest(page);
      var last := if n < |page| then page[n] else page[|page| - 1];
      var after := Cursor(db, listener);
      db.(delivery := db.delivery[DeliveryKey(listener) := if last.id > after then last.id else after])
  }

  /** One call of the store, or an event of another one. */
  datatype TaskOp =
    | Creating(payload: Obj, newId: string, newId2: string, now: int)
    | Updating(id: string, payload: Obj, enforce: bool, now: int)
    | Canceling(id: string, cancel: Obj, status: string, error: Option<string>, now: int)
    | Claiming(listener: Option<string>)
    | Elsewhere(event: Event)

  function Step(rt: Runtime, db: TaskDb, op: TaskOp): TaskDb {
    match op
    case Creating(payload, newId, newId2, now) => CreateTask(rt, db, payload, newId, newId2, now)
    case Updating(id, payload, enforce, now) => UpdateStatus(rt, db, id, payload, enforce, now)
    case Canceling(id, cancel, status, error, now) => Cancel(rt, db, id, cancel, status, error, now)
    case Claiming(listener) => Claim(db, listener)
    case Elsewhere(event) =>
      if event.stream.TaskStream? || event.stream.AgentStream? then db
      else db.(log := db.log + [event.(id := |db.log| + 1)])
  }

  function Run(rt: Runtime, db: TaskDb, ops: seq<TaskOp>): TaskDb
    decreases |ops|
  {
    if ops == [] then db else Run(rt, Step(rt, db, ops[0]), ops[1..])
  }

  const EMPTY := TaskDb([], map[], map[])

  /** A status given to `cancel` by its caller is not empty. */
  predicate NamedStatus(op: TaskOp) {
    op.Canceling? ==> op.status != ""
  }

  /* What a row change does to the entries the columns are computed from. */

  lemma PyStrNotEmpty(rt: Runtime, j: Json)
    requires ValidRuntime(rt) && Truthy(j)
    ensures PyStr(rt, j) != ""
  {
  }

  lemma NormalStatusNamed(rt: Runtime, payload: Obj)
    requires ValidRuntime(rt)
    ensures var status := NormalStatus(rt, payload);
            "status" in status && status["status"].JStr? && status["status"].s != ""
  {
    var nested := NestedStatus(payload);
    var result := if nested.JObj? then nested.fields else payload;
    var status := Or(Or(StatusEntry(result), StatusEntry(payload)), JStr("STATUS_CREATED"));
    PyStrNotEmpty(rt, status);
  }

  /** A payload restated with a named status reads back that name, whatever the default. */
  lemma RestatedStatus(rt: Runtime, payload: Obj, status: Obj, version: Obj, now: int, default': string)
    requires "status" in status && status["status"].JStr? && status["status"].s != ""
    ensures StatusOf(Restated(rt, payload, status, version, now), default') == status["status"].s
    ensures StatusOf(status, default') == status["status"].s
  {
    var p := Restated(rt, payload, status, version, now);
    assert Lookup(p, "status") == JObj(status);
    assert status != map[];
    assert StatusEntry(p) == JObj(status);
    assert Lookup(status, "status") == status["status"];
  }

  /** Restating a payload leaves its assignee and where it is executed alone. */
  lemma RestatedFrame(rt: Runtime, payload: Obj, status: Obj, version: Obj, now: int)
    ensures AssigneeOf(Restated(rt, payload, status, version, now)) == AssigneeOf(payload)
    ensures ExecutedElsewhere(Restated(rt, payload, status, version, now)) == ExecutedElsewhere(payload)
  {
    var p := Restated(rt, payload, status, version, now);
    assert Lookup(p, "assigneeId") == Lookup(payload, "assigneeId");
    assert Lookup(p, "assignee_id") == Lookup(payload, "assignee_id");
    assert Lookup(p, "assignee") == Lookup(payload, "assignee");
    assert Lookup(p, "relations") == Lookup(payload, "relations");
    hide FirstString, NestedStrings, Lookup;
  }

  /** The version that was written is read back, except that 0 reads as 1. */
  lemma RestatedVersion(rt: Runtime, payload: Obj, status: Obj, version: Obj, id: string, next: Json, now: int)
    requires IsInt(next)
    ensures VersionOf(Restated(rt, payload, status, Versioned(version, id, next), now))
            == Some(if IntValue(next) == 0 then 1 else IntValue(next))
  {
    var v := Versioned(version, id, next);
    assert v["statusVersion"] == next && v["status_version"] == next && v != map[];
  }
}
