/** What creates, status updates and cancels do and answer, said from the entries of their payloads. */
module TaskAnswers {
  import opened PyValues
  import opened Text
  import opened Events
  import opened Identity
  import opened Tasks
  import opened NewTasks
  import opened TaskStores
  import Delivery

  /* Creating. */

  /** A create of a task that names itself succeeds exactly when its version entry is an object or nothing and no task
      has its name. Otherwise it changes nothing. */
  lemma CreatedExactly(
      rt: Runtime, db: TaskDb, payload: Obj, newId: string, newId2: string, now: int, id: string)
    requires Clean(newId) && Says(payload, TASK_ID, Some(id))
    ensures var admitted := Admit(rt, db, payload, newId, newId2, now);
            && (admitted.Some? <==> id !in db.rows && (!Truthy(Lookup(payload, "version"))
                                                       || Lookup(payload, "version").JObj?))
            && (admitted.None? ==> CreateTask(rt, db, payload, newId, newId2, now) == db)
            && (admitted.Some? ==>
                  && admitted.value.0 == id
                  && var row := admitted.value.1;
                     && NewTask(rt, payload, newId, now) == Some(row.payload)
                     && row.created == row.updated == now && Says(payload, ASSIGNEE, row.assignee)
                     && row.status == StatusOf(row.payload, "STATUS_CREATED")
                     && (row.terminal <==> row.status in TERMINAL))
  {
    hide NewTask, Says, TaskIdOf, StatusOf, AssigneeOf, Drafted, WithAuthor, WithSpellings, Clean;
    TaskIdSaid(payload);
    SaysOne(payload, TASK_ID, Some(id), TaskIdOf(payload));
    NewTaskParts(rt, payload, newId, now);
    var p := NewTask(rt, payload, newId, now);
    if p.Some? {
      NewTaskNamed(rt, payload, newId, now, p.value);
      NewTaskAssignee(rt, payload, newId, now, p.value);
      AssigneeSaid(payload);
    }
  }

  /** A task without a name is made under the new one. */
  lemma CreatedUnnamed(rt: Runtime, db: TaskDb, payload: Obj, newId: string, newId2: string, now: int)
    requires Clean(newId) && Says(payload, TASK_ID, None) && ("taskId" !in payload || "task_id" !in payload)
    ensures var admitted := Admit(rt, db, payload, newId, newId2, now);
            && (admitted.Some? <==> newId !in db.rows && (!Truthy(Lookup(payload, "version"))
                                                          || Lookup(payload, "version").JObj?))
            && (admitted.Some? ==> admitted.value.0 == newId)
  {
    hide NewTask, Says, TaskIdOf, StatusOf, AssigneeOf, Drafted, WithAuthor, WithSpellings, Clean;
    TaskIdSaid(payload);
    SaysOne(payload, TASK_ID, None, TaskIdOf(payload));
    NewTaskParts(rt, payload, newId, now);
    var p := NewTask(rt, payload, newId, now);
    if p.Some? {
      NewTaskNamed(rt, payload, newId, now, p.value);
    }
  }

  /** The reply to a create carries a note of its event. */
  lemma CreateReply(payload: Obj, sequence: nat, key: string)
    ensures Lookup(Created(payload, sequence), "_compat")
            == JObj(map["sequence" := JInt(sequence), "eventType" := JStr("CREATE")])
    ensures key != "_compat" ==> Lookup(Created(payload, sequence), key) == Lookup(payload, key)
  {
  }

  /* The entries that are filled in. */

  /** The entry, or this value where it is not there. */
  function Given(o: Obj, key: string, value: Json): Json {
    if key in o then o[key] else value
  }

  lemma Defaulted(o: Obj, k: string, v: Json, key: string)
    ensures var s := SetDefault(o, k, v);
            && (key in s <==> key in o || key == k)
            && (key in s ==> s[key] == Given(o, key, v))
  {
  }

  lemma DefaultTimes(payload: Obj, id: string, time: Json, key: string)
    requires key in {"createTime", "create_time", "lastUpdateTime", "last_update_time"}
    ensures key in WithDefaults(payload, id, time) && WithDefaults(payload, id, time)[key] == Given(payload, key, time)
  {
    hide SetDefault;
    var p := SetDefault(payload, "taskId", JStr(id));
    var q := SetDefault(p, "task_id", JStr(id));
    var r := SetDefault(q, "createTime", time);
    var s := SetDefault(r, "create_time", time);
    var t := SetDefault(s, "lastUpdateTime", time);
    Defaulted(payload, "taskId", JStr(id), key);
    Defaulted(p, "task_id", JStr(id), key);
    Defaulted(q, "createTime", time, key);
    Defaulted(r, "create_time", time, key);
    Defaulted(s, "lastUpdateTime", time, key);
    Defaulted(t, "last_update_time", time, key);
  }

  lemma DraftedTimes(rt: Runtime, payload: Obj, newId: string, now: int, key: string)
    requires key in {"createTime", "create_time", "lastUpdateTime", "last_update_time"}
    ensures key in Drafted(rt, payload, newId, now)
    ensures Drafted(rt, payload, newId, now)[key] == Given(payload, key, JStr(rt.printTime(now)))
  {
    hide InitialVersion, InitialStatus, NewTaskId, WithDefaults;
    var id := NewTaskId(payload, newId);
    var versioned := payload["version" := JObj(InitialVersion(FieldsOf(Lookup(payload, "version")), id))];
    DefaultTimes(versioned, id, JStr(rt.printTime(now)), key);
  }

  /** The four times are those of the payload, or that of the call. */
  lemma FilledTimes(rt: Runtime, payload: Obj, newId: string, now: int, p: Obj, key: string)
    requires NewTask(rt, payload, newId, now) == Some(p)
    requires key in {"createTime", "create_time", "lastUpdateTime", "last_update_time"}
    ensures Lookup(p, key) == Given(payload, key, JStr(rt.printTime(now)))
  {
    hide NewTask, Drafted, WithSpellings, WithAuthor;
    NewTaskParts(rt, payload, newId, now);
    DraftedTimes(rt, payload, newId, now, key);
    SpellingsFrame(Drafted(rt, payload, newId, now), key);
    AuthorFrame(WithSpellings(Drafted(rt, payload, newId, now)), key);
  }

  /** The version entry has the task's id, and 1 for each number that is missing; its other entries are kept. */
  lemma FilledVersion(version: Obj, id: string, key: string)
    ensures var v := InitialVersion(version, id);
            Lookup(v, key) ==
            if key == "taskId" || key == "task_id" then Given(version, key, JStr(id))
            else if key == "definitionVersion" || key == "definition_version" then Given(version, key, JInt(1))
            else if key == "statusVersion" || key == "status_version" then Given(version, key, JInt(1))
            else Lookup(version, key)
  {
    hide SetDefault;
    var p := SetDefault(version, "taskId", JStr(id));
    var q := SetDefault(p, "task_id", JStr(id));
    var r := SetDefault(q, "definitionVersion", JInt(1));
    var s := SetDefault(r, "definition_version", JInt(1));
    var t := SetDefault(s, "statusVersion", JInt(1));
    Defaulted(version, "taskId", JStr(id), key);
    Defaulted(p, "task_id", JStr(id), key);
    Defaulted(q, "definitionVersion", JInt(1), key);
    Defaulted(r, "definition_version", JInt(1), key);
    Defaulted(s, "statusVersion", JInt(1), key);
    Defaulted(t, "status_version", JInt(1), key);
  }

  lemma AuthorEntries(payload: Obj)
    ensures var p := WithAuthor(payload);
            && var named := "author" in payload && "createdBy" !in payload && "created_by" !in payload;
            && var author := if named then payload["author"] else Given(payload, "createdBy", SANDBOX);
               && Lookup(p, "createdBy") == author
               && Lookup(p, "created_by") == (if named then author else Given(payload, "created_by", author))
               && Lookup(p, "lastUpdatedBy") == Given(payload, "lastUpdatedBy", author)
               && Lookup(p, "last_updated_by") == Given(payload, "last_updated_by", author)
  {
  }

  lemma AuthorsDrafted(rt: Runtime, payload: Obj, newId: string, now: int, key: string)
    requires key in {"author", "createdBy", "created_by", "lastUpdatedBy", "last_updated_by"}
    ensures var q := WithSpellings(Drafted(rt, payload, newId, now));
            (key in q <==> key in payload) && Lookup(q, key) == Lookup(payload, key)
  {
    hide WithDefaults, WithSpellings, InitialVersion, InitialStatus, NewTaskId;
    var id := NewTaskId(payload, newId);
    var versioned := payload["version" := JObj(InitialVersion(FieldsOf(Lookup(payload, "version")), id))];
    DefaultsFrame(versioned, id, JStr(rt.printTime(now)), key);
    SpellingsFrame(Drafted(rt, payload, newId, now), key);
  }

  /** A new task is made and last updated by whom its payload names: `createdBy` if it is there, otherwise `author` if
      `created_by` is not there either, otherwise the sandbox. */
  lemma FilledAuthors(rt: Runtime, payload: Obj, newId: string, now: int, p: Obj)
    requires NewTask(rt, payload, newId, now) == Some(p)
    ensures var named := "author" in payload && "createdBy" !in payload && "created_by" !in payload;
            var author := if named then payload["author"] else Given(payload, "createdBy", SANDBOX);
            && Lookup(p, "createdBy") == author
            && Lookup(p, "created_by") == (if named then author else Given(payload, "created_by", author))
            && Lookup(p, "lastUpdatedBy") == Given(payload, "lastUpdatedBy", author)
            && Lookup(p, "last_updated_by") == Given(payload, "last_updated_by", author)
    ensures SANDBOX == JObj(map["system" := JObj(map["serviceName" := JStr("local-compat-sandbox"),
                                                     "service_name" := JStr("local-compat-sandbox")])])
  {
    hide NewTask, Drafted, WithSpellings, WithAuthor, Lookup;
    NewTaskParts(rt, payload, newId, now);
    var q := WithSpellings(Drafted(rt, payload, newId, now));
    AuthorEntries(q);
    forall key | key in {"author", "createdBy", "created_by", "lastUpdatedBy", "last_updated_by"}
      ensures (key in q <==> key in payload) && (key in payload ==> q[key] == payload[key])
    {
      AuthorsDrafted(rt, payload, newId, now, key);
      if key in payload {
        LookupPresent(payload, q, key);
      }
    }
  }

  lemma LookupPresent(o: Obj, q: Obj, key: string)
    requires key in o && key in q
    ensures Lookup(o, key) == o[key] && Lookup(q, key) == q[key]
  {
  }

  /** The spellings of the payload before a new task is finished. */
  lemma SpelledEntries(payload: Obj)
    ensures var p := WithSpellings(payload);
            && Lookup(p, "display_name") ==
               (if "display_name" !in payload && Lookup(payload, "displayName").JStr?
                   && payload["displayName"] != JStr("")
                then payload["displayName"] else Lookup(payload, "display_name"))
            && (!Lookup(payload, "specification").JObj? ==>
                  Lookup(p, "specification") == Lookup(payload, "specification"))
            && (Lookup(payload, "specification").JObj? ==>
                  Lookup(p, "specification") == JObj(NormalSpecification(payload["specification"].fields)))
  {
    hide NormalSpecification, NormalRelations;
  }

  lemma NameDrafted(rt: Runtime, payload: Obj, newId: string, now: int, key: string)
    requires key in {"displayName", "display_name", "specification"}
    ensures var q := Drafted(rt, payload, newId, now);
            (key in q <==> key in payload) && Lookup(q, key) == Lookup(payload, key)
  {
    hide WithDefaults, InitialVersion, InitialStatus, NewTaskId;
    var id := NewTaskId(payload, newId);
    var versioned := payload["version" := JObj(InitialVersion(FieldsOf(Lookup(payload, "version")), id))];
    DefaultsFrame(versioned, id, JStr(rt.printTime(now)), key);
  }

  /** A new task has its display name under both spellings where only the camel one is there and is a text, and its
      specification with the type under both names. */
  lemma FilledSpellings(rt: Runtime, payload: Obj, newId: string, now: int, p: Obj)
    requires NewTask(rt, payload, newId, now) == Some(p)
    ensures var display := Lookup(payload, "displayName");
            Lookup(p, "display_name") == if "display_name" !in payload && display.JStr? && display.s != "" then display
                                         else Lookup(payload, "display_name")
    ensures var specification := Lookup(payload, "specification");
            Lookup(p, "specification") == if specification.JObj? then JObj(NormalSpecification(specification.fields))
                                          else specification
  {
    hide NewTask, Drafted, WithSpellings, WithAuthor;
    NewTaskParts(rt, payload, newId, now);
    var draft := Drafted(rt, payload, newId, now);
    NameDrafted(rt, payload, newId, now, "displayName");
    NameDrafted(rt, payload, newId, now, "display_name");
    NameDrafted(rt, payload, newId, now, "specification");
    SpelledEntries(draft);
    AuthorFrame(WithSpellings(draft), "display_name");
    AuthorFrame(WithSpellings(draft), "specification");
  }

  /** A specification has its type under both names, if it is a text under one and missing under the other. */
  lemma SpecificationType(o: Obj, key: string, s: string)
    ensures var n := NormalSpecification(o);
            && (Lookup(o, "@type") == JStr(s) && "type" !in o ==>
                  Lookup(n, "type") == JStr(s) && Lookup(n, "@type") == JStr(s))
            && (Lookup(o, "type") == JStr(s) && "@type" !in o ==>
                  Lookup(n, "type") == JStr(s) && Lookup(n, "@type") == JStr(s))
            && (key in o ==> key in n && n[key] == o[key])
            && (key !in {"type", "@type"} ==> (key in n <==> key in o))
  {
  }

  /** The system of an assignee has its id and its service name under both spellings, if they are texts under the camel
      one and missing under the other. */
  lemma SystemSpellings(o: Obj, key: string, s: string)
    requires s != ""
    ensures var n := NormalSystem(o);
            && (Lookup(o, "entityId") == JStr(s) && "entity_id" !in o ==> Lookup(n, "entity_id") == JStr(s))
            && (Lookup(o, "serviceName") == JStr(s) && "service_name" !in o ==> Lookup(n, "service_name") == JStr(s))
            && (key in o ==> key in n && n[key] == o[key])
            && (key !in {"entity_id", "service_name"} ==> (key in n <==> key in o))
  {
  }

  /** The entry that says whether a task is executed elsewhere. */
  predicate SaysElsewhere(payload: Obj, b: bool) {
    Lookup(payload, "isExecutedElsewhere") == JBool(b) ||
    ("isExecutedElsewhere" !in payload &&
     (Lookup(payload, "is_executed_elsewhere") == JBool(b) || ("is_executed_elsewhere" !in payload && !b)))
  }

  lemma ElsewhereSaid(payload: Obj, b: bool)
    requires SaysElsewhere(payload, b)
    ensures ExecutedElsewhere(payload) == b
  {
  }

  /** A create that succeeds logs the task, and unless its payload says that it is executed elsewhere also an execute
      request to its assignee or to everyone. */
  lemma CreateLogs(
      rt: Runtime, db: TaskDb, payload: Obj, newId: string, newId2: string, now: int, id: string, row: TaskRow,
      elsewhere: bool)
    requires Admit(rt, db, payload, newId, newId2, now) == Some((id, row)) && SaysElsewhere(payload, elsewhere)
    ensures var next := CreateTask(rt, db, payload, newId, newId2, now);
            && |next.log| == |db.log| + (if elsewhere then 1 else 2)
            && next.rows == db.rows[id := row.(sequence := |db.log| + 1)]
            && next.log[..|db.log| + 1] == AddEvent(db.log, TaskStream, id, Create, now, TaskBody(row.payload))
            && (!elsewhere ==>
                  var request := next.log[|db.log| + 1];
                  && request.stream == AgentStream && request.kind == ExecuteRequest
                  && request.subject == (if row.assignee.Some? then row.assignee.value else "*"))
  {
    hide NewTask, SaysElsewhere, StatusOf, AssigneeOf, TaskIdOf, ExecutedElsewhere;
    var p := NewTask(rt, payload, newId, now).value;
    NewTaskAssignee(rt, payload, newId, now, p);
    ElsewhereSaid(payload, elsewhere);
    Delivery.AssigneeNamed(p);
  }

  /* The version an update expects. */

  /** The integer a value is, True being 1 and False being 0. */
  function Integer(j: Json): Option<int> {
    match j
    case JInt(n) => Some(n)
    case JBool(b) => Some(if b then 1 else 0)
    case _ => None
  }

  /** The entries that may name a version, the first integer among them counts. */
  function VersionEntries(payload: Obj): seq<Json> {
    var version := FieldsOf(Lookup(payload, "version"));
    [Lookup(payload, "statusVersion"), Lookup(payload, "status_version"),
     Lookup(version, "statusVersion"), Lookup(version, "status_version")]
  }

  predicate NoIntegers(entries: seq<Json>) {
    forall j :: 0 <= j < |entries| ==> Integer(entries[j]).None?
  }

  /** The update names this version, or none. */
  ghost predicate Names(payload: Obj, n: Option<int>) {
    if n.None? then NoIntegers(VersionEntries(payload))
    else exists k :: 0 <= k < 4 && NoIntegers(VersionEntries(payload)[..k]) && Integer(VersionEntries(payload)[k]) == n
  }

  lemma IntegerMeaning(j: Json)
    ensures IsInt(j) <==> Integer(j).Some?
    ensures IsInt(j) ==> Integer(j) == Some(IntValue(j))
  {
  }

  lemma NoneBefore(payload: Obj, k: nat)
    requires k <= 4 && NoIntegers(VersionEntries(payload)[..k])
    ensures forall j :: 0 <= j < k ==> Integer(VersionEntries(payload)[j]).None?
  {
    hide Integer;
    var entries := VersionEntries(payload);
    forall j | 0 <= j < k ensures Integer(entries[j]).None? {
      assert entries[..k][j] == entries[j];
    }
  }

  lemma ExpectedIsNamed(payload: Obj, n: Option<int>)
    requires Names(payload, n)
    ensures n.None? ==> !IsInt(ExpectedVersion(payload))
    ensures n.Some? ==> IsInt(ExpectedVersion(payload)) && IntValue(ExpectedVersion(payload)) == n.value
  {
    var entries := VersionEntries(payload);
    IntegerMeaning(entries[0]);
    IntegerMeaning(entries[1]);
    IntegerMeaning(entries[2]);
    IntegerMeaning(entries[3]);
    if n.Some? {
      var k :| 0 <= k < 4 && NoIntegers(entries[..k]) && Integer(entries[k]) == n;
      NoneBefore(payload, k);
    }
    hide IsInt, Integer;
  }

  /** The update is a conflict: the version it names is behind, or it names none where one is asked for. */
  predicate Behind(n: Option<int>, v: int, enforce: bool) {
    if n.Some? then n.value < v else enforce
  }

  /** The version after an update. */
  function After(n: Option<int>, v: int): int {
    if n.Some? && n.value > v + 1 then n.value else v + 1
  }

  /** From the entries: on an open task at version `v`, an update that names version n is answered by a version
      conflict and changes nothing if and only if n < v, and one that names none if and only if naming is enforced.
      Otherwise it is stored, and writes the larger of n and v + 1 under both spellings. */
  lemma ConflictsExactly(
      rt: Runtime, db: TaskDb, id: string, payload: Obj, enforce: bool, now: int, v: int, n: Option<int>)
    requires id in db.rows && !db.rows[id].terminal && VersionOf(db.rows[id].payload) == Some(v) && Names(payload, n)
    ensures var reply, next := UpdateReply(rt, db, id, payload, enforce, now),
                               UpdateStatus(rt, db, id, payload, enforce, now);
            && (reply == VersionConflict <==> Behind(n, v, enforce))
            && (next == db <==> Behind(n, v, enforce))
            && (!Behind(n, v, enforce) ==>
                  && id in next.rows && reply == Stored(next.rows[id].payload)
                  && var version := FieldsOf(Lookup(next.rows[id].payload, "version"));
                     && Integer(Lookup(version, "statusVersion")) == Some(After(n, v))
                     && Lookup(version, "status_version") == Lookup(version, "statusVersion"))
  {
    hide Names, ExpectedVersion, UpdatedRow, VersionOf;
    ExpectedIsNamed(payload, n);
    if CanUpdate(db, id, payload, enforce) {
      var row := UpdatedRow(rt, db.rows[id], id, payload, now);
      WrittenVersion(rt, db.rows[id], id, payload, now, v, n);
      assert Lookup(row.(sequence := |db.log| + 1).payload, "version") == Lookup(row.payload, "version");
    }
  }

  lemma WrittenVersion(rt: Runtime, row: TaskRow, id: string, payload: Obj, now: int, v: int, n: Option<int>)
    requires VersionOf(row.payload) == Some(v) && Names(payload, n)
    ensures var version := FieldsOf(Lookup(UpdatedRow(rt, row, id, payload, now).payload, "version"));
            && Integer(Lookup(version, "statusVersion")) == Some(After(n, v))
            && Lookup(version, "status_version") == Lookup(version, "statusVersion")
  {
    hide Names, ExpectedVersion, VersionOf, NormalStatus, StatusOf, AsDict;
    ExpectedIsNamed(payload, n);
  }

  /** So an integer in `statusVersion` decides, whatever the other entries are. */
  lemma StatusVersionDecides(
      rt: Runtime, db: TaskDb, id: string, payload: Obj, enforce: bool, now: int, v: int, n: int)
    requires id in db.rows && !db.rows[id].terminal && VersionOf(db.rows[id].payload) == Some(v)
    requires Lookup(payload, "statusVersion") == JInt(n)
    ensures UpdateReply(rt, db, id, payload, enforce, now) == VersionConflict <==> n < v
    ensures UpdateStatus(rt, db, id, payload, enforce, now) == db <==> n < v
  {
    hide UpdateReply, UpdateStatus, VersionOf;
    assert Names(payload, Some(n)) by {
      var entries := VersionEntries(payload);
      assert NoIntegers(entries[..0]) && Integer(entries[0]) == Some(n);
    }
    ConflictsExactly(rt, db, id, payload, enforce, now, v, Some(n));
  }

  /** The refusals that come before: no task, a terminal one, a version entry that cannot be read. */
  lemma RefusedBefore(rt: Runtime, db: TaskDb, id: string, payload: Obj, enforce: bool, now: int)
    ensures var reply := UpdateReply(rt, db, id, payload, enforce, now);
            && (reply == Missing <==> id !in db.rows)
            && (reply == AlreadyTerminal <==> id in db.rows && db.rows[id].terminal)
            && (reply == Raised <==> id in db.rows && !db.rows[id].terminal && VersionOf(db.rows[id].payload).None?)
            && (!reply.Stored? ==> UpdateStatus(rt, db, id, payload, enforce, now) == db)
  {
    hide VersionOf, ExpectedVersion, UpdatedRow;
  }

  /** From the entries: a task without a version entry stands at 1; otherwise the first of `statusVersion` and
      `status_version` that is something is read as an integer, and 1 when neither is; a version that is no object
      cannot be read. */
  lemma VersionByEntries(payload: Obj, version: Obj, n: int)
    ensures !Truthy(Lookup(payload, "version")) ==> VersionOf(payload) == Some(1)
    ensures Truthy(Lookup(payload, "version")) && !Lookup(payload, "version").JObj? ==> VersionOf(payload) == None
    ensures Lookup(payload, "version") == JObj(version) ==>
              var first, second := Lookup(version, "statusVersion"), Lookup(version, "status_version");
              && (first == JInt(n) && n != 0 ==> VersionOf(payload) == Some(n))
              && (!Truthy(first) && second == JInt(n) && n != 0 ==> VersionOf(payload) == Some(n))
              && (!Truthy(first) && !Truthy(second) ==> VersionOf(payload) == Some(1))
              && (first == JBool(true) ==> VersionOf(payload) == Some(1))
              && (first.JReal? && first.r > 0.0 ==> VersionOf(payload) == Some(first.r.Floor))
              && (first.JStr? && Truthy(first) ==> VersionOf(payload) == ParseInt(first.s))
  {
    hide ParseInt;
    assert Lookup(payload, "version") == JObj(map[]) ==> AsDict(Lookup(payload, "version")) == Some(map[]);
  }

  /* The status an update names. */

  function StatusEntries(o: Obj): seq<Json> {
    [Lookup(o, "status"), Lookup(o, "state"), Lookup(o, "taskStatus")]
  }

  /** The object an update takes its status from: `newStatus`, `new_status` or `status` if one is an object, otherwise
      the whole payload. */
  predicate StatusSource(payload: Obj, source: Obj) {
    var camel, snake, plain := Lookup(payload, "newStatus"), Lookup(payload, "new_status"), Lookup(payload, "status");
    if camel.JObj? then source == camel.fields
    else if snake.JObj? then source == snake.fields
    else if plain.JObj? then source == plain.fields
    else source == payload
  }

  /** From the entries: an update stores the entries of its status object with the status as text. That status is the
      first of `status`, `state` and `taskStatus` that is something, in the object before the payload, or
      STATUS_CREATED. */
  lemma NormalByEntries(rt: Runtime, payload: Obj, source: Obj, raw: Json)
    requires StatusSource(payload, source)
    requires FirstTrue(StatusEntries(source) + StatusEntries(payload), JStr("STATUS_CREATED"), raw)
    ensures NormalStatus(rt, payload) == source["status" := JStr(PyStr(rt, raw))]
  {
    hide Truthy, PyStr, FirstTrue;
    var v := StatusEntries(source) + StatusEntries(payload);
    FirstOfSix(v, JStr("STATUS_CREATED"), raw);
    hide Or;
    assert NestedStatus(payload).JObj? ==> source == NestedStatus(payload).fields;
  }

  /** From the entries: the status of a payload is the text in the first of these entries that is something, or in the
      `status` or `state` of the object found there, and the default where there is no such text. */
  lemma StatusByEntries(payload: Obj, default': string, raw: Json, name: Json)
    requires FirstTrue(StatusEntries(payload), JNull, raw)
    requires if raw.JObj? then name == Or(Lookup(raw.fields, "status"), Lookup(raw.fields, "state")) else name == raw
    ensures StatusOf(payload, default') == if name.JStr? && name.s != "" then name.s else default'
  {
    hide FirstTrue;
    FirstOfThree(StatusEntries(payload), JNull, raw);
  }

  /** A status named plainly. */
  predicate NamesPlainly(payload: Obj, s: string) {
    s != "" && Lookup(payload, "status") == JStr(s) &&
    !Lookup(payload, "newStatus").JObj? && !Lookup(payload, "new_status").JObj?
  }

  lemma PlainlyNamed(rt: Runtime, payload: Obj, s: string, default': string)
    requires NamesPlainly(payload, s)
    ensures NormalStatus(rt, payload) == payload && StatusOf(payload, default') == s
  {
    var v := StatusEntries(payload);
    assert v[..0] == [] && (v + v)[..0] == [] && NothingTrue([]);
    assert FirstTrue(v, JNull, v[0]) && FirstTrue(v + v, JStr("STATUS_CREATED"), (v + v)[0]);
    NormalByEntries(rt, payload, payload, v[0]);
    StatusByEntries(payload, default', v[0], v[0]);
  }

  /** An accepted update that names a status plainly gives the task that status, and ends it exactly when the name is
      one of these ten. */
  lemma PlainUpdateEnds(rt: Runtime, db: TaskDb, id: string, payload: Obj, enforce: bool, now: int, s: string)
    requires CanUpdate(db, id, payload, enforce) && NamesPlainly(payload, s)
    ensures var next := UpdateStatus(rt, db, id, payload, enforce, now);
            && id in next.rows && next.rows[id].status == s && Lookup(next.rows[id].payload, "status") == JObj(payload)
            && (next.rows[id].terminal <==>
                  s == "SUCCEEDED" || s == "FAILED" || s == "CANCELED" || s == "CANCELLED" || s == "DONE_OK" ||
                  s == "DONE_NOT_OK" || s == "STATUS_DONE_OK" || s == "STATUS_DONE_NOT_OK" ||
                  s == "STATUS_CANCELED" || s == "STATUS_CANCELLED")
  {
    hide CanUpdate, NormalStatus, StatusOf, Versioned, ExpectedVersion, VersionOf, AsDict, NextVersion;
    assert CanUpdate(db, id, payload, enforce) ==> id in db.rows && VersionOf(db.rows[id].payload).Some? by {
      Updatable(db, id, payload, enforce);
    }
    PlainlyNamed(rt, payload, s, db.rows[id].status);
  }

  lemma Updatable(db: TaskDb, id: string, payload: Obj, enforce: bool)
    ensures CanUpdate(db, id, payload, enforce) ==> id in db.rows && VersionOf(db.rows[id].payload).Some?
  {
    hide VersionOf, ExpectedVersion;
  }

  /* The entries of a changed task. */

  lemma VersionedEntries(version: Obj, id: string, n: Json, key: string)
    ensures var v := Versioned(version, id, n);
            && Lookup(v, "taskId") == JStr(id) && Lookup(v, "task_id") == JStr(id)
            && Lookup(v, "statusVersion") == n && Lookup(v, "status_version") == n
            && Lookup(v, "definitionVersion")
               == (if "definitionVersion" in version then version["definitionVersion"] else JInt(1))
            && Lookup(v, "definition_version")
               == (if "definition_version" in version then version["definition_version"]
                   else Lookup(v, "definitionVersion"))
            && (key !in {"taskId", "task_id", "statusVersion", "status_version", "definitionVersion",
                         "definition_version"} ==>
                  (key in v <==> key in version) && Lookup(v, key) == Lookup(version, key))
  {
  }

  /** What every change of status writes into the payload of a task: the status object, the time of the change twice,
      the version entry with the task's id and the new number; and it keeps every other entry. */
  lemma ChangedEntries(
      rt: Runtime, payload: Obj, status: Obj, version: Obj, id: string, n: Json, now: int, key: string)
    ensures var p := Restated(rt, payload, status, Versioned(version, id, n), now);
            && Lookup(p, "status") == JObj(status)
            && Lookup(p, "lastUpdateTime") == Lookup(p, "last_update_time") == JStr(rt.printTime(now))
            && Lookup(p, "version").JObj?
            && var v := p["version"].fields;
               && Lookup(v, "taskId") == JStr(id) && Lookup(v, "task_id") == JStr(id)
               && Lookup(v, "statusVersion") == n && Lookup(v, "status_version") == n
               && Lookup(v, "definitionVersion")
                  == (if "definitionVersion" in version then version["definitionVersion"] else JInt(1))
               && Lookup(v, "definition_version")
                  == (if "definition_version" in version then version["definition_version"]
                      else Lookup(v, "definitionVersion"))
               && (key !in {"status", "lastUpdateTime", "last_update_time", "version"} ==>
                     (key in p <==> key in payload) && Lookup(p, key) == Lookup(payload, key))
  {
    hide Versioned;
    VersionedEntries(version, id, n, key);
  }

  /** The row an accepted update leaves. */
  lemma UpdatedColumns(rt: Runtime, db: TaskDb, id: string, payload: Obj, enforce: bool, now: int)
    requires CanUpdate(db, id, payload, enforce)
    ensures var next := UpdateStatus(rt, db, id, payload, enforce, now);
            && id in db.rows && id in next.rows
            && var was, row := db.rows[id], next.rows[id];
               && row.status == StatusOf(NormalStatus(rt, payload), was.status)
               && Lookup(row.payload, "status") == JObj(NormalStatus(rt, payload))
               && row.assignee == was.assignee && row.created == was.created && row.updated == now
               && (row.terminal <==> row.status in TERMINAL) && row.sequence == |db.log| + 1
               && next.log[|db.log|].kind == Update
  {
    hide CanUpdate, NormalStatus, StatusOf, Versioned, ExpectedVersion, VersionOf, AsDict, NextVersion;
    Updatable(db, id, payload, enforce);
  }

  /** A cancel ends the task under the status it names, or the one its caller names: the status entry holds that name,
      the cancel itself, and the error with its reason, if there is one; the version is the next one. */
  lemma CanceledEntries(
      rt: Runtime, row: TaskRow, id: string, cancel: Obj, status: string, error: Option<string>, now: int, v: int)
    requires VersionOf(row.payload) == Some(v)
    ensures var next := CanceledRow(rt, row, id, cancel, status, error, now);
            && next.terminal && next.updated == now && next.created == row.created && next.assignee == row.assignee
            && next.status == (if Truthy(Lookup(cancel, "status")) then PyStr(rt, cancel["status"]) else status)
            && Lookup(next.payload, "status") == JObj(CancelStatus(next.status, cancel, error))
            && Lookup(next.payload, "lastUpdateTime") == JStr(rt.printTime(now))
            && Lookup(FieldsOf(Lookup(next.payload, "version")), "statusVersion") == JInt(v + 1)
  {
    var version := AsDict(Lookup(row.payload, "version")).value;
    var next := CanceledRow(rt, row, id, cancel, status, error, now);
    var entry := CancelStatus(next.status, cancel, error);
    assert next.payload == Restated(rt, row.payload, entry, Versioned(version, id, JInt(v + 1)), now) by {
      hide Versioned, Restated, PyStr, VersionOf;
    }
    assert next.status == (if Truthy(Lookup(cancel, "status")) then PyStr(rt, cancel["status"]) else status) by {
      hide Versioned, Restated, VersionOf;
    }
    hide Versioned, Restated, PyStr, VersionOf, AsDict, Lookup, CanceledRow, CancelStatus;
    ChangedEntries(rt, row.payload, entry, version, id, JInt(v + 1), now, "");
    CanceledColumns(rt, row, id, cancel, status, error, now);
  }

  lemma CanceledColumns(
      rt: Runtime, row: TaskRow, id: string, cancel: Obj, status: string, error: Option<string>, now: int)
    requires VersionOf(row.payload).Some?
    ensures var next := CanceledRow(rt, row, id, cancel, status, error, now);
            next.terminal && next.updated == now && next.created == row.created && next.assignee == row.assignee
  {
    hide Versioned, Restated, PyStr, VersionOf;
  }

  /** The status entry of a canceled task. */
  function CancelStatus(name: string, cancel: Obj, error: Option<string>): Obj {
    if error.None? then map["status" := JStr(name), "cancel" := JObj(cancel)]
    else
      var reason := if Truthy(Lookup(cancel, "reason")) then cancel["reason"] else JStr("cancelled");
      var failure := JObj(map["code" := JStr(error.value), "message" := reason]);
      map["status" := JStr(name), "cancel" := JObj(cancel), "taskError" := failure, "task_error" := failure]
  }

  lemma CancelAnswers(
      rt: Runtime, db: TaskDb, id: string, cancel: Obj, status: string, error: Option<string>, now: int)
    ensures var reply, next := CancelReply(rt, db, id, cancel, status, error, now),
                               Cancel(rt, db, id, cancel, status, error, now);
            && (reply == Missing <==> id !in db.rows)
            && (reply == AlreadyTerminal <==> id in db.rows && db.rows[id].terminal)
            && (reply == Raised <==> id in db.rows && !db.rows[id].terminal && VersionOf(db.rows[id].payload).None?)
            && (!reply.Stored? ==> next == db)
            && (reply.Stored? ==> id in next.rows && next.rows[id].payload == reply.payload && next.rows[id].terminal
                                  && |next.log| == |db.log| + 2 && next.log[|db.log|].kind == Canceled)
  {
    hide VersionOf, Versioned, Restated, PyStr;
  }
}
