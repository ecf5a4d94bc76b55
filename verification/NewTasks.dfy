/** What a new task keeps of the payload it was created from. */
module NewTasks {
  import opened PyValues
  import opened Text
  import opened Identity
  import opened Tasks

  /* The entries of the payload, one normalisation at a time. */

  lemma DefaultsFrame(payload: Obj, id: string, time: Json, key: string)
    requires key !in {"taskId", "task_id", "createTime", "create_time", "lastUpdateTime", "last_update_time"}
    ensures key in WithDefaults(payload, id, time) <==> key in payload
    ensures Lookup(WithDefaults(payload, id, time), key) == Lookup(payload, key)
  {
  }

  lemma SpellingsFrame(payload: Obj, key: string)
    requires key !in {"display_name", "specification", "relations"}
    ensures key in WithSpellings(payload) <==> key in payload
    ensures Lookup(WithSpellings(payload), key) == Lookup(payload, key)
  {
    hide NormalRelations, NormalSpecification;
  }

  function NormalEntry(relations: Json): Json {
    if relations.JObj? then JObj(NormalRelations(relations.fields)) else relations
  }

  lemma SpelledRelations(payload: Obj)
    ensures Lookup(WithSpellings(payload), "relations") == NormalEntry(Lookup(payload, "relations"))
  {
    hide NormalRelations, NormalSpecification;
  }

  lemma AuthorFrame(payload: Obj, key: string)
    requires key !in {"createdBy", "created_by", "lastUpdatedBy", "last_updated_by"}
    ensures key in WithAuthor(payload) <==> key in payload
    ensures Lookup(WithAuthor(payload), key) == Lookup(payload, key)
  {
  }

  /** The id of a new task. */
  function NewTaskId(payload: Obj, newId: string): string {
    if TaskIdOf(payload).Some? then TaskIdOf(payload).value else newId
  }

  /** The payload before the spellings and authors are filled in. */
  function Drafted(rt: Runtime, payload: Obj, newId: string, now: int): Obj {
    var id := NewTaskId(payload, newId);
    var versioned := payload["version" := JObj(InitialVersion(FieldsOf(Lookup(payload, "version")), id))];
    WithDefaults(versioned, id, JStr(rt.printTime(now)))["status" := JObj(InitialStatus(rt, payload))]
  }

  lemma NewTaskParts(rt: Runtime, payload: Obj, newId: string, now: int)
    ensures NewTask(rt, payload, newId, now) ==
            if AsDict(Lookup(payload, "version")).None? then None
            else Some(WithAuthor(WithSpellings(Drafted(rt, payload, newId, now))))
  {
    var entry := Lookup(payload, "version");
    assert AsDict(entry).Some? ==> AsDict(entry).value == FieldsOf(entry);
    hide WithDefaults, WithSpellings, WithAuthor, InitialVersion, InitialStatus, TaskIdOf, Lookup, AsDict, FieldsOf;
  }

  /** The entries that may be filled in. */
  const FILLED: set<string> := {
    "taskId", "task_id", "createTime", "create_time", "lastUpdateTime", "last_update_time", "display_name",
    "specification", "createdBy", "created_by", "lastUpdatedBy", "last_updated_by"}

  /** Every other entry of the payload but three is kept. */
  lemma KeptEntry(rt: Runtime, payload: Obj, newId: string, now: int, p: Obj, key: string)
    requires NewTask(rt, payload, newId, now) == Some(p)
    requires key !in FILLED + {"version", "status", "relations"}
    ensures (key in p <==> key in payload) && Lookup(p, key) == Lookup(payload, key)
  {
    hide WithDefaults, WithSpellings, WithAuthor, InitialVersion, InitialStatus, TaskIdOf, NewTask, NewTaskId;
    NewTaskParts(rt, payload, newId, now);
    var id := NewTaskId(payload, newId);
    var versioned := payload["version" := JObj(InitialVersion(FieldsOf(Lookup(payload, "version")), id))];
    DefaultsFrame(versioned, id, JStr(rt.printTime(now)), key);
    SpellingsFrame(Drafted(rt, payload, newId, now), key);
    AuthorFrame(WithSpellings(Drafted(rt, payload, newId, now)), key);
  }

  lemma RewrittenEntries(rt: Runtime, payload: Obj, newId: string, now: int, p: Obj)
    requires NewTask(rt, payload, newId, now) == Some(p)
    ensures Lookup(p, "status") == JObj(InitialStatus(rt, payload))
    ensures Lookup(p, "version") ==
            JObj(InitialVersion(FieldsOf(Lookup(payload, "version")), NewTaskId(payload, newId)))
    ensures Lookup(p, "relations") == NormalEntry(Lookup(payload, "relations"))
  {
    hide WithDefaults, WithSpellings, WithAuthor, InitialVersion, InitialStatus, TaskIdOf, NewTask, NewTaskId,
         NormalRelations;
    NewTaskParts(rt, payload, newId, now);
    var id := NewTaskId(payload, newId);
    var versioned := payload["version" := JObj(InitialVersion(FieldsOf(Lookup(payload, "version")), id))];
    var draft := Drafted(rt, payload, newId, now);
    DefaultsFrame(versioned, id, JStr(rt.printTime(now)), "version");
    DefaultsFrame(versioned, id, JStr(rt.printTime(now)), "relations");
    SpellingsFrame(draft, "version");
    SpellingsFrame(draft, "status");
    SpelledRelations(draft);
    AuthorFrame(WithSpellings(draft), "version");
    AuthorFrame(WithSpellings(draft), "status");
    AuthorFrame(WithSpellings(draft), "relations");
  }

  lemma DraftedIds(rt: Runtime, payload: Obj, newId: string, now: int)
    ensures var draft, id := Drafted(rt, payload, newId, now), NewTaskId(payload, newId);
            && "taskId" in draft && draft["taskId"] == (if "taskId" in payload then payload["taskId"] else JStr(id))
            && "task_id" in draft && draft["task_id"] == (if "task_id" in payload then payload["task_id"] else JStr(id))
  {
    hide InitialVersion, InitialStatus, NewTaskId;
  }

  lemma FilledEntries(rt: Runtime, payload: Obj, newId: string, now: int, p: Obj)
    requires NewTask(rt, payload, newId, now) == Some(p)
    ensures var id := NewTaskId(payload, newId);
            && "taskId" in p && p["taskId"] == (if "taskId" in payload then payload["taskId"] else JStr(id))
            && "task_id" in p && p["task_id"] == (if "task_id" in payload then payload["task_id"] else JStr(id))
  {
    hide NewTask, NewTaskId, Drafted, WithSpellings, WithAuthor;
    NewTaskParts(rt, payload, newId, now);
    DraftedIds(rt, payload, newId, now);
    var draft := Drafted(rt, payload, newId, now);
    forall key | key in {"taskId", "task_id"} ensures key in p <==> key in draft
                                              ensures Lookup(p, key) == Lookup(draft, key) {
      SpellingsFrame(draft, key);
      AuthorFrame(WithSpellings(draft), key);
    }
    assert Lookup(p, "taskId") == Lookup(draft, "taskId") && Lookup(p, "task_id") == Lookup(draft, "task_id");
  }

  /* The id. */

  lemma NestedOne(o: Obj, key: string)
    ensures NestedString(o, [key]) ==
            var value := Lookup(o, key); if value.JStr? && Strip(value.s) != "" then value else JNull
  {
    hide Strip;
    assert NestedValue(JObj(o), [key]) == NestedValue(Lookup(o, key), [key][1..]);
  }

  lemma InitialIds(version: Obj, id: string)
    ensures var v := InitialVersion(version, id);
            && Lookup(v, "taskId") == (if "taskId" in version then version["taskId"] else JStr(id))
            && Lookup(v, "task_id") == (if "task_id" in version then version["task_id"] else JStr(id))
  {
  }

  lemma VersionIds(version: Obj, id: string, key: string)
    requires key in {"taskId", "task_id"} && Clean(id)
    ensures NestedString(InitialVersion(version, id), [key]) in {NestedString(version, [key]), JStr(id)}
  {
    InitialIds(version, id);
    NestedOne(InitialVersion(version, id), key);
    NestedOne(version, key);
    hide InitialVersion, Strip, NestedString;
  }

  lemma NestedIds(p: Obj, q: Obj, key: string)
    ensures Lookup(q, key) == Lookup(p, key) ==>
              NestedString(q, [key, "taskId"]) == NestedString(p, [key, "taskId"])
              && NestedString(q, [key, "task_id"]) == NestedString(p, [key, "task_id"])
    ensures NestedString(p, [key, "taskId"]) == NestedString(FieldsOf(Lookup(p, key)), ["taskId"])
    ensures NestedString(p, [key, "task_id"]) == NestedString(FieldsOf(Lookup(p, key)), ["task_id"])
  {
    hide NestedString, Lookup, FieldsOf;
    assert [key, "taskId"] == [key] + ["taskId"] && [key, "task_id"] == [key] + ["task_id"];
    NestedBelow(p, key, ["taskId"]);
    NestedBelow(p, key, ["task_id"]);
    NestedBelow(q, key, ["taskId"]);
    NestedBelow(q, key, ["task_id"]);
  }

  /** A new task names itself: by the id in the payload, or by the new id unless every id entry is there and blank. */
  lemma NewTaskNamed(rt: Runtime, payload: Obj, newId: string, now: int, p: Obj)
    requires NewTask(rt, payload, newId, now) == Some(p) && Clean(newId)
    ensures TaskIdOf(p) in {None, Some(NewTaskId(payload, newId))}
    ensures TaskIdOf(payload).Some? || "taskId" !in payload || "task_id" !in payload ==> TaskIdOf(p).Some?
  {
    hide NewTask, NestedString, FirstString, Clean, InitialVersion, InitialStatus;
    FoundIsClean(TaskIds(payload));
    var id, version := NewTaskId(payload, newId), FieldsOf(Lookup(payload, "version"));
    FilledEntries(rt, payload, newId, now, p);
    RewrittenEntries(rt, payload, newId, now, p);
    KeptEntry(rt, payload, newId, now, p, "task");
    NestedIds(payload, p, "task");
    NestedIds(payload, p, "version");
    NestedIds(p, payload, "version");
    VersionIds(version, id, "taskId");
    VersionIds(version, id, "task_id");
    FilledIn(TaskIds(payload), TaskIds(p), id);
    assert TaskIds(p)[0] in TaskIds(p) && TaskIds(p)[1] in TaskIds(p);
  }

  /* The status and the version. */

  lemma StatusInObject(p: Obj, status: Obj, default': string)
    requires Lookup(p, "status") == JObj(status)
    requires "status" in status && status["status"].JStr? && status["status"].s != ""
    ensures StatusOf(p, default') == status["status"].s
  {
    assert status != map[];
    assert StatusEntry(p) == JObj(status);
    assert Lookup(status, "status") == status["status"];
  }

  lemma PlainStatus(rt: Runtime, status: Json)
    requires Truthy(status) && !status.JObj?
    ensures var s := NormalStatus(rt, map["status" := status]);
            "status" in s && s["status"] == JStr(PyStr(rt, status))
  {
    hide PyStr;
    var o: Obj := map["status" := status];
    assert Lookup(o, "newStatus") == JNull && Lookup(o, "new_status") == JNull && Lookup(o, "status") == status;
    assert NestedStatus(o) == JNull;
    assert StatusEntry(o) == status;
  }

  /** A new task has a status, read alike whatever the default: that of an object is the one a status update with
      this object would name, and anything else is the name, if it is anything. */
  lemma NewTaskStatus(rt: Runtime, payload: Obj, newId: string, now: int, p: Obj, default': string)
    requires ValidRuntime(rt) && NewTask(rt, payload, newId, now) == Some(p)
    ensures StatusOf(p, default') != ""
    ensures var status := Lookup(payload, "status");
            StatusOf(p, default') ==
            if status.JObj? then StatusOf(NormalStatus(rt, status.fields), default')
            else if Truthy(status) then PyStr(rt, status) else "STATUS_CREATED"
  {
    hide NewTask, NormalStatus, StatusOf, PyStr, ValidRuntime, FILLED;
    RewrittenEntries(rt, payload, newId, now, p);
    var status := Lookup(payload, "status");
    if status.JObj? {
      NormalStatusNamed(rt, status.fields);
      StatusNamed(NormalStatus(rt, status.fields), default');
      StatusInObject(p, NormalStatus(rt, status.fields), default');
    } else {
      var name := Or(status, JStr("STATUS_CREATED"));
      PlainStatus(rt, name);
      PyStrNotEmpty(rt, name);
      StatusInObject(p, NormalStatus(rt, map["status" := name]), default');
      assert !Truthy(status) ==> PyStr(rt, name) == "STATUS_CREATED" by {
        PyStrOfText(rt, "STATUS_CREATED");
      }
    }
  }

  lemma PyStrOfText(rt: Runtime, s: string)
    ensures PyStr(rt, JStr(s)) == s
  {
  }

  lemma StatusNamed(status: Obj, default': string)
    requires "status" in status && status["status"].JStr? && status["status"].s != ""
    ensures StatusOf(status, default') == status["status"].s
  {
    assert Lookup(status, "status") == status["status"];
  }

  lemma InitialVersionReads(version: Obj, id: string)
    ensures var v := InitialVersion(version, id);
            && v != map[] && "statusVersion" in v
            && Lookup(v, "statusVersion") == (if "statusVersion" in version then version["statusVersion"] else JInt(1))
            && Lookup(v, "status_version")
               == (if "status_version" in version then version["status_version"] else JInt(1))
  {
  }

  lemma VersionOfEntry(p: Obj)
    ensures var entry := Lookup(p, "version");
            VersionOf(p) == if AsDict(entry).None? then None else CurrentVersion(FieldsOf(entry))
  {
    hide CurrentVersion;
  }

  lemma CurrentOfInitial(version: Obj, id: string)
    ensures CurrentVersion(InitialVersion(version, id))
            == if "statusVersion" in version then CurrentVersion(version) else Some(1)
  {
    InitialVersionReads(version, id);
    hide InitialVersion, PyInt;
    assert PyInt(JInt(1)) == Some(1) by {
      OneIsOne();
    }
  }

  lemma OneIsOne()
    ensures PyInt(JInt(1)) == Some(1)
  {
  }

  /** The version a new task stands at: the one given as `statusVersion`, otherwise 1, whatever `status_version`
      says. */
  lemma NewTaskVersion(rt: Runtime, payload: Obj, newId: string, now: int, p: Obj)
    requires NewTask(rt, payload, newId, now) == Some(p)
    ensures VersionOf(p) ==
            if "statusVersion" in FieldsOf(Lookup(payload, "version")) then VersionOf(payload) else Some(1)
  {
    var version, id := FieldsOf(Lookup(payload, "version")), NewTaskId(payload, newId);
    assert AsDict(JObj(InitialVersion(version, id))).Some?;
    hide NewTask, InitialVersion, InitialStatus, TaskIdOf, NewTaskId, CurrentVersion, VersionOf, AsDict, Lookup;
    RewrittenEntries(rt, payload, newId, now, p);
    NewTaskParts(rt, payload, newId, now);
    VersionOfEntry(p);
    VersionOfEntry(payload);
    CurrentOfInitial(version, id);
  }

  lemma VersionAgain(version: Obj, id: string)
    ensures InitialVersion(InitialVersion(version, id), id) == InitialVersion(version, id)
  {
  }

  /* The assignee. */

  lemma {:induction false} FirstOfBoth(a: seq<Json>, b: seq<Json>)
    ensures FirstString(a + b) == if FirstString(a).Some? then FirstString(a) else FirstString(b)
  {
    if a == [] {
      assert a + b == b;
    } else {
      assert (a + b)[1..] == a[1..] + b;
      FirstOfBoth(a[1..], b);
    }
  }

  lemma MirrorEntry(system: Obj, key: string)
    requires key !in {"entity_id", "service_name"}
    ensures Lookup(NormalSystem(system), key) == Lookup(system, key)
  {
  }

  /** The second spelling of the id is kept, or is a copy of the first. */
  lemma MirroredId(system: Obj)
    ensures var s := NormalSystem(system);
            Lookup(s, "entity_id") == Lookup(system, "entity_id")
            || (Lookup(system, "entity_id") == JNull && Lookup(s, "entity_id") == Lookup(system, "entityId"))
  {
  }

  /** So the first id a system shows is the same. */
  lemma SystemIds(system: Obj)
    ensures var s := NormalSystem(system);
            FirstString([NestedString(s, ["entityId"]), NestedString(s, ["entity_id"])])
            == FirstString([NestedString(system, ["entityId"]), NestedString(system, ["entity_id"])])
  {
    var s := NormalSystem(system);
    MirrorEntry(system, "entityId");
    MirroredId(system);
    NestedOne(system, "entityId");
    NestedOne(system, "entity_id");
    NestedOne(s, "entityId");
    NestedOne(s, "entity_id");
    hide NormalSystem, NestedString, Strip, Lookup;
    FirstOfPair(NestedString(s, ["entityId"]), NestedString(s, ["entity_id"]));
    FirstOfPair(NestedString(system, ["entityId"]), NestedString(system, ["entity_id"]));
  }

  lemma FirstOfPair(a: Json, b: Json)
    ensures FirstString([a, b]) == if a.JStr? && Strip(a.s) != "" then Some(Strip(a.s))
                                   else if b.JStr? && Strip(b.s) != "" then Some(Strip(b.s)) else None
  {
    hide Strip;
    assert [a, b][1..] == [b] && [b][1..] == [];
    assert FirstString([b]) == if b.JStr? && Strip(b.s) != "" then Some(Strip(b.s)) else None;
  }

  lemma NestedElsewhere(o: Obj, key: string, v: Json, path: seq<string>)
    requires path != [] && path[0] != key
    ensures NestedString(o[key := v], path) == NestedString(o, path)
  {
    hide Strip;
    assert NestedValue(JObj(o[key := v]), path) == NestedValue(Lookup(o, path[0]), path[1..]);
  }

  /** Paths that do not go through the assignee's system read the same. */
  lemma OtherPath(r: Obj, path: seq<string>)
    requires |path| > 0 && (path[0] == "assignee" ==> |path| > 1 && path[1] != "system")
    ensures NestedString(NormalRelations(r), path) == NestedString(r, path)
  {
    hide NestedString, NormalSystem;
    if Lookup(r, "assignee").JObj? {
      var a := r["assignee"].fields;
      var a' := WithObject(a, "system", NormalSystem);
      assert NormalRelations(r) == r["assignee" := JObj(a')];
      if path[0] == "assignee" {
        assert path == ["assignee"] + path[1..];
        NestedBelow(r, "assignee", path[1..]);
        NestedBelow(NormalRelations(r), "assignee", path[1..]);
        if Lookup(a, "system").JObj? {
          NestedElsewhere(a, "system", a'["system"], path[1..]);
        }
      } else {
        NestedElsewhere(r, "assignee", JObj(a'), path);
      }
    }
  }

  /** The assignee's system is normalised in place. */
  lemma SystemPath(r: Obj, key: string)
    ensures var path := ["assignee", "system", key];
            && NestedString(r, path)
               == NestedString(FieldsOf(Lookup(FieldsOf(Lookup(r, "assignee")), "system")), [key])
            && NestedString(NormalRelations(r), path)
               == NestedString(FieldsOf(NormalSystemEntry(Lookup(FieldsOf(Lookup(r, "assignee")), "system"))), [key])
  {
    hide NestedString, NormalSystem;
    assert ["assignee", "system", key] == ["assignee"] + ["system", key] && ["system", key] == ["system"] + [key];
    var a := FieldsOf(Lookup(r, "assignee"));
    var a' := FieldsOf(Lookup(NormalRelations(r), "assignee"));
    NestedBelow(r, "assignee", ["system", key]);
    NestedBelow(a, "system", [key]);
    NestedBelow(NormalRelations(r), "assignee", ["system", key]);
    NestedBelow(a', "system", [key]);
    assert a' == WithObject(a, "system", NormalSystem);
  }

  function NormalSystemEntry(system: Json): Json {
    if system.JObj? then JObj(NormalSystem(system.fields)) else system
  }

  lemma {:induction false} NestedConcat(o: Obj, a: seq<seq<string>>, b: seq<seq<string>>)
    ensures NestedStrings(o, a + b) == NestedStrings(o, a) + NestedStrings(o, b)
  {
    hide NestedString;
    if a == [] {
      assert a + b == b;
    } else {
      assert (a + b)[1..] == a[1..] + b;
      NestedConcat(o, a[1..], b);
    }
  }

  lemma {:induction false} NestedAlike(o: Obj, o': Obj, paths: seq<seq<string>>)
    requires forall p :: p in paths ==> NestedString(o, p) == NestedString(o', p)
    ensures NestedStrings(o, paths) == NestedStrings(o', paths)
  {
    hide NestedString;
    if paths == [] {
    } else {
      assert paths[0] in paths && forall p :: p in paths[1..] ==> p in paths;
      NestedAlike(o, o', paths[1..]);
    }
  }

  /** What relations name first is the same after they are normalised. */
  lemma RelationsName(r: Obj)
    ensures FirstString(NestedStrings(NormalRelations(r), RELATION_PATHS))
            == FirstString(NestedStrings(r, RELATION_PATHS))
  {
    hide NestedString, NormalRelations, FirstString;
    var before, system, after := RELATION_PATHS[..2], RELATION_PATHS[2..4], RELATION_PATHS[4..];
    var n := NormalRelations(r);
    assert RELATION_PATHS == before + (system + after);
    forall path | path in before + after ensures NestedString(n, path) == NestedString(r, path) {
      OtherPath(r, path);
    }
    NestedAlike(n, r, before);
    NestedAlike(n, r, after);
    SystemName(r);
    hide NestedStrings;
    forall o ensures FirstString(NestedStrings(o, RELATION_PATHS))
                     == var b := FirstString(NestedStrings(o, before)); var m := FirstString(NestedStrings(o, system));
                        if b.Some? then b else if m.Some? then m else FirstString(NestedStrings(o, after)) {
      NestedConcat(o, before, system + after);
      NestedConcat(o, system, after);
      FirstOfBoth(NestedStrings(o, before), NestedStrings(o, system + after));
      FirstOfBoth(NestedStrings(o, system), NestedStrings(o, after));
    }
  }

  lemma SystemName(r: Obj)
    ensures FirstString(NestedStrings(NormalRelations(r), RELATION_PATHS[2..4]))
            == FirstString(NestedStrings(r, RELATION_PATHS[2..4]))
  {
    hide NestedString, NormalRelations, FirstString, NormalSystem;
    var system := Lookup(FieldsOf(Lookup(r, "assignee")), "system");
    SystemPath(r, "entityId");
    SystemPath(r, "entity_id");
    forall o ensures NestedStrings(o, RELATION_PATHS[2..4])
                     == [NestedString(o, ["assignee", "system", "entityId"]),
                         NestedString(o, ["assignee", "system", "entity_id"])] {
      TwoPaths(o, ["assignee", "system", "entityId"], ["assignee", "system", "entity_id"]);
      assert RELATION_PATHS[2..4] == [["assignee", "system", "entityId"], ["assignee", "system", "entity_id"]];
    }
    if system.JObj? {
      SystemIds(system.fields);
    }
  }

  lemma TwoPaths(o: Obj, p: seq<string>, q: seq<string>)
    ensures NestedStrings(o, [p, q]) == [NestedString(o, p), NestedString(o, q)]
  {
    hide NestedString;
    assert [p, q][1..] == [q] && [q][1..] == [];
    assert NestedStrings(o, [q]) == [NestedString(o, q)] + NestedStrings(o, []);
  }

  /** A new task has the assignee of the payload it was created from. */
  lemma NewTaskAssignee(rt: Runtime, payload: Obj, newId: string, now: int, p: Obj)
    requires NewTask(rt, payload, newId, now) == Some(p)
    ensures AssigneeOf(p) == AssigneeOf(payload) && ExecutedElsewhere(p) == ExecutedElsewhere(payload)
  {
    hide NewTask, NestedStrings, FirstString, InitialVersion, InitialStatus, NewTaskId, NormalRelations;
    RewrittenEntries(rt, payload, newId, now, p);
    KeptEntry(rt, payload, newId, now, p, "assigneeId");
    KeptEntry(rt, payload, newId, now, p, "assignee_id");
    KeptEntry(rt, payload, newId, now, p, "assignee");
    KeptEntry(rt, payload, newId, now, p, "isExecutedElsewhere");
    KeptEntry(rt, payload, newId, now, p, "is_executed_elsewhere");
    var relations := Lookup(payload, "relations");
    if relations.JObj? {
      RelationsName(relations.fields);
    }
    hide Lookup;
    var own := [Lookup(payload, "assigneeId"), Lookup(payload, "assignee_id")]
               + NestedStrings(FieldsOf(Lookup(payload, "assignee")), ASSIGNEE_PATHS);
    FirstOfBoth(own, NestedStrings(FieldsOf(Lookup(p, "relations")), RELATION_PATHS));
    FirstOfBoth(own, NestedStrings(FieldsOf(Lookup(payload, "relations")), RELATION_PATHS));
  }

  /** Creating from a created payload again keeps its id and its version entry. */
  lemma CreatedAgain(rt: Runtime, payload: Obj, newId: string, now: int, p: Obj, newId': string, later: int)
    requires NewTask(rt, payload, newId, now) == Some(p) && Clean(newId) && TaskIdOf(p).Some?
    ensures var q := NewTask(rt, p, newId', later);
            && q.Some? && Lookup(q.value, "version") == Lookup(p, "version")
            && Lookup(q.value, "taskId") == Lookup(p, "taskId") && Lookup(q.value, "task_id") == Lookup(p, "task_id")
            && AssigneeOf(q.value) == AssigneeOf(payload)
  {
    hide NewTask, NewTaskId, InitialVersion, InitialStatus, AssigneeOf, ExecutedElsewhere, TaskIdOf, Drafted;
    var id := NewTaskId(payload, newId);
    NewTaskNamed(rt, payload, newId, now, p);
    NamedById(p, id, newId');
    RewrittenEntries(rt, payload, newId, now, p);
    NewTaskParts(rt, p, newId', later);
    var q := NewTask(rt, p, newId', later).value;
    RewrittenEntries(rt, p, newId', later, q);
    VersionAgain(FieldsOf(Lookup(payload, "version")), id);
    FilledEntries(rt, payload, newId, now, p);
    FilledEntries(rt, p, newId', later, q);
    NewTaskAssignee(rt, payload, newId, now, p);
    NewTaskAssignee(rt, p, newId', later, q);
  }

  lemma NamedById(payload: Obj, id: string, newId: string)
    requires TaskIdOf(payload) == Some(id)
    ensures NewTaskId(payload, newId) == id
  {
  }
}
