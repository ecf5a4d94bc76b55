/** The task store over the shared database. */
module TaskStores {
  import opened PyValues
  import opened Identity
  import opened Events
  import opened Tasks
  import opened Databases
  import opened Queries
  import opened Delivery
  import TaskRuns
  import Listings

  datatype TaskReply = Missing | AlreadyTerminal | VersionConflict | Raised | Stored(payload: Obj)

  /** What a status update answers. */
  function UpdateReply(rt: Runtime, db: TaskDb, id: string, payload: Obj, enforce: bool, now: int): TaskReply {
    if id !in db.rows then Missing
    else if db.rows[id].terminal then AlreadyTerminal
    else if VersionOf(db.rows[id].payload).None? then Raised
    else if !CanUpdate(db, id, payload, enforce) then VersionConflict
    else Stored(UpdatedRow(rt, db.rows[id], id, payload, now).payload)
  }

  function CancelReply(
      rt: Runtime, db: TaskDb, id: string, cancel: Obj, status: string, error: Option<string>, now: int): TaskReply
  {
    if id !in db.rows then Missing
    else if db.rows[id].terminal then AlreadyTerminal
    else if VersionOf(db.rows[id].payload).None? then Raised
    else Stored(CanceledRow(rt, db.rows[id], id, cancel, status, error, now).payload)
  }

  /** The returned payload of a new task notes its event. */
  function Created(payload: Obj, sequence: nat): Obj {
    payload["_compat" := JObj(map["sequence" := JInt(sequence), "eventType" := JStr(KindName(Create))])]
  }

  lemma SequencesDiffer(db: TaskDb)
    requires TaskRuns.TableOk(db)
    ensures Listings.Ranked(ViewOf(db.rows))
  {
    hide TaskRuns.ColumnsOk;
    forall a, b | a in db.rows && b in db.rows && db.rows[a].sequence == db.rows[b].sequence ensures a == b {
      assert TaskRuns.RowOk(db, a) && TaskRuns.RowOk(db, b);
    }
  }

  /** The first request of a page is the one a scan stops at. */
  lemma ScanStops(page: seq<Event>, i: nat)
    requires i <= |page| && (forall j :: 0 <= j < i ==> !IsRequest(page[j])) && (i < |page| ==> IsRequest(page[i]))
    ensures FirstRequest(page) == i
  {
    hide IsRequest;
  }

  /** The delivery cursors after a scan over some events: the last one decides. */
  function Delivered(cursors: map<string, int>, key: string, after: int, scanned: seq<Event>): map<string, int> {
    if scanned == [] then cursors
    else
      var last := scanned[|scanned| - 1].id;
      cursors[key := if last > after then last else after]
  }

  lemma DeliveredNothing(cursors: map<string, int>, key: string, after: int)
    ensures Delivered(cursors, key, after, []) == cursors
  {
  }

  lemma DeliveredNext(cursors: map<string, int>, key: string, after: int, events: seq<Event>, i: nat)
    requires i < |events|
    ensures var id := events[i].id;
            Delivered(cursors, key, after, events[..i + 1])
            == Delivered(cursors, key, after, events[..i])[key := if id > after then id else after]
  {
    assert events[..i + 1][i] == events[i];
  }

  /** A claim in terms of the scan of its page. */
  lemma ClaimScans(db: TaskDb, listener: Option<string>, i: nat)
    requires i <= |AgentPage(db, listener)| && FirstRequest(AgentPage(db, listener)) == i
    ensures var page := AgentPage(db, listener);
            var scanned := if i < |page| then page[..i + 1] else page;
            && Claimed(db, listener) == (if i < |page| then Some(page[i]) else None)
            && Claim(db, listener)
               == db.(delivery := Delivered(db.delivery, DeliveryKey(listener), Cursor(db, listener), scanned))
  {
    hide AgentPage, FirstRequest, Cursor, DeliveryKey;
  }

  lemma ClaimIsFirstSent(db: TaskDb, listener: Option<string>)
    requires TaskRuns.Consistent(db)
    ensures var waiting := SentTo(db.log, listener, Cursor(db, listener), |db.log|);
            Claimed(db, listener) == if waiting == [] then None else Some(waiting[0])
  {
    hide TaskRuns.Consistent, SentTo, Claimed, Cursor;
    ConsistentRequests(db);
    ClaimTakesFirst(db, listener);
    WindowIsSent(db.log, listener, Cursor(db, listener), |db.log|);
  }

  class TaskStore {
    const database: Database
    const rt: Runtime
    var agentDeliverySequences: map<string, int>

    constructor (database: Database, rt: Runtime)
      ensures this.database == database && this.rt == rt && agentDeliverySequences == map[]
    {
      this.database, this.rt, agentDeliverySequences := database, rt, map[];
    }

    function State(): TaskDb
      reads this, database
    {
      TaskDb(database.events, database.tasks, agentDeliverySequences)
    }

    method Save(id: string, row: TaskRow, kind: Kind, now: int) returns (sequence: nat)
      modifies database`events, database`tasks
      ensures State() == Write(old(State()), id, row, kind, now)
      ensures sequence == |old(database.events)| + 1
    {
      sequence := database.AddEvent(TaskStream, id, kind, now, TaskBody(row.payload));
      database.tasks := database.tasks[id := row.(sequence := sequence)];
    }

    static method NormalizeNewTask(rt: Runtime, task: Obj, newId: string, now: int) returns (result: Option<Obj>)
      ensures result == NewTask(rt, task, newId, now)
    {
      var payload, named := task, TaskIdOf(task);
      var id := if named.Some? then named.value else newId;
      var time := JStr(rt.printTime(now));
      var version := AsDict(Lookup(payload, "version"));
      if version.None? {
        return None;
      }
      var status := JObj(InitialStatus(rt, payload));
      hide InitialStatus, TaskIdOf, AsDict, WithAuthor, NormalSpecification, NormalRelations;
      payload := payload["version" := JObj(InitialVersion(version.value, id))];
      payload := SetDefault(SetDefault(payload, "taskId", JStr(id)), "task_id", JStr(id));
      payload := SetDefault(SetDefault(payload, "createTime", time), "create_time", time);
      payload := SetDefault(SetDefault(payload, "lastUpdateTime", time), "last_update_time", time);
      payload := payload["status" := status];
      payload := Mirror(payload, "displayName", "display_name");
      if Lookup(payload, "specification").JObj? {
        payload := payload["specification" := JObj(NormalSpecification(payload["specification"].fields))];
      }
      if Lookup(payload, "relations").JObj? {
        payload := payload["relations" := JObj(NormalRelations(payload["relations"].fields))];
      }
      return Some(WithAuthor(payload));
    }

    /** None says that the call raises: the version entry is no object, or the task exists. */
    method Create(payload: Obj, newId: string, newId2: string, now: int) returns (reply: Option<Obj>)
      modifies database`events, database`tasks
      ensures State() == CreateTask(rt, old(State()), payload, newId, newId2, now)
      ensures var admitted := Admit(rt, old(State()), payload, newId, newId2, now);
              reply == if admitted.None? then None
                       else Some(Created(admitted.value.1.payload, |old(database.events)| + 1))
    {
      hide NewTask, TaskIdOf, StatusOf, AssigneeOf, ExecutedElsewhere;
      var task := NormalizeNewTask(rt, payload, newId, now);
      if task.None? {
        return None;
      }
      var named := TaskIdOf(task.value);
      var id := if named.Some? then named.value else newId2;
      var status := StatusOf(task.value, "STATUS_CREATED");
      var assignee := AssigneeOf(task.value);
      if id in database.tasks {
        return None;
      }
      var row := TaskRow(task.value, status, assignee, now, now, status in TERMINAL, 0);
      var sequence := Save(id, row, Kind.Create, now);
      if !ExecutedElsewhere(task.value) {
        var _ := database.AddEvent(
          AgentStream, Addressee(assignee), ExecuteRequest, now, ExecuteBody(id, task.value, assignee));
      }
      return Some(Created(task.value, sequence));
    }

    method UpdateStatus(id: string, payload: Obj, enforce: bool, now: int) returns (reply: TaskReply)
      modifies database`events, database`tasks
      ensures State() == Tasks.UpdateStatus(rt, old(State()), id, payload, enforce, now)
      ensures reply == UpdateReply(rt, old(State()), id, payload, enforce, now)
    {
      hide NormalStatus, StatusOf, AsDict, CurrentVersion, ExpectedVersion;
      var statusPayload := NormalStatus(rt, payload);
      if id !in database.tasks {
        return Missing;
      }
      var row := database.tasks[id];
      if row.terminal {
        return AlreadyTerminal;
      }
      var dict := AsDict(Lookup(row.payload, "version"));
      if dict.None? {
        return Raised;
      }
      var version := dict.value;
      var current := CurrentVersion(version);
      if current.None? {
        return Raised;
      }
      var expected := ExpectedVersion(payload);
      if enforce && !IsInt(expected) {
        return VersionConflict;
      }
      if IsInt(expected) && IntValue(expected) < current.value {
        return VersionConflict;
      }
      assert CanUpdate(State(), id, payload, enforce);
      var next := NextVersion(current.value, expected);
      var task := RestatePayload(rt, row.payload, statusPayload, version, id, next, now);
      var status := StatusOf(statusPayload, row.status);
      hide Lookup, NextVersion, Versioned, Restated;
      var updated := row.(payload := task, status := status, updated := now, terminal := status in TERMINAL);
      assert updated == UpdatedRow(rt, row, id, payload, now);
      hide CanUpdate, UpdatedRow;
      var _ := Save(id, updated, Update, now);
      return Stored(task);
    }

    /** The new status, times and version entry of a payload. */
    static method RestatePayload(rt: Runtime, payload: Obj, status: Obj, version: Obj, id: string, next: Json, now: int)
        returns (task: Obj)
      ensures task == Restated(rt, payload, status, Versioned(version, id, next), now)
    {
      var time := JStr(rt.printTime(now));
      var v := version["taskId" := JStr(id)];
      v := v["task_id" := JStr(id)];
      v := v["statusVersion" := next];
      v := v["status_version" := v["statusVersion"]];
      v := SetDefault(v, "definitionVersion", JInt(1));
      v := SetDefault(v, "definition_version", v["definitionVersion"]);
      assert v == Versioned(version, id, next);
      hide Versioned, SetDefault;
      task := payload["status" := JObj(status)];
      task := task["lastUpdateTime" := time];
      task := task["last_update_time" := time];
      task := task["version" := JObj(v)];
    }

    method Cancel(id: string, cancel: Obj, terminalStatus: string, error: Option<string>, now: int)
        returns (reply: TaskReply)
      modifies database`events, database`tasks
      ensures State() == Tasks.Cancel(rt, old(State()), id, cancel, terminalStatus, error, now)
      ensures reply == CancelReply(rt, old(State()), id, cancel, terminalStatus, error, now)
    {
      hide AsDict, CurrentVersion, PyStr;
      if id !in database.tasks {
        return Missing;
      }
      var row := database.tasks[id];
      if row.terminal {
        return AlreadyTerminal;
      }
      var status := PyStr(rt, Or(Lookup(cancel, "status"), JStr(terminalStatus)));
      var full: Obj := map["status" := JStr(status), "cancel" := JObj(cancel)];
      if error.Some? {
        full := full["taskError" := JObj(map[
          "code" := JStr(error.value), "message" := Or(Lookup(cancel, "reason"), JStr("cancelled"))])];
        full := full["task_error" := full["taskError"]];
      }
      var dict := AsDict(Lookup(row.payload, "version"));
      if dict.None? || CurrentVersion(dict.value).None? {
        return Raised;
      }
      var next := JInt(CurrentVersion(dict.value).value + 1);
      var task := RestatePayload(rt, row.payload, full, dict.value, id, next, now);
      var canceled := row.(payload := task, status := status, updated := now, terminal := true);
      hide Versioned, Restated, Lookup;
      assert canceled == CanceledRow(rt, row, id, cancel, terminalStatus, error, now);
      hide CanceledRow;
      var _ := Save(id, canceled, Canceled, now);
      var _ := database.AddEvent(
        AgentStream, Addressee(row.assignee), CancelRequest, now, CancelBody(id, task, cancel));
      return Stored(task);
    }

    /** The rows of a selection, in order. */
    method Select(sel: Selection) returns (reply: seq<Obj>)
      requires Listings.Ranked(ViewOf(database.tasks))
      ensures Answers(State(), sel, reply)
    {
      hide Selects, Listings.Lists, Listings.Ranked;
      var rows := database.tasks;
      var selected := set id | id in rows && Selects(sel, rows[id]);
      reply := Listings.List(ViewOf(rows), selected);
      assert selected == SelectedIds(State(), sel);
    }

    method Query(filters: Obj) returns (reply: seq<Obj>)
      requires TaskRuns.Consistent(State())
      ensures reply == NaiveAnswer(database.events, QueryOf(filters))
    {
      hide Answers, NaiveAnswer, TaskRuns.TableOk, TaskRuns.TurnsOk, TaskRuns.RequestsOk, TaskRuns.AllSent, QueryOf,
           Listings.Ranked;
      SequencesDiffer(State());
      reply := Select(QueryOf(filters));
      IndexAnswersFromLog(State(), QueryOf(filters), reply);
    }

    method ListOpen(assignee: Option<string>) returns (reply: seq<Obj>)
      requires TaskRuns.Consistent(State())
      ensures reply == NaiveAnswer(database.events, Open(assignee))
    {
      hide Answers, NaiveAnswer, TaskRuns.TableOk, TaskRuns.TurnsOk, TaskRuns.RequestsOk, TaskRuns.AllSent,
           Listings.Ranked;
      SequencesDiffer(State());
      reply := Select(Open(assignee));
      IndexAnswersFromLog(State(), Open(assignee), reply);
    }

    /** The page is exactly what is addressed to the listener between its cursor and the last event of the page, no
        more than the clamped limit, and empty only when nothing waits. */
    method PollAgent(after: int, limit: int, assignee: Option<string>) returns (events: seq<Event>)
      ensures events == PollEvents(database.events, AgentStream, after, limit, AddressedTo(assignee))
      ensures IdsOk(database.events) ==>
                var log := database.events;
                && events == SentTo(log, assignee, after, NextCursor(after, events))
                && |events| <= Clamp(limit)
                && (events == [] <==> SentTo(log, assignee, after, |log|) == [])
    {
      hide PollEvents, Window, NextCursor, AddressedTo, SentTo;
      events := PollEvents(database.events, AgentStream, after, limit, AddressedTo(assignee));
      if IdsOk(database.events) {
        PageIsWindow(database.events, AgentStream, after, limit, AddressedTo(assignee));
        WindowIsSent(database.events, assignee, after, NextCursor(after, events));
        WindowIsSent(database.events, assignee, after, |database.events|);
      }
    }

    /** The claimed request is the first one sent to the listener after its cursor. */
    method ClaimAgentRequest(assignee: Option<string>) returns (request: Option<Event>)
      modifies this`agentDeliverySequences
      ensures State() == Claim(old(State()), assignee)
      ensures request == Claimed(old(State()), assignee)
      ensures TaskRuns.Consistent(old(State())) ==>
                var waiting := SentTo(old(database.events), assignee, Cursor(old(State()), assignee),
                                      |old(database.events)|);
                request == if waiting == [] then None else Some(waiting[0])
    {
      hide PollEvents, AddressedTo, FirstRequest, IsRequest, DeliveryKey, Window, IdsOk, NextCursor, Clamp, Claim,
           Claimed, Delivered, SentTo, TaskRuns.Consistent;
      if TaskRuns.Consistent(State()) {
        ClaimIsFirstSent(State(), assignee);
      }
      var key := DeliveryKey(assignee);
      var after := if key in agentDeliverySequences then agentDeliverySequences[key] else 0;
      var events := PollAgent(after, 100, assignee);
      DeliveredNothing(agentDeliverySequences, key, after);
      for i := 0 to |events|
        invariant agentDeliverySequences == Delivered(old(agentDeliverySequences), key, after, events[..i])
        invariant forall j :: 0 <= j < i ==> !IsRequest(events[j])
      {
        var sequence := events[i].id;
        DeliveredNext(old(agentDeliverySequences), key, after, events, i);
        agentDeliverySequences := agentDeliverySequences[key := if sequence > after then sequence else after];
        if IsRequest(events[i]) {
          ScanStops(events, i);
          ClaimScans(old(State()), assignee, i);
          return Some(events[i]);
        }
      }
      assert events[..|events|] == events;
      ScanStops(events, |events|);
      ClaimScans(old(State()), assignee, |events|);
      return None;
    }
  }
}
