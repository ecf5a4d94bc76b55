/** Queries over the task table answer from its index columns; a walk over the log and the payloads in it gives the
    same tasks in the same order. */
module Queries {
  import opened PyValues
  import opened Identity
  import opened Events
  import opened Tasks
  import opened TaskRuns
  import Listings

  /* Filters as a request writes them. */

  /** A string, or the string in an object around it. */
  function QueryScalar(filters: Obj, key: string): Option<string> {
    var value := Lookup(filters, key);
    var scalar := if value.JObj? then Or(Lookup(value.fields, "value"), Lookup(value.fields, "eq")) else value;
    if scalar.JStr? then Some(scalar.s) else None
  }

  function NonEmptyStrings(items: seq<Json>): seq<string> {
    if items == [] then []
    else (if items[0].JStr? && items[0].s != "" then [items[0].s] else []) + NonEmptyStrings(items[1..])
  }

  function QueryStatuses(filters: Obj): seq<string> {
    var scalar := QueryScalar(filters, "status");
    if scalar.Some? && scalar.value != "" then [scalar.value]
    else
      var statuses := Lookup(filters, "statuses");
      if statuses.JArr? then NonEmptyStrings(statuses.items)
      else
        var statusFilter := Or(Lookup(filters, "statusFilter"), Lookup(filters, "status_filter"));
        var raw := if !statuses.JObj? && statusFilter.JObj? then statusFilter else statuses;
        if !raw.JObj? then []
        else
          var o := raw.fields;
          var nested := Or(Or(Lookup(o, "statuses"), Lookup(o, "values")), Lookup(o, "status"));
          if nested.JStr? then NonEmptyStrings([nested])
          else if nested.JArr? then NonEmptyStrings(nested.items)
          else []
  }

  function QueryAssigneeId(filters: Obj): Option<string> {
    var raw := Lookup(filters, "assignee");
    if raw.JStr? then Some(raw.s)
    else if !raw.JObj? then None
    else
      var system := Lookup(raw.fields, "system");
      var holder := if system.JObj? then system.fields else raw.fields;
      var id := Or(Lookup(holder, "entityId"), Lookup(holder, "entity_id"));
      if id.JStr? && id.s != "" then Some(id.s) else None
  }

  /** The assignee asked for; an empty name asks for nobody in particular. */
  function QueryAssignee(filters: Obj): Option<string> {
    var camel, snake := QueryScalar(filters, "assigneeId"), QueryScalar(filters, "assignee_id");
    var nested := QueryAssigneeId(filters);
    if camel.Some? && camel.value != "" then camel
    else if snake.Some? && snake.value != "" then snake
    else if nested.Some? && nested.value != "" then nested
    else None
  }

  function StringIn(j: Json): Option<string> {
    if j.JStr? then Some(j.s) else None
  }

  function QueryTaskType(filters: Obj): Option<string> {
    var raw := Or(Or(Lookup(filters, "taskType"), Lookup(filters, "task_type")), Lookup(filters, "type"));
    if !raw.JObj? then StringIn(raw)
    else
      var o := raw.fields;
      StringIn(Or(Or(Or(Or(Lookup(o, "type"), Lookup(o, "url")), Lookup(o, "@type")), Lookup(o, "typeUrl")),
                  Lookup(o, "type_url")))
  }

  function TaskTypeOf(payload: Obj): Option<string> {
    var specification := Lookup(payload, "specification");
    if !specification.JObj? then None
    else
      var o := specification.fields;
      StringIn(Or(Or(Or(Lookup(o, "@type"), Lookup(o, "type")), Lookup(o, "typeUrl")), Lookup(o, "type_url")))
  }

  /** What `query` and `list_open` select by. */
  datatype Selection =
    | Matching(statuses: seq<string>, assignee: Option<string>, taskType: Option<string>)
    | Open(assignee: Option<string>)

  function QueryOf(filters: Obj): Selection {
    Matching(QueryStatuses(filters), QueryAssignee(filters), QueryTaskType(filters))
  }

  /** The row is selected by its columns; only the type is read from the payload. */
  predicate Selects(sel: Selection, row: TaskRow) {
    match sel
    case Matching(statuses, assignee, taskType) =>
      (statuses != [] ==> row.status in statuses) &&
      (assignee.Some? ==> row.assignee == assignee) &&
      (taskType.Some? ==> TaskTypeOf(row.payload) == taskType)
    case Open(assignee) =>
      !row.terminal && (assignee.Some? ==> row.assignee == assignee || row.assignee == None)
  }

  function SelectedIds(db: TaskDb, sel: Selection): set<string> {
    set id | id in db.rows && Selects(sel, db.rows[id])
  }

  /** The table as a query sees it. */
  function ViewOf(rows: map<string, TaskRow>): Listings.View {
    map id | id in rows :: Listings.Entry(rows[id].sequence, rows[id].payload)
  }

  /** What the table answers. */
  ghost predicate Answers(db: TaskDb, sel: Selection, reply: seq<Obj>) {
    Listings.Lists(ViewOf(db.rows), SelectedIds(db, sel), reply)
  }

  /* The naive answer: walk the log, keep the last event of each task, and look at the payloads. */

  function Without(events: seq<Event>, subject: string): seq<Event> {
    if events == [] then []
    else (if events[0].subject == subject then [] else [events[0]]) + Without(events[1..], subject)
  }

  /** The last task event of each task, in order. */
  function Latest(log: Log): seq<Event> {
    if log == [] then []
    else
      var e, front := log[|log| - 1], Latest(log[..|log| - 1]);
      if e.stream.TaskStream? then Without(front, e.subject) + [e] else front
  }

  /** The payload is selected by what is read from it; `canceled` says how it came to be. */
  predicate SelectsPayload(sel: Selection, payload: Obj, canceled: bool) {
    var status, assignee := StatusOf(payload, "STATUS_CREATED"), AssigneeOf(payload);
    match sel
    case Matching(statuses, wanted, taskType) =>
      (statuses != [] ==> status in statuses) &&
      (wanted.Some? ==> assignee == wanted) &&
      (taskType.Some? ==> TaskTypeOf(payload) == taskType)
    case Open(wanted) =>
      status !in TERMINAL && !canceled && (wanted.Some? ==> assignee == wanted || assignee == None)
  }

  predicate SelectsEvent(sel: Selection, e: Event) {
    e.body.TaskBody? && SelectsPayload(sel, e.body.task, e.kind == Canceled)
  }

  function Kept(events: seq<Event>, sel: Selection): seq<Event> {
    if events == [] then []
    else (if SelectsEvent(sel, events[0]) then [events[0]] else []) + Kept(events[1..], sel)
  }

  function TasksIn(events: seq<Event>): seq<Obj> {
    if events == [] then []
    else (if events[0].body.TaskBody? then [events[0].body.task] else []) + TasksIn(events[1..])
  }

  function NaiveAnswer(log: Log, sel: Selection): seq<Obj> {
    TasksIn(Kept(Latest(log), sel))
  }

  /* Both answers list the same events. */

  lemma PutFirst(e: Event, rest: seq<Event>)
    requires Sorted(rest) && forall x :: x in rest ==> e.id < x.id
    ensures Sorted([e] + rest) && forall x :: x in [e] + rest <==> x == e || x in rest
  {
    forall i | 0 <= i < |rest| ensures e.id < rest[i].id {
      assert rest[i] in rest;
    }
  }

  lemma FirstIsLeast(events: seq<Event>)
    requires Sorted(events) && events != []
    ensures Sorted(events[1..]) && forall x :: x in events[1..] ==> events[0].id < x.id
    ensures forall x :: x in events <==> x == events[0] || x in events[1..]
  {
    assert events == [events[0]] + events[1..];
    forall x | x in events[1..] ensures events[0].id < x.id {
      var i :| 0 <= i < |events[1..]| && events[1..][i] == x;
      assert events[i + 1] == x;
    }
  }

  lemma NothingSorted()
    ensures Sorted([])
  {
  }

  lemma {:induction false} WithoutMembers(events: seq<Event>, subject: string)
    requires Sorted(events)
    ensures forall e :: e in Without(events, subject) <==> e in events && e.subject != subject
    ensures Sorted(Without(events, subject))
  {
    hide Sorted;
    if events == [] {
      NothingSorted();
    } else {
      var rest := Without(events[1..], subject);
      FirstIsLeast(events);
      WithoutMembers(events[1..], subject);
      PutFirst(events[0], rest);
      assert [] + rest == rest;
    }
  }

  /** A task event that no later one replaces. */
  predicate Current(log: Log, e: Event) {
    e in log && e.stream.TaskStream? && forall i :: 0 <= i < |log| && TaskEventOf(log[i], e.subject) ==>
        log[i].id <= e.id
  }

  lemma CurrentPush(front: Log, e: Event, x: Event)
    requires IdsOk(front + [e])
    ensures Current(front + [e], x) <==>
            if !e.stream.TaskStream? then Current(front, x) else x == e || (Current(front, x) && x.subject != e.subject)
  {
    var log := front + [e];
    assert log[|front|] == e;
    forall i | 0 <= i < |front| ensures log[i] == front[i] && log[i].id == i + 1 {
    }
    if Current(log, x) && x != e {
      assert x in front;
    }
    if x in front {
      var k :| 0 <= k < |front| && front[k] == x;
      assert x.id == k + 1;
    }
  }

  lemma PutLast(was: seq<Event>, e: Event)
    requires Sorted(was) && forall x :: x in was ==> x.id < e.id
    ensures Sorted(was + [e]) && forall x :: x in was + [e] <==> x in was || x == e
  {
    forall i | 0 <= i < |was| ensures was[i].id < e.id {
      assert was[i] in was;
    }
  }

  lemma CurrentIds(front: Log, e: Event, x: Event)
    requires IdsOk(front + [e]) && Current(front, x)
    ensures x.id < e.id
  {
    var k :| 0 <= k < |front| && front[k] == x;
    assert (front + [e])[k].id == k + 1 && (front + [e])[|front|].id == |front| + 1;
  }

  lemma LatestPush(front: Log, e: Event)
    ensures Latest(front + [e])
            == if e.stream.TaskStream? then Without(Latest(front), e.subject) + [e] else Latest(front)
  {
    assert (front + [e])[..|front|] == front;
  }

  lemma FrontIds(front: Log, e: Event)
    requires IdsOk(front + [e])
    ensures IdsOk(front)
  {
    assert forall i :: 0 <= i < |front| ==> front[i] == (front + [e])[i];
  }

  lemma {:induction false} LatestMembers(log: Log)
    requires IdsOk(log)
    ensures forall e :: e in Latest(log) <==> Current(log, e)
    ensures Sorted(Latest(log))
  {
    if log == [] {
    } else {
      var front, e := log[..|log| - 1], log[|log| - 1];
      assert log == front + [e];
      hide Sorted, IdsOk, Current, Latest, Without;
      FrontIds(front, e);
      LatestMembers(front);
      LatestPush(front, e);
      WithoutMembers(Latest(front), e.subject);
      forall x ensures x in Latest(log) <==> Current(log, x) {
        CurrentPush(front, e, x);
      }
      forall x | x in Latest(front) ensures x.id < e.id {
        CurrentIds(front, e, x);
      }
      PutLast(Without(Latest(front), e.subject), e);
    }
  }

  lemma {:induction false} KeptMembers(events: seq<Event>, sel: Selection)
    requires Sorted(events)
    ensures forall e :: e in Kept(events, sel) <==> e in events && SelectsEvent(sel, e)
    ensures Sorted(Kept(events, sel))
  {
    hide SelectsEvent, Sorted;
    if events == [] {
      assert Sorted([]) by {
        NothingSorted();
      }
    } else {
      var rest := Kept(events[1..], sel);
      FirstIsLeast(events);
      KeptMembers(events[1..], sel);
      PutFirst(events[0], rest);
      assert [] + rest == rest;
    }
  }

  lemma NoMembers(a: seq<Event>)
    ensures a == [] <==> forall e :: e !in a
  {
    if a == [] {
    } else {
      assert a[0] in a;
    }
  }

  lemma SameFirst(a: seq<Event>, b: seq<Event>)
    requires Sorted(a) && Sorted(b) && a != [] && b != [] && forall e :: e in a <==> e in b
    ensures a[0] == b[0] && Sorted(a[1..]) && Sorted(b[1..]) && forall e :: e in a[1..] <==> e in b[1..]
  {
    hide Sorted;
    FirstIsLeast(a);
    FirstIsLeast(b);
    assert a[0] in b && b[0] in a;
  }

  /** A sorted sequence is determined by its members. */
  lemma {:induction false} SameSorted(a: seq<Event>, b: seq<Event>)
    requires Sorted(a) && Sorted(b) && forall e :: e in a <==> e in b
    ensures a == b
    decreases |a|
  {
    hide Sorted;
    NoMembers(a);
    NoMembers(b);
    if a == [] {
    } else {
      SameFirst(a, b);
      SameSorted(a[1..], b[1..]);
      assert a == [a[0]] + a[1..] && b == [b[0]] + b[1..];
    }
  }

  /* The events the rows of a listing repeat. */

  predicate Rows(db: TaskDb, out: seq<string>) {
    forall id :: id in out ==> id in db.rows && 0 < db.rows[id].sequence <= |db.log|
  }

  function Sources(db: TaskDb, out: seq<string>): seq<Event>
    requires Rows(db, out)
  {
    seq(|out|, i requires 0 <= i < |out| => db.log[db.rows[out[i]].sequence - 1])
  }

  lemma RowIsCurrent(db: TaskDb, sel: Selection, id: string)
    requires IdsOk(db.log) && TableOk(db) && id in db.rows
    ensures 0 < db.rows[id].sequence <= |db.log|
    ensures var e := db.log[db.rows[id].sequence - 1];
            && Current(db.log, e) && e.id == db.rows[id].sequence && e.subject == id
            && e.body == TaskBody(db.rows[id].payload)
            && (SelectsEvent(sel, e) <==> Selects(sel, db.rows[id]))
  {
    hide StatusOf, AssigneeOf, TaskTypeOf;
    assert RowOk(db, id);
  }

  lemma CurrentIsRow(db: TaskDb, e: Event)
    requires IdsOk(db.log) && TableOk(db) && Current(db.log, e)
    ensures e.subject in db.rows && 0 < db.rows[e.subject].sequence <= |db.log|
    ensures db.log[db.rows[e.subject].sequence - 1] == e
  {
    hide ColumnsOk;
    assert e.subject in db.rows && RowOk(db, e.subject);
  }

  lemma FirstSource(db: TaskDb, out: seq<string>)
    requires Rows(db, out) && out != []
    ensures Sources(db, out) == [db.log[db.rows[out[0]].sequence - 1]] + Sources(db, out[1..])
  {
  }

  lemma FirstTaskIn(e: Event, events: seq<Event>)
    requires e.body.TaskBody?
    ensures TasksIn([e] + events) == [e.body.task] + TasksIn(events)
  {
    assert ([e] + events)[1..] == events;
  }

  lemma {:induction false} SourcePayloads(db: TaskDb, out: seq<string>)
    requires Rows(db, out)
    requires forall id :: id in out ==> db.log[db.rows[id].sequence - 1].body == TaskBody(db.rows[id].payload)
    ensures TasksIn(Sources(db, out)) == Listings.Shown(ViewOf(db.rows), out)
    decreases |out|
  {
    if out == [] {
    } else {
      assert out[0] in out && forall id :: id in out[1..] ==> id in out;
      var e := db.log[db.rows[out[0]].sequence - 1];
      FirstSource(db, out);
      FirstTaskIn(e, Sources(db, out[1..]));
      hide Sources, TasksIn;
      SourcePayloads(db, out[1..]);
    }
  }

  /** Every row of a listing is written by the log. */
  lemma ListedRows(db: TaskDb, out: seq<string>)
    requires IdsOk(db.log) && TableOk(db) && forall id :: id in out ==> id in db.rows
    ensures Rows(db, out)
    ensures forall id :: id in out ==> db.log[db.rows[id].sequence - 1].body == TaskBody(db.rows[id].payload)
  {
    hide TableOk, IdsOk, Current, SelectsEvent, Selects;
    forall id | id in out ensures 0 < db.rows[id].sequence <= |db.log|
                             && db.log[db.rows[id].sequence - 1].body == TaskBody(db.rows[id].payload) {
      RowIsCurrent(db, Open(None), id);
    }
  }

  lemma SourcesSorted(db: TaskDb, selected: set<string>, out: seq<string>)
    requires IdsOk(db.log) && Rows(db, out) && Listings.InOrder(ViewOf(db.rows), selected, out)
    ensures Sorted(Sources(db, out))
  {
    var view, listed := ViewOf(db.rows), Sources(db, out);
    hide Listings.Members;
    forall i, j | 0 <= i < j < |out| ensures listed[i].id < listed[j].id {
      assert out[i] in out && out[j] in out;
      assert view[out[i]].sequence < view[out[j]].sequence;
    }
  }

  /** The rows of a selection in order repeat the kept events in order. */
  lemma ListedAreKept(db: TaskDb, sel: Selection, out: seq<string>)
    requires IdsOk(db.log) && TableOk(db) && Listings.InOrder(ViewOf(db.rows), SelectedIds(db, sel), out)
    ensures Listings.Shown(ViewOf(db.rows), out) == NaiveAnswer(db.log, sel)
  {
    hide TableOk, IdsOk, Current, SelectsEvent, SelectedIds, Sorted, Latest, Kept, Listings.Shown, TasksIn;
    ListedRows(db, out);
    SourcesSorted(db, SelectedIds(db, sel), out);
    var listed, kept := Sources(db, out), Kept(Latest(db.log), sel);
    LatestMembers(db.log);
    KeptMembers(Latest(db.log), sel);
    forall e ensures e in listed <==> e in kept {
      ListedIffKept(db, sel, out, e);
    }
    hide Sources, Listings.InOrder;
    SameSorted(listed, kept);
    SourcePayloads(db, out);
  }

  lemma ListedIffKept(db: TaskDb, sel: Selection, out: seq<string>, e: Event)
    requires IdsOk(db.log) && TableOk(db) && Rows(db, out) && Listings.Members(out) == SelectedIds(db, sel)
    ensures e in Sources(db, out) <==> Current(db.log, e) && SelectsEvent(sel, e)
  {
    hide SelectsEvent, Selects, Current, TableOk, IdsOk;
    var listed := Sources(db, out);
    if e in listed {
      var i :| 0 <= i < |listed| && listed[i] == e;
      RowIsCurrent(db, sel, out[i]);
      assert out[i] in Listings.Members(out);
    }
    if Current(db.log, e) && SelectsEvent(sel, e) {
      CurrentIsRow(db, e);
      RowIsCurrent(db, sel, e.subject);
      assert e.subject in Listings.Members(out);
      var i :| 0 <= i < |out| && out[i] == e.subject;
      assert listed[i] == e;
    }
  }

  lemma KeptIsRow(db: TaskDb, sel: Selection, e: Event)
    requires IdsOk(db.log) && TableOk(db) && e in Kept(Latest(db.log), sel)
    ensures e.subject in SelectedIds(db, sel) && db.rows[e.subject].sequence == e.id
  {
    hide SelectsEvent, Selects, TableOk, Latest, Kept, Current, IdsOk;
    LatestMembers(db.log);
    KeptMembers(Latest(db.log), sel);
    CurrentIsRow(db, e);
    RowIsCurrent(db, sel, e.subject);
  }

  lemma RowIsKept(db: TaskDb, sel: Selection, id: string) returns (e: Event)
    requires IdsOk(db.log) && TableOk(db) && id in SelectedIds(db, sel)
    ensures e in Kept(Latest(db.log), sel) && e.subject == id
  {
    hide SelectsEvent, Selects, TableOk, Latest, Kept, Current, IdsOk;
    LatestMembers(db.log);
    KeptMembers(Latest(db.log), sel);
    RowIsCurrent(db, sel, id);
    e := db.log[db.rows[id].sequence - 1];
  }

  function SubjectsOf(events: seq<Event>): seq<string> {
    seq(|events|, i requires 0 <= i < |events| => events[i].subject)
  }

  lemma KeptSorted(log: Log, sel: Selection)
    requires IdsOk(log)
    ensures Sorted(Kept(Latest(log), sel))
  {
    hide Sorted, Latest, Kept, IdsOk;
    LatestMembers(log);
    KeptMembers(Latest(log), sel);
  }

  /** The subjects of the kept events are the selected ids. */
  lemma KeptSubjects(db: TaskDb, sel: Selection)
    requires IdsOk(db.log) && TableOk(db)
    ensures Listings.Members(SubjectsOf(Kept(Latest(db.log), sel))) == SelectedIds(db, sel)
  {
    hide Latest, Kept, IdsOk, TableOk, SelectedIds;
    var kept := Kept(Latest(db.log), sel);
    var out := SubjectsOf(kept);
    forall id | id in out ensures id in SelectedIds(db, sel) {
      var i :| 0 <= i < |out| && out[i] == id;
      assert kept[i] in kept;
      KeptIsRow(db, sel, kept[i]);
    }
    forall id | id in SelectedIds(db, sel) ensures id in out {
      var e := RowIsKept(db, sel, id);
      var i :| 0 <= i < |kept| && kept[i] == e;
      assert out[i] == id;
    }
  }

  /** A listing of the kept events' tasks is in order. */
  lemma KeptAreListed(db: TaskDb, sel: Selection)
    requires IdsOk(db.log) && TableOk(db)
    ensures Listings.InOrder(ViewOf(db.rows), SelectedIds(db, sel), SubjectsOf(Kept(Latest(db.log), sel)))
  {
    var kept := Kept(Latest(db.log), sel);
    var out := SubjectsOf(kept);
    KeptSorted(db.log, sel);
    KeptSubjects(db, sel);
    assert forall id :: id in SelectedIds(db, sel) ==> id in db.rows;
    hide Latest, Kept, IdsOk, TableOk, SelectedIds;
    forall i | 0 <= i < |kept| ensures out[i] in db.rows && db.rows[out[i]].sequence == kept[i].id {
      assert kept[i] in kept;
      KeptIsRow(db, sel, kept[i]);
    }
    hide Listings.Members;
  }

  /** In every consistent state the index answers exactly what the naive walk over the log does. */
  lemma IndexAnswersFromLog(db: TaskDb, sel: Selection, reply: seq<Obj>)
    requires Consistent(db)
    ensures Answers(db, sel, reply) <==> reply == NaiveAnswer(db.log, sel)
  {
    hide TableOk, TurnsOk, RequestsOk, AllSent, NaiveAnswer;
    if Answers(db, sel, reply) {
      var view := ViewOf(db.rows);
      var out :| Listings.InOrder(view, SelectedIds(db, sel), out) && reply == Listings.Shown(view, out);
      ListedAreKept(db, sel, out);
    }
    if reply == NaiveAnswer(db.log, sel) {
      KeptAreListed(db, sel);
      ListedAreKept(db, sel, SubjectsOf(Kept(Latest(db.log), sel)));
    }
  }

  /** So does it after any run of the store. */
  lemma QueriesAnswerFromLog(rt: Runtime, ops: seq<TaskOp>, sel: Selection, reply: seq<Obj>)
    requires ValidRuntime(rt) && forall op :: op in ops ==> NamedStatus(op)
    ensures var db := Run(rt, EMPTY, ops); Answers(db, sel, reply) <==> reply == NaiveAnswer(db.log, sel)
  {
    hide Consistent, Run, Answers;
    EmptyConsistent();
    RunConsistent(rt, EMPTY, ops);
    IndexAnswersFromLog(Run(rt, EMPTY, ops), sel, reply);
  }

  /* What the filters of a query ask for, said from their entries, and what the query then selects. */

  /** A filter entry that is a text, or an object whose `value` or else `eq` is one. */
  predicate Asks(filters: Obj, key: string, s: string) {
    var entry := Lookup(filters, key);
    entry == JStr(s) ||
    (entry.JObj? &&
     ((Lookup(entry.fields, "value") == JStr(s) && s != "") ||
      (!Truthy(Lookup(entry.fields, "value")) && Lookup(entry.fields, "eq") == JStr(s))))
  }

  lemma AskedScalar(filters: Obj, key: string, s: string)
    requires Asks(filters, key, s)
    ensures QueryScalar(filters, key) == Some(s)
  {
  }

  /** A filter entry that asks for nothing. */
  predicate AsksNothing(filters: Obj, key: string) {
    var entry := Lookup(filters, key);
    entry == JNull || entry == JStr("")
  }

  lemma NothingAsked(filters: Obj, key: string)
    requires AsksNothing(filters, key)
    ensures QueryScalar(filters, key) in {None, Some("")}
  {
  }

  /** The texts in a list. */
  predicate Among(items: seq<Json>, s: string) {
    s != "" && JStr(s) in items
  }

  lemma {:induction false} StringsAmong(items: seq<Json>, s: string)
    ensures s in NonEmptyStrings(items) <==> Among(items, s)
  {
    if items == [] {
    } else {
      StringsAmong(items[1..], s);
      assert items == [items[0]] + items[1..];
    }
  }

  /** The entry of a status filter object that lists the statuses. */
  ghost predicate ListsStatuses(filter: Obj, nested: Json) {
    FirstTrue([Lookup(filter, "statuses"), Lookup(filter, "values"), Lookup(filter, "status")], JNull, nested)
  }

  /** The statuses in such an entry: one text, or the texts of a list. */
  predicate Holds(nested: Json, s: string) {
    (nested == JStr(s) && s != "") || (nested.JArr? && Among(nested.items, s))
  }

  /** From the entries: a status that `status` asks for is the only one; otherwise a list under `statuses` gives its
      texts; otherwise an object under `statuses`, or under `statusFilter` or else `status_filter`, gives those of its
      first entry among `statuses`, `values` and `status` that is something. Nothing else restricts the status. */
  lemma StatusesAsked(filters: Obj, s: string, filter: Obj, nested: Json, t: string)
    requires ListsStatuses(filter, nested)
    ensures Asks(filters, "status", s) && s != "" ==> (t in QueryStatuses(filters) <==> t == s)
    ensures AsksNothing(filters, "status") ==>
              var statuses := Lookup(filters, "statuses");
              && (statuses.JArr? ==> (t in QueryStatuses(filters) <==> Among(statuses.items, t)))
              && (statuses == JObj(filter) || (!statuses.JArr? && !statuses.JObj? && FilterObject(filters, filter)) ==>
                    (t in QueryStatuses(filters) <==> Holds(nested, t)))
              && (!statuses.JArr? && !statuses.JObj? && NoFilterObject(filters) ==> QueryStatuses(filters) == [])
  {
    hide QueryScalar, NonEmptyStrings, FirstTrue;
    if Asks(filters, "status", s) {
      AskedScalar(filters, "status", s);
    }
    if AsksNothing(filters, "status") {
      NothingAsked(filters, "status");
      var statuses := Lookup(filters, "statuses");
      if statuses.JArr? {
        StringsAmong(statuses.items, t);
      } else {
        hide Asks;
        NestedStatuses(filter, nested, t);
      }
    }
  }

  predicate FilterObject(filters: Obj, filter: Obj) {
    (Lookup(filters, "statusFilter") == JObj(filter) && filter != map[]) ||
    (!Truthy(Lookup(filters, "statusFilter")) && Lookup(filters, "status_filter") == JObj(filter))
  }

  predicate NoFilterObject(filters: Obj) {
    !Lookup(filters, "statusFilter").JObj? && !Lookup(filters, "status_filter").JObj?
  }

  lemma NestedStatuses(filter: Obj, nested: Json, t: string)
    requires ListsStatuses(filter, nested)
    ensures var found := Or(Or(Lookup(filter, "statuses"), Lookup(filter, "values")), Lookup(filter, "status"));
            && (nested == JNull ==> !Truthy(found)) && (nested != JNull ==> found == nested)
            && (found.JStr? ==> (t in NonEmptyStrings([found]) <==> Holds(nested, t)))
            && (found.JArr? ==> (t in NonEmptyStrings(found.items) <==> Holds(nested, t)))
            && (!found.JStr? && !found.JArr? ==> !Holds(nested, t))
  {
    FirstOfThree([Lookup(filter, "statuses"), Lookup(filter, "values"), Lookup(filter, "status")], JNull, nested);
    hide FirstTrue, NonEmptyStrings, Lookup;
    var found := Or(Or(Lookup(filter, "statuses"), Lookup(filter, "values")), Lookup(filter, "status"));
    if found.JStr? {
      StringsAmong([found], t);
    }
    if found.JArr? {
      StringsAmong(found.items, t);
      if found.items == [] {
        assert !Among([], t);
      }
    }
  }

  /* The assignee and the type. */

  /** An id in an object that stands for an agent: in its `system` if that is an object, otherwise its own. */
  predicate AgentId(agent: Obj, id: string) {
    var system := Lookup(agent, "system");
    var holder := if system.JObj? then system.fields else agent;
    id != "" &&
    (Lookup(holder, "entityId") == JStr(id) ||
     (!Truthy(Lookup(holder, "entityId")) && Lookup(holder, "entity_id") == JStr(id)))
  }

  /** From the entries: `assigneeId` asks before `assignee_id`, and that before `assignee`, which is the name or an
      object that holds it. */
  lemma AssigneeAsked(filters: Obj, id: string, agent: Obj)
    requires id != ""
    ensures Asks(filters, "assigneeId", id) ==> QueryAssignee(filters) == Some(id)
    ensures AsksNothing(filters, "assigneeId") && Asks(filters, "assignee_id", id) ==>
              QueryAssignee(filters) == Some(id)
    ensures AsksNothing(filters, "assigneeId") && AsksNothing(filters, "assignee_id") ==>
              var assignee := Lookup(filters, "assignee");
              && (assignee == JStr(id) || (assignee == JObj(agent) && AgentId(agent, id)) ==>
                    QueryAssignee(filters) == Some(id))
              && (!assignee.JStr? && !assignee.JObj? ==> QueryAssignee(filters) == None)
  {
    hide QueryScalar, Asks, AsksNothing;
    forall key ensures Asks(filters, key, id) ==> QueryScalar(filters, key) == Some(id)
               ensures AsksNothing(filters, key) ==> QueryScalar(filters, key) in {None, Some("")} {
      if Asks(filters, key, id) {
        AskedScalar(filters, key, id);
      }
      if AsksNothing(filters, key) {
        NothingAsked(filters, key);
      }
    }
  }

  /** From the entries: the first of `taskType`, `task_type` and `type` that is something is the type asked for, or an
      object whose first of `type`, `url`, `@type`, `typeUrl` and `type_url` is. */
  lemma TypeAsked(filters: Obj, raw: Json, name: Json)
    requires FirstTrue([Lookup(filters, "taskType"), Lookup(filters, "task_type"), Lookup(filters, "type")],
                       Lookup(filters, "type"), raw)
    requires raw.JObj? ==>
               FirstTrue([Lookup(raw.fields, "type"), Lookup(raw.fields, "url"), Lookup(raw.fields, "@type")],
                         Or(Lookup(raw.fields, "typeUrl"), Lookup(raw.fields, "type_url")), name)
    requires !raw.JObj? ==> name == raw
    ensures QueryTaskType(filters) == if name.JStr? then Some(name.s) else None
  {
    FirstOfThree([Lookup(filters, "taskType"), Lookup(filters, "task_type"), Lookup(filters, "type")],
                 Lookup(filters, "type"), raw);
    if raw.JObj? {
      FirstOfThree([Lookup(raw.fields, "type"), Lookup(raw.fields, "url"), Lookup(raw.fields, "@type")],
                   Or(Lookup(raw.fields, "typeUrl"), Lookup(raw.fields, "type_url")), name);
    }
  }

  /** From the entries: the type of a task is the first of these in its specification that is something, if it is a
      text. */
  lemma TypeOfTask(payload: Obj, specification: Obj, name: Json)
    requires Lookup(payload, "specification") == JObj(specification)
    requires FirstTrue([Lookup(specification, "@type"), Lookup(specification, "type"),
                        Lookup(specification, "typeUrl")],
                       Lookup(specification, "type_url"), name)
    ensures TaskTypeOf(payload) == if name.JStr? then Some(name.s) else None
  {
    FirstOfThree(
      [Lookup(specification, "@type"), Lookup(specification, "type"), Lookup(specification, "typeUrl")],
      Lookup(specification, "type_url"), name);
  }

  /* What a query selects. */

  /** A filter that is a text or absent. */
  predicate Plain(filters: Obj, key: string, s: Option<string>) {
    if s.Some? then s.value != "" && Lookup(filters, key) == JStr(s.value) else Lookup(filters, key) == JNull
  }

  /** A query by status, assignee and type, each or none of them, returns the tasks whose payloads have what is asked
      for, and no others. */
  lemma PlainQuery(
      db: TaskDb, filters: Obj, status: Option<string>, assignee: Option<string>, taskType: Option<string>, id: string)
    requires Consistent(db) && id in db.rows
    requires Plain(filters, "status", status) && Plain(filters, "assigneeId", assignee)
    requires Plain(filters, "taskType", taskType)
    requires filters.Keys <= {"status", "assigneeId", "taskType"}
    ensures var payload := db.rows[id].payload;
            id in SelectedIds(db, QueryOf(filters)) <==>
              && (status.Some? ==> StatusOf(payload, "STATUS_CREATED") == status.value)
              && (assignee.Some? ==> Says(payload, ASSIGNEE, assignee))
              && (taskType.Some? ==> TaskTypeOf(payload) == taskType)
  {
    hide StatusOf, TaskTypeOf, AssigneeOf, Says, TurnsOk, RequestsOk, AllSent;
    var payload := db.rows[id].payload;
    assert RowOk(db, id);
    AssigneeSaid(payload);
    if assignee.Some? && Says(payload, ASSIGNEE, assignee) {
      SaysOne(payload, ASSIGNEE, assignee, AssigneeOf(payload));
    }
    PlainFilters(filters, status, assignee, taskType);
    hide QueryOf, TableOk;
  }

  /** The open tasks for an assignee are those that have not ended and are assigned to it or to nobody; without one,
      all that have not ended. */
  lemma OpenQuery(db: TaskDb, wanted: Option<string>, id: string)
    requires Consistent(db) && id in db.rows
    ensures var payload := db.rows[id].payload;
            id in SelectedIds(db, Open(wanted)) <==>
              && !db.rows[id].terminal
              && (wanted.Some? ==> Says(payload, ASSIGNEE, wanted) || Says(payload, ASSIGNEE, None))
  {
    hide AssigneeOf, Says, TurnsOk, RequestsOk, AllSent, StatusOf;
    var payload := db.rows[id].payload;
    assert RowOk(db, id);
    AssigneeSaid(payload);
    forall said | Says(payload, ASSIGNEE, said) ensures said == AssigneeOf(payload) {
      SaysOne(payload, ASSIGNEE, said, AssigneeOf(payload));
    }
  }

  lemma PlainFilters(filters: Obj, status: Option<string>, assignee: Option<string>, taskType: Option<string>)
    requires Plain(filters, "status", status) && Plain(filters, "assigneeId", assignee)
    requires Plain(filters, "taskType", taskType)
    requires filters.Keys <= {"status", "assigneeId", "taskType"}
    ensures QueryOf(filters) == Matching(if status.Some? then [status.value] else [], assignee, taskType)
  {
  }
}
