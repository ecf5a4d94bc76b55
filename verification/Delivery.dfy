/** Delivery to agents over whole runs: each listener claims the requests addressed to it in order and exactly once,
    and a cancel never before the execute request it cancels. */
module Delivery {
  import opened PyValues
  import opened Identity
  import opened Events
  import opened Tasks
  import opened NewTasks
  import opened TaskRuns

  /* Which requests a listener polls, said by the subjects of the events alone. */

  /** The event is a request that a listener with this name polls; a listener without one polls every request. */
  predicate IsFor(e: Event, listener: Option<string>) {
    e.stream.AgentStream? && (listener.Some? ==> e.subject == listener.value || e.subject == "*")
  }

  /** The requests for a listener with ids after `lo` up to `hi`, in the order of the log. */
  function SentTo(log: Log, listener: Option<string>, lo: int, hi: int): seq<Event> {
    if log == [] then []
    else
      var front, e := SentTo(log[..|log| - 1], listener, lo, hi), log[|log| - 1];
      if IsFor(e, listener) && lo < e.id <= hi then front + [e] else front
  }

  lemma AcceptsMeaning(e: Event, listener: Option<string>, lo: int, hi: int)
    ensures Wanted(e, AgentStream, AddressedTo(listener), lo, hi) <==> IsFor(e, listener) && lo < e.id <= hi
  {
    if listener.Some? {
      assert e.subject in [listener.value, "*"] <==> e.subject == listener.value || e.subject == "*";
    }
  }

  /** The window a listener's filter cuts out of the log is what was sent to it. */
  lemma {:induction false} WindowIsSent(log: Log, listener: Option<string>, lo: int, hi: int)
    ensures Window(log, AgentStream, AddressedTo(listener), lo, hi) == SentTo(log, listener, lo, hi)
  {
    hide AddressedTo, Wanted, IsFor;
    if log == [] {
    } else {
      WindowIsSent(log[..|log| - 1], listener, lo, hi);
      AcceptsMeaning(log[|log| - 1], listener, lo, hi);
    }
  }

  /** Every event on a page is for the listener and lies behind the cursor. */
  lemma PagedFor(log: Log, listener: Option<string>, after: int, limit: int)
    ensures forall e :: e in PollEvents(log, AgentStream, after, limit, AddressedTo(listener)) ==>
              e in log && IsFor(e, listener) && after < e.id
  {
    hide AddressedTo, Window, Wanted, IsFor, Clamp;
    var f := AddressedTo(listener);
    WindowMembers(log, AgentStream, f, after, |log|);
    forall e | e in PollEvents(log, AgentStream, after, limit, f)
      ensures e in log && IsFor(e, listener) && after < e.id
    {
      assert e in Window(log, AgentStream, f, after, |log|);
      AcceptsMeaning(e, listener, after, |log|);
    }
  }

  /** What a claim returns is a request for the listener that claims. */
  lemma ClaimedFor(db: TaskDb, listener: Option<string>)
    ensures Claimed(db, listener).Some? ==>
              var e := Claimed(db, listener).value;
              e in db.log && IsFor(e, listener) && IsRequest(e) && Cursor(db, listener) < e.id
  {
    hide AddressedTo, IsFor, PollEvents, Cursor;
    PagedFor(db.log, listener, Cursor(db, listener), 100);
    var page := AgentPage(db, listener);
    var n := FirstRequest(page);
    if n < |page| {
      assert page[n] in page;
    }
  }

  /* What a listener claims. */

  /** What a listener still waits for. */
  function Backlog(db: TaskDb, listener: Option<string>): seq<Event> {
    Window(db.log, AgentStream, AddressedTo(listener), Cursor(db, listener), |db.log|)
  }

  /** The requests that the claims of one listener return in a run. */
  function Claims(rt: Runtime, db: TaskDb, ops: seq<TaskOp>, listener: Option<string>): seq<Event>
    decreases |ops|
  {
    if ops == [] then []
    else
      (if ops[0] == Claiming(listener) && Claimed(db, listener).Some? then [Claimed(db, listener).value] else [])
      + Claims(rt, Step(rt, db, ops[0]), ops[1..], listener)
  }

  /** Nobody else claims with the cursor of this listener. */
  predicate OwnCursor(ops: seq<TaskOp>, listener: Option<string>) {
    forall op :: op in ops && op.Claiming? && DeliveryKey(op.listener) == DeliveryKey(listener) ==>
        op.listener == listener
  }

  predicate CursorOk(db: TaskDb, listener: Option<string>) {
    0 <= Cursor(db, listener) <= |db.log|
  }

  predicate OnlyRequests(log: Log) {
    forall i :: 0 <= i < |log| && log[i].stream.AgentStream? ==> IsRequest(log[i])
  }

  lemma ConsistentRequests(db: TaskDb)
    requires Consistent(db)
    ensures IdsOk(db.log) && OnlyRequests(db.log)
  {
    hide TableOk, TurnsOk, AllSent, ExecutedElsewhere;
    forall i | 0 <= i < |db.log| && db.log[i].stream.AgentStream? ensures IsRequest(db.log[i]) {
      assert RequestOk(db, i);
    }
  }

  lemma FirstWaiting(db: TaskDb, listener: Option<string>)
    requires IdsOk(db.log) && OnlyRequests(db.log)
    ensures Backlog(db, listener) != [] ==> IsRequest(Backlog(db, listener)[0])
  {
    var waiting := Backlog(db, listener);
    if waiting != [] {
      WindowMembers(db.log, AgentStream, AddressedTo(listener), Cursor(db, listener), |db.log|);
      assert waiting[0] in waiting;
    }
  }

  lemma FirstOfPage(waiting: seq<Event>, n: nat)
    requires n > 0 && waiting != [] && IsRequest(waiting[0])
    ensures var page := Take(waiting, n); page != [] && page[0] == waiting[0] && FirstRequest(page) == 0
  {
  }

  /** A claim takes the first waiting request, and returns nothing only when none waits. */
  lemma ClaimTakesFirst(db: TaskDb, listener: Option<string>)
    requires IdsOk(db.log) && OnlyRequests(db.log)
    ensures var waiting, next := Backlog(db, listener), Claim(db, listener);
            && next.log == db.log && next.rows == db.rows
            && if waiting == [] then Claimed(db, listener) == None && next == db
               else
                 && Claimed(db, listener) == Some(waiting[0])
                 && Cursor(db, listener) < Cursor(next, listener) == waiting[0].id <= |db.log|
                 && Window(db.log, AgentStream, AddressedTo(listener), Cursor(db, listener), Cursor(next, listener))
                    == [waiting[0]]
                 && Backlog(next, listener) == waiting[1..]
  {
    hide Window, IsRequest, FirstRequest, DeliveryKey, AddressedTo, OnlyRequests, Take;
    var waiting := Backlog(db, listener);
    FirstWaiting(db, listener);
    if waiting != [] {
      FirstOfPage(waiting, 100);
      WindowCut(db.log, AgentStream, AddressedTo(listener), Cursor(db, listener), 1);
      assert waiting[..1] == [waiting[0]];
    } else {
      EmptyPage(100);
    }
  }

  lemma EmptyPage(n: nat)
    ensures Take([], n) == [] && FirstRequest([]) == 0
  {
  }

  /** The log grows, and the cursor of a listener moves only when it claims. */
  lemma StepFrame(rt: Runtime, db: TaskDb, op: TaskOp, listener: Option<string>)
    requires op.Claiming? ==> DeliveryKey(op.listener) != DeliveryKey(listener)
    ensures var next := Step(rt, db, op); db.log <= next.log && Cursor(next, listener) == Cursor(db, listener)
  {
    hide Admit, UpdatedRow, CanceledRow, VersionOf, ExecutedElsewhere, ExpectedVersion, AgentPage, FirstRequest,
        DeliveryKey;
  }

  lemma StepGrows(rt: Runtime, db: TaskDb, op: TaskOp)
    ensures db.log <= Step(rt, db, op).log
  {
    hide Admit, UpdatedRow, CanceledRow, VersionOf, ExecutedElsewhere, ExpectedVersion, AgentPage, FirstRequest;
  }

  lemma {:induction false} RunGrows(rt: Runtime, db: TaskDb, ops: seq<TaskOp>)
    ensures db.log <= Run(rt, db, ops).log
    decreases |ops|
  {
    if ops == [] {
    } else {
      hide Step;
      StepGrows(rt, db, ops[0]);
      RunGrows(rt, Step(rt, db, ops[0]), ops[1..]);
    }
  }

  lemma ClaimedByOne(rt: Runtime, db: TaskDb, op: TaskOp, listener: Option<string>)
    ensures Claims(rt, db, [op], listener)
            == if op == Claiming(listener) && Claimed(db, listener).Some? then [Claimed(db, listener).value] else []
  {
    hide Step, Claimed;
    assert [op][1..] == [];
  }

  /** The step claims exactly the window its cursor moves over. */
  predicate ClaimsWindow(rt: Runtime, db: TaskDb, op: TaskOp, listener: Option<string>) {
    var next := Step(rt, db, op);
    && CursorOk(next, listener) && Cursor(db, listener) <= Cursor(next, listener) && db.log <= next.log
    && Claims(rt, db, [op], listener)
       == Window(next.log, AgentStream, AddressedTo(listener), Cursor(db, listener), Cursor(next, listener))
  }

  lemma OwnStep(rt: Runtime, db: TaskDb, listener: Option<string>)
    requires IdsOk(db.log) && OnlyRequests(db.log) && CursorOk(db, listener)
    ensures ClaimsWindow(rt, db, Claiming(listener), listener)
  {
    hide Window, OnlyRequests, Claimed, Claim, Backlog, AddressedTo, DeliveryKey, Cursor, Claims;
    ClaimTakesFirst(db, listener);
    ClaimedByOne(rt, db, Claiming(listener), listener);
    NothingBetween(db.log, AgentStream, AddressedTo(listener), Cursor(db, listener));
  }

  lemma OtherStep(rt: Runtime, db: TaskDb, op: TaskOp, listener: Option<string>)
    requires CursorOk(db, listener)
    requires op.Claiming? ==> DeliveryKey(op.listener) != DeliveryKey(listener)
    ensures ClaimsWindow(rt, db, op, listener)
  {
    hide Window, Claimed, AddressedTo, DeliveryKey, Cursor, Claims, Step;
    StepFrame(rt, db, op, listener);
    ClaimedByOne(rt, db, op, listener);
    NothingBetween(Step(rt, db, op).log, AgentStream, AddressedTo(listener), Cursor(db, listener));
  }

  lemma StepClaims(rt: Runtime, db: TaskDb, op: TaskOp, listener: Option<string>)
    requires IdsOk(db.log) && OnlyRequests(db.log) && CursorOk(db, listener)
    requires op.Claiming? && DeliveryKey(op.listener) == DeliveryKey(listener) ==> op.listener == listener
    ensures ClaimsWindow(rt, db, op, listener)
  {
    hide OnlyRequests, CursorOk, ClaimsWindow, DeliveryKey, IdsOk;
    if op == Claiming(listener) {
      OwnStep(rt, db, listener);
    } else {
      OtherStep(rt, db, op, listener);
    }
  }

  /** The claims of a listener in a run are the requests addressed to it between its first cursor and its last, in
      order, whatever the other calls and listeners do. */
  lemma {:induction false} ClaimsAreWindow(rt: Runtime, db: TaskDb, ops: seq<TaskOp>, listener: Option<string>)
    requires ValidRuntime(rt) && Consistent(db) && CursorOk(db, listener)
    requires (forall op :: op in ops ==> NamedStatus(op)) && OwnCursor(ops, listener)
    ensures var last := Run(rt, db, ops);
            && Consistent(last) && CursorOk(last, listener) && Cursor(db, listener) <= Cursor(last, listener)
            && Claims(rt, db, ops, listener)
               == Window(last.log, AgentStream, AddressedTo(listener), Cursor(db, listener), Cursor(last, listener))
               == SentTo(last.log, listener, Cursor(db, listener), Cursor(last, listener))
    decreases |ops|
  {
    hide Consistent, Window, Cursor, AddressedTo, DeliveryKey, Step, Claimed, SentTo;
    WindowIsSent(Run(rt, db, ops).log, listener, Cursor(db, listener), Cursor(Run(rt, db, ops), listener));
    if ops == [] {
      NothingBetween(db.log, AgentStream, AddressedTo(listener), Cursor(db, listener));
    } else {
      var next, last := Step(rt, db, ops[0]), Run(rt, db, ops);
      ConsistentRequests(db);
      StepClaims(rt, db, ops[0], listener);
      StepKeeps(rt, db, ops[0]);
      assert OwnCursor(ops[1..], listener);
      ClaimsAreWindow(rt, next, ops[1..], listener);
      ClaimsSplit(rt, db, ops, listener);
      RunGrows(rt, next, ops[1..]);
      ConsistentRequests(last);
      hide IdsOk, Claims, Run, OnlyRequests;
      SameWindow(next.log, last.log, AgentStream, AddressedTo(listener), Cursor(db, listener), Cursor(next, listener));
      WindowSplit(last.log, AgentStream, AddressedTo(listener), Cursor(db, listener), Cursor(next, listener),
          Cursor(last, listener));
    }
  }

  lemma ClaimsSplit(rt: Runtime, db: TaskDb, ops: seq<TaskOp>, listener: Option<string>)
    requires ops != []
    ensures Claims(rt, db, ops, listener)
            == Claims(rt, db, [ops[0]], listener) + Claims(rt, Step(rt, db, ops[0]), ops[1..], listener)
  {
    hide Step, Claimed;
    assert [ops[0]][1..] == [];
  }

  /** Exactly once, in order: what a listener has claimed, followed by what waits for it, is everything ever
      addressed to it. */
  lemma ExactlyOnce(rt: Runtime, ops: seq<TaskOp>, listener: Option<string>)
    requires ValidRuntime(rt) && (forall op :: op in ops ==> NamedStatus(op)) && OwnCursor(ops, listener)
    ensures var last := Run(rt, EMPTY, ops);
            && Claims(rt, EMPTY, ops, listener) + Backlog(last, listener)
               == Window(last.log, AgentStream, AddressedTo(listener), 0, |last.log|)
               == SentTo(last.log, listener, 0, |last.log|)
  {
    hide Consistent, Window, AddressedTo, DeliveryKey, Step, Claimed, Run, Claims;
    EmptyConsistent();
    assert Cursor(EMPTY, listener) == 0;
    var last := Run(rt, EMPTY, ops);
    ClaimsAreWindow(rt, EMPTY, ops, listener);
    ConsistentRequests(last);
    WindowSplit(last.log, AgentStream, AddressedTo(listener), 0, Cursor(last, listener), |last.log|);
    WindowIsSent(last.log, listener, 0, |last.log|);
  }

  /** Over any run, whoever shares a cursor with whom, everything a listener claims is sent to it. */
  lemma {:induction false} ClaimsAreFor(rt: Runtime, db: TaskDb, ops: seq<TaskOp>, listener: Option<string>)
    ensures forall e :: e in Claims(rt, db, ops, listener) ==>
              e in Run(rt, db, ops).log && IsFor(e, listener) && IsRequest(e)
    decreases |ops|
  {
    hide Step, Claimed, IsFor, IsRequest;
    if ops == [] {
    } else {
      ClaimedFor(db, listener);
      StepGrows(rt, db, ops[0]);
      RunGrows(rt, Step(rt, db, ops[0]), ops[1..]);
      ClaimsAreFor(rt, Step(rt, db, ops[0]), ops[1..], listener);
    }
  }

  /** A named listener never claims a request of a task that is assigned to another agent. */
  lemma NeverAnothers(rt: Runtime, ops: seq<TaskOp>, name: string, id: string)
    requires ValidRuntime(rt) && forall op :: op in ops ==> NamedStatus(op)
    requires var rows := Run(rt, EMPTY, ops).rows;
             id in rows && AssigneeOf(rows[id].payload).Some? && AssigneeOf(rows[id].payload).value !in {name, "*"}
    ensures forall e :: e in Claims(rt, EMPTY, ops, Some(name)) ==> IsRequest(e) && e.body.taskId != id
  {
    hide Consistent, Run, Claims, AssigneeOf;
    var last := Run(rt, EMPTY, ops);
    EmptyConsistent();
    RunConsistent(rt, EMPTY, ops);
    ClaimsAreFor(rt, EMPTY, ops, Some(name));
    forall e | e in Claims(rt, EMPTY, ops, Some(name)) ensures IsRequest(e) && e.body.taskId != id {
      var k :| 0 <= k < |last.log| && last.log[k] == e;
      if e.body.taskId == id {
        SentToAssignee(last, k);
      }
    }
  }

  /** A request goes to the assignee of its task, or to everyone when there is none. */
  lemma SentToAssignee(db: TaskDb, k: nat)
    requires Consistent(db) && k < |db.log| && db.log[k].stream.AgentStream?
    ensures IsRequest(db.log[k]) && db.log[k].body.taskId in db.rows
    ensures var assignee := AssigneeOf(db.rows[db.log[k].body.taskId].payload);
            && db.log[k].subject == (if assignee.Some? then assignee.value else "*")
            && (assignee.Some? ==> assignee.value != "")
  {
    hide TurnsOk, AllSent, ExecutedElsewhere, ColumnsOk, AssigneeOf, TableOk;
    assert RequestOk(db, k);
    var payload := db.rows[db.log[k].body.taskId].payload;
    AssigneeColumn(db, db.log[k].body.taskId);
    AssigneeNamed(payload);
  }

  lemma AssigneeNamed(payload: Obj)
    ensures AssigneeOf(payload).Some? ==> AssigneeOf(payload).value != ""
  {
    hide FirstString, NestedStrings, Lookup;
    FoundIsClean([Lookup(payload, "assigneeId"), Lookup(payload, "assignee_id")]
                 + NestedStrings(FieldsOf(Lookup(payload, "assignee")), ASSIGNEE_PATHS)
                 + NestedStrings(FieldsOf(Lookup(payload, "relations")), RELATION_PATHS));
  }

  /** In any reachable state a claim returns the first waiting request, and nothing if and only if none waits. */
  lemma NothingOnlyWhenDrained(rt: Runtime, ops: seq<TaskOp>, listener: Option<string>)
    requires ValidRuntime(rt) && forall op :: op in ops ==> NamedStatus(op)
    ensures var db := Run(rt, EMPTY, ops);
            && (Claimed(db, listener) == None <==> Backlog(db, listener) == [])
            && (Backlog(db, listener) != [] ==> Claimed(db, listener) == Some(Backlog(db, listener)[0]))
  {
    hide Consistent, Window, AddressedTo, DeliveryKey, Step, Claimed, Run, Backlog;
    EmptyConsistent();
    RunConsistent(rt, EMPTY, ops);
    ConsistentRequests(Run(rt, EMPTY, ops));
    ClaimTakesFirst(Run(rt, EMPTY, ops), listener);
  }

  /* Cancels follow their execute requests. */

  lemma IdsGrow(w: seq<Event>, i: nat, j: nat)
    requires Sorted(w) && i < |w| && j < |w|
    ensures i < j <==> w[i].id < w[j].id
  {
    assert j < i ==> w[j].id < w[i].id;
  }

  lemma WindowPosition(w: seq<Event>, i: nat, e: Event) returns (j: nat)
    requires Sorted(w) && i < |w| && e in w && e.id < w[i].id
    ensures j < i && w[j] == e
  {
    j :| 0 <= j < |w| && w[j] == e;
    IdsGrow(w, j, i);
  }

  lemma WindowEvent(log: Log, stream: Stream, f: Subjects, lo: int, hi: int, e: Event) returns (k: nat)
    requires IdsOk(log) && e in Window(log, stream, f, lo, hi)
    ensures k < |log| && log[k] == e && e.id == k + 1 && Wanted(e, stream, f, lo, hi)
  {
    hide Wanted;
    WindowMembers(log, stream, f, lo, hi);
    k :| 0 <= k < |log| && log[k] == e;
  }

  /** Whoever is sent a cancel was sent the execute request before it. */
  lemma ExecuteBeforeCancel(db: TaskDb, k: nat) returns (j: nat)
    requires RequestsOk(db) && k < |db.log| && db.log[k].stream.AgentStream? && db.log[k].body.CancelBody?
    requires db.log[k].body.taskId in db.rows ==> !ExecutedElsewhere(db.rows[db.log[k].body.taskId].payload)
    ensures j < k && ExecuteFor(db.log[j], db.log[k].body.taskId) && db.log[j].subject == db.log[k].subject
  {
    hide ExecutedElsewhere;
    assert RequestOk(db, k);
    j :| 0 <= j < k && ExecuteFor(db.log[j], db.log[k].body.taskId);
    assert RequestOk(db, j);
  }

  lemma NeverSentElsewhere(db: TaskDb, k: nat)
    requires RequestsOk(db) && k < |db.log| && db.log[k].stream.AgentStream? && db.log[k].body.ExecuteBody?
    ensures db.log[k].body.taskId in db.rows && !ExecutedElsewhere(db.rows[db.log[k].body.taskId].payload)
  {
    hide ExecutedElsewhere;
    assert RequestOk(db, k);
  }

  predicate ClaimedBefore(claims: seq<Event>, i: nat, id: string) {
    exists j :: 0 <= j < i && j < |claims| && ExecuteFor(claims[j], id)
  }

  lemma CancelsInWindow(db: TaskDb, f: Subjects, hi: int, i: nat)
    requires Consistent(db) && i < |Window(db.log, AgentStream, f, 0, hi)|
    requires Window(db.log, AgentStream, f, 0, hi)[i].body.CancelBody?
    ensures var w := Window(db.log, AgentStream, f, 0, hi);
            var id := w[i].body.taskId;
            && id in db.rows
            && (ClaimedBefore(w, i, id) <==> !ExecutedElsewhere(db.rows[id].payload))
  {
    hide Window, TableOk, TurnsOk, RequestsOk, AllSent, ExecutedElsewhere, IdsOk, Accepts;
    var w := Window(db.log, AgentStream, f, 0, hi);
    var id := w[i].body.taskId;
    assert w[i] in w;
    var k := WindowEvent(db.log, AgentStream, f, 0, hi, w[i]);
    CancelKnown(db, k);
    WindowSorted(db.log, AgentStream, f, 0, hi);
    if !ExecutedElsewhere(db.rows[id].payload) {
      var j := ExecuteBeforeCancel(db, k);
      var e := db.log[j];
      EventWanted(db.log, AgentStream, f, 0, hi, k, j);
      var p := WindowPosition(w, i, e);
      assert ExecuteFor(w[p], id);
    }
    if ClaimedBefore(w, i, id) {
      var p :| 0 <= p < i && p < |w| && ExecuteFor(w[p], id);
      assert w[p] in w;
      var j := WindowEvent(db.log, AgentStream, f, 0, hi, w[p]);
      NeverSentElsewhere(db, j);
    }
  }

  lemma CancelKnown(db: TaskDb, k: nat)
    requires RequestsOk(db) && k < |db.log| && db.log[k].stream.AgentStream? && db.log[k].body.CancelBody?
    ensures db.log[k].body.taskId in db.rows
  {
    hide ExecutedElsewhere;
    assert RequestOk(db, k);
  }

  /** An earlier event for the same subject is in the window too. */
  lemma EventWanted(log: Log, stream: Stream, f: Subjects, lo: nat, hi: int, k: nat, j: nat)
    requires IdsOk(log) && j < k < |log| && lo <= j && Wanted(log[k], stream, f, lo, hi)
    requires log[j].stream == stream && log[j].subject == log[k].subject
    ensures log[j] in Window(log, stream, f, lo, hi) && log[j].id < log[k].id
  {
    WindowMembers(log, stream, f, lo, hi);
    hide Window;
    assert log[j] in log;
  }

  /** Over every run, a listener that claims a cancel has claimed the execute request of the same task before it if
      and only if the task is not executed elsewhere. */
  lemma CancelsFollowExecutes(rt: Runtime, ops: seq<TaskOp>, listener: Option<string>, i: nat)
    requires ValidRuntime(rt) && (forall op :: op in ops ==> NamedStatus(op)) && OwnCursor(ops, listener)
    requires i < |Claims(rt, EMPTY, ops, listener)| && Claims(rt, EMPTY, ops, listener)[i].body.CancelBody?
    ensures var claims, rows := Claims(rt, EMPTY, ops, listener), Run(rt, EMPTY, ops).rows;
            var id := claims[i].body.taskId;
            && id in rows
            && (ClaimedBefore(claims, i, id) <==> !ExecutedElsewhere(rows[id].payload))
  {
    hide Consistent, Window, AddressedTo, DeliveryKey, Step, Claimed, Run, Claims, ExecutedElsewhere, ClaimedBefore;
    EmptyConsistent();
    assert Cursor(EMPTY, listener) == 0;
    ClaimsAreWindow(rt, EMPTY, ops, listener);
    var last := Run(rt, EMPTY, ops);
    CancelsInWindow(last, AddressedTo(listener), Cursor(last, listener), i);
  }

  /* Listeners that share a cursor. */

  /** Listeners without a name of their own. */
  predicate Anonymous(listener: Option<string>) {
    listener.None? || listener.value == "" || listener.value == "*"
  }

  /** Two listeners share a cursor if and only if neither has a name of its own. */
  lemma SharedKeys(a: Option<string>, b: Option<string>)
    requires a != b
    ensures DeliveryKey(a) == DeliveryKey(b) <==> Anonymous(a) && Anonymous(b)
  {
  }

  lemma {:induction false} NothingNamed(values: seq<Json>)
    requires forall j :: j in values ==> j == JNull
    ensures FirstString(values) == None
  {
    if values == [] {
    } else {
      assert values[0] in values && forall j :: j in values[1..] ==> j in values;
      NothingNamed(values[1..]);
    }
  }

  lemma {:induction false} NullsOnly(paths: seq<seq<string>>)
    requires forall p :: p in paths ==> p != []
    ensures forall j :: j in NestedStrings(map[], paths) ==> j == JNull
  {
    if paths == [] {
    } else {
      assert paths[0] in paths && forall p :: p in paths[1..] ==> p in paths;
      NothingNested(paths[0]);
      NullsOnly(paths[1..]);
    }
  }

  lemma NobodyAssigned(payload: Obj)
    requires "assigneeId" !in payload && "assignee_id" !in payload && "assignee" !in payload && "relations" !in payload
    ensures AssigneeOf(payload) == None
  {
    hide NestedStrings, FirstString;
    NullsOnly(ASSIGNEE_PATHS);
    NullsOnly(RELATION_PATHS);
    assert FieldsOf(Lookup(payload, "assignee")) == map[] && FieldsOf(Lookup(payload, "relations")) == map[];
    var nested := NestedStrings(map[], ASSIGNEE_PATHS) + NestedStrings(map[], RELATION_PATHS);
    var values := [Lookup(payload, "assigneeId"), Lookup(payload, "assignee_id")] + nested;
    assert [Lookup(payload, "assigneeId"), Lookup(payload, "assignee_id")] + NestedStrings(map[], ASSIGNEE_PATHS) 
           + NestedStrings(map[], RELATION_PATHS) == values;
    NothingNamed(values);
  }

  lemma NoEntries()
    ensures var none: Obj := map[];
            Lookup(none, "status") == JNull && Lookup(none, "version") == JNull && !ExecutedElsewhere(none)
  {
  }

  lemma EmptyPayload(rt: Runtime, newId: string, now: int) returns (p: Obj)
    requires ValidRuntime(rt)
    ensures NewTask(rt, map[], newId, now) == Some(p)
    ensures AssigneeOf(p) == None && !ExecutedElsewhere(p) && VersionOf(p) == Some(1)
    ensures StatusOf(p, "STATUS_CREATED") == "STATUS_CREATED"
  {
    hide NewTask, AssigneeOf, StatusOf, VersionOf, ExecutedElsewhere, ValidRuntime, Lookup, NormalStatus, Drafted;
    var none: Obj := map[];
    NoEntries();
    NobodyAssigned(none);
    NewTaskParts(rt, none, newId, now);
    p := NewTask(rt, none, newId, now).value;
    NewTaskAssignee(rt, none, newId, now, p);
    NewTaskStatus(rt, none, newId, now, p, "STATUS_CREATED");
    NewTaskVersion(rt, none, newId, now, p);
  }

  /** An empty payload makes an open task that nobody is assigned to. */
  lemma EmptyTask(rt: Runtime, newId: string, now: int)
    requires ValidRuntime(rt)
    ensures var admitted := Admit(rt, EMPTY, map[], newId, newId, now);
            && admitted.Some?
            && var (id, row) := admitted.value;
               row.assignee == None && !row.terminal && !ExecutedElsewhere(row.payload) && VersionOf(row.payload).Some?
  {
    hide NewTask, AssigneeOf, StatusOf, VersionOf, ExecutedElsewhere, TaskIdOf, ValidRuntime;
    var p := EmptyPayload(rt, newId, now);
    OpenStatus();
  }

  lemma OpenStatus()
    ensures "STATUS_CREATED" !in TERMINAL
  {
  }

  /** The requests to everyone among four events that come in turn from the two streams. */
  lemma EveryOther(log: Log, f: Subjects)
    requires IdsOk(log) && |log| == 4 && Accepts(f, "*")
    requires log[0].stream.TaskStream? && log[2].stream.TaskStream?
    requires log[1].stream.AgentStream? && log[3].stream.AgentStream? && log[1].subject == log[3].subject == "*"
    ensures Window(log[..2], AgentStream, f, 0, 2) == [log[1]]
    ensures Window(log, AgentStream, f, 0, 4) == [log[1], log[3]]
    ensures Window(log, AgentStream, f, 2, 4) == [log[3]]
  {
    WindowOfPair(log[..2], [], f, 0, 2);
    WindowOfPair(log, log[..2], f, 0, 4);
    WindowOfPair(log[..2], [], f, 0, 4);
    WindowOfPair(log, log[..2], f, 2, 4);
    WindowOfPair(log[..2], [], f, 2, 4);
  }

  /** A task event and then a request to everyone add that request to a window that reaches it. */
  lemma WindowOfPair(log: Log, front: Log, f: Subjects, lo: int, hi: int)
    requires |log| == |front| + 2 && log[..|front|] == front && Accepts(f, "*")
    requires log[|front|].stream.TaskStream? && log[|front| + 1].stream.AgentStream? && log[|front| + 1].subject == "*"
    ensures Window(log, AgentStream, f, lo, hi)
            == Window(front, AgentStream, f, lo, hi) + if lo < log[|front| + 1].id <= hi then [log[|front| + 1]] else []
  {
    var e, r := log[|front|], log[|front| + 1];
    assert log == (front + [e]) + [r];
    WindowPush(front, e, AgentStream, f, lo, hi);
    WindowPush(front + [e], r, AgentStream, f, lo, hi);
    hide Window, Accepts;
  }

  /** The store after a task for everyone, and after its cancel. */
  predicate SentToAll(db: TaskDb, id: string) {
    && CanCancel(db, id) && db.rows[id].assignee == None && !ExecutedElsewhere(db.rows[id].payload)
    && |db.log| == 2 && db.log[0].stream.TaskStream? && db.log[1].subject == "*" && ExecuteFor(db.log[1], id)
  }

  predicate CanceledForAll(db: TaskDb, id: string) {
    && id in db.rows && !ExecutedElsewhere(db.rows[id].payload)
    && |db.log| == 4 && db.log[2].stream.TaskStream? && db.log[3].subject == "*" && CancelFor(db.log[3], id)
  }

  lemma FirstTask(rt: Runtime) returns (id: string)
    requires ValidRuntime(rt)
    ensures var db := Step(rt, EMPTY, Creating(map[], "t", "t", 0)); SentToAll(db, id) && db.delivery == map[]
  {
    hide Admit, ExecutedElsewhere, VersionOf;
    EmptyTask(rt, "t", 0);
    id := Admit(rt, EMPTY, map[], "t", "t", 0).value.0;
  }

  lemma TaskCanceled(rt: Runtime, db: TaskDb, id: string)
    requires ValidRuntime(rt) && Consistent(db) && SentToAll(db, id)
    ensures var next := Step(rt, db, Canceling(id, map[], "STATUS_CANCELED", None, 0));
            CanceledForAll(next, id) && next.log[..2] == db.log && next.delivery == db.delivery
  {
    hide CanceledRow, ExecutedElsewhere, VersionOf, TableOk, TurnsOk, RequestsOk, AllSent, ColumnsOk;
    CancelProper(rt, db, id, map[], "STATUS_CANCELED", None, 0);
    var row := CanceledRow(rt, db.rows[id], id, map[], "STATUS_CANCELED", None, 0);
    assert SameRequests(db.rows[id], row);
  }

  /** The calls of the run in which a second listener takes the execute request away from the first. */
  function Taken(a: Option<string>, b: Option<string>, id: string): seq<TaskOp> {
    [Creating(map[], "t", "t", 0), Claiming(b), Canceling(id, map[], "STATUS_CANCELED", None, 0), Claiming(a)]
  }

  lemma ClaimsOfFour(rt: Runtime, db: TaskDb, ops: seq<TaskOp>, listener: Option<string>)
    requires |ops| == 4
    requires ops[0] != Claiming(listener) && ops[1] != Claiming(listener) && ops[2] != Claiming(listener)
    ensures var s := Step(rt, Step(rt, Step(rt, db, ops[0]), ops[1]), ops[2]);
            && Claims(rt, db, ops, listener) == Claims(rt, s, [ops[3]], listener)
            && Run(rt, db, ops) == Step(rt, s, ops[3])
  {
    hide Step, Claimed;
    var s0 := Step(rt, db, ops[0]);
    var s1 := Step(rt, s0, ops[1]);
    assert ops[1..][0] == ops[1] && ops[1..][1..] == ops[2..];
    assert ops[2..][0] == ops[2] && ops[2..][1..] == ops[3..] == [ops[3]];
    assert [ops[3]][1..] == [];
    assert Claims(rt, db, ops, listener) == Claims(rt, s0, ops[1..], listener);
    assert Claims(rt, s0, ops[1..], listener) == Claims(rt, s1, ops[2..], listener);
    assert Run(rt, db, ops) == Run(rt, s0, ops[1..]);
    assert Run(rt, s0, ops[1..]) == Run(rt, s1, ops[2..]);
    var s := Step(rt, s1, ops[2]);
    assert Run(rt, s1, ops[2..]) == Run(rt, s, [ops[3]]);
    assert Run(rt, s, [ops[3]]) == Run(rt, Step(rt, s, ops[3]), []);
  }

  lemma SharedStar(a: Option<string>, b: Option<string>)
    requires a != b && DeliveryKey(a) == DeliveryKey(b)
    ensures DeliveryKey(a) == "*" && Accepts(AddressedTo(a), "*") && Accepts(AddressedTo(b), "*")
  {
  }

  lemma TakenByOther(rt: Runtime, db: TaskDb, a: Option<string>, b: Option<string>, id: string)
    requires a != b && DeliveryKey(a) == DeliveryKey(b)
    requires IdsOk(db.log) && OnlyRequests(db.log) && SentToAll(db, id) && db.delivery == map[]
    ensures var next := Step(rt, db, Claiming(b)); SentToAll(next, id) && Cursor(next, a) == 2 && next.log == db.log
  {
    hide Window, Claimed, AddressedTo, DeliveryKey, OnlyRequests, VersionOf, ExecutedElsewhere, Accepts;
    SharedStar(a, b);
    WindowOfPair(db.log, [], AddressedTo(b), 0, 2);
    assert Window([], AgentStream, AddressedTo(b), 0, 2) == [] by {
      WindowEmpty([], AgentStream, AddressedTo(b), 0, 2);
    }
    assert Backlog(db, b) == [db.log[1]];
    ClaimTakesFirst(db, b);
  }

  lemma OnlyTheCancel(rt: Runtime, db: TaskDb, a: Option<string>, b: Option<string>, id: string)
    requires a != b && DeliveryKey(a) == DeliveryKey(b)
    requires IdsOk(db.log) && OnlyRequests(db.log) && CanceledForAll(db, id) && Cursor(db, a) == 2
    requires db.log[0].stream.TaskStream? && db.log[1].stream.AgentStream? && db.log[1].subject == "*"
    ensures var next := Step(rt, db, Claiming(a));
            && Claims(rt, db, [Claiming(a)], a) == [db.log[3]] && Backlog(next, a) == []
            && next.log == db.log && next.rows == db.rows
            && |Window(db.log, AgentStream, AddressedTo(a), 0, 4)| == 2
  {
    hide Window, Claimed, AddressedTo, DeliveryKey, OnlyRequests, ExecutedElsewhere, Accepts, Claims;
    SharedStar(a, b);
    EveryOther(db.log, AddressedTo(a));
    assert Backlog(db, a) == [db.log[3]];
    ClaimTakesFirst(db, a);
    ClaimedByOne(rt, db, Claiming(a), a);
  }

  /** The condition is needed: whenever two listeners share a cursor there is a run in which one of them claims the
      cancel of a task without its execute request, although both were addressed to it and its backlog is empty. */
  lemma SharedCursorLoses(rt: Runtime, a: Option<string>, b: Option<string>) returns (ops: seq<TaskOp>)
    requires ValidRuntime(rt) && a != b && DeliveryKey(a) == DeliveryKey(b)
    ensures forall op :: op in ops ==> NamedStatus(op) && (op.Claiming? ==> op.listener == a || op.listener == b)
    ensures var claims, last := Claims(rt, EMPTY, ops, a), Run(rt, EMPTY, ops);
            && |claims| == 1 && claims[0].body.CancelBody?
            && claims[0].body.taskId in last.rows && !ExecutedElsewhere(last.rows[claims[0].body.taskId].payload)
            && Backlog(last, a) == []
            && |Window(last.log, AgentStream, AddressedTo(a), 0, |last.log|)| == 2
  {
    hide Step, Consistent, ExecutedElsewhere, CanCancel, Window, Claimed, Claims, Run, DeliveryKey, AddressedTo;
    var id := FirstTask(rt);
    ops := Taken(a, b, id);
    var s1 := Step(rt, EMPTY, ops[0]);
    EmptyConsistent();
    StepKeeps(rt, EMPTY, ops[0]);
    ConsistentRequests(s1);
    TakenByOther(rt, s1, a, b, id);
    var s2 := Step(rt, s1, ops[1]);
    StepKeeps(rt, s1, ops[1]);
    TaskCanceled(rt, s2, id);
    var s3 := Step(rt, s2, ops[2]);
    StepKeeps(rt, s2, ops[2]);
    ConsistentRequests(s3);
    OnlyTheCancel(rt, s3, a, b, id);
    ClaimsOfFour(rt, EMPTY, ops, a);
  }

  /* What the requests carry: the task of the event they were made with. */

  /** The event is right behind one of its task, of this kind and at its time, that carries the same payload. */
  predicate Follows(log: Log, i: nat, id: string, task: Obj, kind: Kind)
    requires i < |log|
  {
    i > 0 && log[i - 1].stream.TaskStream? && log[i - 1].subject == id && log[i - 1].kind == kind &&
    log[i - 1].body == TaskBody(task) && log[i - 1].time == log[i].time
  }

  /** An execute request carries the task as it was created and its assignee; a cancel request carries the task as it
      was canceled and the cancel that is noted in its status. */
  predicate Carries(log: Log, i: nat)
    requires i < |log|
  {
    var e := log[i];
    match e.body
    case ExecuteBody(id, task, assignee) =>
      e.kind == ExecuteRequest && Follows(log, i, id, task, Create) && assignee == AssigneeOf(task)
    case CancelBody(id, task, cancel) =>
      e.kind == CancelRequest && Follows(log, i, id, task, Canceled) &&
      Lookup(FieldsOf(Lookup(task, "status")), "cancel") == JObj(cancel)
    case _ => false
  }

  predicate AllCarry(log: Log) {
    forall i :: 0 <= i < |log| && log[i].stream.AgentStream? ==> Carries(log, i)
  }

  lemma OneMore(log: Log, e: Event)
    requires AllCarry(log) && !e.stream.AgentStream?
    ensures AllCarry(log + [e])
  {
    hide AssigneeOf, Lookup;
    var next := log + [e];
    forall i | 0 <= i < |next| && next[i].stream.AgentStream? ensures Carries(next, i) {
      assert Carries(log, i);
    }
  }

  lemma RequestMore(log: Log, e: Event, r: Event)
    requires AllCarry(log) && !e.stream.AgentStream? && Carries([e, r], 1)
    ensures AllCarry(log + [e] + [r])
  {
    OneMore(log, e);
    hide AssigneeOf, Lookup;
    var before, next := log + [e], log + [e] + [r];
    assert next[|log|] == e && next[|log| + 1] == r;
    forall i | 0 <= i < |next| && next[i].stream.AgentStream? ensures Carries(next, i) {
      if i <= |log| {
        assert Carries(before, i);
      }
    }
  }

  lemma CreateCarries(rt: Runtime, db: TaskDb, payload: Obj, newId: string, newId2: string, now: int)
    requires AllCarry(db.log)
    ensures AllCarry(CreateTask(rt, db, payload, newId, newId2, now).log)
  {
    hide AllCarry, NewTask, AssigneeOf, ExecutedElsewhere, StatusOf, TaskIdOf, Addressee;
    var admitted := Admit(rt, db, payload, newId, newId2, now);
    if admitted.Some? {
      var (id, row) := admitted.value;
      var e := Event(|db.log| + 1, TaskStream, id, Create, now, TaskBody(row.payload));
      OneMore(db.log, e);
      if !ExecutedElsewhere(row.payload) {
        var r := Event(|db.log| + 2, AgentStream, Addressee(row.assignee), ExecuteRequest, now,
                       ExecuteBody(id, row.payload, row.assignee));
        assert [e, r][0] == e && [e, r][1] == r;
        RequestMore(db.log, e, r);
      }
    }
  }

  lemma CanceledNote(
      rt: Runtime, row: TaskRow, id: string, cancel: Obj, status: string, error: Option<string>, now: int)
    requires VersionOf(row.payload).Some?
    ensures var task := CanceledRow(rt, row, id, cancel, status, error, now).payload;
            Lookup(FieldsOf(Lookup(task, "status")), "cancel") == JObj(cancel)
  {
    hide VersionOf, PyStr, Versioned;
  }

  lemma CancelCarries(
      rt: Runtime, db: TaskDb, id: string, cancel: Obj, status: string, error: Option<string>, now: int)
    requires AllCarry(db.log)
    ensures AllCarry(Cancel(rt, db, id, cancel, status, error, now).log)
  {
    hide AllCarry, VersionOf, AssigneeOf, Addressee, CanceledRow, Lookup;
    if CanCancel(db, id) {
      CanceledNote(rt, db.rows[id], id, cancel, status, error, now);
      var row := CanceledRow(rt, db.rows[id], id, cancel, status, error, now);
      var e := Event(|db.log| + 1, TaskStream, id, Canceled, now, TaskBody(row.payload));
      var r := Event(|db.log| + 2, AgentStream, Addressee(row.assignee), CancelRequest, now,
                     CancelBody(id, row.payload, cancel));
      assert [e, r][0] == e && [e, r][1] == r;
      RequestMore(db.log, e, r);
    }
  }

  lemma UpdateCarries(rt: Runtime, db: TaskDb, id: string, payload: Obj, enforce: bool, now: int)
    requires AllCarry(db.log)
    ensures AllCarry(UpdateStatus(rt, db, id, payload, enforce, now).log)
  {
    hide AllCarry, VersionOf, ExpectedVersion, UpdatedRow;
    if CanUpdate(db, id, payload, enforce) {
      var row := UpdatedRow(rt, db.rows[id], id, payload, now);
      OneMore(db.log, Event(|db.log| + 1, TaskStream, id, Update, now, TaskBody(row.payload)));
    }
  }

  lemma StepCarries(rt: Runtime, db: TaskDb, op: TaskOp)
    requires AllCarry(db.log)
    ensures AllCarry(Step(rt, db, op).log)
  {
    hide AllCarry, CreateTask, UpdateStatus, Cancel, AgentPage, FirstRequest;
    match op
    case Creating(payload, newId, newId2, now) => CreateCarries(rt, db, payload, newId, newId2, now);
    case Updating(id, payload, enforce, now) => UpdateCarries(rt, db, id, payload, enforce, now);
    case Canceling(id, cancel, status, error, now) => CancelCarries(rt, db, id, cancel, status, error, now);
    case Claiming(_) =>
    case Elsewhere(event) =>
      if !event.stream.AgentStream? {
        OneMore(db.log, event.(id := |db.log| + 1));
      }
  }

  /** Over every run each request directly follows the task event it was made with and carries the same task. */
  lemma {:induction false} RunCarries(rt: Runtime, db: TaskDb, ops: seq<TaskOp>)
    requires AllCarry(db.log)
    ensures AllCarry(Run(rt, db, ops).log)
    decreases |ops|
  {
    hide AllCarry, Step;
    if ops == [] {
    } else {
      StepCarries(rt, db, ops[0]);
      RunCarries(rt, Step(rt, db, ops[0]), ops[1..]);
    }
  }

  lemma NothingCarried()
    ensures AllCarry([])
  {
  }
}
