/** A run of the server, seen by one of its stores, is a run of that store with the other stores' events in between. So
    what holds over the runs of each store holds over the runs of the server. */
module ServerRuns {
  import opened PyValues
  import opened Events
  import opened Servers
  import Entities
  import Convergence
  import LazyExpiry
  import Tasks
  import Delivery
  import Concurrency
  import Objects
  import ObjectRuns

  predicate AllProper(calls: seq<Call>) {
    forall c :: c in calls ==> Proper(c)
  }

  /** The events a call appends. */
  function News(setup: Setup, s: Server, call: Call): seq<Event> {
    var log := Step(setup, s, call).log;
    if |s.log| <= |log| then log[|s.log|..] else []
  }

  lemma CallAppends(setup: Setup, s: Server, call: Call)
    requires Proper(call)
    ensures Step(setup, s, call).log == s.log + News(setup, s, call)
    ensures match call
            case OnEntities(_) => Foreign(s.log, News(setup, s, call), {EntityStream})
            case OnTasks(_) => Foreign(s.log, News(setup, s, call), {TaskStream, AgentStream})
            case OnObjects(_) => Foreign(s.log, News(setup, s, call), {ObjectStream})
  {
    hide Entities.Step, Tasks.Step, Objects.Step;
    match call
    case OnEntities(op) => EntitiesAppend(setup.entities, EntityView(s), op);
    case OnTasks(op) => TasksAppend(setup.tasks, TaskView(s), op);
    case OnObjects(op) => ObjectsAppend(setup.objects, ObjectView(s), op);
  }

  /** Events of these streams that carry on the log's numbering. */
  predicate Foreign(log: Log, news: seq<Event>, streams: set<Stream>) {
    forall i :: 0 <= i < |news| ==> news[i].id == |log| + i + 1 && news[i].stream in streams
  }

  lemma FirstForeign(log: Log, news: seq<Event>, streams: set<Stream>)
    requires Foreign(log, news, streams) && news != []
    ensures news[0].id == |log| + 1 && news[0].stream in streams && news[0].(id := |log| + 1) == news[0]
    ensures Foreign(log + [news[0]], news[1..], streams)
    ensures log + news == (log + [news[0]]) + news[1..]
  {
  }

  /* The task store's side. */

  function TaskEvents(news: seq<Event>): seq<Tasks.TaskOp> {
    seq(|news|, i requires 0 <= i < |news| => Tasks.Elsewhere(news[i]))
  }

  function TaskPart(setup: Setup, s: Server, call: Call): seq<Tasks.TaskOp> {
    if call.OnTasks? then [call.task] else TaskEvents(News(setup, s, call))
  }

  /** The run as the task store sees it. */
  function TaskOps(setup: Setup, s: Server, calls: seq<Call>): seq<Tasks.TaskOp>
    decreases |calls|
  {
    if calls == [] then []
    else TaskPart(setup, s, calls[0]) + TaskOps(setup, Step(setup, s, calls[0]), calls[1..])
  }

  lemma {:induction false} TasksConcat(rt: Runtime, db: Tasks.TaskDb, a: seq<Tasks.TaskOp>, b: seq<Tasks.TaskOp>)
    ensures Tasks.Run(rt, db, a + b) == Tasks.Run(rt, Tasks.Run(rt, db, a), b)
    decreases |a|
  {
    hide Tasks.Step;
    if a == [] {
      assert a + b == b;
    } else {
      assert (a + b)[1..] == a[1..] + b;
      TasksConcat(rt, Tasks.Step(rt, db, a[0]), a[1..], b);
    }
  }

  lemma {:induction false} TasksHear(rt: Runtime, db: Tasks.TaskDb, news: seq<Event>, streams: set<Stream>)
    requires Foreign(db.log, news, streams) && TaskStream !in streams && AgentStream !in streams
    ensures Tasks.Run(rt, db, TaskEvents(news)) == db.(log := db.log + news)
    decreases |news|
  {
    if news == [] {
      assert db.log + news == db.log;
    } else {
      FirstForeign(db.log, news, streams);
      assert TaskEvents(news)[1..] == TaskEvents(news[1..]);
      TasksHear(rt, db.(log := db.log + [news[0]]), news[1..], streams);
    }
  }

  lemma TaskPartRuns(setup: Setup, s: Server, call: Call)
    requires Proper(call)
    ensures Tasks.Run(setup.tasks, TaskView(s), TaskPart(setup, s, call)) == TaskView(Step(setup, s, call))
  {
    hide Entities.Step, Tasks.Step, Objects.Step, News;
    CallAppends(setup, s, call);
    match call
    case OnEntities(_) => TasksHear(setup.tasks, TaskView(s), News(setup, s, call), {EntityStream});
    case OnTasks(op) =>
      assert [op][1..] == [];
      TasksConcatNothing(setup.tasks, Tasks.Step(setup.tasks, TaskView(s), op));
    case OnObjects(_) => TasksHear(setup.tasks, TaskView(s), News(setup, s, call), {ObjectStream});
  }

  /** Seen by the task store, the server's run is a run of the task store. */
  lemma {:induction false} TaskProjection(setup: Setup, s: Server, calls: seq<Call>)
    requires AllProper(calls)
    ensures Tasks.Run(setup.tasks, TaskView(s), TaskOps(setup, s, calls)) == TaskView(Run(setup, s, calls))
    ensures forall op :: op in TaskOps(setup, s, calls) ==> Tasks.NamedStatus(op)
    decreases |calls|
  {
    hide Step, TaskPart, TaskView, Tasks.Run;
    if calls == [] {
      TasksConcatNothing(setup.tasks, TaskView(s));
    } else {
      var next := Step(setup, s, calls[0]);
      TaskPartRuns(setup, s, calls[0]);
      TaskPartNamed(setup, s, calls[0]);
      TaskProjection(setup, next, calls[1..]);
      TasksConcat(setup.tasks, TaskView(s), TaskPart(setup, s, calls[0]), TaskOps(setup, next, calls[1..]));
    }
  }

  lemma TasksConcatNothing(rt: Runtime, db: Tasks.TaskDb)
    ensures Tasks.Run(rt, db, []) == db
  {
  }

  lemma TaskPartNamed(setup: Setup, s: Server, call: Call)
    requires Proper(call)
    ensures forall op :: op in TaskPart(setup, s, call) ==> Tasks.NamedStatus(op)
    ensures forall op :: op in TaskPart(setup, s, call) && !op.Elsewhere? ==> call == OnTasks(op)
  {
    hide News;
  }

  /* The entity store's side. */

  function EntityEvents(news: seq<Event>): seq<Entities.EntityOp> {
    seq(|news|, i requires 0 <= i < |news| => Entities.Elsewhere(news[i]))
  }

  function EntityPart(setup: Setup, s: Server, call: Call): seq<Entities.EntityOp> {
    if call.OnEntities? then [call.entity] else EntityEvents(News(setup, s, call))
  }

  /** The run as the entity store sees it. */
  function EntityOps(setup: Setup, s: Server, calls: seq<Call>): seq<Entities.EntityOp>
    decreases |calls|
  {
    if calls == [] then []
    else EntityPart(setup, s, calls[0]) + EntityOps(setup, Step(setup, s, calls[0]), calls[1..])
  }

  lemma {:induction false} EntitiesConcat(
      cfg: Entities.Config, db: Entities.EntityDb, a: seq<Entities.EntityOp>, b: seq<Entities.EntityOp>)
    ensures Entities.Run(cfg, db, a + b) == Entities.Run(cfg, Entities.Run(cfg, db, a), b)
    decreases |a|
  {
    hide Entities.Step;
    if a == [] {
      assert a + b == b;
    } else {
      assert (a + b)[1..] == a[1..] + b;
      EntitiesConcat(cfg, Entities.Step(cfg, db, a[0]), a[1..], b);
    }
  }

  lemma {:induction false} EntitiesHear(
      cfg: Entities.Config, db: Entities.EntityDb, news: seq<Event>, streams: set<Stream>)
    requires Foreign(db.log, news, streams) && EntityStream !in streams
    ensures Entities.Run(cfg, db, EntityEvents(news)) == db.(log := db.log + news)
    decreases |news|
  {
    if news == [] {
      assert db.log + news == db.log;
    } else {
      FirstForeign(db.log, news, streams);
      assert EntityEvents(news)[1..] == EntityEvents(news[1..]);
      EntitiesHear(cfg, db.(log := db.log + [news[0]]), news[1..], streams);
    }
  }

  lemma EntityPartRuns(setup: Setup, s: Server, call: Call)
    requires Proper(call)
    ensures Entities.Run(setup.entities, EntityView(s), EntityPart(setup, s, call)) == EntityView(Step(setup, s, call))
  {
    hide Entities.Step, Tasks.Step, Objects.Step, News;
    CallAppends(setup, s, call);
    match call
    case OnEntities(op) =>
      assert [op][1..] == [];
      EntitiesConcatNothing(setup.entities, Entities.Step(setup.entities, EntityView(s), op));
    case OnTasks(_) => EntitiesHear(setup.entities, EntityView(s), News(setup, s, call), {TaskStream, AgentStream});
    case OnObjects(_) => EntitiesHear(setup.entities, EntityView(s), News(setup, s, call), {ObjectStream});
  }

  /** Seen by the entity store, the server's run is a run of the entity store. */
  lemma {:induction false} EntityProjection(setup: Setup, s: Server, calls: seq<Call>)
    requires AllProper(calls)
    ensures Entities.Run(setup.entities, EntityView(s), EntityOps(setup, s, calls)) == EntityView(Run(setup, s, calls))
    decreases |calls|
  {
    hide Step, EntityPart, EntityView, Entities.Run;
    if calls == [] {
      EntitiesConcatNothing(setup.entities, EntityView(s));
    } else {
      var next := Step(setup, s, calls[0]);
      EntityPartRuns(setup, s, calls[0]);
      EntityProjection(setup, next, calls[1..]);
      EntitiesConcat(setup.entities, EntityView(s), EntityPart(setup, s, calls[0]), EntityOps(setup, next, calls[1..]));
    }
  }

  lemma EntitiesConcatNothing(cfg: Entities.Config, db: Entities.EntityDb)
    ensures Entities.Run(cfg, db, []) == db
  {
  }

  /* The object store's side. */

  function ObjectEvents(news: seq<Event>): seq<Objects.ObjectOp> {
    seq(|news|, i requires 0 <= i < |news| => Objects.Elsewhere(news[i]))
  }

  function ObjectPart(setup: Setup, s: Server, call: Call): seq<Objects.ObjectOp> {
    if call.OnObjects? then [call.object'] else ObjectEvents(News(setup, s, call))
  }

  /** The run as the object store sees it. */
  function ObjectOps(setup: Setup, s: Server, calls: seq<Call>): seq<Objects.ObjectOp>
    decreases |calls|
  {
    if calls == [] then []
    else ObjectPart(setup, s, calls[0]) + ObjectOps(setup, Step(setup, s, calls[0]), calls[1..])
  }

  lemma {:induction false} ObjectsConcat(
      cfg: Objects.Config, db: Objects.ObjectDb, a: seq<Objects.ObjectOp>, b: seq<Objects.ObjectOp>)
    ensures Objects.Run(cfg, db, a + b) == Objects.Run(cfg, Objects.Run(cfg, db, a), b)
    decreases |a|
  {
    hide Objects.Step;
    if a == [] {
      assert a + b == b;
    } else {
      assert (a + b)[1..] == a[1..] + b;
      ObjectsConcat(cfg, Objects.Step(cfg, db, a[0]), a[1..], b);
    }
  }

  lemma {:induction false} ObjectsHear(
      cfg: Objects.Config, db: Objects.ObjectDb, news: seq<Event>, streams: set<Stream>)
    requires Foreign(db.log, news, streams) && ObjectStream !in streams
    ensures Objects.Run(cfg, db, ObjectEvents(news)) == db.(log := db.log + news)
    decreases |news|
  {
    if news == [] {
      assert db.log + news == db.log;
    } else {
      FirstForeign(db.log, news, streams);
      assert ObjectEvents(news)[1..] == ObjectEvents(news[1..]);
      ObjectsHear(cfg, db.(log := db.log + [news[0]]), news[1..], streams);
    }
  }

  lemma ObjectPartRuns(setup: Setup, s: Server, call: Call)
    requires Proper(call)
    ensures Objects.Run(setup.objects, ObjectView(s), ObjectPart(setup, s, call)) == ObjectView(Step(setup, s, call))
  {
    hide Entities.Step, Tasks.Step, Objects.Step, News;
    CallAppends(setup, s, call);
    match call
    case OnObjects(op) =>
      assert [op][1..] == [];
      ObjectsConcatNothing(setup.objects, Objects.Step(setup.objects, ObjectView(s), op));
    case OnEntities(_) => ObjectsHear(setup.objects, ObjectView(s), News(setup, s, call), {EntityStream});
    case OnTasks(_) => ObjectsHear(setup.objects, ObjectView(s), News(setup, s, call), {TaskStream, AgentStream});
  }

  /** Seen by the object store, the server's run is a run of the object store. */
  lemma {:induction false} ObjectProjection(setup: Setup, s: Server, calls: seq<Call>)
    requires AllProper(calls)
    ensures Objects.Run(setup.objects, ObjectView(s), ObjectOps(setup, s, calls)) == ObjectView(Run(setup, s, calls))
    decreases |calls|
  {
    hide Step, ObjectPart, ObjectView, Objects.Run;
    if calls == [] {
      ObjectsConcatNothing(setup.objects, ObjectView(s));
    } else {
      var next := Step(setup, s, calls[0]);
      ObjectPartRuns(setup, s, calls[0]);
      ObjectProjection(setup, next, calls[1..]);
      ObjectsConcat(setup.objects, ObjectView(s), ObjectPart(setup, s, calls[0]), ObjectOps(setup, next, calls[1..]));
    }
  }

  lemma ObjectsConcatNothing(cfg: Objects.Config, db: Objects.ObjectDb)
    ensures Objects.Run(cfg, db, []) == db
  {
  }

  /* What the runs of the server keep. */

  /** The requests that a listener's claims return in a run of the server. */
  function Claims(setup: Setup, s: Server, calls: seq<Call>, listener: Option<string>): seq<Event>
    decreases |calls|
  {
    if calls == [] then []
    else
      (if calls[0] == OnTasks(Tasks.Claiming(listener)) && Tasks.Claimed(TaskView(s), listener).Some?
       then [Tasks.Claimed(TaskView(s), listener).value] else [])
      + Claims(setup, Step(setup, s, calls[0]), calls[1..], listener)
  }

  lemma {:induction false} ClaimsConcat(
      rt: Runtime, db: Tasks.TaskDb, a: seq<Tasks.TaskOp>, b: seq<Tasks.TaskOp>, listener: Option<string>)
    ensures Delivery.Claims(rt, db, a + b, listener)
            == Delivery.Claims(rt, db, a, listener) + Delivery.Claims(rt, Tasks.Run(rt, db, a), b, listener)
    decreases |a|
  {
    hide Tasks.Step, Tasks.Claimed;
    if a == [] {
      assert a + b == b;
    } else {
      assert (a + b)[1..] == a[1..] + b;
      ClaimsConcat(rt, Tasks.Step(rt, db, a[0]), a[1..], b, listener);
    }
  }

  lemma {:induction false} NoClaims(rt: Runtime, db: Tasks.TaskDb, ops: seq<Tasks.TaskOp>, listener: Option<string>)
    requires forall op :: op in ops ==> op.Elsewhere?
    ensures Delivery.Claims(rt, db, ops, listener) == []
    decreases |ops|
  {
    hide Tasks.Step, Tasks.Claimed;
    if ops == [] {
    } else {
      assert ops[0] in ops && forall op :: op in ops[1..] ==> op in ops;
      NoClaims(rt, Tasks.Step(rt, db, ops[0]), ops[1..], listener);
    }
  }

  lemma PartClaims(setup: Setup, s: Server, call: Call, listener: Option<string>)
    requires Proper(call)
    ensures Delivery.Claims(setup.tasks, TaskView(s), TaskPart(setup, s, call), listener)
            == if call == OnTasks(Tasks.Claiming(listener)) && Tasks.Claimed(TaskView(s), listener).Some?
               then [Tasks.Claimed(TaskView(s), listener).value] else []
  {
    hide Tasks.Step, Tasks.Claimed, News;
    if call.OnTasks? {
      Delivery.ClaimedByOne(setup.tasks, TaskView(s), call.task, listener);
    } else {
      NoClaims(setup.tasks, TaskView(s), TaskPart(setup, s, call), listener);
    }
  }

  /** They are the claims the task store sees. */
  lemma {:induction false} ClaimsProjected(setup: Setup, s: Server, calls: seq<Call>, listener: Option<string>)
    requires AllProper(calls)
    ensures Claims(setup, s, calls, listener)
            == Delivery.Claims(setup.tasks, TaskView(s), TaskOps(setup, s, calls), listener)
    decreases |calls|
  {
    hide Step, TaskPart, TaskView, Tasks.Claimed, Delivery.Claims, Proper;
    if calls == [] {
      assert TaskOps(setup, s, calls) == [];
      ClaimsNothing(setup.tasks, TaskView(s), listener);
    } else {
      var next := Step(setup, s, calls[0]);
      PartClaims(setup, s, calls[0], listener);
      TaskPartRuns(setup, s, calls[0]);
      ClaimsProjected(setup, next, calls[1..], listener);
      ClaimsConcat(setup.tasks, TaskView(s), TaskPart(setup, s, calls[0]), TaskOps(setup, next, calls[1..]), listener);
    }
  }

  lemma ClaimsNothing(rt: Runtime, db: Tasks.TaskDb, listener: Option<string>)
    ensures Delivery.Claims(rt, db, [], listener) == []
  {
  }

  /** Nobody else claims with the cursor of this listener. */
  predicate OwnCursor(calls: seq<Call>, listener: Option<string>) {
    forall c :: c in calls && c.OnTasks? ==> Delivery.OwnCursor([c.task], listener)
  }

  lemma {:induction false} OwnCursorProjected(setup: Setup, s: Server, calls: seq<Call>, listener: Option<string>)
    requires AllProper(calls) && OwnCursor(calls, listener)
    ensures Delivery.OwnCursor(TaskOps(setup, s, calls), listener)
    decreases |calls|
  {
    hide Step, TaskPart, Tasks.DeliveryKey, Proper;
    if calls == [] {
    } else {
      assert calls[0] in calls && forall c :: c in calls[1..] ==> c in calls;
      TaskPartNamed(setup, s, calls[0]);
      OwnCursorProjected(setup, Step(setup, s, calls[0]), calls[1..], listener);
      forall op | op in TaskPart(setup, s, calls[0])
        ensures op.Elsewhere? || (op in [op] && calls[0] == OnTasks(op)) {
      }
    }
  }

  /** Exactly once, in order, over every interleaving of calls to the three stores. */
  lemma ServerDelivers(setup: Setup, calls: seq<Call>, listener: Option<string>)
    requires ValidRuntime(setup.tasks) && AllProper(calls) && OwnCursor(calls, listener)
    ensures var last := Run(setup, EMPTY, calls);
            Claims(setup, EMPTY, calls, listener) + Delivery.Backlog(TaskView(last), listener)
            == Delivery.SentTo(last.log, listener, 0, |last.log|)
  {
    hide Step, TaskPart, Delivery.Claims, Tasks.Run, Proper, Delivery.Backlog, Tasks.AddressedTo, Delivery.OwnCursor,
         Run, Claims, TaskOps, ValidRuntime, Window, Delivery.SentTo;
    TaskProjection(setup, EMPTY, calls);
    ClaimsProjected(setup, EMPTY, calls, listener);
    OwnCursorProjected(setup, EMPTY, calls, listener);
    Delivery.ExactlyOnce(setup.tasks, TaskOps(setup, EMPTY, calls), listener);
  }

  /** No cancel before its execute request, over every interleaving of calls to the three stores. */
  lemma ServerOrdersRequests(setup: Setup, calls: seq<Call>, listener: Option<string>, i: nat)
    requires ValidRuntime(setup.tasks) && AllProper(calls) && OwnCursor(calls, listener)
    requires i < |Claims(setup, EMPTY, calls, listener)| && Claims(setup, EMPTY, calls, listener)[i].body.CancelBody?
    ensures var claims, tasks := Claims(setup, EMPTY, calls, listener), Run(setup, EMPTY, calls).tasks;
            var id := claims[i].body.taskId;
            && id in tasks && (Delivery.ClaimedBefore(claims, i, id) <==> !Tasks.ExecutedElsewhere(tasks[id].payload))
  {
    hide Step, TaskPart, Delivery.Claims, Tasks.Run, Proper, Delivery.OwnCursor, Run, Claims, TaskOps, ValidRuntime,
         Delivery.ClaimedBefore, Tasks.ExecutedElsewhere;
    TaskProjection(setup, EMPTY, calls);
    ClaimsProjected(setup, EMPTY, calls, listener);
    OwnCursorProjected(setup, EMPTY, calls, listener);
    Delivery.CancelsFollowExecutes(setup.tasks, TaskOps(setup, EMPTY, calls), listener, i);
  }

  /** The accepted updates of a task that expect one version, over a run of the server. */
  lemma ServerBoundsWinners(setup: Setup, s: Server, calls: seq<Call>, id: string, v: int)
    requires ValidRuntime(setup.tasks) && AllProper(calls)
    ensures Concurrency.Winners(setup.tasks, TaskView(s), TaskOps(setup, s, calls), id, v)
            <= Concurrency.Room(TaskView(s), id, v)
  {
    hide Step, TaskPart, Concurrency.Winners, Concurrency.Room, TaskOps, Tasks.NamedStatus, Tasks.Run, Run;
    TaskProjection(setup, s, calls);
    Concurrency.WinnersBounded(setup.tasks, TaskView(s), TaskOps(setup, s, calls), id, v);
  }

  /** Publishing converges, whatever the other stores do in between. */
  lemma ServerConverges(setup: Setup, calls: seq<Call>, e: string)
    requires AllProper(calls) && setup.entities.enforceSourceTime
    requires Convergence.OnlyPublished(setup.entities, EntityOps(setup, EMPTY, calls), e)
    ensures var last, cfg := Run(setup, EMPTY, calls), setup.entities;
            var arrivals := Convergence.Arrivals(cfg, EntityOps(setup, EMPTY, calls), e);
            && Convergence.AllDated(cfg, arrivals)
            && Convergence.Logged(last.log, e) == Convergence.Bodies(Convergence.RunningMaxima(cfg, arrivals))
            && (e in last.entities <==> arrivals != [])
            && (arrivals != [] ==>
                  exists a :: a in arrivals && last.entities[e].payload == a.payload
                              && forall b :: b in arrivals ==> Convergence.TimeOf(cfg, b) <= Convergence.TimeOf(cfg, a))
  {
    hide Step, EntityPart, EntityOps, Convergence.Arrivals, Convergence.RunningMaxima, Convergence.TimeOf, Entities.Run,
         Run, Convergence.OnlyPublished, Convergence.Logged, Convergence.Bodies;
    EntityProjection(setup, EMPTY, calls);
    Convergence.PublishesConverge(setup.entities, EntityOps(setup, EMPTY, calls), e);
  }

  /** No call stores another path at the same place. */
  predicate OwnPlace(calls: seq<Call>, path: string) {
    forall c :: c in calls && c.OnObjects? ==> ObjectRuns.OwnPlace([c.object'], path)
  }

  lemma {:induction false} OwnPlaceProjected(setup: Setup, s: Server, calls: seq<Call>, path: string)
    requires AllProper(calls) && OwnPlace(calls, path)
    ensures ObjectRuns.OwnPlace(ObjectOps(setup, s, calls), path)
    decreases |calls|
  {
    hide Step, News, ObjectRuns.Target, Objects.ValidatePath, Proper;
    if calls == [] {
    } else {
      var next := Step(setup, s, calls[0]);
      assert calls[0] in calls && forall c :: c in calls[1..] ==> c in calls;
      OwnPlaceProjected(setup, next, calls[1..], path);
      forall op | op in ObjectPart(setup, s, calls[0])
        ensures op.Elsewhere? || (op in [op] && calls[0] == OnObjects(op)) {
      }
    }
  }

  /** Fetched bytes match their metadata, whatever the other stores do in between. */
  lemma ServerMatches(setup: Setup, calls: seq<Call>, path: string)
    requires AllProper(calls) && OwnPlace(calls, path)
    ensures ObjectRuns.Match(setup.objects, ObjectView(Run(setup, EMPTY, calls)), path)
  {
    hide Step, ObjectPart, ObjectOps, Objects.Run, Run, ObjectRuns.OwnPlace, OwnPlace;
    ObjectProjection(setup, EMPTY, calls);
    OwnPlaceProjected(setup, EMPTY, calls, path);
    ObjectRuns.RunMatch(setup.objects, ObjectView(EMPTY), ObjectOps(setup, EMPTY, calls), path);
  }

  /** After any run of the server, `get` and `list_live` answer as a store that expired every entity at its instant:
      the eager store that saw the same calls and the same clock. */
  lemma ServerExpiresLazily(setup: Setup, calls: seq<Call>, clock: int, id: string, reply: seq<Obj>)
    requires AllProper(calls)
    requires LazyExpiry.Timed(EntityOps(setup, EMPTY, calls), clock)
    requires LazyExpiry.AllKeepLiveness(EntityOps(setup, EMPTY, calls))
    ensures var ops := EntityOps(setup, EMPTY, calls);
            var lazy, eager := EntityView(Run(setup, EMPTY, calls)),
                               LazyExpiry.EagerRun(setup.entities, EntityView(EMPTY), clock, ops);
            var now := LazyExpiry.ClockAfter(ops, clock);
            && Entities.View(lazy, id, now) == Entities.View(eager, id, now)
            && (Entities.Lists(lazy, now, reply) <==> Entities.Lists(eager, now, reply))
  {
    hide Step, EntityPart, EntityOps, Entities.Run, Run, LazyExpiry.Timed, LazyExpiry.AllKeepLiveness, Entities.View,
         Entities.Lists, LazyExpiry.EagerRun, LazyExpiry.ClockAfter, LazyExpiry.Related;
    var ops := EntityOps(setup, EMPTY, calls);
    EntityProjection(setup, EMPTY, calls);
    LazyExpiry.NothingRelated(clock);
    LazyExpiry.RunRelated(setup.entities, EntityView(EMPTY), EntityView(EMPTY), clock, ops);
    var lazy, eager := EntityView(Run(setup, EMPTY, calls)),
                       LazyExpiry.EagerRun(setup.entities, EntityView(EMPTY), clock, ops);
    LazyExpiry.ViewsAlike(lazy, eager, LazyExpiry.ClockAfter(ops, clock), id);
    LazyExpiry.ListsTransfer(lazy, eager, LazyExpiry.ClockAfter(ops, clock), reply);
  }

  /** Every request carries the task it was made from, over every interleaving of calls to the three stores. */
  lemma ServerCarries(setup: Setup, calls: seq<Call>)
    requires AllProper(calls)
    ensures Delivery.AllCarry(Run(setup, EMPTY, calls).log)
  {
    hide Delivery.AllCarry, Run, Tasks.Run, AllProper, TaskOps;
    TaskProjection(setup, EMPTY, calls);
    Delivery.NothingCarried();
    Delivery.RunCarries(setup.tasks, TaskView(EMPTY), TaskOps(setup, EMPTY, calls));
  }
}
