/** The whole server: three stores that append to one log. Each store sees the others as events from elsewhere, so what
    its own runs keep, runs of the server keep. */
module Servers {
  import opened PyValues
  import opened Events
  import Entities
  import EntityRuns
  import Tasks
  import TaskRuns
  import Objects
  import ObjectRuns

  datatype Server = Server(
    log: Log,
    entities: map<string, Entities.EntityRow>,
    tasks: map<string, Tasks.TaskRow>,
    delivery: map<string, int>,
    objects: map<string, Objects.ObjectRow>,
    tree: Objects.Tree)

  datatype Setup = Setup(entities: Entities.Config, tasks: Runtime, objects: Objects.Config)

  datatype Call =
    | OnEntities(entity: Entities.EntityOp)
    | OnTasks(task: Tasks.TaskOp)
    | OnObjects(object': Objects.ObjectOp)

  /** A call of one of the three stores. */
  predicate Proper(call: Call) {
    match call
    case OnEntities(op) => !op.Elsewhere?
    case OnTasks(op) => !op.Elsewhere? && Tasks.NamedStatus(op)
    case OnObjects(op) => !op.Elsewhere?
  }

  function EntityView(s: Server): Entities.EntityDb {
    Entities.EntityDb(s.log, s.entities)
  }

  function TaskView(s: Server): Tasks.TaskDb {
    Tasks.TaskDb(s.log, s.tasks, s.delivery)
  }

  function ObjectView(s: Server): Objects.ObjectDb {
    Objects.ObjectDb(s.log, s.objects, s.tree)
  }

  function Step(setup: Setup, s: Server, call: Call): Server {
    match call
    case OnEntities(op) =>
      var next := Entities.Step(setup.entities, EntityView(s), op);
      s.(log := next.log, entities := next.rows)
    case OnTasks(op) =>
      var next := Tasks.Step(setup.tasks, TaskView(s), op);
      s.(log := next.log, tasks := next.rows, delivery := next.delivery)
    case OnObjects(op) =>
      var next := Objects.Step(setup.objects, ObjectView(s), op);
      s.(log := next.log, objects := next.rows, tree := next.tree)
  }

  function Run(setup: Setup, s: Server, calls: seq<Call>): Server
    decreases |calls|
  {
    if calls == [] then s else Run(setup, Step(setup, s, calls[0]), calls[1..])
  }

  const EMPTY := Server([], map[], map[], map[], map[], Objects.EMPTY.tree)

  /** The log has grown by events of these streams, numbered on. */
  predicate Appends(log: Log, log': Log, streams: set<Stream>) {
    log <= log' && forall i :: |log| <= i < |log'| ==> log'[i].id == i + 1 && log'[i].stream in streams
  }

  lemma AppendsTwice(a: Log, b: Log, c: Log, streams: set<Stream>)
    requires Appends(a, b, streams) && Appends(b, c, streams)
    ensures Appends(a, c, streams)
  {
  }

  /* What each store appends. */

  lemma {:induction false} SweepAppends(db: Entities.EntityDb, now: int, order: seq<string>)
    ensures Appends(db.log, Entities.Sweep(db, now, order).log, {EntityStream})
    decreases |order|
  {
    if order == [] {
    } else {
      var next := Entities.ExpireOne(db, order[0], now);
      SweepAppends(next, now, order[1..]);
      AppendsTwice(db.log, next.log, Entities.Sweep(db, now, order).log, {EntityStream});
    }
  }

  lemma EntitiesAppend(cfg: Entities.Config, db: Entities.EntityDb, op: Entities.EntityOp)
    requires !op.Elsewhere?
    ensures Appends(db.log, Entities.Step(cfg, db, op).log, {EntityStream})
  {
    hide Entities.Sweep, Entities.Admit;
    match op
    case Getting(id, now) => SweepAppends(db, now, [id]);
    case Listing(now, later, order) => SweepAppends(db, now, order);
    case Polling(now, order) => SweepAppends(db, now, order);
    case _ =>
  }

  lemma TasksAppend(rt: Runtime, db: Tasks.TaskDb, op: Tasks.TaskOp)
    requires !op.Elsewhere?
    ensures Appends(db.log, Tasks.Step(rt, db, op).log, {TaskStream, AgentStream})
  {
    hide Tasks.Admit, Tasks.UpdatedRow, Tasks.CanceledRow, Tasks.VersionOf, Tasks.ExecutedElsewhere,
         Tasks.ExpectedVersion, Tasks.AgentPage, Tasks.FirstRequest, Tasks.Addressee;
  }

  lemma ObjectsAppend(cfg: Objects.Config, db: Objects.ObjectDb, op: Objects.ObjectOp)
    requires !op.Elsewhere?
    ensures Appends(db.log, Objects.Step(cfg, db, op).log, {ObjectStream})
  {
    hide Objects.ValidatePath, Objects.PlaceOf, Objects.Remove, Objects.RowPayload, Objects.Blocked;
  }

  /* Events of other stores are steps from elsewhere. */

  lemma SameLength(log: Log, log': Log)
    requires log <= log'
    ensures |log'| == |log| ==> log' == log
  {
    assert |log'| == |log| ==> log'[..|log|] == log';
  }

  lemma Grown(log: Log, log': Log, streams: set<Stream>)
    requires Appends(log, log', streams) && log' != log
    ensures var e := log'[|log|];
            && Appends(log + [e], log', streams) && e.id == |log| + 1 && e.stream in streams
            && e.(id := |log| + 1) == e && |log'| > |log|
  {
    SameLength(log, log');
    assert log'[..|log| + 1] == log + [log'[|log|]];
  }

  lemma {:induction false} EntitiesSee(cfg: Entities.Config, db: Entities.EntityDb, log': Log, streams: set<Stream>)
    requires Appends(db.log, log', streams) && EntityStream !in streams && EntityRuns.Consistent(db)
    ensures EntityRuns.Consistent(db.(log := log'))
    decreases |log'| - |db.log|
  {
    hide EntityRuns.Consistent;
    if log' == db.log {
    } else {
      Grown(db.log, log', streams);
      var e := log'[|db.log|];
      EntityRuns.StepKeeps(cfg, db, Entities.Elsewhere(e));
      assert Entities.Step(cfg, db, Entities.Elsewhere(e)) == db.(log := db.log + [e]);
      EntitiesSee(cfg, db.(log := db.log + [e]), log', streams);
    }
  }

  lemma {:induction false} TasksSee(rt: Runtime, db: Tasks.TaskDb, log': Log, streams: set<Stream>)
    requires Appends(db.log, log', streams) && TaskStream !in streams && AgentStream !in streams
    requires ValidRuntime(rt) && TaskRuns.Consistent(db)
    ensures TaskRuns.Consistent(db.(log := log'))
    decreases |log'| - |db.log|
  {
    hide TaskRuns.Consistent;
    if log' == db.log {
    } else {
      Grown(db.log, log', streams);
      var e := log'[|db.log|];
      TaskRuns.StepKeeps(rt, db, Tasks.Elsewhere(e));
      assert Tasks.Step(rt, db, Tasks.Elsewhere(e)) == db.(log := db.log + [e]);
      TasksSee(rt, db.(log := db.log + [e]), log', streams);
    }
  }

  lemma {:induction false} ObjectsSee(cfg: Objects.Config, db: Objects.ObjectDb, log': Log, streams: set<Stream>)
    requires Appends(db.log, log', streams) && ObjectStream !in streams && ObjectsConsistent(cfg, db)
    ensures ObjectsConsistent(cfg, db.(log := log'))
    decreases |log'| - |db.log|
  {
    if log' == db.log {
    } else {
      Grown(db.log, log', streams);
      var e := log'[|db.log|];
      ObjectsStep(cfg, db, Objects.Elsewhere(e));
      hide ObjectsConsistent;
      assert Objects.Step(cfg, db, Objects.Elsewhere(e)) == db.(log := db.log + [e]);
      ObjectsSee(cfg, db.(log := db.log + [e]), log', streams);
    }
  }

  ghost predicate ObjectsConsistent(cfg: Objects.Config, db: Objects.ObjectDb) {
    Objects.TreeOk(db.tree) && forall path :: ObjectRuns.InStep(cfg, db, path)
  }

  lemma ObjectsStep(cfg: Objects.Config, db: Objects.ObjectDb, op: Objects.ObjectOp)
    requires ObjectsConsistent(cfg, db)
    ensures ObjectsConsistent(cfg, Objects.Step(cfg, db, op))
  {
    hide Objects.Step, ObjectRuns.InStep, Objects.TreeOk;
    ObjectRuns.StepTree(cfg, db, op);
    forall path ensures ObjectRuns.InStep(cfg, Objects.Step(cfg, db, op), path) {
      ObjectRuns.StepInStep(cfg, db, op, path);
    }
  }

  /** Every table is what the log says. */
  ghost predicate Consistent(setup: Setup, s: Server) {
    EntityRuns.Consistent(EntityView(s)) && TaskRuns.Consistent(TaskView(s)) &&
    ObjectsConsistent(setup.objects, ObjectView(s))
  }

  lemma StepKeeps(setup: Setup, s: Server, call: Call)
    requires ValidRuntime(setup.tasks) && Proper(call) && Consistent(setup, s)
    ensures Consistent(setup, Step(setup, s, call))
  {
    hide EntityRuns.Consistent, TaskRuns.Consistent, ObjectsConsistent, Entities.Step, Tasks.Step, Objects.Step,
        Appends;
    var next := Step(setup, s, call);
    match call
    case OnEntities(op) =>
      EntitiesAppend(setup.entities, EntityView(s), op);
      EntityRuns.StepKeeps(setup.entities, EntityView(s), op);
      TasksSee(setup.tasks, TaskView(s), next.log, {EntityStream});
      ObjectsSee(setup.objects, ObjectView(s), next.log, {EntityStream});
    case OnTasks(op) =>
      TasksAppend(setup.tasks, TaskView(s), op);
      TaskRuns.StepKeeps(setup.tasks, TaskView(s), op);
      EntitiesSee(setup.entities, EntityView(s), next.log, {TaskStream, AgentStream});
      ObjectsSee(setup.objects, ObjectView(s), next.log, {TaskStream, AgentStream});
    case OnObjects(op) =>
      ObjectsAppend(setup.objects, ObjectView(s), op);
      ObjectsStep(setup.objects, ObjectView(s), op);
      EntitiesSee(setup.entities, EntityView(s), next.log, {ObjectStream});
      TasksSee(setup.tasks, TaskView(s), next.log, {ObjectStream});
  }

  lemma EmptyConsistent(setup: Setup)
    ensures Consistent(setup, EMPTY)
  {
    EntityRuns.EmptyConsistent();
    TaskRuns.EmptyConsistent();
    forall path ensures ObjectRuns.InStep(setup.objects, ObjectView(EMPTY), path) {
      ObjectRuns.EmptyInStep(setup.objects, path);
    }
    ObjectRuns.EmptyInStep(setup.objects, "");
    hide EntityRuns.Consistent, TaskRuns.Consistent, ObjectRuns.InStep;
  }

  /** Over every interleaving of calls to the three stores, every table is what the shared log says. */
  lemma {:induction false} RunConsistent(setup: Setup, s: Server, calls: seq<Call>)
    requires ValidRuntime(setup.tasks) && Consistent(setup, s) && forall c :: c in calls ==> Proper(c)
    ensures Consistent(setup, Run(setup, s, calls))
    decreases |calls|
  {
    if calls == [] {
    } else {
      hide Consistent, Step;
      StepKeeps(setup, s, calls[0]);
      RunConsistent(setup, Step(setup, s, calls[0]), calls[1..]);
    }
  }
}
