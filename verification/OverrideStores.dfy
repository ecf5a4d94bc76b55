/** Overrides in the entity store: among any other calls, an entity's payload goes through the overrides and removals
    that name it, in order. */
module OverrideStores {
  import opened PyValues
  import opened Entities
  import opened FieldPaths
  import opened OverrideRuns
  import Overrides
  import Convergence
  import Publishing

  /** The overrides and removals of one entity in a run. */
  function CommandsOf(ops: seq<EntityOp>, id: string): seq<Command> {
    if ops == [] then [] else CommandOf(ops[0], id) + CommandsOf(ops[1..], id)
  }

  function CommandOf(op: EntityOp, id: string): seq<Command> {
    match op
    case Overriding(i, field, value, _) => if i == id then [Put(field, value)] else []
    case Removing(i, field, _) => if i == id then [Drop(field)] else []
    case _ => []
  }

  /** The entity is stored with this payload, as live as it was and with the expiry it had. */
  predicate Stands(db: EntityDb, id: string, was: EntityRow, payload: Obj) {
    id in db.rows && db.rows[id].live == was.live && db.rows[id].expiry == was.expiry && db.rows[id].payload == payload
  }

  lemma StepPlays(cfg: Config, db: EntityDb, op: EntityOp, id: string, was: EntityRow, payload: Obj)
    requires Stands(db, id, was, payload) && Convergence.Arrivals(cfg, [op], id) == [] && Spares(op, was)
    requires Play(payload, CommandOf(op, id)).Some?
    ensures Stands(Step(cfg, db, op), id, was, Play(payload, CommandOf(op, id)).value)
  {
    hide Overrides.OverrideField, Overrides.RemoveOverride, Convergence.Arrivals;
    if CommandOf(op, id) == [] {
      Convergence.OtherStep(cfg, db, op, id);
      hide Step;
    } else {
      assert CommandOf(op, id)[1..] == [];
    }
  }

  lemma NoArrivals(cfg: Config, ops: seq<EntityOp>, id: string)
    requires ops != [] && Convergence.Arrivals(cfg, ops, id) == []
    ensures Convergence.Arrivals(cfg, [ops[0]], id) == [] && Convergence.Arrivals(cfg, ops[1..], id) == []
  {
    assert ops == [ops[0]] + ops[1..];
    Convergence.ArrivalsFirst(cfg, ops[0], ops[1..], id);
    hide Convergence.Arrivals;
  }

  /** The run does not publish the entity, and sweeps nothing while the entity is due. */
  predicate Keeps(cfg: Config, ops: seq<EntityOp>, id: string, row: EntityRow) {
    Convergence.Arrivals(cfg, ops, id) == [] && forall op :: op in ops ==> Spares(op, row)
  }

  /** As long as the entity is neither published again nor swept away, its payload is what its overrides and removals
      make of it. */
  lemma {:induction false} RunPlays(
      cfg: Config, db: EntityDb, ops: seq<EntityOp>, id: string, was: EntityRow, payload: Obj)
    requires Stands(db, id, was, payload) && Keeps(cfg, ops, id, was)
    requires Play(payload, CommandsOf(ops, id)).Some?
    ensures Stands(Run(cfg, db, ops), id, was, Play(payload, CommandsOf(ops, id)).value)
    decreases |ops|
  {
    hide Step, Stands, Convergence.Arrivals, Apply, Spares;
    if ops == [] {
      assert Play(payload, []) == Some(payload);
    } else {
      NoArrivals(cfg, ops, id);
      PlayConcat(payload, CommandOf(ops[0], id), CommandsOf(ops[1..], id));
      hide Play, CommandOf;
      StepPlays(cfg, db, ops[0], id, was, payload);
      RunPlays(cfg, Step(cfg, db, ops[0]), ops[1..], id, was, Play(payload, CommandOf(ops[0], id)).value);
    }
  }

  /** Overrides of independent fields in any order and with repeats, then one removal of each, give the stored
      payload back, whatever other calls come in between. */
  lemma StoreRestored(cfg: Config, db: EntityDb, ops: seq<EntityOp>, id: string, puts: seq<Command>, order: seq<string>)
    requires id in db.rows && Keeps(cfg, ops, id, db.rows[id])
    requires CommandsOf(ops, id) == puts + Drops(order)
    requires (forall c :: c in puts ==> c.Put?) && puts != [] && Orders(order, FieldsNamed(puts))
    requires FreeOn(db.rows[id].payload, FieldsNamed(puts))
    ensures Stands(Run(cfg, db, ops), id, db.rows[id], Overrides.Normal(db.rows[id].payload))
  {
    hide Keeps, Play, FreeOn, Run, CommandsOf;
    var row := db.rows[id];
    OverridesAllRemoved(row.payload, puts, order);
    RunPlays(cfg, db, ops, id, row, row.payload);
  }

  /* A publish drops the saved bases with the rest of the old payload. */

  lemma {:induction false} RunConcat(cfg: Config, db: EntityDb, first: seq<EntityOp>, second: seq<EntityOp>)
    ensures Run(cfg, db, first + second) == Run(cfg, Run(cfg, db, first), second)
    decreases |first|
  {
    hide Step;
    if first == [] {
      assert first + second == second;
    } else {
      assert (first + second)[1..] == first[1..] + second;
      RunConcat(cfg, Step(cfg, db, first[0]), first[1..], second);
    }
  }

  lemma RunOne(cfg: Config, db: EntityDb, op: EntityOp)
    ensures Run(cfg, db, [op]) == Step(cfg, db, op)
  {
    hide Step;
    assert [op][1..] == [];
  }

  /** What is stored by a publish without override entries has none either. */
  lemma PublishedBare(cfg: Config, payload: Obj, newId: string, now: int, a: Admitted, field: string)
    requires Admit(cfg, payload, newId, now) == Some(a)
    requires Overrides.INTERNAL !in payload && Overrides.OverridesOf(payload).Some?
    ensures Overrides.NoBase(a.payload, field)
    ensures Overrides.OverridesOf(a.payload) == Overrides.OverridesOf(payload)
  {
    hide Admit;
    Publishing.AdmitMeaning(cfg, payload, newId, now, Overrides.INTERNAL);
    Publishing.AdmitMeaning(cfg, payload, newId, now, Overrides.OVERRIDES);
    assert Lookup(a.payload, Overrides.INTERNAL) == JNull;
    assert AsDict(JNull) == Some(map[]);
  }

  lemma PublishStands(cfg: Config, db: EntityDb, payload: Obj, newId: string, now: int, a: Admitted)
    requires Admit(cfg, payload, newId, now) == Some(a) && Accepted(cfg, db, a)
    ensures var next := Step(cfg, db, Publishing(payload, newId, now));
            && a.id in next.rows && next.rows[a.id].payload == a.payload
            && next.rows[a.id].live == a.live && next.rows[a.id].expiry == a.expiry
  {
    hide Admit, Accepted, PublishKind;
  }

  /** Once an entity is published (with a payload that carries no internal entry), whatever was overridden in the
      state before, a removal finds no base: it deletes the field that was published instead of restoring anything,
      leaves every independent field as it was published, and takes the field out of `overrides`. */
  lemma PublishForgetsBase(
      cfg: Config, db: EntityDb, payload: Obj, newId: string, now: int, a: Admitted, between: seq<EntityOp>,
      field: string, later: int, other: string)
    requires Admit(cfg, payload, newId, now) == Some(a) && Accepted(cfg, db, a)
    requires Overrides.INTERNAL !in payload && Overrides.OverridesOf(payload).Some? && Overrides.SafeField(field)
    requires var stored := Step(cfg, db, Publishing(payload, newId, now));
             a.id in stored.rows && Keeps(cfg, between, a.id, stored.rows[a.id]) && CommandsOf(between, a.id) == []
    ensures var last := Run(cfg, db, [Publishing(payload, newId, now)] + between + [Removing(a.id, field, later)]);
            && a.id in last.rows
            && var q, path, out := last.rows[a.id].payload, PathOf(field), PathOf(other);
               && (Read(q, path) == None <==> LoneLeaf(a.payload, path))
               && (Overrides.SafeField(other) && Independent(path, out) ==> Read(q, out) == Read(a.payload, out))
               && Overrides.OverridesOf(q) == Some(Overrides.OverridesOf(payload).value - {field})
  {
    hide Admit, Accepted, Step, Run, Keeps, PathOf, Read, LoneLeaf, Independent, Overrides.RemoveOverride,
         Overrides.SafeField, Overrides.OverridesOf, Overrides.NoBase, CommandsOf;
    var publish, remove := Publishing(payload, newId, now), Removing(a.id, field, later);
    var stored := Step(cfg, db, publish);
    var kept := Run(cfg, stored, between);
    RunConcat(cfg, db, [publish] + between, [remove]);
    RunConcat(cfg, db, [publish], between);
    RunOne(cfg, db, publish);
    RunOne(cfg, kept, remove);
    PublishStands(cfg, db, payload, newId, now, a);
    StandsThrough(cfg, stored, between, a.id, a.payload);
    PublishedBare(cfg, payload, newId, now, a, field);
    Overrides.RemovedWithoutBase(a.payload, field, other);
    RemoveStep(cfg, kept, a.id, field, later);
  }

  lemma StandsThrough(cfg: Config, db: EntityDb, ops: seq<EntityOp>, id: string, payload: Obj)
    requires id in db.rows && db.rows[id].payload == payload && Keeps(cfg, ops, id, db.rows[id])
    requires CommandsOf(ops, id) == []
    ensures id in Run(cfg, db, ops).rows && Run(cfg, db, ops).rows[id].payload == payload
  {
    hide Keeps, Run, CommandsOf;
    assert Play(payload, []) == Some(payload);
    RunPlays(cfg, db, ops, id, db.rows[id], payload);
  }

  lemma RemoveStep(cfg: Config, db: EntityDb, id: string, field: string, now: int)
    requires id in db.rows && Overrides.RemoveOverride(db.rows[id].payload, field).Some?
    ensures var next := Step(cfg, db, Removing(id, field, now));
            id in next.rows && next.rows[id].payload == Overrides.RemoveOverride(db.rows[id].payload, field).value
  {
    hide Overrides.RemoveOverride;
  }

  /** So overriding a field, publishing the entity with that field, and removing the override loses the field. */
  lemma OverridePublishRemove(
      cfg: Config, db: EntityDb, id: string, field: string, value: Json, now: int, payload: Obj, newId: string,
      a: Admitted)
    requires id in db.rows && Admit(cfg, payload, newId, now) == Some(a) && a.id == id
    requires Accepted(cfg, Override(db, id, field, value, now), a)
    requires Overrides.INTERNAL !in payload && Overrides.OVERRIDES !in payload && Overrides.SafeField(field)
    ensures var last := Run(cfg, db, [Overriding(id, field, value, now), Publishing(payload, newId, now),
                                      Removing(id, field, now)]);
            && id in last.rows
            && (Read(last.rows[id].payload, PathOf(field)) == None <==> LoneLeaf(a.payload, PathOf(field)))
            && Overrides.OverridesOf(last.rows[id].payload) == Some(map[])
  {
    hide Admit, Accepted, Run, Override, PathOf, Read, LoneLeaf, Overrides.SafeField;
    var first := Overriding(id, field, value, now);
    var rest := [Publishing(payload, newId, now), Removing(id, field, now)];
    var db' := Step(cfg, db, first);
    RunConcat(cfg, db, [first], rest);
    RunOne(cfg, db, first);
    PublishStands(cfg, db', payload, newId, now, a);
    assert Convergence.Arrivals(cfg, [], id) == [];
    assert Overrides.OverridesOf(payload) == Some(map[]);
    PublishForgetsBase(cfg, db', payload, newId, now, a, [], field, now, field);
    assert [first] + rest == [first, rest[0], rest[1]];
    assert [rest[0]] + [] + [rest[1]] == rest;
  }
}
