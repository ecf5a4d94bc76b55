/** Expiry at read time answers like expiry at the instant it is due. */
module LazyExpiry {
  import opened PyValues
  import opened Identity
  import opened FieldPaths
  import opened Events
  import opened Entities
  import Compat
  import Listings
  import Overrides

  /* The eager store: the same calls, and between them a full sweep at every instant of the clock. */

  ghost function SomeOrder(ids: set<string>): (order: seq<string>)
    ensures forall id :: id in order <==> id in ids
  {
    if ids == {} then []
    else
      var id :| id in ids;
      [id] + SomeOrder(ids - {id})
  }

  ghost function Advance(db: EntityDb, start: int, end: int): EntityDb
    decreases end - start
  {
    if end <= start then db
    else
      var before := Advance(db, start, end - 1);
      Sweep(before, end, SomeOrder(before.rows.Keys))
  }

  datatype Reply = Entity(view: Option<Obj>) | Entities(list: seq<Obj>) | Silent

  /** A reply of the store to a call. */
  ghost predicate Answers(db: EntityDb, op: EntityOp, reply: Reply) {
    match op
    case Getting(id, now) => reply == Entity(View(db, id, now))
    case Listing(now, later, order) => reply.Entities? && Lists(Sweep(db, now, order), later, reply.list)
    case _ => reply == Silent
  }

  function Starts(op: EntityOp, clock: int): int {
    if op.Elsewhere? then clock else op.now
  }

  function Ends(op: EntityOp, clock: int): int {
    if op.Listing? then op.later else Starts(op, clock)
  }

  /** The clock never goes back. */
  predicate Timed(ops: seq<EntityOp>, clock: int)
    decreases |ops|
  {
    ops == [] || (clock <= Starts(ops[0], clock) <= Ends(ops[0], clock) && Timed(ops[1..], Ends(ops[0], clock)))
  }

  ghost predicate LazyTrace(cfg: Config, db: EntityDb, ops: seq<EntityOp>, replies: seq<Reply>)
    decreases |ops|
  {
    |replies| == |ops| &&
    (ops != [] ==>
       Answers(db, ops[0], replies[0]) && LazyTrace(cfg, Step(cfg, db, ops[0]), ops[1..], replies[1..]))
  }

  ghost function EagerStep(cfg: Config, db: EntityDb, clock: int, op: EntityOp): EntityDb {
    Advance(Step(cfg, Advance(db, clock, Starts(op, clock)), op), Starts(op, clock), Ends(op, clock))
  }

  /** The eager store's reply is read from a store that has swept every instant up to the reading. */
  ghost predicate EagerAnswers(cfg: Config, db: EntityDb, clock: int, op: EntityOp, reply: Reply) {
    match op
    case Getting(id, now) => reply == Entity(View(Advance(db, clock, now), id, now))
    case Listing(_, later, _) => reply.Entities? && Lists(EagerStep(cfg, db, clock, op), later, reply.list)
    case _ => reply == Silent
  }

  ghost predicate EagerTrace(cfg: Config, db: EntityDb, clock: int, ops: seq<EntityOp>, replies: seq<Reply>)
    decreases |ops|
  {
    |replies| == |ops| &&
    (ops != [] ==>
       EagerAnswers(cfg, db, clock, ops[0], replies[0])
       && EagerTrace(cfg, EagerStep(cfg, db, clock, ops[0]), Ends(ops[0], clock), ops[1..], replies[1..]))
  }

  /** The override does not touch the liveness entries. */
  predicate KeepsLiveness(field: string) {
    "isLive" !in Spellings(PathOf(field)[0]) && "is_live" !in Spellings(PathOf(field)[0])
  }

  predicate AllKeepLiveness(ops: seq<EntityOp>) {
    forall op :: op in ops && (op.Overriding? || op.Removing?) ==> KeepsLiveness(op.field)
  }

  /* The relation between the two stores at one instant. */

  /** The payload a row shows once its expiry is taken into account. */
  function Settled(row: EntityRow, now: int): Obj {
    if Due(row, now) then Dead(row.payload) else row.payload
  }

  predicate Matches(lazy: EntityRow, eager: EntityRow, now: int) {
    eager.expiry == lazy.expiry && eager.live == (lazy.live && !Due(lazy, now)) && eager.payload == Settled(lazy, now)
  }

  predicate Bounded(db: EntityDb) {
    forall id :: id in db.rows ==> db.rows[id].sequence <= |db.log|
  }

  predicate Related(lazy: EntityDb, eager: EntityDb, now: int) {
    lazy.rows.Keys == eager.rows.Keys && Bounded(lazy) && Bounded(eager) &&
    (forall id :: id in lazy.rows ==> Matches(lazy.rows[id], eager.rows[id], now)) &&
    forall a, b :: a in lazy.rows && b in lazy.rows && eager.rows[a].live && eager.rows[b].live ==>
      (lazy.rows[a].sequence < lazy.rows[b].sequence <==> eager.rows[a].sequence < eager.rows[b].sequence)
  }

  /** What a sweep does to each row. */
  lemma {:induction false} SweepEffect(db: EntityDb, now: int, order: seq<string>)
    requires Bounded(db)
    ensures var next := Sweep(db, now, order);
            && next.rows.Keys == db.rows.Keys && Bounded(next)
            && forall id :: id in db.rows ==>
                 var row, row' := db.rows[id], next.rows[id];
                 if id in order && Due(row, now)
                 then !row'.live && row'.expiry == row.expiry && row'.payload == Dead(row.payload)
                 else row' == row
    decreases |order|
  {
    hide Dead;
    if order == [] {
    } else {
      var next := ExpireOne(db, order[0], now);
      assert next.rows.Keys == db.rows.Keys;
      SweepEffect(next, now, order[1..]);
    }
  }

  /** A sweep of the lazy store, of any rows, changes nothing that the eager store shows. */
  lemma LazySweep(lazy: EntityDb, eager: EntityDb, now: int, order: seq<string>)
    requires Related(lazy, eager, now)
    ensures Related(Sweep(lazy, now, order), eager, now)
  {
    SweepEffect(lazy, now, order);
    hide Sweep, Dead;
  }

  /** A sweep of the eager store finds nothing to do. */
  lemma EagerSweep(lazy: EntityDb, eager: EntityDb, now: int, order: seq<string>)
    requires Related(lazy, eager, now)
    ensures Related(lazy, Sweep(eager, now, order), now)
    ensures Sweep(eager, now, order).rows == eager.rows
  {
    SweepEffect(eager, now, order);
    hide Sweep, Dead;
    assert Sweep(eager, now, order).rows == eager.rows;
  }

  /** The sweep at the next instant expires in the eager store what became due in the lazy one. */
  lemma EagerInstant(lazy: EntityDb, eager: EntityDb, now: int, order: seq<string>)
    requires Related(lazy, eager, now - 1) && forall id :: id in eager.rows ==> id in order
    ensures Related(lazy, Sweep(eager, now, order), now)
  {
    SweepEffect(eager, now, order);
    var next := Sweep(eager, now, order);
    forall id | id in lazy.rows ensures Matches(lazy.rows[id], next.rows[id], now) {
      assert Matches(lazy.rows[id], eager.rows[id], now - 1);
      RowInstant(lazy.rows[id], eager.rows[id], next.rows[id], now);
    }
    hide Sweep, Dead, Matches, Due;
    forall id | id in eager.rows && next.rows[id].live ensures next.rows[id] == eager.rows[id] {
    }
  }

  /** What a row becomes at an instant. */
  lemma RowInstant(lazy: EntityRow, eager: EntityRow, next: EntityRow, now: int)
    requires Matches(lazy, eager, now - 1)
    requires if Due(eager, now) then !next.live && next.expiry == eager.expiry && next.payload == Dead(eager.payload)
             else next == eager
    ensures Matches(lazy, next, now)
  {
    hide Dead;
  }

  lemma {:induction false} AdvanceRelated(lazy: EntityDb, eager: EntityDb, start: int, end: int)
    requires Related(lazy, eager, start) && start <= end
    ensures Related(lazy, Advance(eager, start, end), end)
    decreases end - start
  {
    hide Sweep, Related;
    if start == end {
    } else {
      AdvanceRelated(lazy, eager, start, end - 1);
      var before := Advance(eager, start, end - 1);
      EagerInstant(lazy, before, end, SomeOrder(before.rows.Keys));
    }
  }

  /** A write of matching rows that are not due keeps the stores related: both become the latest. */
  lemma WriteRelated(lazy: EntityDb, eager: EntityDb, now: int, id: string, l: EntityRow, e: EntityRow, k: Kind,
      k': Kind)
    requires Related(lazy, eager, now) && Matches(l, e, now)
    ensures Related(Write(lazy, id, l, k, now), Write(eager, id, e, k', now), now)
  {
    hide Dead;
  }

  lemma DeadNested(p: Obj, key: string, path: seq<string>)
    requires key !in {"isLive", "is_live"} && path != []
    ensures NestedString(Dead(p), [key] + path) == NestedString(p, [key] + path)
  {
    assert Lookup(Dead(p), key) == Lookup(p, key);
    hide Dead, NestedString, Lookup;
    NestedBelow(Dead(p), key, path);
    NestedBelow(p, key, path);
  }

  lemma SourceTimeOfDead(rt: Runtime, p: Obj)
    ensures SourceTime(rt, Dead(p)) == SourceTime(rt, p)
  {
    hide Dead, FirstString, NestedString;
    DeadNested(p, "provenance", ["sourceUpdateTime"]);
    DeadNested(p, "provenance", ["source_update_time"]);
    DeadNested(p, "metadata", ["provenance", "sourceUpdateTime"]);
    DeadNested(p, "metadata", ["provenance", "source_update_time"]);
    assert ["provenance", "sourceUpdateTime"] == ["provenance"] + ["sourceUpdateTime"];
    assert ["provenance", "source_update_time"] == ["provenance"] + ["source_update_time"];
    assert ["metadata", "provenance", "sourceUpdateTime"] == ["metadata"] + ["provenance", "sourceUpdateTime"];
    assert ["metadata", "provenance", "source_update_time"] == ["metadata"] + ["provenance", "source_update_time"];
  }

  /** Both stores find the same updates stale. */
  lemma AcceptedAlike(cfg: Config, lazy: EntityDb, eager: EntityDb, a: Admitted, now: int)
    requires Related(lazy, eager, now)
    ensures Accepted(cfg, lazy, a) == Accepted(cfg, eager, a)
  {
    hide SourceTime, Dead;
    if a.id in lazy.rows {
      assert Matches(lazy.rows[a.id], eager.rows[a.id], now);
      SourceTimeOfDead(cfg.rt, lazy.rows[a.id].payload);
    }
  }

  function NewRow(db: EntityDb, a: Admitted, now: int): EntityRow {
    EntityRow(a.payload, a.live, if a.id in db.rows then db.rows[a.id].created else now, now, a.expiry, 0)
  }

  lemma PublishWrites(cfg: Config, db: EntityDb, payload: Obj, newId: string, now: int, a: Admitted)
    requires Admit(cfg, payload, newId, now) == Some(a)
    ensures Publish(cfg, db, payload, newId, now) ==
            if Accepted(cfg, db, a) then Write(db, a.id, NewRow(db, a, now), PublishKind(db, a), now) else db
  {
    hide Admit, Accepted, Write, PublishKind;
  }

  lemma NotDue(cfg: Config, payload: Obj, newId: string, now: int, a: Admitted)
    requires Admit(cfg, payload, newId, now) == Some(a)
    ensures a.live && a.expiry.Some? ==> a.expiry.value > now
  {
    hide EntityIdOf, ParseTime, IsLive, NoExpiry, SetDefault;
  }

  lemma PublishRelated(cfg: Config, lazy: EntityDb, eager: EntityDb, payload: Obj, newId: string, now: int)
    requires Related(lazy, eager, now)
    ensures Related(Publish(cfg, lazy, payload, newId, now), Publish(cfg, eager, payload, newId, now), now)
  {
    hide Admit, Accepted, Related, Write, PublishKind, Publish, Dead;
    var admitted := Admit(cfg, payload, newId, now);
    if admitted.Some? {
      var a := admitted.value;
      NotDue(cfg, payload, newId, now, a);
      AcceptedAlike(cfg, lazy, eager, a, now);
      PublishWrites(cfg, lazy, payload, newId, now, a);
      PublishWrites(cfg, eager, payload, newId, now, a);
      WriteRelated(lazy, eager, now, a.id, NewRow(lazy, a, now), NewRow(eager, a, now),
                   PublishKind(lazy, a), PublishKind(eager, a));
    } else {
      NothingPublished(cfg, lazy, payload, newId, now);
      NothingPublished(cfg, eager, payload, newId, now);
    }
  }

  lemma NothingPublished(cfg: Config, db: EntityDb, payload: Obj, newId: string, now: int)
    requires Admit(cfg, payload, newId, now) == None
    ensures Publish(cfg, db, payload, newId, now) == db
  {
    hide Admit;
  }

  /* Overrides away from the liveness entries commute with expiry. */

  lemma OtherKeyEntries(p: Obj, key: string, x: Json)
    requires key != Overrides.OVERRIDES && key != Overrides.INTERNAL
    ensures Overrides.OverridesOf(p[key := x]) == Overrides.OverridesOf(p)
    ensures Overrides.InternalOf(p[key := x]) == Overrides.InternalOf(p)
    ensures Overrides.BasesOf(p[key := x]) == Overrides.BasesOf(p)
  {
  }

  lemma OtherKeyCapture(p: Obj, field: string, key: string, x: Json)
    requires key !in Spellings(PathOf(field)[0]) && key != Overrides.OVERRIDES && key != Overrides.INTERNAL
    ensures var c := Overrides.CaptureBase(p, field);
            Overrides.CaptureBase(p[key := x], field) == if c.Some? then Some(c.value[key := x]) else None
  {
    hide Overrides.OverridesOf, Overrides.InternalOf, Overrides.BasesOf, Read, PathOf, Overrides.BaseJson;
    OtherKeyEntries(p, key, x);
    OtherKeyRead(p, PathOf(field), key, x);
    if Overrides.BasesOf(p).Some? {
      var saved := Overrides.BasesOf(p).value[field := Overrides.BaseJson(Read(p, PathOf(field)))];
      var i := JObj(Overrides.InternalOf(p)[Overrides.BASES := JObj(saved)]);
      assert p[key := x][Overrides.INTERNAL := i] == p[Overrides.INTERNAL := i][key := x];
    }
  }

  lemma OtherKeyOverride(p: Obj, field: string, v: Json, key: string, x: Json)
    requires key !in Spellings(PathOf(field)[0]) && key != Overrides.OVERRIDES && key != Overrides.INTERNAL
    ensures var q := Overrides.OverrideField(p, field, v);
            Overrides.OverrideField(p[key := x], field, v) == if q.Some? then Some(q.value[key := x]) else None
  {
    hide PathOf, Set, Overrides.CaptureBase, Overrides.OverrideValue, Overrides.OverridesOf;
    OtherKeyEntries(p, key, x);
    OtherKeyCapture(p, field, key, x);
    var c := Overrides.CaptureBase(p, field);
    if c.Some? && Overrides.OverridesOf(p).Some? {
      var value := Overrides.OverrideValue(field, v);
      var o := JObj(Overrides.OverridesOf(p).value[field := value]);
      assert c.value[key := x][Overrides.OVERRIDES := o] == c.value[Overrides.OVERRIDES := o][key := x];
      OtherKeySet(c.value[Overrides.OVERRIDES := o], PathOf(field), key, x, value);
    }
  }

  lemma OtherKeyStore(p: Obj, internal: Obj, rest: Obj, key: string, x: Json)
    requires key != Overrides.INTERNAL
    ensures Overrides.StoreBases(p[key := x], internal, rest) == Overrides.StoreBases(p, internal, rest)[key := x]
  {
    assert p[key := x] - {Overrides.INTERNAL} == (p - {Overrides.INTERNAL})[key := x];
  }

  lemma OtherKeyPutBack(p: Obj, path: Path, base: Json, key: string, x: Json)
    requires |path| > 0 && key !in Spellings(path[0])
    ensures var q := Overrides.PutBack(p, path, base);
            Overrides.PutBack(p[key := x], path, base) == if q.Some? then Some(q.value[key := x]) else None
  {
    OtherKeyDelete(p, path, key, x);
    if base.JObj? {
      OtherKeySet(p, path, key, x, Lookup(base.fields, "value"));
    }
    hide Set, Delete;
  }

  lemma OtherKeyRemove(p: Obj, field: string, key: string, x: Json)
    requires key !in Spellings(PathOf(field)[0]) && key != Overrides.OVERRIDES && key != Overrides.INTERNAL
    ensures var q := Overrides.RemoveOverride(p, field);
            Overrides.RemoveOverride(p[key := x], field) == if q.Some? then Some(q.value[key := x]) else None
  {
    var path, p' := PathOf(field), p[key := x];
    assert Overrides.OverridesOf(p') == Overrides.OverridesOf(p);
    if Overrides.OverridesOf(p).Some? {
      var o := JObj(Overrides.OverridesOf(p).value - {field});
      var r, r' := p[Overrides.OVERRIDES := o], p'[Overrides.OVERRIDES := o];
      assert r' == r[key := x];
      assert Overrides.InternalOf(r') == Overrides.InternalOf(r) && Overrides.BasesOf(r') == Overrides.BasesOf(r);
      hide PathOf, Overrides.OverridesOf, Overrides.InternalOf, Overrides.BasesOf, Overrides.PutBack,
        Overrides.StoreBases;
      if Overrides.BasesOf(r).Some? {
        var base, rest := Lookup(Overrides.BasesOf(r).value, field), Overrides.BasesOf(r).value - {field};
        OtherKeyPutBack(r, path, base, key, x);
        var q := Overrides.PutBack(r, path, base);
        if q.Some? {
          OtherKeyStore(q.value, Overrides.InternalOf(r), rest, key, x);
        }
      }
    }
  }

  lemma OverrideOfDead(p: Obj, field: string, v: Json)
    requires KeepsLiveness(field)
    ensures var q, r := Overrides.OverrideField(p, field, v), Overrides.RemoveOverride(p, field);
            && Overrides.OverrideField(Dead(p), field, v) == (if q.Some? then Some(Dead(q.value)) else None)
            && Overrides.RemoveOverride(Dead(p), field) == (if r.Some? then Some(Dead(r.value)) else None)
  {
    assert "isLive" != Overrides.OVERRIDES && "isLive" != Overrides.INTERNAL;
    assert "is_live" != Overrides.OVERRIDES && "is_live" != Overrides.INTERNAL;
    hide Overrides.OverrideField, Overrides.RemoveOverride, PathOf;
    var half := p["isLive" := JBool(false)];
    OtherKeyOverride(p, field, v, "isLive", JBool(false));
    OtherKeyOverride(half, field, v, "is_live", JBool(false));
    OtherKeyRemove(p, field, "isLive", JBool(false));
    OtherKeyRemove(half, field, "is_live", JBool(false));
  }

  lemma RewriteRelated(lazy: EntityDb, eager: EntityDb, now: int, id: string, p: Obj)
    requires Related(lazy, eager, now) && id in lazy.rows
    ensures var l := lazy.rows[id];
            var q := if Due(l, now) then Dead(p) else p;
            Related(Write(lazy, id, l.(payload := p, updated := now), Update, now),
                    Write(eager, id, eager.rows[id].(payload := q, updated := now), Update, now), now)
  {
    hide Dead, Write;
    var l, e := lazy.rows[id], eager.rows[id];
    var q := if Due(l, now) then Dead(p) else p;
    assert Matches(l, e, now);
    WriteRelated(lazy, eager, now, id, l.(payload := p, updated := now), e.(payload := q, updated := now),
                 Update, Update);
  }

  lemma OverrideRelated(lazy: EntityDb, eager: EntityDb, id: string, field: string, v: Json, now: int)
    requires KeepsLiveness(field) && Related(lazy, eager, now)
    ensures Related(Override(lazy, id, field, v, now), Override(eager, id, field, v, now), now)
    ensures Related(Unoverride(lazy, id, field, now), Unoverride(eager, id, field, now), now)
  {
    hide Overrides.OverrideField, Overrides.RemoveOverride, KeepsLiveness, Dead, Write;
    if id in lazy.rows {
      var l := lazy.rows[id];
      assert Matches(l, eager.rows[id], now);
      OverrideOfDead(l.payload, field, v);
      var p, q := Overrides.OverrideField(l.payload, field, v), Overrides.RemoveOverride(l.payload, field);
      if p.Some? {
        RewriteRelated(lazy, eager, now, id, p.value);
      }
      if q.Some? {
        RewriteRelated(lazy, eager, now, id, q.value);
      }
      hide Related;
    }
  }

  lemma StepRelated(cfg: Config, lazy: EntityDb, eager: EntityDb, now: int, op: EntityOp)
    requires Related(lazy, eager, now) && now == Starts(op, now)
    requires op.Overriding? || op.Removing? ==> KeepsLiveness(op.field)
    ensures Related(Step(cfg, lazy, op), Step(cfg, eager, op), now)
  {
    match op
    case Publishing(payload, newId, _) =>
      hide Publish, Related;
      PublishRelated(cfg, lazy, eager, payload, newId, now);
    case Getting(id, _) =>
      hide Sweep, Related;
      EagerSweep(lazy, eager, now, [id]);
      LazySweep(lazy, Sweep(eager, now, [id]), now, [id]);
    case Listing(_, _, order) =>
      hide Sweep, Related;
      EagerSweep(lazy, eager, now, order);
      LazySweep(lazy, Sweep(eager, now, order), now, order);
    case Polling(_, order) =>
      hide Sweep, Related;
      EagerSweep(lazy, eager, now, order);
      LazySweep(lazy, Sweep(eager, now, order), now, order);
    case Overriding(id, field, value, _) =>
      hide Related, Override;
      OverrideRelated(lazy, eager, id, field, value, now);
    case Removing(id, field, _) =>
      hide Related, Unoverride;
      OverrideRelated(lazy, eager, id, field, JNull, now);
    case Elsewhere(event) =>
  }

  /** The two tables order and show the live entities alike. */
  lemma ListingsAlike(lazy: EntityDb, eager: EntityDb, now: int)
    requires Related(lazy, eager, now)
    ensures ShownIds(lazy, now) == ShownIds(eager, now)
    ensures Listings.Alike(ViewOf(lazy.rows), ViewOf(eager.rows), ShownIds(lazy, now))
    ensures Listings.Alike(ViewOf(eager.rows), ViewOf(lazy.rows), ShownIds(lazy, now))
  {
    hide Compat.Public, Dead;
    forall id | id in lazy.rows
      ensures Shown(lazy.rows[id], now) <==> Shown(eager.rows[id], now)
      ensures Shown(lazy.rows[id], now) ==> eager.rows[id].live && lazy.rows[id].payload == eager.rows[id].payload
    {
      assert Matches(lazy.rows[id], eager.rows[id], now);
    }
    hide Matches, Shown;
    assert ShownIds(lazy, now) == ShownIds(eager, now);
  }

  lemma ListsTransfer(lazy: EntityDb, eager: EntityDb, now: int, reply: seq<Obj>)
    requires Related(lazy, eager, now)
    ensures Lists(lazy, now, reply) <==> Lists(eager, now, reply)
  {
    hide Related, ViewOf, ShownIds, Listings.Alike, Listings.Lists;
    ListingsAlike(lazy, eager, now);
    var selected := ShownIds(lazy, now);
    if Lists(lazy, now, reply) {
      Listings.ListsTransfer(ViewOf(lazy.rows), ViewOf(eager.rows), selected, reply);
    }
    if Lists(eager, now, reply) {
      Listings.ListsTransfer(ViewOf(eager.rows), ViewOf(lazy.rows), selected, reply);
    }
  }

  lemma ListsAlike(lazy: EntityDb, eager: EntityDb, now: int, a: seq<Obj>, b: seq<Obj>)
    requires Related(lazy, eager, now) && Lists(lazy, now, a) && Lists(eager, now, b)
    ensures a == b
  {
    ListsTransfer(lazy, eager, now, b);
    Listings.OneReply(ViewOf(lazy.rows), ShownIds(lazy, now), a, b);
  }

  lemma ViewsAlike(lazy: EntityDb, eager: EntityDb, now: int, id: string)
    requires Related(lazy, eager, now)
    ensures View(lazy, id, now) == View(eager, id, now)
  {
    SweepEffect(lazy, now, [id]);
    SweepEffect(eager, now, [id]);
    hide Sweep, Dead, Compat.Public;
    if id in lazy.rows {
      assert Matches(lazy.rows[id], eager.rows[id], now);
    }
  }

  /** For every run under a clock that never goes back, with overrides away from liveness, `get` and `list_live`
      reply as a store that expires every entity at its instant. The sweeps of the lazy store may take the rows in
      any order, and may even miss some. */
  lemma {:induction false} LazyRefinesEager(
      cfg: Config, lazy: EntityDb, eager: EntityDb, clock: int, ops: seq<EntityOp>, a: seq<Reply>, b: seq<Reply>)
    requires Related(lazy, eager, clock) && Timed(ops, clock) && AllKeepLiveness(ops)
    requires LazyTrace(cfg, lazy, ops, a) && EagerTrace(cfg, eager, clock, ops, b)
    ensures a == b
    decreases |ops|
  {
    hide Related, Advance, Sweep, Step, View, Lists, KeepsLiveness;
    if ops == [] {
    } else {
      var op, now, end := ops[0], Starts(ops[0], clock), Ends(ops[0], clock);
      var ready := Advance(eager, clock, now);
      AdvanceRelated(lazy, eager, clock, now);
      StepRelated(cfg, lazy, ready, now, op);
      AdvanceRelated(Step(cfg, lazy, op), Step(cfg, ready, op), now, end);
      assert a[0] == b[0] by {
        SameReply(cfg, lazy, eager, clock, op, a[0], b[0]);
      }
      LazyRefinesEager(cfg, Step(cfg, lazy, op), EagerStep(cfg, eager, clock, op), end, ops[1..], a[1..], b[1..]);
      assert a == [a[0]] + a[1..] && b == [b[0]] + b[1..];
    }
  }

  lemma SameReply(
      cfg: Config, lazy: EntityDb, eager: EntityDb, clock: int, op: EntityOp, a: Reply, b: Reply)
    requires clock <= Starts(op, clock) <= Ends(op, clock)
    requires Related(lazy, Advance(eager, clock, Starts(op, clock)), Starts(op, clock))
    requires Related(Step(cfg, lazy, op), EagerStep(cfg, eager, clock, op), Ends(op, clock))
    requires Answers(lazy, op, a) && EagerAnswers(cfg, eager, clock, op, b)
    ensures a == b
  {
    hide Related, Advance, Sweep, View, Lists, EagerStep;
    match op
    case Getting(id, now) => ViewsAlike(lazy, Advance(eager, clock, now), now, id);
    case Listing(now, later, order) =>
      ListsAlike(Step(cfg, lazy, op), EagerStep(cfg, eager, clock, op), later, a.list, b.list);
    case _ =>
  }

  lemma ReplyTransfers(cfg: Config, lazy: EntityDb, eager: EntityDb, clock: int, op: EntityOp, reply: Reply)
    requires clock <= Starts(op, clock) <= Ends(op, clock)
    requires Related(lazy, Advance(eager, clock, Starts(op, clock)), Starts(op, clock))
    requires Related(Step(cfg, lazy, op), EagerStep(cfg, eager, clock, op), Ends(op, clock))
    ensures Answers(lazy, op, reply) <==> EagerAnswers(cfg, eager, clock, op, reply)
  {
    hide Related, Advance, Sweep, View, Lists, EagerStep;
    match op
    case Getting(id, now) => ViewsAlike(lazy, Advance(eager, clock, now), now, id);
    case Listing(now, later, order) =>
      if reply.Entities? {
        ListsTransfer(Step(cfg, lazy, op), EagerStep(cfg, eager, clock, op), later, reply.list);
      }
    case _ =>
  }

  /** The two stores can give exactly the same replies: whatever one of them answers over a run, so can the other. */
  lemma {:induction false} SameTraces(
      cfg: Config, lazy: EntityDb, eager: EntityDb, clock: int, ops: seq<EntityOp>, replies: seq<Reply>)
    requires Related(lazy, eager, clock) && Timed(ops, clock) && AllKeepLiveness(ops)
    ensures LazyTrace(cfg, lazy, ops, replies) <==> EagerTrace(cfg, eager, clock, ops, replies)
    decreases |ops|
  {
    hide Related, Advance, Sweep, Step, View, Lists, KeepsLiveness;
    if ops == [] {
    } else {
      var op, now, end := ops[0], Starts(ops[0], clock), Ends(ops[0], clock);
      var ready := Advance(eager, clock, now);
      AdvanceRelated(lazy, eager, clock, now);
      StepRelated(cfg, lazy, ready, now, op);
      AdvanceRelated(Step(cfg, lazy, op), Step(cfg, ready, op), now, end);
      if |replies| == |ops| {
        ReplyTransfers(cfg, lazy, eager, clock, op, replies[0]);
        SameTraces(cfg, Step(cfg, lazy, op), EagerStep(cfg, eager, clock, op), end, ops[1..], replies[1..]);
      }
    }
  }

  /** The eager store after a run, and the clock by then. */
  ghost function EagerRun(cfg: Config, db: EntityDb, clock: int, ops: seq<EntityOp>): EntityDb
    decreases |ops|
  {
    if ops == [] then db
    else EagerRun(cfg, EagerStep(cfg, db, clock, ops[0]), Ends(ops[0], clock), ops[1..])
  }

  function ClockAfter(ops: seq<EntityOp>, clock: int): int
    decreases |ops|
  {
    if ops == [] then clock else ClockAfter(ops[1..], Ends(ops[0], clock))
  }

  /** The two stores are related after every run. */
  lemma {:induction false} RunRelated(cfg: Config, lazy: EntityDb, eager: EntityDb, clock: int, ops: seq<EntityOp>)
    requires Related(lazy, eager, clock) && Timed(ops, clock) && AllKeepLiveness(ops)
    ensures Related(Run(cfg, lazy, ops), EagerRun(cfg, eager, clock, ops), ClockAfter(ops, clock))
    decreases |ops|
  {
    hide Related, Advance, Step, KeepsLiveness;
    if ops == [] {
    } else {
      var op, now, end := ops[0], Starts(ops[0], clock), Ends(ops[0], clock);
      var ready := Advance(eager, clock, now);
      AdvanceRelated(lazy, eager, clock, now);
      StepRelated(cfg, lazy, ready, now, op);
      AdvanceRelated(Step(cfg, lazy, op), Step(cfg, ready, op), now, end);
      RunRelated(cfg, Step(cfg, lazy, op), EagerStep(cfg, eager, clock, op), end, ops[1..]);
    }
  }

  lemma NothingRelated(clock: int)
    ensures Related(EntityDb([], map[]), EntityDb([], map[]), clock)
  {
  }

  /** From the empty store on: the replies are the same, and there is only one sequence of them. */
  lemma LazyRefinesEagerFromStart(cfg: Config, clock: int, ops: seq<EntityOp>, a: seq<Reply>, b: seq<Reply>)
    requires Timed(ops, clock) && AllKeepLiveness(ops)
    ensures LazyTrace(cfg, EntityDb([], map[]), ops, a) <==> EagerTrace(cfg, EntityDb([], map[]), clock, ops, a)
    ensures LazyTrace(cfg, EntityDb([], map[]), ops, a) && EagerTrace(cfg, EntityDb([], map[]), clock, ops, b) ==>
        a == b
  {
    hide LazyTrace, EagerTrace, Related, Timed, AllKeepLiveness;
    var none := EntityDb([], map[]);
    NothingRelated(clock);
    SameTraces(cfg, none, none, clock, ops, a);
    if LazyTrace(cfg, none, ops, a) && EagerTrace(cfg, none, clock, ops, b) {
      LazyRefinesEager(cfg, none, none, clock, ops, a, b);
    }
  }
}
