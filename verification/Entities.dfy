/** The entity table: publish, expiry, overrides and the queries, as steps on the table and the log. */
module Entities {
  import opened PyValues
  import opened Identity
  import opened Events
  import Compat
  import Listings
  import Overrides

  datatype EntityRow = EntityRow(
    payload: Obj, live: bool, created: int, updated: int, expiry: Option<int>, sequence: nat)

  datatype EntityDb = EntityDb(log: Log, rows: map<string, EntityRow>)

  datatype Config = Config(rt: Runtime, allowGenerated: bool, enforceSourceTime: bool)

  /** 30 days in microseconds, the resolution of the server's clock. */
  const THIRTY_DAYS: int := 30 * 86400 * 1000000

  /** A publish that passed its checks. */
  datatype Admitted = Admitted(id: string, payload: Obj, live: bool, expiry: Option<int>)

  function IsLive(payload: Obj): bool {
    var explicit := if "isLive" in payload then payload["isLive"] else Lookup(payload, "is_live");
    if explicit.JNull? then true else Truthy(explicit)
  }

  function NoExpiry(payload: Obj): bool {
    Truthy(if "noExpiry" in payload then payload["noExpiry"] else Lookup(payload, "no_expiry"))
  }

  /** The checks of a publish, and the payload it stores; None says it raises. `newId` is the id made up for a
      payload without one. */
  function Admit(cfg: Config, payload: Obj, newId: string, now: int): Option<Admitted> {
    var named := EntityIdOf(payload);
    if named.None? && !cfg.allowGenerated then None
    else
      var id := if named.Some? then named.value else newId;
      var p := SetDefault(SetDefault(payload, "entityId", JStr(id)), "entity_id", JStr(id));
      var expiry := ParseTime(cfg.rt, Or(Lookup(p, "expiryTime"), Lookup(p, "expiry_time")));
      var live := IsLive(p);
      if expiry.Some? && expiry.value <= now && live then None
      else if expiry.Some? && expiry.value > now + THIRTY_DAYS && !NoExpiry(p) then None
      else Some(Admitted(id, SetDefault(p["isLive" := JBool(live)], "is_live", JBool(live)), live, expiry))
  }

  /** An update whose source time is not later than the stored one. */
  predicate Stale(cfg: Config, incoming: Obj, existing: Obj) {
    cfg.enforceSourceTime &&
    var new', was := SourceTime(cfg.rt, incoming), SourceTime(cfg.rt, existing);
    new'.Some? && was.Some? && new'.value <= was.value
  }

  /** Stores a row and logs its payload; the row's sequence is the id of that event. */
  function Write(db: EntityDb, id: string, row: EntityRow, kind: Kind, now: int): EntityDb {
    EntityDb(
      AddEvent(db.log, EntityStream, id, kind, now, EntityBody(row.payload)),
      db.rows[id := row.(sequence := |db.log| + 1)])
  }

  predicate Accepted(cfg: Config, db: EntityDb, a: Admitted) {
    !(a.id in db.rows && Stale(cfg, a.payload, db.rows[a.id].payload))
  }

  function PublishKind(db: EntityDb, a: Admitted): Kind {
    if a.id !in db.rows then if a.live then Create else Deleted
    else if db.rows[a.id].live && !a.live then Deleted
    else Update
  }

  function Publish(cfg: Config, db: EntityDb, payload: Obj, newId: string, now: int): EntityDb {
    var admitted := Admit(cfg, payload, newId, now);
    if admitted.None? || !Accepted(cfg, db, admitted.value) then db
    else
      var a := admitted.value;
      var created := if a.id in db.rows then db.rows[a.id].created else now;
      Write(db, a.id, EntityRow(a.payload, a.live, created, now, a.expiry, 0), PublishKind(db, a), now)
  }

  function Dead(payload: Obj): Obj {
    payload["isLive" := JBool(false)]["is_live" := JBool(false)]
  }

  predicate Due(row: EntityRow, now: int) {
    row.live && row.expiry.Some? && row.expiry.value <= now
  }

  /** The call sweeps nothing while the row is due. */
  predicate Spares(op: EntityOp, row: EntityRow) {
    op.Getting? || op.Listing? || op.Polling? ==> !Due(row, op.now)
  }

  function Expired(row: EntityRow, now: int): EntityRow {
    row.(payload := Dead(row.payload), live := false, updated := now)
  }

  function ExpireOne(db: EntityDb, id: string, now: int): EntityDb {
    if id in db.rows && Due(db.rows[id], now)
    then Write(db, id, Expired(db.rows[id], now), Deleted, now)
    else db
  }

  /** The expiry sweep over the rows in the order the database returns them. */
  function Sweep(db: EntityDb, now: int, order: seq<string>): EntityDb
    decreases |order|
  {
    if order == [] then db else Sweep(ExpireOne(db, order[0], now), now, order[1..])
  }

  /** `get` sweeps the one row it asks for. */
  function View(db: EntityDb, id: string, now: int): Option<Obj> {
    var rows := Sweep(db, now, [id]).rows;
    if id in rows then Some(Compat.Public(rows[id].payload)) else None
  }

  /** The rows `list_live` selects. */
  predicate Shown(row: EntityRow, now: int) {
    row.live && (row.expiry.Some? ==> row.expiry.value > now)
  }

  function ShownIds(db: EntityDb, now: int): set<string> {
    set id | id in db.rows && Shown(db.rows[id], now)
  }

  /** The table as a query sees it. */
  function ViewOf(rows: map<string, EntityRow>): Listings.View {
    map id | id in rows :: Listings.Entry(rows[id].sequence, Compat.Public(rows[id].payload))
  }

  /** What `list_live` may return at `now`, after its sweep. */
  ghost predicate Lists(db: EntityDb, now: int, reply: seq<Obj>) {
    Listings.Lists(ViewOf(db.rows), ShownIds(db, now), reply)
  }

  function Override(db: EntityDb, id: string, field: string, value: Json, now: int): EntityDb {
    if id !in db.rows then db
    else
      var p := Overrides.OverrideField(db.rows[id].payload, field, value);
      if p.None? then db else Write(db, id, db.rows[id].(payload := p.value, updated := now), Update, now)
  }

  function Unoverride(db: EntityDb, id: string, field: string, now: int): EntityDb {
    if id !in db.rows then db
    else
      var p := Overrides.RemoveOverride(db.rows[id].payload, field);
      if p.None? then db else Write(db, id, db.rows[id].(payload := p.value, updated := now), Update, now)
  }

  /** One call. `order` is the order in which the database returns the rows of a sweep, `later` the clock read
      after it, and `Elsewhere` an event of another store. */
  datatype EntityOp =
    | Publishing(payload: Obj, newId: string, now: int)
    | Getting(id: string, now: int)
    | Listing(now: int, later: int, order: seq<string>)
    | Polling(now: int, order: seq<string>)
    | Overriding(id: string, field: string, value: Json, now: int)
    | Removing(id: string, field: string, now: int)
    | Elsewhere(event: Event)

  function Step(cfg: Config, db: EntityDb, op: EntityOp): EntityDb {
    match op
    case Publishing(payload, newId, now) => Publish(cfg, db, payload, newId, now)
    case Getting(id, now) => Sweep(db, now, [id])
    case Listing(now, _, order) => Sweep(db, now, order)
    case Polling(now, order) => Sweep(db, now, order)
    case Overriding(id, field, value, now) => Override(db, id, field, value, now)
    case Removing(id, field, now) => Unoverride(db, id, field, now)
    case Elsewhere(event) =>
      if event.stream.EntityStream? then db else db.(log := db.log + [event.(id := |db.log| + 1)])
  }

  function Run(cfg: Config, db: EntityDb, ops: seq<EntityOp>): EntityDb
    decreases |ops|
  {
    if ops == [] then db else Run(cfg, Step(cfg, db, ops[0]), ops[1..])
  }

  lemma {:induction false} SweepPush(db: EntityDb, now: int, order: seq<string>, id: string)
    ensures Sweep(db, now, order + [id]) == ExpireOne(Sweep(db, now, order), id, now)
    decreases |order|
  {
    hide ExpireOne;
    if order == [] {
      assert ([] + [id])[1..] == [];
    } else {
      assert (order + [id])[1..] == order[1..] + [id];
      SweepPush(ExpireOne(db, order[0], now), now, order[1..], id);
    }
  }

  /** Sweeping one entity again changes nothing. */
  lemma {:induction false} SweepOnlyOne(db: EntityDb, now: int, order: seq<string>, id: string)
    requires forall x :: x in order ==> x == id
    ensures Sweep(db, now, order) == if order == [] then db else ExpireOne(db, id, now)
    decreases |order|
  {
    hide Dead;
    if order == [] {
    } else {
      assert order[0] in order && forall x :: x in order[1..] ==> x in order;
      SweepOnlyOne(ExpireOne(db, id, now), now, order[1..], id);
    }
  }

  /* Every change of the table is a write, so what writes keep, runs keep. */

  /** Row writes, one after the other, and events of other stores. */
  datatype Change = Wrote(id: string, row: EntityRow, kind: Kind, now: int) | Foreign(event: Event)

  function Change1(db: EntityDb, c: Change): EntityDb {
    match c
    case Wrote(id, row, kind, now) => Write(db, id, row, kind, now)
    case Foreign(event) => db.(log := db.log + [event.(id := |db.log| + 1)])
  }

  function Changed(db: EntityDb, changes: seq<Change>): EntityDb
    decreases |changes|
  {
    if changes == [] then db else Changed(Change1(db, changes[0]), changes[1..])
  }

  /** The kind of event a change of a row asks for: CREATE from absent to live, DELETED from absent or live to
      not live, UPDATE for the rest. */
  function KindFor(db: EntityDb, id: string, row: EntityRow): Kind {
    if id !in db.rows && row.live then Create
    else if (id !in db.rows || db.rows[id].live) && !row.live then Deleted
    else Update
  }

  predicate Proper(db: EntityDb, c: Change) {
    match c
    case Wrote(id, row, kind, _) => kind == KindFor(db, id, row)
    case Foreign(event) => !event.stream.EntityStream?
  }

  predicate AllProper(db: EntityDb, changes: seq<Change>)
    decreases |changes|
  {
    changes == [] || (Proper(db, changes[0]) && AllProper(Change1(db, changes[0]), changes[1..]))
  }

  lemma {:induction false} SweepChanges(db: EntityDb, now: int, order: seq<string>) returns (changes: seq<Change>)
    ensures AllProper(db, changes) && Changed(db, changes) == Sweep(db, now, order)
    decreases |order|
  {
    if order == [] {
      changes := [];
    } else {
      var next := ExpireOne(db, order[0], now);
      changes := SweepChanges(next, now, order[1..]);
      if next != db {
        var c := Wrote(order[0], Expired(db.rows[order[0]], now), Deleted, now);
        assert ([c] + changes)[1..] == changes && Change1(db, c) == next;
        changes := [c] + changes;
      }
    }
  }

  lemma StepChanges(cfg: Config, db: EntityDb, op: EntityOp) returns (changes: seq<Change>)
    ensures AllProper(db, changes) && Changed(db, changes) == Step(cfg, db, op)
  {
    match op
    case Getting(id, now) => changes := SweepChanges(db, now, [id]);
    case Listing(now, _, order) => changes := SweepChanges(db, now, order);
    case Polling(now, order) => changes := SweepChanges(db, now, order);
    case _ =>
      var next := Step(cfg, db, op);
      if next == db {
        changes := [];
      } else {
        var c := WriteChange(cfg, db, op);
        changes := [c];
        assert changes[1..] == [];
      }
  }

  lemma WriteChange(cfg: Config, db: EntityDb, op: EntityOp) returns (c: Change)
    requires Step(cfg, db, op) != db && !op.Getting? && !op.Listing? && !op.Polling?
    ensures Proper(db, c) && Change1(db, c) == Step(cfg, db, op)
  {
    hide Overrides.OverrideField, Overrides.RemoveOverride, Admit, Accepted;
    match op
    case Publishing(payload, newId, now) =>
      var a := Admit(cfg, payload, newId, now).value;
      var created := if a.id in db.rows then db.rows[a.id].created else now;
      c := Wrote(a.id, EntityRow(a.payload, a.live, created, now, a.expiry, 0), PublishKind(db, a), now);
    case Overriding(id, field, value, now) =>
      var p := Overrides.OverrideField(db.rows[id].payload, field, value).value;
      c := Wrote(id, db.rows[id].(payload := p, updated := now), Update, now);
    case Removing(id, field, now) =>
      var p := Overrides.RemoveOverride(db.rows[id].payload, field).value;
      c := Wrote(id, db.rows[id].(payload := p, updated := now), Update, now);
    case Elsewhere(event) =>
      c := Foreign(event);
  }
}
