/** The entity store over the shared database. */
module EntityStores {
  import opened PyValues
  import opened Identity
  import opened Events
  import opened Entities
  import opened Databases
  import opened FieldPaths
  import opened Overrides
  import Compat
  import Listings
  import LiveListings
  import EntityRuns

  /** A refused payload raises, and so does a stale one over a stored `_compat` entry that is no object. */
  datatype PublishReply = Refused | Raised | Returned(payload: Obj)

  datatype OverrideReply = Missing | Failed | Updated(view: Obj)

  const COMPAT := "_compat"

  /** A stored payload with the note that a stale update was ignored; None says that its own entry is no object. */
  function Noted(row: EntityRow): Option<Obj> {
    var entry := if COMPAT in row.payload then row.payload[COMPAT] else JObj(map[]);
    if !entry.JObj? then None
    else
      var note := entry.fields["ignoredStaleUpdate" := JBool(true)]["sequence" := JInt(row.sequence)];
      Some(row.payload[COMPAT := JObj(note)])
  }

  /** The note of an event on a returned payload. */
  function Logged(payload: Obj, sequence: nat, kind: Kind): Obj {
    payload[COMPAT := JObj(map["sequence" := JInt(sequence), "eventType" := JStr(KindName(kind))])]
  }

  /** What a publish answers. */
  function PublishReplyOf(cfg: Config, db: EntityDb, payload: Obj, newId: string, now: int): PublishReply {
    var a := Admit(cfg, payload, newId, now);
    if a.None? then Refused
    else if !Accepted(cfg, db, a.value) then
      var noted := Noted(db.rows[a.value.id]);
      if noted.None? then Raised else Returned(noted.value)
    else Returned(Logged(a.value.payload, |db.log| + 1, PublishKind(db, a.value)))
  }

  function OverrideReplyOf(db: EntityDb, id: string, p: Option<Obj>): OverrideReply {
    if id !in db.rows then Missing else if p.None? then Failed else Updated(Compat.Public(p.value))
  }

  /** The entity is one of those a sweep is asked for; none means all. */
  predicate Asked(ids: seq<string>, id: string) {
    ids == [] || id in ids
  }

  function DueIds(rows: map<string, EntityRow>, ids: seq<string>, now: int): set<string> {
    set id | id in rows && Due(rows[id], now) && Asked(ids, id)
  }

  /** Rows of a consistent table have different sequences. */
  lemma SequencesDiffer(db: EntityDb)
    requires EntityRuns.Consistent(db)
    ensures Listings.Ranked(ViewOf(db.rows))
  {
    hide EntityRuns.Consistent, Compat.Public;
    forall a, b | a in db.rows && b in db.rows && db.rows[a].sequence == db.rows[b].sequence ensures a == b {
      EntityRuns.TableMeaning(db, a);
      EntityRuns.TableMeaning(db, b);
    }
  }

  class EntityStore {
    const database: Database
    const cfg: Config

    constructor (database: Database, cfg: Config)
      ensures this.database == database && this.cfg == cfg
    {
      this.database, this.cfg := database, cfg;
    }

    function State(): EntityDb
      reads database
    {
      EntityDb(database.events, database.entities)
    }

    method Save(id: string, row: EntityRow, kind: Kind, now: int) returns (sequence: nat)
      modifies database`events, database`entities
      ensures State() == Write(old(State()), id, row, kind, now)
      ensures sequence == |old(database.events)| + 1
    {
      sequence := database.AddEvent(EntityStream, id, kind, now, EntityBody(row.payload));
      database.entities := database.entities[id := row.(sequence := sequence)];
    }

    /** The checks of a publish and the payload it stores. */
    method Prepare(payload: Obj, newId: string, now: int) returns (admitted: Option<Admitted>)
      ensures admitted == Admit(cfg, payload, newId, now)
    {
      var named := EntityIdOf(payload);
      if named.None? && !cfg.allowGenerated {
        return None;
      }
      var id := if named.Some? then named.value else newId;
      var p := SetDefault(payload, "entityId", JStr(id));
      p := SetDefault(p, "entity_id", JStr(id));
      var expiry := ParseTime(cfg.rt, Or(Lookup(p, "expiryTime"), Lookup(p, "expiry_time")));
      var live := IsLive(p);
      if expiry.Some? && expiry.value <= now && live {
        return None;
      }
      if expiry.Some? && expiry.value > now + THIRTY_DAYS && !NoExpiry(p) {
        return None;
      }
      p := p["isLive" := JBool(live)];
      p := SetDefault(p, "is_live", JBool(live));
      return Some(Admitted(id, p, live, expiry));
    }

    method Publish(payload: Obj, newId: string, now: int) returns (reply: PublishReply)
      modifies database`events, database`entities
      ensures State() == Entities.Publish(cfg, old(State()), payload, newId, now)
      ensures reply == PublishReplyOf(cfg, old(State()), payload, newId, now)
    {
      hide Admit, Stale, Noted, Logged;
      var admitted := Prepare(payload, newId, now);
      if admitted.None? {
        return Refused;
      }
      var a := admitted.value;
      var kind, created := Update, now;
      if a.id in database.entities {
        var row := database.entities[a.id];
        if Stale(cfg, a.payload, row.payload) {
          var noted := Noted(row);
          return if noted.None? then Raised else Returned(noted.value);
        }
        kind := if row.live && !a.live then Deleted else Update;
        created := row.created;
      } else {
        kind := if a.live then Create else Deleted;
      }
      var sequence := Save(a.id, EntityRow(a.payload, a.live, created, now, a.expiry, 0), kind, now);
      return Returned(Logged(a.payload, sequence, kind));
    }

    /** Expires the rows that are due, of these entities or, given none, of all; `order` is the order in which the
        database returns them. */
    method ExpireDueEntities(ids: seq<string>, now: int) returns (ghost order: seq<string>)
      modifies database`events, database`entities
      ensures State() == Sweep(old(State()), now, order)
      ensures forall id :: id in order ==> Asked(ids, id)
      ensures forall id :: id in DueIds(old(database.entities), ids, now) ==> id in order
    {
      var remaining := set id | id in database.entities && database.entities[id].live
                                && database.entities[id].expiry.Some? && Asked(ids, id);
      order := [];
      while remaining != {}
        invariant State() == Sweep(old(State()), now, order)
        invariant forall id :: id in remaining ==> id in database.entities && id in old(database.entities)
                                                   && database.entities[id] == old(database.entities[id])
                                                   && database.entities[id].live && database.entities[id].expiry.Some?
                                                   && Asked(ids, id)
        invariant forall id :: id in order ==> Asked(ids, id)
        invariant forall id :: id in DueIds(old(database.entities), ids, now) ==> id in order || id in remaining
        decreases remaining
      {
        var id :| id in remaining;
        remaining := remaining - {id};
        var row := database.entities[id];
        SweepPush(old(State()), now, order, id);
        hide Sweep;
        order := order + [id];
        if row.expiry.value <= now {
          var payload := row.payload["isLive" := JBool(false)];
          payload := payload["is_live" := JBool(false)];
          var _ := Save(id, row.(payload := payload, live := false, updated := now), Deleted, now);
        }
      }
    }

    method Get(id: string, now: int) returns (view: Option<Obj>)
      modifies database`events, database`entities
      ensures State() == Sweep(old(State()), now, [id])
      ensures view == View(old(State()), id, now)
    {
      ghost var order := ExpireDueEntities([id], now);
      assert id in old(database.entities) && Due(old(database.entities[id]), now)
             ==> id in DueIds(old(database.entities), [id], now);
      SweepOnlyOne(old(State()), now, order, id);
      SweepOnlyOne(old(State()), now, [id], id);
      view := if id in database.entities then Some(Compat.Public(database.entities[id].payload)) else None;
    }

    /** The live rows at `now`, in order. */
    method SelectLive(now: int) returns (reply: seq<Obj>)
      requires Listings.Ranked(ViewOf(database.entities))
      ensures Lists(State(), now, reply)
      ensures EntityRuns.Consistent(State()) ==> LiveListings.ListsLive(State(), now, reply)
    {
      hide Shown, Compat.Public, Listings.Lists, Listings.Ranked, EntityRuns.Consistent, LiveListings.ListsLive;
      var rows := database.entities;
      var selected := set id | id in rows && Shown(rows[id], now);
      reply := Listings.List(ViewOf(rows), selected);
      assert selected == ShownIds(State(), now);
      if EntityRuns.Consistent(State()) {
        LiveListings.ListsWhatGetShows(State(), now, reply);
      }
    }

    /** `later` is the clock read after the sweep. */
    method ListLive(now: int, later: int) returns (reply: seq<Obj>, ghost order: seq<string>)
      requires EntityRuns.Consistent(State())
      modifies database`events, database`entities
      ensures State() == Sweep(old(State()), now, order)
      ensures forall id :: id in DueIds(old(database.entities), [], now) ==> id in order
      ensures Lists(State(), later, reply)
      ensures LiveListings.ListsLive(State(), later, reply)
    {
      hide EntityRuns.Consistent, Lists, LiveListings.ListsLive, Listings.Ranked;
      order := ExpireDueEntities([], now);
      EntityRuns.StepKeeps(cfg, old(State()), Listing(now, later, order));
      SequencesDiffer(State());
      hide Sweep;
      reply := SelectLive(later);
      LiveListings.ListsWhatGetShows(State(), later, reply);
    }

    method Poll(after: int, limit: int, now: int) returns (events: seq<Event>, ghost order: seq<string>)
      modifies database`events, database`entities
      ensures State() == Sweep(old(State()), now, order)
      ensures forall id :: id in DueIds(old(database.entities), [], now) ==> id in order
      ensures events == PollEvents(database.events, EntityStream, after, limit, AnySubject)
    {
      order := ExpireDueEntities([], now);
      events := PollEvents(database.events, EntityStream, after, limit, AnySubject);
    }

    static method CaptureOverrideBase(payload: Obj, field: string) returns (captured: Option<Obj>)
      ensures captured == CaptureBase(payload, field)
    {
      var bases := BasesOf(payload);
      if bases.None? {
        return None;
      }
      if field in bases.value {
        return Some(payload);
      }
      var found := HasFieldPath(payload, PathOf(field));
      var value := JNull;
      if found {
        value := GetFieldPath(payload, PathOf(field));
      }
      var base := JObj(map["exists" := JBool(found), "value" := value]);
      return Some(payload[INTERNAL := JObj(InternalOf(payload)[BASES := JObj(bases.value[field := base])])]);
    }

    static method ExtractOverrideValue(field: string, value: Json) returns (result: Json)
      ensures result == OverrideValue(field, value)
    {
      result := value;
      if value.JObj? {
        var resolved := GetFieldPath(value.fields, PathOf(field));
        if !resolved.JNull? {
          result := resolved;
        }
      }
    }

    method OverrideField(id: string, field: string, value: Json, now: int) returns (reply: OverrideReply)
      modifies database`events, database`entities
      ensures State() == Override(old(State()), id, field, value, now)
      ensures id in old(database.entities) ==>
                reply == OverrideReplyOf(old(State()), id,
                    Overrides.OverrideField(old(database.entities[id].payload), field, value))
      ensures id !in old(database.entities) ==> reply == Missing
    {
      if id !in database.entities {
        return Missing;
      }
      var row := database.entities[id];
      var overrides := OverridesOf(row.payload);
      if overrides.None? {
        return Failed;
      }
      var captured := CaptureOverrideBase(row.payload, field);
      if captured.None? {
        return Failed;
      }
      var v := ExtractOverrideValue(field, value);
      var payload := captured.value[OVERRIDES := JObj(overrides.value[field := v])];
      payload := SetFieldPath(payload, PathOf(field), v);
      hide Set, CaptureBase, OverridesOf, PathOf;
      var _ := Save(id, row.(payload := payload, updated := now), Update, now);
      return Updated(Compat.Public(payload));
    }

    static method RestoreOverrideBase(p: Obj, field: string) returns (result: Option<Obj>)
      ensures result == RestoreBase(p, field)
    {
      var internal, bases := InternalOf(p), BasesOf(p);
      if bases.None? {
        return None;
      }
      var base := Lookup(bases.value, field);
      var rest := bases.value - {field};
      var payload := p;
      if base.JNull? {
        payload := DeleteFieldPath(payload, PathOf(field));
      } else if !base.JObj? {
        return None;
      } else if Truthy(Lookup(base.fields, "exists")) {
        payload := SetFieldPath(payload, PathOf(field), Lookup(base.fields, "value"));
      } else {
        payload := DeleteFieldPath(payload, PathOf(field));
      }
      hide Set, Delete, PathOf, InternalOf, BasesOf;
      if rest != map[] {
        payload := payload[INTERNAL := JObj(internal[BASES := JObj(rest)])];
      } else {
        internal := internal - {BASES};
        payload := if internal != map[] then payload[INTERNAL := JObj(internal)] else payload - {INTERNAL};
      }
      return Some(payload);
    }

    method RemoveOverride(id: string, field: string, now: int) returns (reply: OverrideReply)
      modifies database`events, database`entities
      ensures State() == Unoverride(old(State()), id, field, now)
      ensures id in old(database.entities) ==>
                reply == OverrideReplyOf(old(State()), id,
                    Overrides.RemoveOverride(old(database.entities[id].payload), field))
      ensures id !in old(database.entities) ==> reply == Missing
    {
      if id !in database.entities {
        return Missing;
      }
      var row := database.entities[id];
      var overrides := OverridesOf(row.payload);
      if overrides.None? {
        return Failed;
      }
      var payload := row.payload[OVERRIDES := JObj(overrides.value - {field})];
      var restored := RestoreOverrideBase(payload, field);
      hide RestoreBase, OverridesOf;
      if restored.None? {
        return Failed;
      }
      var _ := Save(id, row.(payload := restored.value, updated := now), Update, now);
      return Updated(Compat.Public(restored.value));
    }
  }
}
