/** What `list_live` lists, said through what `get` shows: exactly the entities `get` would show live at that instant,
    in the order of their last events. */
module LiveListings {
  import opened PyValues
  import opened Events
  import opened Entities
  import opened EntityRuns
  import Compat
  import Convergence
  import Listings
  import Publishing

  /** A `get` at `now` finds the entity live. */
  predicate GetsLive(db: EntityDb, id: string, now: int) {
    var rows := Sweep(db, now, [id]).rows;
    id in rows && rows[id].live
  }

  /** No later event is about the same entity. */
  predicate LastOfEntity(log: Log, i: nat)
    requires i < |log|
  {
    log[i].stream.EntityStream? &&
    forall j :: i < j < |log| ==> !EntityEventOf(log[j], log[i].subject)
  }

  /** The entry of a listing made from event `i`: the event is its entity's last, a `get` finds that entity live, and
      the entry is what this `get` replies and what the event carries, in public. */
  predicate Entry(db: EntityDb, now: int, i: nat, shown: Obj) {
    i < |db.log| && LastOfEntity(db.log, i) && GetsLive(db, db.log[i].subject, now) &&
    View(db, db.log[i].subject, now) == Some(shown) &&
    db.log[i].body.EntityBody? && shown == Compat.Public(db.log[i].body.entity)
  }

  /** The listing is made from these events, in their order, and every entity that a `get` finds live is in it. */
  predicate MadeFrom(db: EntityDb, now: int, at: seq<nat>, reply: seq<Obj>) {
    |at| == |reply| &&
    (forall k :: 0 <= k < |at| ==> Entry(db, now, at[k], reply[k])) &&
    (forall j, k :: 0 <= j < k < |at| ==> at[j] < at[k])
  }

  predicate HasEntity(db: EntityDb, at: seq<nat>, id: string) {
    exists k :: 0 <= k < |at| && at[k] < |db.log| && db.log[at[k]].subject == id
  }

  ghost predicate ListsLive(db: EntityDb, now: int, reply: seq<Obj>) {
    exists at :: MadeFrom(db, now, at, reply) && forall id :: GetsLive(db, id, now) ==> HasEntity(db, at, id)
  }

  /** A row is selected exactly when a `get` finds its entity live. */
  lemma ShownIsLive(db: EntityDb, id: string, now: int)
    ensures id in ShownIds(db, now) <==> GetsLive(db, id, now)
    ensures id in ShownIds(db, now) ==> View(db, id, now) == Some(Compat.Public(db.rows[id].payload))
  {
    hide Compat.Public, Dead;
    assert Sweep(db, now, [id]) == ExpireOne(db, id, now) by {
      SweepOnlyOne(db, now, [id], id);
    }
  }

  function Positions(rows: map<string, EntityRow>, out: seq<string>): seq<nat>
    requires forall id :: id in out ==> id in rows && rows[id].sequence > 0
  {
    seq(|out|, k requires 0 <= k < |out| => rows[out[k]].sequence - 1)
  }

  lemma {:induction false} ShownAt(view: Listings.View, out: seq<string>, k: nat)
    requires (forall id :: id in out ==> id in view) && k < |out|
    ensures |Listings.Shown(view, out)| == |out| && Listings.Shown(view, out)[k] == view[out[k]].shown
  {
    if k == 0 {
      ShownLength(view, out);
    } else {
      ShownAt(view, out[1..], k - 1);
    }
  }

  lemma {:induction false} ShownLength(view: Listings.View, out: seq<string>)
    requires forall id :: id in out ==> id in view
    ensures |Listings.Shown(view, out)| == |out|
  {
    if out == [] {
    } else {
      ShownLength(view, out[1..]);
    }
  }

  /** The event a row repeats. */
  lemma RowEvent(db: EntityDb, id: string)
    requires Consistent(db) && id in db.rows
    ensures 0 < db.rows[id].sequence <= |db.log|
    ensures var i := db.rows[id].sequence - 1;
            db.log[i].subject == id && db.log[i].body == EntityBody(db.rows[id].payload) && LastOfEntity(db.log, i)
  {
    TableMeaning(db, id);
    hide Consistent;
  }

  /** The last event of an entity is the one its row repeats. */
  lemma EventRow(db: EntityDb, i: nat)
    requires Consistent(db) && i < |db.log| && LastOfEntity(db.log, i)
    ensures db.log[i].subject in db.rows && db.rows[db.log[i].subject].sequence == i + 1
  {
    var id := db.log[i].subject;
    TableMeaning(db, id);
    hide Consistent;
    assert EntityEventOf(db.log[i], id);
    if id in db.rows {
      RowEvent(db, id);
    }
  }

  lemma ListedEntry(db: EntityDb, now: int, id: string)
    requires Consistent(db) && id in ShownIds(db, now)
    ensures 0 < db.rows[id].sequence <= |db.log|
    ensures Entry(db, now, db.rows[id].sequence - 1, Compat.Public(db.rows[id].payload))
    ensures db.log[db.rows[id].sequence - 1].subject == id
  {
    hide Consistent, Compat.Public, Sweep, LastOfEntity, Shown;
    RowEvent(db, id);
    ShownIsLive(db, id, now);
  }

  lemma OrderedIsMade(db: EntityDb, now: int, out: seq<string>)
    requires Consistent(db) && Listings.InOrder(ViewOf(db.rows), ShownIds(db, now), out)
    ensures ListsLive(db, now, Listings.Shown(ViewOf(db.rows), out))
  {
    hide Consistent, Compat.Public, Entry, GetsLive, ShownIds, Listings.Shown;
    var view := ViewOf(db.rows);
    var reply := Listings.Shown(view, out);
    ShownLength(view, out);
    forall id | id in out
      ensures id in ShownIds(db, now) && 0 < db.rows[id].sequence <= |db.log|
      ensures db.log[db.rows[id].sequence - 1].subject == id
      ensures Entry(db, now, db.rows[id].sequence - 1, view[id].shown)
    {
      assert id in Listings.Members(out);
      ListedEntry(db, now, id);
    }
    var at := Positions(db.rows, out);
    forall k | 0 <= k < |at| ensures Entry(db, now, at[k], reply[k]) {
      ShownAt(view, out, k);
    }
    assert MadeFrom(db, now, at, reply) by {
      forall j, k | 0 <= j < k < |at| ensures at[j] < at[k] {
        assert view[out[j]].sequence < view[out[k]].sequence;
      }
    }
    forall id | GetsLive(db, id, now) ensures HasEntity(db, at, id) {
      ShownIsLive(db, id, now);
      assert id in Listings.Members(out);
      var k :| 0 <= k < |out| && out[k] == id;
      assert db.log[at[k]].subject == id;
    }
  }

  function SubjectsAt(log: Log, at: seq<nat>): seq<string>
    requires forall k :: 0 <= k < |at| ==> at[k] < |log|
  {
    seq(|at|, k requires 0 <= k < |at| => log[at[k]].subject)
  }

  lemma EntryRow(db: EntityDb, now: int, i: nat, shown: Obj)
    requires Consistent(db) && Entry(db, now, i, shown)
    ensures var id := db.log[i].subject;
            && id in ShownIds(db, now) && id in db.rows && db.rows[id].sequence == i + 1
            && ViewOf(db.rows)[id].shown == shown
  {
    hide Consistent, Compat.Public, GetsLive, ShownIds, LastOfEntity, View;
    EventRow(db, i);
    ShownIsLive(db, db.log[i].subject, now);
  }

  lemma {:induction false} SameShown(view: Listings.View, out: seq<string>, reply: seq<Obj>)
    requires |out| == |reply| && forall k :: 0 <= k < |out| ==> out[k] in view && view[out[k]].shown == reply[k]
    ensures (forall id :: id in out ==> id in view) && Listings.Shown(view, out) == reply
  {
    if out == [] {
    } else {
      SameShown(view, out[1..], reply[1..]);
      assert reply == [reply[0]] + reply[1..];
    }
  }

  lemma MadeIsOrdered(db: EntityDb, now: int, at: seq<nat>, reply: seq<Obj>)
    requires Consistent(db) && MadeFrom(db, now, at, reply)
    requires forall id :: GetsLive(db, id, now) ==> HasEntity(db, at, id)
    ensures Lists(db, now, reply)
  {
    hide Consistent, Compat.Public, Entry, GetsLive, ShownIds;
    var view := ViewOf(db.rows);
    forall k | 0 <= k < |at|
      ensures at[k] < |db.log| && db.log[at[k]].subject in ShownIds(db, now) && db.log[at[k]].subject in view
      ensures view[db.log[at[k]].subject] == Listings.Entry(at[k] + 1, reply[k])
    {
      assert Entry(db, now, at[k], reply[k]);
      assert at[k] < |db.log| by {
        EntryInLog(db, now, at[k], reply[k]);
      }
      EntryRow(db, now, at[k], reply[k]);
    }
    var out := SubjectsAt(db.log, at);
    SameShown(view, out, reply);
    forall id | id in ShownIds(db, now) ensures id in out {
      ShownIsLive(db, id, now);
      var k :| 0 <= k < |at| && at[k] < |db.log| && db.log[at[k]].subject == id;
      assert out[k] == id;
    }
    assert Listings.Members(out) == ShownIds(db, now);
    assert Listings.InOrder(view, ShownIds(db, now), out);
  }

  lemma EntryInLog(db: EntityDb, now: int, i: nat, shown: Obj)
    requires Entry(db, now, i, shown)
    ensures i < |db.log|
  {
  }

  /** In every consistent state the query lists exactly the entities that a `get` at that instant would find live,
      each once, as that `get` shows it, in the order of their last events. */
  lemma ListsWhatGetShows(db: EntityDb, now: int, reply: seq<Obj>)
    requires Consistent(db)
    ensures Lists(db, now, reply) <==> ListsLive(db, now, reply)
  {
    hide Consistent, MadeFrom, GetsLive, HasEntity, ShownIds, ViewOf, Listings.Shown, Listings.Members;
    if Lists(db, now, reply) {
      var out :| Listings.InOrder(ViewOf(db.rows), ShownIds(db, now), out)
                 && reply == Listings.Shown(ViewOf(db.rows), out);
      OrderedIsMade(db, now, out);
    }
    if ListsLive(db, now, reply) {
      var at :| MadeFrom(db, now, at, reply) && forall id :: GetsLive(db, id, now) ==> HasEntity(db, at, id);
      MadeIsOrdered(db, now, at, reply);
    }
  }

  /** So it does after every run from the empty store. */
  lemma RunsListWhatGetShows(cfg: Config, ops: seq<EntityOp>, later: int, reply: seq<Obj>)
    ensures var db := Run(cfg, EMPTY, ops); Lists(db, later, reply) <==> ListsLive(db, later, reply)
  {
    hide Consistent, Run, Lists, ListsLive;
    EmptyConsistent();
    RunConsistent(cfg, EMPTY, ops);
    ListsWhatGetShows(Run(cfg, EMPTY, ops), later, reply);
  }

  /** What a sweep makes of a live row whose expiry is over: the row is dead, both liveness entries of its payload say
      so and all others are kept, and a DELETED event with that payload is logged. It leaves any other row alone. */
  lemma SweptRow(db: EntityDb, id: string, now: int, key: string)
    requires id in db.rows
    ensures var next, row := Sweep(db, now, [id]), db.rows[id];
            if row.live && row.expiry.Some? && row.expiry.value <= now then
              && id in next.rows
              && var swept := next.rows[id];
                 && swept == EntityRow(swept.payload, false, row.created, now, row.expiry, |db.log| + 1)
                 && Lookup(swept.payload, "isLive") == JBool(false) && Lookup(swept.payload, "is_live") == JBool(false)
                 && (key !in {"isLive", "is_live"} ==>
                       (key in swept.payload <==> key in row.payload)
                       && Lookup(swept.payload, key) == Lookup(row.payload, key))
                 && next.log == AddEvent(db.log, EntityStream, id, Deleted, now, EntityBody(swept.payload))
            else next == db
  {
    SweepOnlyOne(db, now, [id], id);
  }

  /* How long a published entity is listed. */

  /** The entity has this expiry, and is as live as it was published unless that expiry is over by `later`. */
  predicate Lasts(db: EntityDb, id: string, live: bool, expiry: Option<int>, later: int) {
    id in db.rows && db.rows[id].expiry == expiry && (db.rows[id].live ==> live) &&
    (live && !db.rows[id].live ==> expiry.Some? && expiry.value <= later)
  }

  lemma {:induction false} SweepLasts(
      db: EntityDb, now: int, order: seq<string>, id: string, live: bool, expiry: Option<int>, later: int)
    requires Lasts(db, id, live, expiry, later) && now <= later
    ensures Lasts(Sweep(db, now, order), id, live, expiry, later)
    decreases |order|
  {
    hide Dead;
    if order == [] {
    } else {
      SweepLasts(ExpireOne(db, order[0], now), now, order[1..], id, live, expiry, later);
    }
  }

  /** The call reads the clock no later than `later`. */
  predicate By(op: EntityOp, later: int) {
    op.Elsewhere? || op.now <= later
  }

  lemma StepLasts(cfg: Config, db: EntityDb, op: EntityOp, id: string, live: bool, expiry: Option<int>, later: int)
    requires Lasts(db, id, live, expiry, later) && By(op, later) && Convergence.Arrivals(cfg, [op], id) == []
    ensures Lasts(Step(cfg, db, op), id, live, expiry, later)
  {
    match op
    case Publishing(payload, newId, now) =>
      Convergence.OneArrival(cfg, op, id);
      Convergence.PublishElsewhere(cfg, db, payload, newId, now, id);
      hide Publish, Convergence.Arrivals;
    case Getting(i, now) =>
      hide Sweep;
      SweepLasts(db, now, [i], id, live, expiry, later);
    case Listing(now, _, order) =>
      hide Sweep;
      SweepLasts(db, now, order, id, live, expiry, later);
    case Polling(now, order) =>
      hide Sweep;
      SweepLasts(db, now, order, id, live, expiry, later);
    case _ =>
      hide Sweep, Publish, Convergence.Arrivals;
  }

  lemma {:induction false} RunLasts(
      cfg: Config, db: EntityDb, ops: seq<EntityOp>, id: string, live: bool, expiry: Option<int>, later: int)
    requires Lasts(db, id, live, expiry, later) && Convergence.Arrivals(cfg, ops, id) == []
    requires forall op :: op in ops ==> By(op, later)
    ensures Lasts(Run(cfg, db, ops), id, live, expiry, later)
    decreases |ops|
  {
    hide Step, Lasts, Convergence.Arrivals;
    if ops == [] {
    } else {
      assert ops == [ops[0]] + ops[1..];
      Convergence.ArrivalsFirst(cfg, ops[0], ops[1..], id);
      StepLasts(cfg, db, ops[0], id, live, expiry, later);
      RunLasts(cfg, Step(cfg, db, ops[0]), ops[1..], id, live, expiry, later);
    }
  }

  lemma LastsIsLive(db: EntityDb, id: string, live: bool, expiry: Option<int>, later: int)
    requires Lasts(db, id, live, expiry, later)
    ensures GetsLive(db, id, later) <==> live && (expiry.Some? ==> later < expiry.value)
  {
    hide Dead;
    SweepOnlyOne(db, later, [id], id);
  }

  lemma PublishLasts(cfg: Config, db: EntityDb, payload: Obj, newId: string, now: int, a: Admitted, later: int)
    requires Admit(cfg, payload, newId, now) == Some(a) && Accepted(cfg, db, a)
    ensures Lasts(Publish(cfg, db, payload, newId, now), a.id, a.live, a.expiry, later)
  {
    hide Admit, Accepted, PublishKind;
  }

  /** An accepted publish is found live, and so listed, exactly as long as its expiry time is in the future, when its
      payload does not say otherwise. Until it is published again no other call shortens or lengthens this. */
  lemma LiveUntilExpiry(
      cfg: Config, db: EntityDb, payload: Obj, newId: string, now: int, a: Admitted, ops: seq<EntityOp>, later: int)
    requires Admit(cfg, payload, newId, now) == Some(a) && Accepted(cfg, db, a)
    requires Convergence.Arrivals(cfg, ops, a.id) == [] && forall op :: op in ops ==> By(op, later)
    ensures var expiry := Publishing.ExpiryOf(cfg.rt, payload);
            GetsLive(Run(cfg, Publish(cfg, db, payload, newId, now), ops), a.id, later)
            <==> IsLive(payload) && (expiry.Some? ==> later < expiry.value)
  {
    hide Admit, Accepted, Run, Publish, IsLive, GetsLive, Lasts, Publishing.ExpiryOf;
    Publishing.AdmitMeaning(cfg, payload, newId, now, "");
    var stored := Publish(cfg, db, payload, newId, now);
    PublishLasts(cfg, db, payload, newId, now, a, later);
    RunLasts(cfg, stored, ops, a.id, a.live, a.expiry, later);
    LastsIsLive(Run(cfg, stored, ops), a.id, a.live, a.expiry, later);
  }
}
