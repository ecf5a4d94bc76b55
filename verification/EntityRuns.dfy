/** What every run of the entity store keeps: the table is a replay of the log, and each entity's events form a
    proper history. */
module EntityRuns {
  import opened PyValues
  import opened Events
  import opened Entities

  /** What the log says about an entity. */
  datatype Snapshot = Snapshot(sequence: nat, payload: Obj)

  /** The table rebuilt from the log alone. */
  function Replay(log: Log): map<string, Snapshot> {
    if log == [] then map[]
    else
      var before, e := Replay(log[..|log| - 1]), log[|log| - 1];
      if e.stream.EntityStream? && e.body.EntityBody?
      then before[e.subject := Snapshot(e.id, e.body.entity)]
      else before
  }

  function Table(rows: map<string, EntityRow>): map<string, Snapshot> {
    map id | id in rows :: Snapshot(rows[id].sequence, rows[id].payload)
  }

  /** The kinds of an entity's events, in order. */
  function History(log: Log, id: string): seq<Kind> {
    if log == [] then []
    else
      var before, e := History(log[..|log| - 1], id), log[|log| - 1];
      if e.stream.EntityStream? && e.subject == id then before + [e.kind] else before
  }

  /** A history starts with CREATE or DELETED, has no CREATE later, and no two DELETED in a row; the last kind
      agrees with the row. */
  predicate ProperHistory(h: seq<Kind>, present: bool, live: bool) {
    (h == [] <==> !present) &&
    (h != [] ==> h[0] in {Create, Deleted}) &&
    (forall i :: 0 < i < |h| ==> h[i] in {Update, Deleted} && !(h[i - 1] == Deleted && h[i] == Deleted)) &&
    (h != [] ==> (h[|h| - 1] == Create ==> live) && (h[|h| - 1] == Deleted ==> !live))
  }

  /** Entity events carry entities. */
  predicate EntityBodies(log: Log) {
    forall i :: 0 <= i < |log| && log[i].stream.EntityStream? ==> log[i].body.EntityBody?
  }

  ghost predicate Consistent(db: EntityDb) {
    IdsOk(db.log) && EntityBodies(db.log) && Table(db.rows) == Replay(db.log) &&
    forall id :: ProperHistory(History(db.log, id), id in db.rows, id in db.rows && db.rows[id].live)
  }

  lemma PushEvent(log: Log, e: Event, id: string)
    ensures History(log + [e], id)
            == History(log, id) + if e.stream.EntityStream? && e.subject == id then [e.kind] else []
    ensures Replay(log + [e]) == if e.stream.EntityStream? && e.body.EntityBody?
                                 then Replay(log)[e.subject := Snapshot(e.id, e.body.entity)] else Replay(log)
  {
    assert (log + [e])[..|log|] == log;
  }

  lemma HistoryGrows(h: seq<Kind>, present: bool, live: bool, live': bool)
    requires ProperHistory(h, present, live)
    ensures var kind := if !present && live' then Create else if (!present || live) && !live' then Deleted else Update;
            ProperHistory(h + [kind], true, live')
  {
  }

  lemma TableUpdate(rows: map<string, EntityRow>, id: string, row: EntityRow)
    ensures Table(rows[id := row]) == Table(rows)[id := Snapshot(row.sequence, row.payload)]
  {
  }

  lemma TableGrows(db: EntityDb, c: Change)
    requires IdsOk(db.log) && EntityBodies(db.log) && Table(db.rows) == Replay(db.log) && Proper(db, c)
    ensures IdsOk(Change1(db, c).log) && EntityBodies(Change1(db, c).log)
    ensures Table(Change1(db, c).rows) == Replay(Change1(db, c).log)
  {
    hide Replay, Table, KindFor;
    var next := Change1(db, c);
    var e := next.log[|db.log|];
    assert next.log == db.log + [e];
    PushEvent(db.log, e, "");
    if c.Wrote? {
      TableUpdate(db.rows, c.id, c.row.(sequence := |db.log| + 1));
    }
  }

  lemma ChangeKeeps(db: EntityDb, c: Change)
    requires Consistent(db) && Proper(db, c)
    ensures Consistent(Change1(db, c))
  {
    var next := Change1(db, c);
    TableGrows(db, c);
    forall id ensures ProperHistory(History(next.log, id), id in next.rows, id in next.rows && next.rows[id].live) {
      PushEvent(db.log, next.log[|db.log|], id);
      var present, live := id in db.rows, id in db.rows && db.rows[id].live;
      assert ProperHistory(History(db.log, id), present, live);
      hide History, Replay, ProperHistory, Table;
      if c.Wrote? && c.id == id {
        HistoryGrows(History(db.log, id), present, live, c.row.live);
      }
    }
  }

  lemma {:induction false} ChangesKeep(db: EntityDb, changes: seq<Change>)
    requires Consistent(db) && AllProper(db, changes)
    ensures Consistent(Changed(db, changes))
    decreases |changes|
  {
    if changes == [] {
    } else {
      ChangeKeeps(db, changes[0]);
      ChangesKeep(Change1(db, changes[0]), changes[1..]);
    }
  }

  lemma StepKeeps(cfg: Config, db: EntityDb, op: EntityOp)
    requires Consistent(db)
    ensures Consistent(Step(cfg, db, op))
  {
    var changes := StepChanges(cfg, db, op);
    ChangesKeep(db, changes);
  }

  /** In every reachable state the table is the replay of the log, and every history is proper. */
  lemma {:induction false} RunConsistent(cfg: Config, db: EntityDb, ops: seq<EntityOp>)
    requires Consistent(db)
    ensures Consistent(Run(cfg, db, ops))
    decreases |ops|
  {
    if ops == [] {
    } else {
      StepKeeps(cfg, db, ops[0]);
      RunConsistent(cfg, Step(cfg, db, ops[0]), ops[1..]);
    }
  }

  const EMPTY := EntityDb([], map[])

  lemma EmptyConsistent()
    ensures Consistent(EMPTY)
  {
  }

  predicate EntityEventOf(e: Event, id: string) {
    e.stream.EntityStream? && e.subject == id
  }

  /** The last event of the entity, if it has one, is the one in the snapshot. */
  predicate LastEvent(log: Log, id: string, last: Option<Snapshot>) {
    if last.None? then forall i :: 0 <= i < |log| ==> !EntityEventOf(log[i], id)
    else
      0 < last.value.sequence <= |log| && EntityEventOf(log[last.value.sequence - 1], id) &&
      log[last.value.sequence - 1].body == EntityBody(last.value.payload) &&
      forall i :: last.value.sequence <= i < |log| ==> !EntityEventOf(log[i], id)
  }

  function Find(table: map<string, Snapshot>, id: string): Option<Snapshot> {
    if id in table then Some(table[id]) else None
  }

  lemma LastPushed(log: Log, e: Event, id: string, last: Option<Snapshot>)
    requires LastEvent(log, id, last) && e.id == |log| + 1 && (e.stream.EntityStream? ==> e.body.EntityBody?)
    ensures LastEvent(log + [e], id, if EntityEventOf(e, id) then Some(Snapshot(e.id, e.body.entity)) else last)
  {
  }

  lemma {:induction false} ReplayMeaning(log: Log, id: string)
    requires IdsOk(log) && EntityBodies(log)
    ensures LastEvent(log, id, Find(Replay(log), id))
  {
    if log == [] {
    } else {
      var front, e := log[..|log| - 1], log[|log| - 1];
      assert log == front + [e];
      ReplayMeaning(front, id);
      PushEvent(front, e, id);
      LastPushed(front, e, id, Find(Replay(front), id));
      hide Replay, LastEvent, IdsOk;
    }
  }

  /** In a consistent state a row has the id and the payload of the last event of its entity, and an entity without
      a row has no events. */
  lemma TableMeaning(db: EntityDb, id: string)
    requires Consistent(db)
    ensures LastEvent(db.log, id,
                      if id in db.rows then Some(Snapshot(db.rows[id].sequence, db.rows[id].payload)) else None)
  {
    ReplayMeaning(db.log, id);
    hide Replay, History, LastEvent, IdsOk, EntityBodies;
    assert id in db.rows <==> id in Table(db.rows);
  }

  /* One step gives each entity at most one event, of the kind its change asks for. */

  function NewKinds(db: EntityDb, next: EntityDb, id: string): seq<Kind>
    requires db.log <= next.log
  {
    History(next.log[|db.log|..], id)
  }

  predicate SameRow(db: EntityDb, next: EntityDb, id: string) {
    (id in db.rows <==> id in next.rows) && (id in db.rows ==> db.rows[id] == next.rows[id])
  }

  lemma {:induction false} HistoryConcat(a: Log, b: Log, id: string)
    ensures History(a + b, id) == History(a, id) + History(b, id)
  {
    if b == [] {
      assert a + b == a;
    } else {
      assert (a + b)[..|a + b| - 1] == a + b[..|b| - 1];
      HistoryConcat(a, b[..|b| - 1], id);
    }
  }

  /** What one call logs for one entity. */
  ghost predicate ExactKinds(db: EntityDb, next: EntityDb, id: string) {
    db.log <= next.log &&
    (SameRow(db, next, id) ==> NewKinds(db, next, id) == []) &&
    (!SameRow(db, next, id) ==> id in next.rows && NewKinds(db, next, id) == [KindFor(db, id, next.rows[id])])
  }

  lemma NewEvent(db: EntityDb, next: EntityDb, e: Event, id: string)
    requires next.log == db.log + [e]
    ensures NewKinds(db, next, id) == if e.stream.EntityStream? && e.subject == id then [e.kind] else []
  {
    assert next.log[|db.log|..] == [] + [e];
    PushEvent([], e, id);
    assert History([], id) == [];
  }

  lemma ChangeExact(db: EntityDb, c: Change, id: string)
    requires Proper(db, c)
    requires forall i :: i in db.rows ==> db.rows[i].sequence <= |db.log|
    ensures ExactKinds(db, Change1(db, c), id)
  {
    hide History;
    var next := Change1(db, c);
    NewEvent(db, next, next.log[|db.log|], id);
  }

  lemma {:induction false} SweepExact(db: EntityDb, now: int, order: seq<string>, id: string)
    requires forall i :: i in db.rows ==> db.rows[i].sequence <= |db.log|
    ensures ExactKinds(db, Sweep(db, now, order), id)
    ensures id in db.rows && !Due(db.rows[id], now) ==> SameRow(db, Sweep(db, now, order), id)
    decreases |order|
  {
    if order == [] {
      assert db.log[|db.log|..] == [];
    } else {
      var next := ExpireOne(db, order[0], now);
      var last := Sweep(next, now, order[1..]);
      SweepExact(next, now, order[1..], id);
      if next != db {
        ChangeExact(db, Wrote(order[0], Expired(db.rows[order[0]], now), Deleted, now), id);
        HistoryConcat(next.log[|db.log|..], last.log[|next.log|..], id);
        assert last.log[|db.log|..] == next.log[|db.log|..] + last.log[|next.log|..];
      }
    }
  }

  /** In every reachable state, a call logs CREATE for an entity exactly when the entity goes from absent to live,
      DELETED exactly when it goes from absent or live to not live, UPDATE for any other change of its row, and
      nothing when its row stays as it was. */
  lemma StepExact(cfg: Config, db: EntityDb, op: EntityOp, id: string)
    requires Consistent(db)
    ensures ExactKinds(db, Step(cfg, db, op), id)
  {
    forall i | i in db.rows ensures db.rows[i].sequence <= |db.log| {
      assert i in Table(db.rows);
      ReplayBound(db.log, i);
    }
    match op
    case Getting(i, now) => SweepExact(db, now, [i], id);
    case Listing(now, _, order) => SweepExact(db, now, order, id);
    case Polling(now, order) => SweepExact(db, now, order, id);
    case _ =>
      if Step(cfg, db, op) == db {
        assert db.log[|db.log|..] == [];
      } else {
        var c := WriteChange(cfg, db, op);
        ChangeExact(db, c, id);
      }
  }

  lemma {:induction false} ReplayBound(log: Log, id: string)
    requires IdsOk(log) && id in Replay(log)
    ensures 0 < Replay(log)[id].sequence <= |log|
  {
    var front, e := log[..|log| - 1], log[|log| - 1];
    if !(e.stream.EntityStream? && e.body.EntityBody? && e.subject == id) {
      ReplayBound(front, id);
    }
  }

  /* Between two DELETED events of an entity it was made live again. */

  /** The state before call `k` of a run. */
  function StateAt(cfg: Config, ops: seq<EntityOp>, k: nat): EntityDb
    requires k <= |ops|
  {
    Run(cfg, EMPTY, ops[..k])
  }

  lemma {:induction false} RunLast(cfg: Config, db: EntityDb, ops: seq<EntityOp>, op: EntityOp)
    ensures Run(cfg, db, ops + [op]) == Step(cfg, Run(cfg, db, ops), op)
    decreases |ops|
  {
    hide Step;
    if ops == [] {
      assert ([] + [op])[1..] == [] && Run(cfg, Step(cfg, db, op), []) == Step(cfg, db, op);
    } else {
      assert (ops + [op])[1..] == ops[1..] + [op];
      RunLast(cfg, Step(cfg, db, ops[0]), ops[1..], op);
    }
  }

  lemma NextState(cfg: Config, ops: seq<EntityOp>, k: nat, id: string)
    requires k < |ops|
    ensures StateAt(cfg, ops, k + 1) == Step(cfg, StateAt(cfg, ops, k), ops[k])
    ensures ExactKinds(StateAt(cfg, ops, k), StateAt(cfg, ops, k + 1), id)
  {
    hide Consistent, ExactKinds, Run, Step;
    assert ops[..k + 1] == ops[..k] + [ops[k]];
    RunLast(cfg, EMPTY, ops[..k], ops[k]);
    EmptyConsistent();
    RunConsistent(cfg, EMPTY, ops[..k]);
    StepExact(cfg, StateAt(cfg, ops, k), ops[k], id);
  }

  lemma {:induction false} RowStays(cfg: Config, ops: seq<EntityOp>, p: nat, q: nat, id: string)
    requires p <= q <= |ops| && id in StateAt(cfg, ops, p).rows
    ensures id in StateAt(cfg, ops, q).rows
    decreases q - p
  {
    hide StateAt, KindFor, History;
    if p == q {
    } else {
      NextState(cfg, ops, p, id);
      RowStays(cfg, ops, p + 1, q, id);
    }
  }

  /** The call that leads from one state to the next logs an event of this kind for the entity. */
  predicate LogsKind(db: EntityDb, next: EntityDb, id: string, kind: Kind) {
    db.log <= next.log && kind in NewKinds(db, next, id)
  }

  /** A call logs DELETED for an entity that was absent or live, and is not live then. */
  lemma DeletedMeaning(db: EntityDb, next: EntityDb, id: string)
    requires ExactKinds(db, next, id) && LogsKind(db, next, id, Deleted)
    ensures id in next.rows && !next.rows[id].live && (id in db.rows ==> db.rows[id].live)
  {
    hide History;
  }

  /** Over every run from the empty store: when two calls both log DELETED for an entity, it is not live right after
      the first and live right before the second, so some call in between made it live again. */
  lemma LiveBetweenDeletes(cfg: Config, ops: seq<EntityOp>, p: nat, q: nat, id: string)
    requires p < q < |ops|
    requires LogsKind(StateAt(cfg, ops, p), StateAt(cfg, ops, p + 1), id, Deleted)
    requires LogsKind(StateAt(cfg, ops, q), StateAt(cfg, ops, q + 1), id, Deleted)
    ensures p + 1 < q
    ensures id in StateAt(cfg, ops, p + 1).rows && !StateAt(cfg, ops, p + 1).rows[id].live
    ensures id in StateAt(cfg, ops, q).rows && StateAt(cfg, ops, q).rows[id].live
  {
    hide StateAt, History, ExactKinds, LogsKind, Step, NewKinds, SameRow, KindFor;
    NextState(cfg, ops, p, id);
    DeletedMeaning(StateAt(cfg, ops, p), StateAt(cfg, ops, p + 1), id);
    NextState(cfg, ops, q, id);
    DeletedMeaning(StateAt(cfg, ops, q), StateAt(cfg, ops, q + 1), id);
    RowStays(cfg, ops, p + 1, q, id);
  }
}
