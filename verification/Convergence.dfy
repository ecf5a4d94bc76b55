/** Publishing converges: with source times enforced, the order of arrival does not decide what is stored. */
module Convergence {
  import opened PyValues
  import opened Identity
  import opened Events
  import opened Entities
  import opened EntityRuns
  import Overrides

  /** The publishes of entity `e` in a run that pass their checks, in the order they arrive. */
  function Arrivals(cfg: Config, ops: seq<EntityOp>, e: string): seq<Admitted> {
    if ops == [] then []
    else
      var rest := Arrivals(cfg, ops[1..], e);
      if ops[0].Publishing? then
        var a := Admit(cfg, ops[0].payload, ops[0].newId, ops[0].now);
        if a.Some? && a.value.id == e then [a.value] + rest else rest
      else rest
  }

  /** A source time that parses, and no expiry. */
  predicate Dated(cfg: Config, a: Admitted) {
    SourceTime(cfg.rt, a.payload).Some? && a.expiry.None?
  }

  function TimeOf(cfg: Config, a: Admitted): int
    requires Dated(cfg, a)
  {
    SourceTime(cfg.rt, a.payload).value
  }

  /** The run changes entity `e` only by dated publishes. */
  predicate OnlyPublished(cfg: Config, ops: seq<EntityOp>, e: string) {
    (forall op :: op in ops && (op.Overriding? || op.Removing?) ==> op.id != e) &&
    forall a :: a in Arrivals(cfg, ops, e) ==> Dated(cfg, a)
  }

  predicate AllDated(cfg: Config, arrivals: seq<Admitted>) {
    forall a :: a in arrivals ==> Dated(cfg, a)
  }

  /** The arrivals later than everything before them. */
  function RunningMaxima(cfg: Config, arrivals: seq<Admitted>): seq<Admitted>
    requires AllDated(cfg, arrivals)
  {
    if arrivals == [] then []
    else
      var before, a := arrivals[..|arrivals| - 1], arrivals[|arrivals| - 1];
      RunningMaxima(cfg, before) +
      if forall b :: b in before ==> TimeOf(cfg, b) < TimeOf(cfg, a) then [a] else []
  }

  /** The payloads an entity's events carry. */
  function Logged(log: Log, id: string): seq<Body> {
    if log == [] then []
    else
      var before, e := Logged(log[..|log| - 1], id), log[|log| - 1];
      if e.stream.EntityStream? && e.subject == id then before + [e.body] else before
  }

  function Bodies(arrivals: seq<Admitted>): seq<Body> {
    if arrivals == [] then [] else Bodies(arrivals[..|arrivals| - 1]) + [EntityBody(arrivals[|arrivals| - 1].payload)]
  }

  /** The state after the arrivals so far: the last running maximum is stored, and the maxima are what was logged. */
  predicate Follows(cfg: Config, db: EntityDb, e: string, arrivals: seq<Admitted>)
    requires AllDated(cfg, arrivals)
  {
    var maxima := RunningMaxima(cfg, arrivals);
    Logged(db.log, e) == Bodies(maxima) && (e in db.rows <==> arrivals != []) &&
    (arrivals != [] ==> maxima != [] && db.rows[e].expiry.None? && db.rows[e].payload == maxima[|maxima| - 1].payload)
  }

  lemma MaximaPush(cfg: Config, arrivals: seq<Admitted>, a: Admitted)
    requires AllDated(cfg, arrivals) && Dated(cfg, a)
    ensures AllDated(cfg, arrivals + [a])
    ensures RunningMaxima(cfg, arrivals + [a]) ==
            RunningMaxima(cfg, arrivals)
            + if forall b :: b in arrivals ==> TimeOf(cfg, b) < TimeOf(cfg, a) then [a] else []
  {
    hide SourceTime;
    hide Dated, TimeOf;
    assert (arrivals + [a])[..|arrivals|] == arrivals;
  }

  lemma BodiesPush(arrivals: seq<Admitted>, a: Admitted)
    ensures Bodies(arrivals + [a]) == Bodies(arrivals) + [EntityBody(a.payload)]
  {
    assert (arrivals + [a])[..|arrivals|] == arrivals;
  }

  /** The last running maximum is the latest of the arrivals. */
  lemma {:induction false} LastMaximum(cfg: Config, arrivals: seq<Admitted>)
    requires AllDated(cfg, arrivals) && arrivals != []
    ensures var maxima := RunningMaxima(cfg, arrivals);
            maxima != [] && maxima[|maxima| - 1] in arrivals && Dated(cfg, maxima[|maxima| - 1])
            && forall b :: b in arrivals ==> TimeOf(cfg, b) <= TimeOf(cfg, maxima[|maxima| - 1])
  {
    hide SourceTime;
    var before, a := arrivals[..|arrivals| - 1], arrivals[|arrivals| - 1];
    assert arrivals == before + [a];
    assert AllDated(cfg, before) && Dated(cfg, a);
    MaximaPush(cfg, before, a);
    if before == [] {
    } else {
      LastMaximum(cfg, before);
    }
    hide RunningMaxima, Dated;
  }

  /** A new arrival is a running maximum exactly when it is later than the last one. */
  lemma NextMaximum(cfg: Config, arrivals: seq<Admitted>, a: Admitted)
    requires AllDated(cfg, arrivals) && Dated(cfg, a) && arrivals != []
    ensures var maxima := RunningMaxima(cfg, arrivals);
            && maxima != [] && Dated(cfg, maxima[|maxima| - 1]) && AllDated(cfg, arrivals + [a])
            && RunningMaxima(cfg, arrivals + [a])
               == maxima + if TimeOf(cfg, maxima[|maxima| - 1]) < TimeOf(cfg, a) then [a] else []
  {
    hide SourceTime;
    LastMaximum(cfg, arrivals);
    MaximaPush(cfg, arrivals, a);
    hide RunningMaxima, Dated, AllDated;
  }

  lemma PushLogged(log: Log, e: Event, id: string)
    ensures Logged(log + [e], id)
            == Logged(log, id) + if e.stream.EntityStream? && e.subject == id then [e.body] else []
  {
    assert (log + [e])[..|log|] == log;
  }

  /** What a publish of an admitted payload does to the entity. */
  lemma PublishEffect(cfg: Config, db: EntityDb, op: EntityOp, a: Admitted)
    requires op.Publishing? && Admit(cfg, op.payload, op.newId, op.now) == Some(a)
    ensures var next := Step(cfg, db, op);
            if Accepted(cfg, db, a) then
              a.id in next.rows && next.rows[a.id].payload == a.payload && next.rows[a.id].expiry == a.expiry
              && Logged(next.log, a.id) == Logged(db.log, a.id) + [EntityBody(a.payload)]
            else next == db
  {
    hide Admit, Accepted;
    var next := Step(cfg, db, op);
    if next != db {
      PushLogged(db.log, next.log[|db.log|], a.id);
    }
  }

  /** An arrival is accepted exactly when it is later than what is stored. */
  lemma AcceptsLater(cfg: Config, db: EntityDb, arrivals: seq<Admitted>, a: Admitted)
    requires cfg.enforceSourceTime && AllDated(cfg, arrivals) && Dated(cfg, a) && Follows(cfg, db, a.id, arrivals)
    ensures arrivals == [] ==> Accepted(cfg, db, a)
    ensures arrivals != [] ==>
              var maxima := RunningMaxima(cfg, arrivals);
              && maxima != [] && Dated(cfg, maxima[|maxima| - 1])
              && (Accepted(cfg, db, a) <==> TimeOf(cfg, maxima[|maxima| - 1]) < TimeOf(cfg, a))
  {
    hide SourceTime, Logged, Bodies, RunningMaxima;
    if arrivals == [] {
    } else {
      NextMaximum(cfg, arrivals, a);
    }
  }

  /** The running maxima after an arrival. */
  lemma MaximaAfter(cfg: Config, db: EntityDb, arrivals: seq<Admitted>, a: Admitted)
    requires cfg.enforceSourceTime && AllDated(cfg, arrivals) && Dated(cfg, a) && Follows(cfg, db, a.id, arrivals)
    ensures AllDated(cfg, arrivals + [a])
    ensures RunningMaxima(cfg, arrivals + [a])
            == RunningMaxima(cfg, arrivals) + if Accepted(cfg, db, a) then [a] else []
  {
    AcceptsLater(cfg, db, arrivals, a);
    hide SourceTime, Logged, Bodies, Follows, Accepted, Dated, TimeOf;
    if arrivals == [] {
      MaximaPush(cfg, arrivals, a);
    } else {
      NextMaximum(cfg, arrivals, a);
    }
  }

  lemma ArrivalStep(cfg: Config, db: EntityDb, op: EntityOp, e: string, arrivals: seq<Admitted>, a: Admitted)
    requires cfg.enforceSourceTime && op.Publishing? && AllDated(cfg, arrivals) && Follows(cfg, db, e, arrivals)
    requires Admit(cfg, op.payload, op.newId, op.now) == Some(a) && a.id == e && Dated(cfg, a)
    ensures AllDated(cfg, arrivals + [a]) && Follows(cfg, Step(cfg, db, op), e, arrivals + [a])
  {
    PublishEffect(cfg, db, op, a);
    MaximaAfter(cfg, db, arrivals, a);
    hide SourceTime, Admit, Step, RunningMaxima, Accepted, AllDated, Bodies, Logged;
    BodiesPush(RunningMaxima(cfg, arrivals), a);
    assert RunningMaxima(cfg, arrivals) + [] == RunningMaxima(cfg, arrivals);
  }

  /** The entity is as it was, in the table and in the log. */
  predicate LeftAlone(db: EntityDb, next: EntityDb, e: string) {
    SameRow(db, next, e) && Logged(next.log, e) == Logged(db.log, e)
  }

  lemma WriteElsewhere(db: EntityDb, id: string, row: EntityRow, kind: Kind, now: int, e: string)
    requires id != e
    ensures LeftAlone(db, Write(db, id, row, kind, now), e)
  {
    hide Logged;
    var next := Write(db, id, row, kind, now);
    PushLogged(db.log, next.log[|db.log|], e);
  }

  lemma {:induction false} SweepElsewhere(db: EntityDb, now: int, order: seq<string>, e: string)
    requires e in db.rows ==> !Due(db.rows[e], now)
    ensures LeftAlone(db, Sweep(db, now, order), e)
    decreases |order|
  {
    hide Logged, Dead;
    if order == [] {
    } else {
      var next := ExpireOne(db, order[0], now);
      if next != db {
        WriteElsewhere(db, order[0], Expired(db.rows[order[0]], now), Deleted, now, e);
      }
      hide ExpireOne;
      SweepElsewhere(next, now, order[1..], e);
    }
  }

  lemma PublishElsewhere(cfg: Config, db: EntityDb, payload: Obj, newId: string, now: int, e: string)
    requires Admit(cfg, payload, newId, now).None? || Admit(cfg, payload, newId, now).value.id != e
    ensures LeftAlone(db, Publish(cfg, db, payload, newId, now), e)
  {
    hide Admit, Accepted, Logged, Write, PublishKind;
    var admitted := Admit(cfg, payload, newId, now);
    if admitted.Some? && Accepted(cfg, db, admitted.value) {
      var a := admitted.value;
      var created := if a.id in db.rows then db.rows[a.id].created else now;
      WriteElsewhere(db, a.id, EntityRow(a.payload, a.live, created, now, a.expiry, 0), PublishKind(db, a), now, e);
    }
  }

  lemma OverrideElsewhere(db: EntityDb, id: string, field: string, value: Json, now: int, e: string)
    requires id != e
    ensures LeftAlone(db, Override(db, id, field, value, now), e)
    ensures LeftAlone(db, Unoverride(db, id, field, now), e)
  {
    hide Overrides.OverrideField, Overrides.RemoveOverride, Logged, Write;
    if id in db.rows {
      var row := db.rows[id];
      var p, q := Overrides.OverrideField(row.payload, field, value), Overrides.RemoveOverride(row.payload, field);
      if p.Some? {
        WriteElsewhere(db, id, row.(payload := p.value, updated := now), Update, now, e);
      }
      if q.Some? {
        WriteElsewhere(db, id, row.(payload := q.value, updated := now), Update, now, e);
      }
    }
  }

  lemma EventElsewhere(cfg: Config, db: EntityDb, event: Event, e: string)
    ensures LeftAlone(db, Step(cfg, db, Elsewhere(event)), e)
  {
    hide Logged;
    var next := Step(cfg, db, Elsewhere(event));
    if next != db {
      PushLogged(db.log, next.log[|db.log|], e);
    }
  }

  lemma OneArrival(cfg: Config, op: EntityOp, e: string)
    requires op.Publishing? && Arrivals(cfg, [op], e) == []
    ensures var a := Admit(cfg, op.payload, op.newId, op.now); a.None? || a.value.id != e
  {
    hide Admit;
    assert [op][1..] == [];
  }

  /** Every other call leaves the entity alone. */
  lemma OtherStep(cfg: Config, db: EntityDb, op: EntityOp, e: string)
    requires e in db.rows ==> Spares(op, db.rows[e])
    requires Arrivals(cfg, [op], e) == [] && (op.Overriding? || op.Removing? ==> op.id != e)
    ensures LeftAlone(db, Step(cfg, db, op), e)
  {
    hide LeftAlone, Sweep, Publish, Override, Unoverride, Arrivals;
    match op
    case Publishing(payload, newId, now) =>
      OneArrival(cfg, op, e);
      PublishElsewhere(cfg, db, payload, newId, now, e);
    case Getting(id, now) => SweepElsewhere(db, now, [id], e);
    case Listing(now, _, order) => SweepElsewhere(db, now, order, e);
    case Polling(now, order) => SweepElsewhere(db, now, order, e);
    case Overriding(id, field, value, now) => OverrideElsewhere(db, id, field, value, now, e);
    case Removing(id, field, now) => OverrideElsewhere(db, id, field, JNull, now, e);
    case Elsewhere(event) => EventElsewhere(cfg, db, event, e);
  }

  lemma ArrivalsFirst(cfg: Config, op: EntityOp, rest: seq<EntityOp>, e: string)
    ensures Arrivals(cfg, [op] + rest, e) == Arrivals(cfg, [op], e) + Arrivals(cfg, rest, e)
    ensures op.Publishing? ==>
              var a := Admit(cfg, op.payload, op.newId, op.now);
              Arrivals(cfg, [op], e) == if a.Some? && a.value.id == e then [a.value] else []
    ensures !op.Publishing? ==> Arrivals(cfg, [op], e) == []
  {
    hide Admit;
    assert ([op] + rest)[1..] == rest && [op][1..] == [];
  }

  lemma OnlyPublishedSplit(cfg: Config, op: EntityOp, rest: seq<EntityOp>, e: string)
    requires OnlyPublished(cfg, [op] + rest, e)
    ensures OnlyPublished(cfg, rest, e) && AllDated(cfg, Arrivals(cfg, [op], e))
    ensures op.Overriding? || op.Removing? ==> op.id != e
  {
    ArrivalsFirst(cfg, op, rest, e);
    hide Arrivals, Dated;
  }

  lemma RunFirst(cfg: Config, db: EntityDb, op: EntityOp, rest: seq<EntityOp>)
    ensures Run(cfg, db, [op] + rest) == Run(cfg, Step(cfg, db, op), rest)
  {
    hide Step;
    assert ([op] + rest)[1..] == rest;
  }

  lemma {:induction false} RunFollows(
      cfg: Config, db: EntityDb, ops: seq<EntityOp>, e: string, arrivals: seq<Admitted>)
    requires cfg.enforceSourceTime && OnlyPublished(cfg, ops, e)
    requires AllDated(cfg, arrivals) && Follows(cfg, db, e, arrivals)
    ensures AllDated(cfg, arrivals + Arrivals(cfg, ops, e))
    ensures Follows(cfg, Run(cfg, db, ops), e, arrivals + Arrivals(cfg, ops, e))
    decreases |ops|
  {
    hide Step, Follows, Dated, OnlyPublished, AllDated;
    if ops == [] {
      assert arrivals + Arrivals(cfg, ops, e) == arrivals;
    } else {
      var op, rest := ops[0], ops[1..];
      assert ops == [op] + rest;
      hide Arrivals, Run;
      var first := Arrivals(cfg, [op], e);
      OnlyPublishedSplit(cfg, op, rest, e);
      OneFollows(cfg, db, op, e, arrivals);
      RunFollows(cfg, Step(cfg, db, op), rest, e, arrivals + first);
      ArrivalsFirst(cfg, op, rest, e);
      RunFirst(cfg, db, op, rest);
      assert arrivals + first + Arrivals(cfg, rest, e) == arrivals + Arrivals(cfg, ops, e);
    }
  }

  lemma OneFollows(cfg: Config, db: EntityDb, op: EntityOp, e: string, arrivals: seq<Admitted>)
    requires cfg.enforceSourceTime && AllDated(cfg, arrivals) && Follows(cfg, db, e, arrivals)
    requires AllDated(cfg, Arrivals(cfg, [op], e)) && (op.Overriding? || op.Removing? ==> op.id != e)
    ensures AllDated(cfg, arrivals + Arrivals(cfg, [op], e))
    ensures Follows(cfg, Step(cfg, db, op), e, arrivals + Arrivals(cfg, [op], e))
  {
    hide SourceTime;
    ArrivalsFirst(cfg, op, [], e);
    var first := Arrivals(cfg, [op], e);
    if first == [] {
      assert arrivals + first == arrivals;
      FollowsUnchanged(cfg, db, op, e, arrivals);
    } else {
      assert first[0] in first;
      hide Step, Follows, Dated, Admit;
      ArrivalStep(cfg, db, op, e, arrivals, first[0]);
    }
  }

  lemma FollowsUnchanged(cfg: Config, db: EntityDb, op: EntityOp, e: string, arrivals: seq<Admitted>)
    requires AllDated(cfg, arrivals) && Follows(cfg, db, e, arrivals)
    requires Arrivals(cfg, [op], e) == [] && (op.Overriding? || op.Removing? ==> op.id != e)
    ensures Follows(cfg, Step(cfg, db, op), e, arrivals)
  {
    hide SourceTime;
    OtherStep(cfg, db, op, e);
  }

  /** Whatever else the run does, the entity's events are exactly the running maxima of its arrivals, and its
      payload is that of an arrival whose source time is the greatest. */
  lemma PublishesConverge(cfg: Config, ops: seq<EntityOp>, e: string)
    requires cfg.enforceSourceTime && OnlyPublished(cfg, ops, e)
    ensures var db, arrivals := Run(cfg, EMPTY, ops), Arrivals(cfg, ops, e);
            && AllDated(cfg, arrivals)
            && Logged(db.log, e) == Bodies(RunningMaxima(cfg, arrivals))
            && (e in db.rows <==> arrivals != [])
            && (arrivals != [] ==>
                  exists a :: a in arrivals && db.rows[e].payload == a.payload
                              && forall b :: b in arrivals ==> TimeOf(cfg, b) <= TimeOf(cfg, a))
  {
    hide SourceTime;
    RunFollows(cfg, EMPTY, ops, e, []);
    var arrivals := Arrivals(cfg, ops, e);
    assert [] + arrivals == arrivals;
    if arrivals != [] {
      LastMaximum(cfg, arrivals);
    }
  }

  /** Two runs that publish the same payloads with distinct source times, in whatever order, store the same one. */
  lemma OrderDoesNotMatter(cfg: Config, ops: seq<EntityOp>, ops': seq<EntityOp>, e: string)
    requires cfg.enforceSourceTime && OnlyPublished(cfg, ops, e) && OnlyPublished(cfg, ops', e)
    requires multiset(Arrivals(cfg, ops, e)) == multiset(Arrivals(cfg, ops', e)) && Arrivals(cfg, ops, e) != []
    requires forall a, b :: a in Arrivals(cfg, ops, e) && b in Arrivals(cfg, ops, e) && a != b ==>
               TimeOf(cfg, a) != TimeOf(cfg, b)
    ensures e in Run(cfg, EMPTY, ops).rows && e in Run(cfg, EMPTY, ops').rows
    ensures Run(cfg, EMPTY, ops).rows[e].payload == Run(cfg, EMPTY, ops').rows[e].payload
  {
    hide SourceTime;
    PublishesConverge(cfg, ops, e);
    PublishesConverge(cfg, ops', e);
    hide Run, Arrivals, RunningMaxima, Logged, TimeOf;
    var as', bs := Arrivals(cfg, ops, e), Arrivals(cfg, ops', e);
    assert forall a :: a in as' <==> a in multiset(as');
    assert forall a :: a in bs <==> a in multiset(bs);
    assert as'[0] in bs;
  }
}
