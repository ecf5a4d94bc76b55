/** Why lazy expiry needs overrides to stay away from the liveness entries. */
module Liveness {
  import opened PyValues
  import opened Text
  import opened FieldPaths
  import opened Entities
  import opened Identity
  import opened LazyExpiry
  import Compat
  import Overrides
  import Publishing

  /** The call that makes an entity live again without publishing it. */
  function Revive(id: string, now: int): EntityOp {
    Overriding(id, "isLive", JBool(true), now)
  }

  lemma LivePath()
    ensures |PathOf("isLive")| == 1 && PathOf("isLive")[0].text == "isLive"
  {
    assert '.' !in "isLive";
    SplitWhole("isLive", '.');
  }

  lemma SetLive(p: Obj)
    requires "isLive" in p
    ensures Set(p, PathOf("isLive"), JBool(true)) == p["isLive" := JBool(true)]
  {
    LivePath();
    hide PathOf;
    assert PathOf("isLive")[1..] == [];
  }

  /** The override writes the entry and, apart from that, only the two entries the override code keeps. */
  lemma RevivedPayload(p: Obj)
    requires "isLive" in p && Overrides.OverridesOf(p).Some? && Overrides.BasesOf(p).Some?
    ensures var q := Overrides.OverrideField(p, "isLive", JBool(true));
            q.Some? && "isLive" in q.value && q.value["isLive"] == JBool(true)
  {
    hide Overrides.OverridesOf, Overrides.BasesOf, Overrides.InternalOf, Overrides.BaseJson, Read, Set, PathOf;
    var c := Overrides.CaptureBase(p, "isLive");
    assert Overrides.OVERRIDES != "isLive" && Overrides.INTERNAL != "isLive";
    assert c.Some? && "isLive" in c.value;
    var o := JObj(Overrides.OverridesOf(p).value["isLive" := JBool(true)]);
    SetLive(c.value[Overrides.OVERRIDES := o]);
  }

  /** The public view shows the liveness entry as it is stored. */
  lemma PublicLive(p: Obj)
    requires "isLive" in p
    ensures "isLive" in Compat.Public(p) && Compat.Public(p)["isLive"] == p["isLive"]
  {
    hide Compat.Public;
    Compat.PublicEntries(p, "is_live", "isLive", "");
  }

  /** An entity that is due and is revived by an override: swept only afterwards it reads as dead, swept before it
      reads as live. So the two stores answer differently whenever such a call falls between expiry and sweep. */
  lemma ReviveTellsApart(cfg: Config, db: EntityDb, id: string, now: int)
    requires id in db.rows && Due(db.rows[id], now) && "isLive" in db.rows[id].payload
    requires Overrides.OverridesOf(db.rows[id].payload).Some? && Overrides.BasesOf(db.rows[id].payload).Some?
    ensures var lazy := View(Step(cfg, db, Revive(id, now)), id, now);
            var eager := View(Step(cfg, Sweep(db, now, [id]), Revive(id, now)), id, now);
            && lazy.Some? && Lookup(lazy.value, "isLive") == JBool(false)
            && eager.Some? && Lookup(eager.value, "isLive") == JBool(true)
  {
    hide Overrides.OverrideField, Compat.Public, Overrides.OverridesOf, Overrides.BasesOf;
    var row := db.rows[id];
    RevivedPayload(row.payload);
    DeadKeepsOverrides(row.payload);
    RevivedPayload(Dead(row.payload));
    PublicLive(Dead(Overrides.OverrideField(row.payload, "isLive", JBool(true)).value));
    PublicLive(Overrides.OverrideField(Dead(row.payload), "isLive", JBool(true)).value);
    SweepOnlyOne(db, now, [id], id);
    SweepOnlyOne(Step(cfg, db, Revive(id, now)), now, [id], id);
    SweepOnlyOne(Step(cfg, ExpireOne(db, id, now), Revive(id, now)), now, [id], id);
    hide Sweep;
  }

  lemma DeadKeepsOverrides(p: Obj)
    ensures Overrides.OverridesOf(Dead(p)) == Overrides.OverridesOf(p)
    ensures Overrides.BasesOf(Dead(p)) == Overrides.BasesOf(p)
    ensures "isLive" in Dead(p) && Dead(p)["isLive"] == JBool(false)
  {
    assert Lookup(Dead(p), Overrides.OVERRIDES) == Lookup(p, Overrides.OVERRIDES);
    assert Lookup(Dead(p), Overrides.INTERNAL) == Lookup(p, Overrides.INTERNAL);
  }

  /* Such a run from the empty store. */

  const NOTHING := EntityDb([], map[])

  /** An entity is published, revived at the instant it expires, and read at that instant. */
  function RevivedRun(payload: Obj, newId: string, id: string, expiry: int): seq<EntityOp> {
    [Publishing(payload, newId, expiry - 1), Revive(id, expiry), Getting(id, expiry)]
  }

  lemma AdmittedEntries(cfg: Config, payload: Obj, newId: string, now: int, a: Admitted)
    requires Admit(cfg, payload, newId, now) == Some(a)
    requires Overrides.OverridesOf(payload).Some? && Overrides.BasesOf(payload).Some?
    ensures "isLive" in a.payload
    ensures Overrides.OverridesOf(a.payload).Some? && Overrides.BasesOf(a.payload).Some?
  {
    hide Admit;
    Publishing.AdmitMeaning(cfg, payload, newId, now, Overrides.OVERRIDES);
    Publishing.AdmitMeaning(cfg, payload, newId, now, Overrides.INTERNAL);
    assert Overrides.OVERRIDES !in {"entityId", "entity_id", "isLive", "is_live"};
    assert Overrides.INTERNAL !in {"entityId", "entity_id", "isLive", "is_live"};
  }

  lemma FirstPublish(cfg: Config, payload: Obj, newId: string, now: int, a: Admitted)
    requires Admit(cfg, payload, newId, now) == Some(a)
    ensures var db := Step(cfg, NOTHING, Publishing(payload, newId, now));
            && db.rows.Keys == {a.id} && db.rows[a.id].payload == a.payload
            && db.rows[a.id].live == a.live && db.rows[a.id].expiry == a.expiry
  {
    hide Admit;
  }

  /** The eager store sweeps its one row between the publish and the revival. */
  lemma EagerSweepsOne(db: EntityDb, id: string, now: int)
    requires db.rows.Keys == {id}
    ensures Advance(db, now - 1, now) == Sweep(db, now, [id])
  {
    var order := SomeOrder(db.rows.Keys);
    assert Advance(db, now - 1, now - 1) == db;
    assert id in order;
    SweepOnlyOne(db, now, order, id);
    SweepOnlyOne(db, now, [id], id);
  }

  /** In every such run the lazy store gives replies that the eager one cannot give. */
  lemma RevivedRunDiffers(cfg: Config, payload: Obj, newId: string, a: Admitted, expiry: int)
      returns (replies: seq<Reply>)
    requires Admit(cfg, payload, newId, expiry - 1) == Some(a) && a.live && a.expiry == Some(expiry)
    requires Overrides.OverridesOf(payload).Some? && Overrides.BasesOf(payload).Some?
    ensures var ops := RevivedRun(payload, newId, a.id, expiry);
            && Timed(ops, expiry - 1) && LazyTrace(cfg, NOTHING, ops, replies)
            && !EagerTrace(cfg, NOTHING, expiry - 1, ops, replies)
  {
    hide Admit, Sweep, View, Overrides.OverridesOf, Overrides.BasesOf, Step;
    var ops := RevivedRun(payload, newId, a.id, expiry);
    RevivedRunTimed(payload, newId, a.id, expiry);
    var published := Step(cfg, NOTHING, ops[0]);
    FirstPublish(cfg, payload, newId, expiry - 1, a);
    AdmittedEntries(cfg, payload, newId, expiry - 1, a);
    EagerSweepsOne(published, a.id, expiry);
    ReviveTellsApart(cfg, published, a.id, expiry);
    replies := [Silent, Silent, Entity(View(Step(cfg, published, ops[1]), a.id, expiry))];
    LazyThree(cfg, NOTHING, ops, replies);
    EagerThree(cfg, NOTHING, ops, replies, expiry);
    hide EagerTrace, LazyTrace, Advance, Timed;
    var eager := Step(cfg, Advance(published, expiry - 1, expiry), ops[1]);
    assert eager == Step(cfg, Sweep(published, expiry, [a.id]), Revive(a.id, expiry));
    assert replies[2] != Entity(View(eager, a.id, expiry));
  }

  lemma RevivedRunTimed(payload: Obj, newId: string, id: string, expiry: int)
    ensures Timed(RevivedRun(payload, newId, id, expiry), expiry - 1)
  {
    var ops := RevivedRun(payload, newId, id, expiry);
    assert Timed(ops[1..][1..][1..], expiry) && Timed(ops[1..][1..], expiry) && Timed(ops[1..], expiry - 1);
  }

  lemma LazyThree(cfg: Config, db: EntityDb, ops: seq<EntityOp>, replies: seq<Reply>)
    requires |ops| == |replies| == 3
    ensures var s1 := Step(cfg, db, ops[0]); var s2 := Step(cfg, s1, ops[1]);
            LazyTrace(cfg, db, ops, replies) <==>
            Answers(db, ops[0], replies[0]) && Answers(s1, ops[1], replies[1]) && Answers(s2, ops[2], replies[2])
  {
    hide Step, Answers;
    var s1 := Step(cfg, db, ops[0]);
    var s2 := Step(cfg, s1, ops[1]);
    assert LazyTrace(cfg, s2, ops[1..][1..], replies[1..][1..]) <==> Answers(s2, ops[2], replies[2]);
    assert LazyTrace(cfg, s1, ops[1..], replies[1..]) <==>
           Answers(s1, ops[1], replies[1]) && LazyTrace(cfg, s2, ops[1..][1..], replies[1..][1..]);
    assert LazyTrace(cfg, db, ops, replies) <==>
           Answers(db, ops[0], replies[0]) && LazyTrace(cfg, s1, ops[1..], replies[1..]);
  }

  /** What the eager store may answer to the last of three calls at two neighbouring instants. */
  lemma EagerThree(cfg: Config, db: EntityDb, ops: seq<EntityOp>, replies: seq<Reply>, now: int)
    requires |ops| == |replies| == 3 && ops[0].Publishing? && ops[1].Overriding? && ops[2].Getting?
    requires ops[0].now == now - 1 && ops[1].now == ops[2].now == now
    ensures var s1 := Step(cfg, db, ops[0]); var s2 := Step(cfg, Advance(s1, now - 1, now), ops[1]);
            EagerTrace(cfg, db, now - 1, ops, replies) ==> replies[2] == Entity(View(s2, ops[2].id, now))
  {
    hide Step, View, Sweep;
    assert forall d, t {:trigger Advance(d, t, t)} :: Advance(d, t, t) == d;
    var s1 := EagerStep(cfg, db, now - 1, ops[0]);
    var s2 := EagerStep(cfg, s1, now - 1, ops[1]);
    assert s1 == Step(cfg, db, ops[0]) && s2 == Step(cfg, Advance(s1, now - 1, now), ops[1]);
    if EagerTrace(cfg, db, now - 1, ops, replies) {
      assert EagerTrace(cfg, s1, now - 1, ops[1..], replies[1..]);
      assert EagerTrace(cfg, s2, now, ops[1..][1..], replies[1..][1..]);
      assert EagerAnswers(cfg, s2, now, ops[2], replies[2]);
    }
  }

  /** One such payload, for every store whose clock can read its expiry time. */
  lemma RevivedExample(cfg: Config, time: string, expiry: int) returns (ops: seq<EntityOp>, replies: seq<Reply>)
    requires time != "" && cfg.rt.parseTime(time) == Some(expiry)
    ensures Timed(ops, expiry - 1) && LazyTrace(cfg, NOTHING, ops, replies)
            && !EagerTrace(cfg, NOTHING, expiry - 1, ops, replies)
  {
    var payload: Obj := map["entityId" := JStr("e"), "expiryTime" := JStr(time)];
    ExamplePayload(cfg, time, expiry);
    Publishing.AdmitMeaning(cfg, payload, "", expiry - 1, "");
    hide Admit, Timed, LazyTrace, EagerTrace, Overrides.OverridesOf, Overrides.BasesOf, Publishing.Publishable, IsLive;
    var a := Admit(cfg, payload, "", expiry - 1).value;
    ops := RevivedRun(payload, "", a.id, expiry);
    replies := RevivedRunDiffers(cfg, payload, "", a, expiry);
  }

  lemma ExamplePayload(cfg: Config, time: string, expiry: int)
    requires time != "" && cfg.rt.parseTime(time) == Some(expiry)
    ensures var payload: Obj := map["entityId" := JStr("e"), "expiryTime" := JStr(time)];
            && Publishing.Publishable(cfg, payload, expiry - 1) && IsLive(payload)
            && Publishing.ExpiryOf(cfg.rt, payload) == Some(expiry)
            && Overrides.OverridesOf(payload).Some? && Overrides.BasesOf(payload).Some?
  {
    var payload: Obj := map["entityId" := JStr("e"), "expiryTime" := JStr(time)];
    ExampleId(payload);
    hide EntityIdOf;
    assert Lookup(payload, "expiryTime") == JStr(time);
  }

  lemma ExampleId(payload: Obj)
    requires Lookup(payload, "entityId") == JStr("e")
    ensures EntityIdOf(payload).Some?
  {
    assert Trimmed("e") && Strip("e") == "e";
    hide Strip, NestedString;
    assert FirstString(EntityIds(payload)) == Some("e");
  }
}
