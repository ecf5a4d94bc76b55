/** What the checks of a publish let through, and what they leave of the payload. */
module Publishing {
  import opened PyValues
  import opened Identity
  import opened Entities

  /** The payload with its id filled in where an id entry was missing. */
  function Identified(payload: Obj, id: string): Obj {
    SetDefault(SetDefault(payload, "entityId", JStr(id)), "entity_id", JStr(id))
  }

  lemma IdentifiedFrame(payload: Obj, id: string, key: string)
    requires key !in {"entityId", "entity_id"}
    ensures key in Identified(payload, id) <==> key in payload
    ensures Lookup(Identified(payload, id), key) == Lookup(payload, key)
  {
  }

  lemma IdentifiedIds(payload: Obj, id: string)
    ensures var p := Identified(payload, id);
            && "entityId" in p && "entity_id" in p
            && p["entityId"] == (if "entityId" in payload then payload["entityId"] else JStr(id))
            && p["entity_id"] == (if "entity_id" in payload then payload["entity_id"] else JStr(id))
  {
  }

  /** The id depends on three entries of the payload. */
  lemma SameIds(p: Obj, q: Obj)
    requires Lookup(q, "entityId") == Lookup(p, "entityId") && Lookup(q, "entity_id") == Lookup(p, "entity_id")
    requires Lookup(q, "entity") == Lookup(p, "entity")
    ensures EntityIds(q) == EntityIds(p)
  {
    SameEntity(p, q);
  }

  lemma SameEntity(p: Obj, q: Obj)
    requires Lookup(q, "entity") == Lookup(p, "entity")
    ensures NestedString(q, ["entity", "entityId"]) == NestedString(p, ["entity", "entityId"])
    ensures NestedString(q, ["entity", "entity_id"]) == NestedString(p, ["entity", "entity_id"])
  {
    assert ["entity", "entityId"] == ["entity"] + ["entityId"] && ["entity", "entity_id"] == ["entity"] + ["entity_id"];
    forall path | path in {["entityId"], ["entity_id"]}
      ensures NestedString(q, ["entity"] + path) == NestedString(p, ["entity"] + path)
    {
      NestedBelow(p, "entity", path);
      NestedBelow(q, "entity", path);
    }
  }

  /** An id that is filled in is found again, unless both id entries are there already and blank. */
  lemma IdentifiedId(payload: Obj, id: string)
    requires Clean(id) && EntityIdOf(payload) in {None, Some(id)}
    ensures EntityIdOf(Identified(payload, id)) in {None, Some(id)}
    ensures EntityIdOf(payload).Some? || "entityId" !in payload || "entity_id" !in payload ==>
              EntityIdOf(Identified(payload, id)).Some?
  {
    IdentifiedIds(payload, id);
    IdentifiedFrame(payload, id, "entity");
    SameEntity(payload, Identified(payload, id));
    hide Identified, NestedString, FirstString, Clean;
    FilledIn(EntityIds(payload), EntityIds(Identified(payload, id)), id);
    var ids := EntityIds(Identified(payload, id));
    assert ids[0] in ids && ids[1] in ids;
  }

  /* What a publish stores. */

  /** The payload with its liveness spelled out. */
  function WithLiveness(payload: Obj, live: bool): Obj {
    SetDefault(payload["isLive" := JBool(live)], "is_live", JBool(live))
  }

  lemma LivenessFrame(payload: Obj, live: bool, key: string)
    requires key !in {"isLive", "is_live"}
    ensures key in WithLiveness(payload, live) <==> key in payload
    ensures Lookup(WithLiveness(payload, live), key) == Lookup(payload, key)
  {
  }

  lemma LivenessReads(payload: Obj, live: bool)
    ensures IsLive(WithLiveness(payload, live)) == live
    ensures WithLiveness(WithLiveness(payload, live), live) == WithLiveness(payload, live)
  {
  }

  /** The expiry time a payload asks for. */
  function ExpiryOf(rt: Runtime, payload: Obj): Option<int> {
    ParseTime(rt, Or(Lookup(payload, "expiryTime"), Lookup(payload, "expiry_time")))
  }

  /** The checks, in their own terms: the payload has an id or may be given one, a live entity has not expired, and
      nothing expires in more than 30 days unless it says so. */
  predicate Publishable(cfg: Config, payload: Obj, now: int) {
    && (EntityIdOf(payload).Some? || cfg.allowGenerated)
    && (ExpiryOf(cfg.rt, payload).Some? ==>
          && (IsLive(payload) ==> now < ExpiryOf(cfg.rt, payload).value)
          && (!NoExpiry(payload) ==> ExpiryOf(cfg.rt, payload).value <= now + THIRTY_DAYS))
  }

  /** From the entries: `isLive` decides where it is there, null meaning live; `is_live` decides otherwise. `noExpiry`
      and `no_expiry` likewise, without them there is an expiry. The expiry time is the text in `expiryTime`, or in
      `expiry_time` where the former is nothing. */
  lemma EntriesRead(rt: Runtime, payload: Obj, b: bool, s: string)
    ensures Lookup(payload, "isLive") == JBool(b) ==> IsLive(payload) == b
    ensures "isLive" in payload && payload["isLive"] == JNull ==> IsLive(payload)
    ensures "isLive" !in payload && Lookup(payload, "is_live") == JBool(b) ==> IsLive(payload) == b
    ensures "isLive" !in payload && Lookup(payload, "is_live") == JNull ==> IsLive(payload)
    ensures Lookup(payload, "noExpiry") == JBool(b) ==> NoExpiry(payload) == b
    ensures "noExpiry" !in payload && Lookup(payload, "no_expiry") == JBool(b) ==> NoExpiry(payload) == b
    ensures Lookup(payload, "noExpiry") == JNull && ("noExpiry" in payload || Lookup(payload, "no_expiry") == JNull) ==>
              !NoExpiry(payload)
    ensures s != "" && Lookup(payload, "expiryTime") == JStr(s) ==> ExpiryOf(rt, payload) == rt.parseTime(s)
    ensures !Truthy(Lookup(payload, "expiryTime")) && Lookup(payload, "expiry_time") == JStr(s) ==>
              ExpiryOf(rt, payload) == rt.parseTime(s)
    ensures !Truthy(Lookup(payload, "expiryTime")) && Lookup(payload, "expiry_time") == JNull ==>
              ExpiryOf(rt, payload) == None
  {
  }

  lemma IdentifiedReads(cfg: Config, payload: Obj, id: string)
    ensures var p := Identified(payload, id);
            && IsLive(p) == IsLive(payload) && NoExpiry(p) == NoExpiry(payload)
            && ExpiryOf(cfg.rt, p) == ExpiryOf(cfg.rt, payload)
  {
    hide Identified;
    IdentifiedFrame(payload, id, "isLive");
    IdentifiedFrame(payload, id, "is_live");
    IdentifiedFrame(payload, id, "noExpiry");
    IdentifiedFrame(payload, id, "no_expiry");
    IdentifiedFrame(payload, id, "expiryTime");
    IdentifiedFrame(payload, id, "expiry_time");
  }

  lemma LivenessKeepsReads(cfg: Config, payload: Obj, live: bool)
    ensures var p := WithLiveness(payload, live);
            NoExpiry(p) == NoExpiry(payload) && ExpiryOf(cfg.rt, p) == ExpiryOf(cfg.rt, payload)
  {
    hide WithLiveness;
    LivenessFrame(payload, live, "noExpiry");
    LivenessFrame(payload, live, "no_expiry");
    LivenessFrame(payload, live, "expiryTime");
    LivenessFrame(payload, live, "expiry_time");
  }

  lemma LivenessKeepsId(payload: Obj, live: bool)
    ensures EntityIdOf(WithLiveness(payload, live)) == EntityIdOf(payload)
    ensures "entityId" in WithLiveness(payload, live) <==> "entityId" in payload
    ensures "entity_id" in WithLiveness(payload, live) <==> "entity_id" in payload
  {
    LivenessFrame(payload, live, "entityId");
    LivenessFrame(payload, live, "entity_id");
    LivenessFrame(payload, live, "entity");
    SameIds(payload, WithLiveness(payload, live));
  }

  function NewId(payload: Obj, newId: string): string {
    if EntityIdOf(payload).Some? then EntityIdOf(payload).value else newId
  }

  lemma AdmitParts(cfg: Config, payload: Obj, newId: string, now: int)
    ensures Admit(cfg, payload, newId, now).Some? <==> Publishable(cfg, payload, now)
    ensures Publishable(cfg, payload, now) ==>
              var id, live := NewId(payload, newId), IsLive(payload);
              Admit(cfg, payload, newId, now) ==
              Some(Admitted(id, WithLiveness(Identified(payload, id), live), live, ExpiryOf(cfg.rt, payload)))
  {
    IdentifiedReads(cfg, payload, NewId(payload, newId));
    hide EntityIdOf, IsLive, NoExpiry, ParseTime, Lookup, SetDefault;
  }

  /** A publish passes exactly when its payload may be published. What is stored then is the payload with its id and
      its liveness filled in: it names the entity, reads as live as the row is, and every other entry is as it came. */
  lemma AdmitMeaning(cfg: Config, payload: Obj, newId: string, now: int, key: string)
    ensures Admit(cfg, payload, newId, now).Some? <==> Publishable(cfg, payload, now)
    ensures Admit(cfg, payload, newId, now).Some? ==>
              var a := Admit(cfg, payload, newId, now).value;
              && (EntityIdOf(payload).Some? ==> EntityIdOf(a.payload) == Some(a.id) == EntityIdOf(payload))
              && (EntityIdOf(payload).None? ==> a.id == newId)
              && IsLive(a.payload) == a.live == IsLive(payload) && Lookup(a.payload, "isLive") == JBool(a.live)
              && a.expiry == ExpiryOf(cfg.rt, a.payload) == ExpiryOf(cfg.rt, payload)
              && (a.live && a.expiry.Some? ==> now < a.expiry.value)
              && (key !in {"entityId", "entity_id", "isLive", "is_live"} ==>
                    Lookup(a.payload, key) == Lookup(payload, key))
  {
    AdmitParts(cfg, payload, newId, now);
    if Publishable(cfg, payload, now) {
      var id, live := NewId(payload, newId), IsLive(payload);
      var p := Identified(payload, id);
      IdentifiedReads(cfg, payload, id);
      LivenessKeepsReads(cfg, p, live);
      LivenessKeepsId(p, live);
      LivenessReads(p, live);
      assert Lookup(WithLiveness(p, live), "isLive") == JBool(live);
      if EntityIdOf(payload).Some? {
        FoundIsClean(EntityIds(payload));
        IdentifiedId(payload, id);
      }
      hide Admit, EntityIdOf, IsLive, NoExpiry, ParseTime, WithLiveness, Identified;
      if key !in {"entityId", "entity_id", "isLive", "is_live"} {
        IdentifiedFrame(payload, id, key);
        LivenessFrame(p, live, key);
      }
    }
  }

  /** What a publish stores can be published again as it is, by any call before it expires: it is admitted under the
      same id with the same payload. */
  lemma AdmittedAgain(cfg: Config, payload: Obj, newId: string, now: int, a: Admitted, newId': string, later: int)
    requires EntityIdOf(payload).Some? && Admit(cfg, payload, newId, now) == Some(a) && now <= later
    requires a.live && a.expiry.Some? ==> later < a.expiry.value
    ensures Admit(cfg, a.payload, newId', later) == Some(a)
  {
    AdmitParts(cfg, payload, newId, now);
    AdmitMeaning(cfg, payload, newId, now, "");
    var id, live := NewId(payload, newId), IsLive(payload);
    var p := Identified(payload, id);
    var stored := WithLiveness(p, live);
    AdmitParts(cfg, stored, newId', later);
    IdentifiedReads(cfg, payload, id);
    LivenessKeepsReads(cfg, p, live);
    LivenessReads(p, live);
    IdentifiedIds(payload, id);
    LivenessKeepsId(p, live);
    assert Identified(stored, id) == stored;
    hide Admit, EntityIdOf, IsLive, NoExpiry, ExpiryOf, WithLiveness, Identified;
  }
}
