/** What publishes and overrides do and answer, said from the entries of their payloads and of the stored ones. */
module EntityAnswers {
  import opened PyValues
  import opened Text
  import opened Identity
  import opened Events
  import opened Entities
  import opened EntityStores
  import opened Publishing
  import Compat
  import Overrides

  /* The source time. */

  /** The payload says when its source was updated, and the clock reads it as `n`. */
  ghost predicate DatedAt(rt: Runtime, payload: Obj, n: int) {
    exists text :: Says(payload, SOURCE_TIME, Some(text)) && rt.parseTime(text) == Some(n)
  }

  lemma SourceTimeIsDate(rt: Runtime, payload: Obj, n: int)
    ensures DatedAt(rt, payload, n) <==> SourceTime(rt, payload) == Some(n)
  {
    hide SourceTimeText, Says;
    SourceTimeSaid(payload);
    if DatedAt(rt, payload, n) {
      var text :| Says(payload, SOURCE_TIME, Some(text)) && rt.parseTime(text) == Some(n);
      SaysOne(payload, SOURCE_TIME, Some(text), SourceTimeText(payload));
    }
  }

  lemma SameNested(p: Obj, q: Obj, path: seq<string>)
    requires path != [] && Lookup(q, path[0]) == Lookup(p, path[0])
    ensures NestedString(q, path) == NestedString(p, path)
  {
    assert NestedValue(JObj(p), path) == NestedValue(Lookup(p, path[0]), path[1..]);
    assert NestedValue(JObj(q), path) == NestedValue(Lookup(q, path[0]), path[1..]);
  }

  /** What is stored is dated like what was published. */
  lemma StoredDate(cfg: Config, payload: Obj, newId: string, now: int, a: Admitted)
    requires Admit(cfg, payload, newId, now) == Some(a)
    ensures SourceTime(cfg.rt, a.payload) == SourceTime(cfg.rt, payload)
  {
    hide Admit, NestedString, FirstString, Lookup;
    AdmitMeaning(cfg, payload, newId, now, "provenance");
    AdmitMeaning(cfg, payload, newId, now, "metadata");
    SameNested(payload, a.payload, ["provenance", "sourceUpdateTime"]);
    SameNested(payload, a.payload, ["provenance", "source_update_time"]);
    SameNested(payload, a.payload, ["metadata", "provenance", "sourceUpdateTime"]);
    SameNested(payload, a.payload, ["metadata", "provenance", "source_update_time"]);
  }

  /** Both payloads say a time, and the first is not later. */
  ghost predicate NotLater(rt: Runtime, incoming: Obj, stored: Obj) {
    exists n, m :: DatedAt(rt, incoming, n) && DatedAt(rt, stored, m) && n <= m
  }

  lemma NotLaterIsStale(cfg: Config, incoming: Obj, stored: Obj)
    ensures Stale(cfg, incoming, stored) <==> cfg.enforceSourceTime && NotLater(cfg.rt, incoming, stored)
  {
    hide SourceTime, DatedAt;
    var new', was := SourceTime(cfg.rt, incoming), SourceTime(cfg.rt, stored);
    if new'.Some? && was.Some? {
      SourceTimeIsDate(cfg.rt, incoming, new'.value);
      SourceTimeIsDate(cfg.rt, stored, was.value);
    }
    if NotLater(cfg.rt, incoming, stored) {
      var n, m :| DatedAt(cfg.rt, incoming, n) && DatedAt(cfg.rt, stored, m) && n <= m;
      SourceTimeIsDate(cfg.rt, incoming, n);
      SourceTimeIsDate(cfg.rt, stored, m);
    }
  }

  lemma PublishGrows(cfg: Config, db: EntityDb, payload: Obj, newId: string, now: int, a: Admitted)
    requires Admit(cfg, payload, newId, now) == Some(a)
    ensures Publish(cfg, db, payload, newId, now) == db <==> !Accepted(cfg, db, a)
  {
    hide Admit, Accepted, PublishKind;
  }

  /** A publish that passes its checks leaves table and log alone exactly when source times are enforced, the entity is
      stored, both payloads say a time, and the new one is not later. */
  lemma IgnoredExactly(cfg: Config, db: EntityDb, payload: Obj, newId: string, now: int, a: Admitted)
    requires Admit(cfg, payload, newId, now) == Some(a)
    ensures Publish(cfg, db, payload, newId, now) == db <==>
            cfg.enforceSourceTime && a.id in db.rows && NotLater(cfg.rt, payload, db.rows[a.id].payload)
  {
    hide Admit, SourceTime, NotLater, Publish;
    StoredDate(cfg, payload, newId, now, a);
    PublishGrows(cfg, db, payload, newId, now, a);
    if a.id in db.rows {
      NotLaterIsStale(cfg, payload, db.rows[a.id].payload);
    }
  }

  /** The entry that dates a payload: under `provenance` the camel spelling before the snake one, and under
      `metadata.provenance` where `provenance` says nothing. */
  predicate TimeEntry(payload: Obj, s: string) {
    var own := FieldsOf(Lookup(payload, "provenance"));
    var nested := FieldsOf(Lookup(FieldsOf(Lookup(payload, "metadata")), "provenance"));
    Strip(s) != "" &&
    (Lookup(own, "sourceUpdateTime") == JStr(s) ||
     (TextOf(Lookup(own, "sourceUpdateTime")) == "" &&
      (Lookup(own, "source_update_time") == JStr(s) ||
       (TextOf(Lookup(own, "source_update_time")) == "" &&
        (Lookup(nested, "sourceUpdateTime") == JStr(s) ||
         (TextOf(Lookup(nested, "sourceUpdateTime")) == "" && Lookup(nested, "source_update_time") == JStr(s)))))))
  }

  lemma TwoDown(payload: Obj, key: string, last: string)
    ensures TextAt(payload, [key, last]) == TextOf(Lookup(FieldsOf(Lookup(payload, key)), last))
  {
    hide TextOf, Lookup, FieldsOf, NestedString, NestedValue;
    var inner := FieldsOf(Lookup(payload, key));
    assert [key, last] == [key] + [last];
    NestedBelow(payload, key, [last]);
    NestedText(payload, [key] + [last]);
    NestedText(inner, [last]);
    EntryText(inner, last);
  }

  lemma ThreeDown(payload: Obj, key: string, middle: string, last: string)
    ensures TextAt(payload, [key, middle, last])
            == TextOf(Lookup(FieldsOf(Lookup(FieldsOf(Lookup(payload, key)), middle)), last))
  {
    var inner := FieldsOf(Lookup(payload, key));
    TwoDown(inner, middle, last);
    assert [key, middle, last] == [key] + [middle, last];
    NestedBelow(payload, key, [middle, last]);
    NestedText(payload, [key] + [middle, last]);
    NestedText(inner, [middle, last]);
  }

  /** Of four paths the first with a text decides. */
  lemma FirstOfFour(payload: Obj, k: nat)
    requires k < 4 && TextAt(payload, SOURCE_TIME[k]) != ""
    requires forall j :: 0 <= j < k ==> TextAt(payload, SOURCE_TIME[j]) == ""
    ensures Says(payload, SOURCE_TIME, Some(TextAt(payload, SOURCE_TIME[k])))
  {
    hide TextAt;
    assert FirstAt(payload, SOURCE_TIME, k);
  }

  lemma TimeEntrySaid(payload: Obj, s: string)
    requires TimeEntry(payload, s)
    ensures Says(payload, SOURCE_TIME, Some(Strip(s)))
  {
    hide Lookup, FieldsOf, TextAt, TextOf, Strip, Says;
    TwoDown(payload, "provenance", "sourceUpdateTime");
    TwoDown(payload, "provenance", "source_update_time");
    ThreeDown(payload, "metadata", "provenance", "sourceUpdateTime");
    ThreeDown(payload, "metadata", "provenance", "source_update_time");
    TextOfString(s);
    var first, second := TextAt(payload, SOURCE_TIME[0]), TextAt(payload, SOURCE_TIME[1]);
    if first != "" {
      FirstOfFour(payload, 0);
    } else if second != "" {
      FirstOfFour(payload, 1);
    } else if TextAt(payload, SOURCE_TIME[2]) != "" {
      FirstOfFour(payload, 2);
    } else {
      FirstOfFour(payload, 3);
    }
  }

  lemma TextOfString(s: string)
    ensures TextOf(JStr(s)) == Strip(s)
  {
  }

  /** From the entries: where source times are enforced and the entries that date the two payloads are read as `n` and
      `m`, a publish leaves table and log alone if and only if n <= m. */
  lemma IgnoredByEntries(
      cfg: Config, db: EntityDb, payload: Obj, newId: string, now: int, a: Admitted, s: string, t: string,
      n: int, m: int)
    requires cfg.enforceSourceTime && Admit(cfg, payload, newId, now) == Some(a) && a.id in db.rows
    requires TimeEntry(payload, s) && TimeEntry(db.rows[a.id].payload, t)
    requires cfg.rt.parseTime(Strip(s)) == Some(n) && cfg.rt.parseTime(Strip(t)) == Some(m)
    ensures Publish(cfg, db, payload, newId, now) == db <==> n <= m
  {
    hide Admit, Publish, TimeEntry, Says, SourceTime, Strip;
    IgnoredExactly(cfg, db, payload, newId, now, a);
    TimeEntrySaid(payload, s);
    TimeEntrySaid(db.rows[a.id].payload, t);
    assert DatedAt(cfg.rt, payload, n) && DatedAt(cfg.rt, db.rows[a.id].payload, m);
    SourceTimeIsDate(cfg.rt, payload, n);
    SourceTimeIsDate(cfg.rt, db.rows[a.id].payload, m);
    forall n', m' | DatedAt(cfg.rt, payload, n') && DatedAt(cfg.rt, db.rows[a.id].payload, m')
      ensures n' == n && m' == m
    {
      SourceTimeIsDate(cfg.rt, payload, n');
      SourceTimeIsDate(cfg.rt, db.rows[a.id].payload, m');
    }
  }

  /* The replies. */

  /** An ignored publish is answered by the stored payload, whose `_compat` entry now says that an update was ignored
      and where the entity stands; it raises exactly when that entry was there and no object. */
  lemma IgnoredReply(cfg: Config, db: EntityDb, payload: Obj, newId: string, now: int, a: Admitted, key: string)
    requires Admit(cfg, payload, newId, now) == Some(a) && !Accepted(cfg, db, a)
    ensures a.id in db.rows
    ensures var reply, row := PublishReplyOf(cfg, db, payload, newId, now), db.rows[a.id];
            && (reply == Raised <==> "_compat" in row.payload && !row.payload["_compat"].JObj?)
            && (reply != Raised ==>
                  && reply.Returned? && "_compat" in reply.payload && reply.payload["_compat"].JObj?
                  && (key != "_compat" ==> Lookup(reply.payload, key) == Lookup(row.payload, key))
                  && var note := reply.payload["_compat"].fields;
                     && Lookup(note, "ignoredStaleUpdate") == JBool(true)
                     && Lookup(note, "sequence") == JInt(row.sequence)
                     && (key !in {"ignoredStaleUpdate", "sequence"} ==>
                           Lookup(note, key) == Lookup(FieldsOf(Lookup(row.payload, "_compat")), key)))
  {
    hide Admit, Stale;
  }

  /** An accepted publish is answered by what it stored, with a note of the event it logged: CREATE for a new entity
      that is live, DELETED when it is not live and was not dead already, UPDATE for the rest. */
  lemma AcceptedReply(cfg: Config, db: EntityDb, payload: Obj, newId: string, now: int, a: Admitted, key: string)
    requires Admit(cfg, payload, newId, now) == Some(a) && Accepted(cfg, db, a)
    ensures var next, reply := Publish(cfg, db, payload, newId, now), PublishReplyOf(cfg, db, payload, newId, now);
            && reply.Returned? && |next.log| == |db.log| + 1
            && var name := if a.id !in db.rows && a.live then "CREATE"
                           else if !a.live && (a.id in db.rows ==> db.rows[a.id].live) then "DELETED"
                           else "UPDATE";
               && Lookup(reply.payload, "_compat") == JObj(map["sequence" := JInt(next.log[|db.log|].id),
                                                               "eventType" := JStr(name)])
               && KindName(next.log[|db.log|].kind) == name
               && (key != "_compat" ==> Lookup(reply.payload, key) == Lookup(a.payload, key))
  {
    hide Admit, Accepted;
  }

  /** The row an accepted publish leaves: made at the entity's first publish, changed now, and named by the event. */
  lemma PublishedRow(cfg: Config, db: EntityDb, payload: Obj, newId: string, now: int, a: Admitted)
    requires Admit(cfg, payload, newId, now) == Some(a) && Accepted(cfg, db, a)
    ensures var next := Publish(cfg, db, payload, newId, now);
            && a.id in next.rows && next.log[|db.log|].subject == a.id && next.log[|db.log|].time == now
            && var created := if a.id in db.rows then db.rows[a.id].created else now;
               next.rows[a.id] == EntityRow(a.payload, a.live, created, now, a.expiry, |db.log| + 1)
  {
    hide Admit, Accepted, PublishKind;
  }

  /** A publish is refused exactly for want of an id, for a live entity that has expired, or for an expiry time more
      than 2 592 000 seconds away; then nothing changes. */
  lemma RefusedExactly(cfg: Config, db: EntityDb, payload: Obj, newId: string, now: int)
    ensures PublishReplyOf(cfg, db, payload, newId, now) == Refused <==>
            || (Says(payload, ENTITY_ID, None) && !cfg.allowGenerated)
            || (ExpiryOf(cfg.rt, payload).Some? &&
                var expiry := ExpiryOf(cfg.rt, payload).value;
                (IsLive(payload) && expiry <= now) || (!NoExpiry(payload) && now + 2592000000000 < expiry))
    ensures PublishReplyOf(cfg, db, payload, newId, now) == Refused ==> Publish(cfg, db, payload, newId, now) == db
  {
    hide Admit, Accepted, Says, EntityIdOf, IsLive, NoExpiry, ExpiryOf, Noted, Logged;
    AdmitMeaning(cfg, payload, newId, now, "");
    EntityIdSaid(payload);
    if Says(payload, ENTITY_ID, None) {
      SaysOne(payload, ENTITY_ID, None, EntityIdOf(payload));
    }
  }

  /** An override and a removal answer what a `get` at that instant then shows, unless the entity is due; they fail, and
      change nothing, exactly when the override entries cannot be read or put back. */
  lemma OverrideAnswers(db: EntityDb, id: string, field: string, value: Json, now: int)
    requires id in db.rows
    ensures var p := Overrides.OverrideField(db.rows[id].payload, field, value);
            var reply, next := OverrideReplyOf(db, id, p), Override(db, id, field, value, now);
            && (reply == Failed <==> p == None) && (reply == Failed ==> next == db)
            && (reply != Failed ==> reply.Updated? && id in next.rows)
            && (reply != Failed && !Due(next.rows[id], now) ==> View(next, id, now) == Some(reply.view))
    ensures var p := Overrides.RemoveOverride(db.rows[id].payload, field);
            var reply, next := OverrideReplyOf(db, id, p), Unoverride(db, id, field, now);
            && (reply == Failed <==> p == None) && (reply == Failed ==> next == db)
            && (reply != Failed ==> reply.Updated? && id in next.rows)
            && (reply != Failed && !Due(next.rows[id], now) ==> View(next, id, now) == Some(reply.view))
  {
    hide Overrides.OverrideField, Overrides.RemoveOverride, Compat.Public;
    SweepOnlyOne(Override(db, id, field, value, now), now, [id], id);
    SweepOnlyOne(Unoverride(db, id, field, now), now, [id], id);
  }
}
