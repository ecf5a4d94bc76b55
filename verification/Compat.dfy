/** The public view of an entity payload. */
module Compat {
  import opened PyValues

  const INTERNAL_STATE_KEY := "_zornInternal"

  /** Shows the entry `raw` under its wire name, unless that is there already. */
  function Rename(p: Obj, raw: string, wire: string): Obj {
    if raw in p then SetDefault(p, wire, p[raw]) - {raw} else p
  }

  function PublicProvenance(j: Json): Json {
    if j.JObj? then JObj(Rename(j.fields, "source_update_time", "sourceUpdateTime")) else j
  }

  function PublicMetadata(j: Json): Json {
    if !j.JObj? then j
    else if "provenance" in j.fields then JObj(j.fields["provenance" := PublicProvenance(j.fields["provenance"])])
    else j
  }

  function RenameAll(p: Obj): Obj {
    Rename(Rename(Rename(Rename(Rename(p,
      "entity_id", "entityId"), "expiry_time", "expiryTime"), "is_live", "isLive"), "mil_view", "milView"),
      "no_expiry", "noExpiry")
  }

  function MapEntry(p: Obj, k: string, f: Json -> Json): Obj {
    if k in p then p[k := f(p[k])] else p
  }

  function Public(entity: Obj): Obj {
    var shown := MapEntry(RenameAll(entity - {INTERNAL_STATE_KEY}), "provenance", PublicProvenance);
    MapEntry(shown, "metadata", PublicMetadata)
  }

  /* What is shown under which name. */

  /** The entry of an object, if it is there. */
  function Entry(o: Obj, key: string): Option<Json> {
    if key in o then Some(o[key]) else None
  }

  /** `a`, or `b` where there is none. */
  function OrElse(a: Option<Json>, b: Option<Json>): Option<Json> {
    if a.Some? then a else b
  }

  lemma RenamedEntries(p: Obj, raw: string, wire: string, key: string)
    requires raw != wire
    ensures var q := Rename(p, raw, wire);
            && Entry(q, raw) == None && Entry(q, wire) == OrElse(Entry(p, wire), Entry(p, raw))
            && (key !in {raw, wire} ==> Entry(q, key) == Entry(p, key))
  {
  }

  /** An entry with a wire name of its own. */
  predicate Alias(raw: string, wire: string) {
    (raw == "entity_id" && wire == "entityId") || (raw == "expiry_time" && wire == "expiryTime") ||
    (raw == "is_live" && wire == "isLive") || (raw == "mil_view" && wire == "milView") ||
    (raw == "no_expiry" && wire == "noExpiry")
  }

  const ALIASED: set<string> := {
    "entity_id", "entityId", "expiry_time", "expiryTime", "is_live", "isLive", "mil_view", "milView", "no_expiry",
    "noExpiry"}

  /** Renaming one entry after another. */
  lemma RenamedChain(p: Obj, key: string)
    ensures key !in ALIASED ==> Entry(RenameAll(p), key) == Entry(p, key)
  {
    hide Rename;
    var p1 := Rename(p, "entity_id", "entityId");
    var p2 := Rename(p1, "expiry_time", "expiryTime");
    var p3 := Rename(p2, "is_live", "isLive");
    var p4 := Rename(p3, "mil_view", "milView");
    RenamedEntries(p, "entity_id", "entityId", key);
    RenamedEntries(p1, "expiry_time", "expiryTime", key);
    RenamedEntries(p2, "is_live", "isLive", key);
    RenamedEntries(p3, "mil_view", "milView", key);
    RenamedEntries(p4, "no_expiry", "noExpiry", key);
    hide Entry;
  }

  lemma RenamedAlias(p: Obj, raw: string, wire: string)
    requires Alias(raw, wire)
    ensures Entry(RenameAll(p), raw) == None && Entry(RenameAll(p), wire) == OrElse(Entry(p, wire), Entry(p, raw))
  {
    hide Rename, Entry, OrElse;
    var p1 := Rename(p, "entity_id", "entityId");
    var p2 := Rename(p1, "expiry_time", "expiryTime");
    var p3 := Rename(p2, "is_live", "isLive");
    var p4 := Rename(p3, "mil_view", "milView");
    forall k | k == raw || k == wire
      ensures raw != "entity_id" ==> Entry(p1, k) == Entry(p, k)
      ensures raw != "expiry_time" ==> Entry(p2, k) == Entry(p1, k)
      ensures raw != "is_live" ==> Entry(p3, k) == Entry(p2, k)
      ensures raw != "mil_view" ==> Entry(p4, k) == Entry(p3, k)
      ensures raw != "no_expiry" ==> Entry(RenameAll(p), k) == Entry(p4, k)
    {
      RenamedEntries(p, "entity_id", "entityId", k);
      RenamedEntries(p1, "expiry_time", "expiryTime", k);
      RenamedEntries(p2, "is_live", "isLive", k);
      RenamedEntries(p3, "mil_view", "milView", k);
      RenamedEntries(p4, "no_expiry", "noExpiry", k);
    }
    RenamedEntries(p, "entity_id", "entityId", raw);
    RenamedEntries(p1, "expiry_time", "expiryTime", raw);
    RenamedEntries(p2, "is_live", "isLive", raw);
    RenamedEntries(p3, "mil_view", "milView", raw);
    RenamedEntries(p4, "no_expiry", "noExpiry", raw);
  }

  /** The public view does not depend on the saved override state, and never shows it. */
  lemma PublicHidesInternal(p: Obj, x: Json)
    ensures Public(p[INTERNAL_STATE_KEY := x]) == Public(p)
    ensures INTERNAL_STATE_KEY !in Public(p)
  {
    assert p[INTERNAL_STATE_KEY := x] - {INTERNAL_STATE_KEY} == p - {INTERNAL_STATE_KEY};
    RenamedChain(p - {INTERNAL_STATE_KEY}, INTERNAL_STATE_KEY);
    hide RenameAll, PublicProvenance, PublicMetadata;
  }

  lemma ShownEntry(p: Obj, key: string)
    requires key !in {INTERNAL_STATE_KEY, "provenance", "metadata"}
    ensures Entry(Public(p), key) == Entry(RenameAll(p - {INTERNAL_STATE_KEY}), key)
  {
    hide RenameAll, PublicProvenance, PublicMetadata;
  }

  /** The public view has no raw name; under its wire name an entry shows its own value, or that of the raw name where
      it has none. Entries without another name are shown as they are, except provenance and metadata. */
  lemma PublicEntries(p: Obj, raw: string, wire: string, key: string)
    requires Alias(raw, wire)
    ensures Entry(Public(p), raw) == None && Entry(Public(p), wire) == OrElse(Entry(p, wire), Entry(p, raw))
    ensures key !in ALIASED + {INTERNAL_STATE_KEY, "provenance", "metadata"} ==> Entry(Public(p), key) == Entry(p, key)
  {
    var q := p - {INTERNAL_STATE_KEY};
    hide RenameAll, Public, OrElse;
    RenamedAlias(q, raw, wire);
    RenamedChain(q, key);
    ShownEntry(p, raw);
    ShownEntry(p, wire);
    if key !in ALIASED + {INTERNAL_STATE_KEY, "provenance", "metadata"} {
      ShownEntry(p, key);
    }
  }

  /** The source time of an entity is shown under its wire name, in its provenance and in that of its metadata; nothing
      else changes in either. */
  lemma PublicProvenanceEntry(p: Obj, provenance: Obj, key: string)
    ensures Entry(p, "provenance") == Some(JObj(provenance)) ==>
              && Entry(Public(p), "provenance").Some? && Public(p)["provenance"].JObj?
              && TimeRenamed(provenance, Public(p)["provenance"].fields, key)
    ensures !Lookup(p, "provenance").JObj? ==> Entry(Public(p), "provenance") == Entry(p, "provenance")
  {
    RenamedChain(p - {INTERNAL_STATE_KEY}, "provenance");
    RenamedEntries(provenance, "source_update_time", "sourceUpdateTime", key);
    hide RenameAll, Rename, PublicMetadata;
  }

  lemma PublicMetadataEntry(p: Obj, metadata: Obj, provenance: Obj, key: string)
    ensures Entry(p, "metadata") == Some(JObj(metadata)) ==>
              && Entry(Public(p), "metadata").Some? && Public(p)["metadata"].JObj?
              && var shown := Public(p)["metadata"].fields;
                 && (key != "provenance" ==> Entry(shown, key) == Entry(metadata, key))
                 && (Entry(metadata, "provenance") == Some(JObj(provenance)) ==>
                       Lookup(shown, "provenance").JObj? && TimeRenamed(provenance, shown["provenance"].fields, key))
                 && (!Lookup(metadata, "provenance").JObj? ==>
                       Entry(shown, "provenance") == Entry(metadata, "provenance"))
    ensures !Lookup(p, "metadata").JObj? ==> Entry(Public(p), "metadata") == Entry(p, "metadata")
  {
    RenamedChain(p - {INTERNAL_STATE_KEY}, "metadata");
    RenamedEntries(provenance, "source_update_time", "sourceUpdateTime", key);
    hide RenameAll, Rename;
  }

  predicate TimeRenamed(provenance: Obj, shown: Obj, key: string) {
    && Entry(shown, "source_update_time") == None
    && Entry(shown, "sourceUpdateTime")
       == OrElse(Entry(provenance, "sourceUpdateTime"), Entry(provenance, "source_update_time"))
    && (key !in {"source_update_time", "sourceUpdateTime"} ==> Entry(shown, key) == Entry(provenance, key))
  }
}
