/** Field overrides on a stored payload, and the saved base values that undo them. */
module Overrides {
  import opened PyValues
  import opened FieldPaths
  import Compat

  const OVERRIDES := "overrides"
  const INTERNAL := Compat.INTERNAL_STATE_KEY
  const BASES := "overrideBaseValues"

  function OverridesOf(p: Obj): Option<Obj> {
    AsDict(Lookup(p, OVERRIDES))
  }

  function InternalOf(p: Obj): Obj {
    FieldsOf(Lookup(p, INTERNAL))
  }

  function BasesOf(p: Obj): Option<Obj> {
    AsDict(Lookup(InternalOf(p), BASES))
  }

  /** What is saved for a field: whether it was there, and its value. */
  function BaseJson(r: Option<Json>): Json {
    JObj(map["exists" := JBool(r.Some?), "value" := if r.Some? then r.value else JNull])
  }

  /** Saves the value of a field the first time it is overridden. */
  function CaptureBase(p: Obj, field: string): Option<Obj> {
    var bases := BasesOf(p);
    if bases.None? then None
    else if field in bases.value then Some(p)
    else
      var saved := bases.value[field := BaseJson(Read(p, PathOf(field)))];
      Some(p[INTERNAL := JObj(InternalOf(p)[BASES := JObj(saved)])])
  }

  /** An object given as the value may hold the value at the field's own path. */
  function OverrideValue(field: string, value: Json): Json {
    if !value.JObj? then value
    else
      var inside := Get(value, PathOf(field));
      if inside.JNull? then value else inside
  }

  /** The payload after an override; None says the call raises. */
  function OverrideField(p: Obj, field: string, value: Json): Option<Obj> {
    var overrides, captured := OverridesOf(p), CaptureBase(p, field);
    if overrides.None? || captured.None? then None
    else
      var v := OverrideValue(field, value);
      Some(Set(captured.value[OVERRIDES := JObj(overrides.value[field := v])], PathOf(field), v))
  }

  /** Writes the saved value of the field back, or deletes a field that was not there. */
  function PutBack(p: Obj, path: Path, base: Json): Option<Obj>
    requires |path| > 0
  {
    if base.JNull? then Some(Delete(p, path))
    else if !base.JObj? then None
    else if Truthy(Lookup(base.fields, "exists")) then Some(Set(p, path, Lookup(base.fields, "value")))
    else Some(Delete(p, path))
  }

  /** Keeps the remaining bases, and no internal state when there is none. */
  function StoreBases(p: Obj, internal: Obj, rest: Obj): Obj {
    if rest != map[] then p[INTERNAL := JObj(internal[BASES := JObj(rest)])]
    else if internal - {BASES} != map[] then p[INTERNAL := JObj(internal - {BASES})]
    else p - {INTERNAL}
  }

  /** Puts the saved base back and forgets it; None says the call raises. */
  function RestoreBase(p: Obj, field: string): Option<Obj> {
    var internal, bases := InternalOf(p), BasesOf(p);
    if bases.None? then None
    else
      var restored := PutBack(p, PathOf(field), Lookup(bases.value, field));
      if restored.None? then None
      else Some(StoreBases(restored.value, internal, bases.value - {field}))
  }

  /** The payload after an override is removed; None says the call raises. */
  function RemoveOverride(p: Obj, field: string): Option<Obj> {
    var overrides := OverridesOf(p);
    if overrides.None? then None
    else RestoreBase(p[OVERRIDES := JObj(overrides.value - {field})], field)
  }

  /** A field whose path is plain and does not start in the two entries the override code keeps for itself. */
  predicate SafeField(field: string) {
    var path := PathOf(field);
    PlainPath(path) && OVERRIDES !in Spellings(path[0]) && INTERNAL !in Spellings(path[0])
  }

  /** The payload with an absent `overrides` read as empty. */
  function Normal(p: Obj): Obj
    requires OverridesOf(p).Some?
  {
    p[OVERRIDES := JObj(OverridesOf(p).value)]
  }

  /** The override entries are as the override code leaves them: it keeps no empty internal object. */
  predicate Settled(p: Obj) {
    OverridesOf(p).Some? &&
    (INTERNAL in p ==>
       p[INTERNAL].JObj? && p[INTERNAL].fields != map[] &&
       (BASES in p[INTERNAL].fields ==>
          p[INTERNAL].fields[BASES].JObj? && p[INTERNAL].fields[BASES].fields != map[]))
  }

  /** No override of the field is active in the payload. */
  predicate Untouched(p: Obj, field: string) {
    OverridesOf(p).Some? && BasesOf(p).Some? && field !in OverridesOf(p).value && field !in BasesOf(p).value
  }

  /* A payload taken apart: the fields `t`, the overrides, the saved bases, other internal entries. */

  function Internals(bases: Obj, extra: Obj): Obj {
    if bases == map[] then extra else extra[BASES := JObj(bases)]
  }

  function Pack(t: Obj, overrides: Obj, bases: Obj, extra: Obj): Obj {
    var internal := Internals(bases, extra);
    (if internal == map[] then t - {INTERNAL} else t[INTERNAL := JObj(internal)])[OVERRIDES := JObj(overrides)]
  }

  lemma PackEntries(t: Obj, overrides: Obj, bases: Obj, extra: Obj)
    requires BASES !in extra
    ensures var p := Pack(t, overrides, bases, extra);
            OverridesOf(p) == Some(overrides) && InternalOf(p) == Internals(bases, extra) && BasesOf(p) == Some(bases)
            && Normal(p) == p && Settled(p)
  {
  }

  lemma PackFields(t: Obj, overrides: Obj, bases: Obj, extra: Obj, field: string, v: Json)
    requires SafeField(field)
    ensures var p, path := Pack(t, overrides, bases, extra), PathOf(field);
            Read(p, path) == Read(t, path) && ParentsOk(p, path) == ParentsOk(t, path)
            && Set(p, path, v) == Pack(Set(t, path, v), overrides, bases, extra)
            && Delete(p, path) == Pack(Delete(t, path), overrides, bases, extra)
  {
    var path, internal := PathOf(field), JObj(Internals(bases, extra));
    var inner := if internal.fields == map[] then t - {INTERNAL} else t[INTERNAL := internal];
    OtherKeyRead(t, path, INTERNAL, internal);
    OtherKeySet(t, path, INTERNAL, internal, v);
    OtherKeyDelete(t, path, INTERNAL, internal);
    OtherKeyRead(inner, path, OVERRIDES, JObj(overrides));
    OtherKeySet(inner, path, OVERRIDES, JObj(overrides), v);
    OtherKeyDelete(inner, path, OVERRIDES, JObj(overrides));
  }

  lemma OverridesReplaced(t: Obj, overrides: Obj, bases: Obj, extra: Obj, overrides': Obj)
    ensures Pack(t, overrides, bases, extra)[OVERRIDES := JObj(overrides')] == Pack(t, overrides', bases, extra)
  {
    hide Internals;
  }

  lemma BasesReplaced(t: Obj, overrides: Obj, bases: Obj, extra: Obj, bases': Obj)
    ensures var p := Pack(t, overrides, bases, extra);
            if Internals(bases', extra) != map[]
            then p[INTERNAL := JObj(Internals(bases', extra))] == Pack(t, overrides, bases', extra)
            else p - {INTERNAL} == Pack(t, overrides, bases', extra)
  {
    hide Internals;
    assert INTERNAL != OVERRIDES;
  }

  lemma PackReplaced(t: Obj, overrides: Obj, bases: Obj, extra: Obj, overrides': Obj, bases': Obj)
    ensures var p := Pack(t, overrides, bases, extra);
            p[OVERRIDES := JObj(overrides')] == Pack(t, overrides', bases, extra)
            && (Internals(bases', extra) != map[]
                ==> p[INTERNAL := JObj(Internals(bases', extra))] == Pack(t, overrides, bases', extra))
            && (Internals(bases', extra) == map[] ==> p - {INTERNAL} == Pack(t, overrides, bases', extra))
  {
    hide Pack, Internals;
    OverridesReplaced(t, overrides, bases, extra, overrides');
    BasesReplaced(t, overrides, bases, extra, bases');
  }

  /** Taking a settled payload apart loses nothing. */
  lemma Unpack(p: Obj) returns (bases: Obj, extra: Obj)
    requires Settled(p)
    ensures BASES !in extra && BasesOf(p) == Some(bases)
    ensures Normal(p) == Pack(p, OverridesOf(p).value, bases, extra)
  {
    bases, extra := BasesOf(p).value, InternalOf(p) - {BASES};
    if INTERNAL in p {
      assert Internals(bases, extra) == p[INTERNAL].fields;
    } else {
      assert Internals(bases, extra) == map[];
      assert p - {INTERNAL} == p;
    }
  }

  /** The bases after a field is overridden: only the first override of it saves one. */
  function Saved(t: Obj, bases: Obj, field: string): Obj {
    if field in bases then bases else bases[field := BaseJson(Read(t, PathOf(field)))]
  }

  lemma CapturePacked(t: Obj, overrides: Obj, bases: Obj, extra: Obj, field: string)
    requires SafeField(field) && BASES !in extra
    ensures CaptureBase(Pack(t, overrides, bases, extra), field)
            == Some(Pack(t, overrides, Saved(t, bases, field), extra))
  {
    PackEntries(t, overrides, bases, extra);
    PackFields(t, overrides, bases, extra, field, JNull);
    var saved := Saved(t, bases, field);
    PackReplaced(t, overrides, bases, extra, overrides, saved);
    if field !in bases {
      assert Internals(bases, extra)[BASES := JObj(saved)] == Internals(saved, extra);
    }
  }

  /** What an override does to the parts: the field is written, the value recorded, and the base saved once. */
  lemma OverridePacked(t: Obj, overrides: Obj, bases: Obj, extra: Obj, field: string, value: Json)
    requires SafeField(field) && BASES !in extra
    ensures var v := OverrideValue(field, value);
            OverrideField(Pack(t, overrides, bases, extra), field, value)
            == Some(Pack(Set(t, PathOf(field), v), overrides[field := v], Saved(t, bases, field), extra))
  {
    var v, saved := OverrideValue(field, value), Saved(t, bases, field);
    PackEntries(t, overrides, bases, extra);
    CapturePacked(t, overrides, bases, extra, field);
    PackReplaced(t, overrides, saved, extra, overrides[field := v], saved);
    PackFields(t, overrides[field := v], saved, extra, field, v);
  }

  /** What an override notes, under the names the payload has for it: the value, and the first time also what was read
      at the field before. */
  lemma OverrideNotes(p: Obj, field: string, value: Json)
    requires SafeField(field) && OverridesOf(p).Some? && BasesOf(p).Some?
    ensures OverrideField(p, field, value).Some?
    ensures var q := OverrideField(p, field, value).value;
            && Lookup(q, "overrides").JObj? && Lookup(q, "_zornInternal").JObj?
            && Lookup(q["overrides"].fields, field) == OverrideValue(field, value)
            && var bases := FieldsOf(Lookup(q["_zornInternal"].fields, "overrideBaseValues"));
               && var was := Read(p, PathOf(field));
               && field in bases
               && (field !in BasesOf(p).value ==>
                     bases[field] == JObj(map["exists" := JBool(was.Some?),
                                              "value" := if was.Some? then was.value else JNull]))
               && (field in BasesOf(p).value ==> bases == BasesOf(p).value)
  {
    hide PathOf, Read, Set, OverrideValue;
    var v, captured := OverrideValue(field, value), CaptureBase(p, field).value;
    var noted := captured[OVERRIDES := JObj(OverridesOf(p).value[field := v])];
    OtherKeySet(noted, PathOf(field), OVERRIDES, noted[OVERRIDES], v);
    CaptureNotes(p, field);
    OtherKeySet(noted, PathOf(field), INTERNAL, noted[INTERNAL], v);
    hide CaptureBase, BasesOf, InternalOf;
  }

  lemma CaptureNotes(p: Obj, field: string)
    requires BasesOf(p).Some?
    ensures var c, was := CaptureBase(p, field), Read(p, PathOf(field));
            && c.Some? && INTERNAL in c.value && c.value[INTERNAL].JObj?
            && var bases := FieldsOf(Lookup(c.value[INTERNAL].fields, BASES));
               && field in bases
               && (field in BasesOf(p).value ==> bases == BasesOf(p).value)
               && (field !in BasesOf(p).value ==>
                     bases[field] == JObj(map["exists" := JBool(was.Some?),
                                              "value" := if was.Some? then was.value else JNull]))
  {
    hide PathOf, Read;
  }

  /** A value stands for itself unless it is an object that holds something at the field's own path. */
  lemma OverrideValueMeaning(field: string, value: Json)
    ensures OverrideValue(field, value) ==
            if value.JObj? && Read(value.fields, PathOf(field)) !in {None, Some(JNull)}
            then Read(value.fields, PathOf(field)).value else value
  {
    hide PathOf;
    if value.JObj? && !Has(value, PathOf(field)) {
      NothingRead(value, PathOf(field));
    }
  }

  /** Giving a value inside any object, at the field's own path, overrides the field just as giving it bare. */
  lemma WrappedOverride(p: Obj, field: string, wrapper: Obj, v: Json)
    requires SafeField(field) && v != JNull && OverrideValue(field, v) == v
    ensures OverrideField(p, field, JObj(Set(wrapper, PathOf(field), v))) == OverrideField(p, field, v)
  {
    GetAfterSet(wrapper, PathOf(field), v);
    OverrideValueMeaning(field, JObj(Set(wrapper, PathOf(field), v)));
    hide PathOf, Set, Read, SafeField, OverrideValue;
  }

  /** Puts back what `Read` gave. */
  function Restore(t: Obj, path: Path, r: Option<Json>): Obj
    requires |path| > 0
  {
    if r.Some? then Set(t, path, r.value) else Delete(t, path)
  }

  lemma PutBackBase(p: Obj, path: Path, r: Option<Json>)
    requires |path| > 0
    ensures PutBack(p, path, BaseJson(r)) == Some(Restore(p, path, r))
  {
  }

  lemma StoreBasesPacked(t: Obj, overrides: Obj, bases: Obj, extra: Obj, rest: Obj)
    requires BASES !in extra
    ensures StoreBases(Pack(t, overrides, bases, extra), Internals(bases, extra), rest)
            == Pack(t, overrides, rest, extra)
  {
    var internal := Internals(bases, extra);
    PackReplaced(t, overrides, bases, extra, overrides, rest);
    assert internal[BASES := JObj(rest)] == extra[BASES := JObj(rest)];
    assert internal - {BASES} == extra;
  }

  lemma RestorePacked(t: Obj, overrides: Obj, bases: Obj, extra: Obj, field: string, r: Option<Json>)
    requires SafeField(field) && BASES !in extra
    requires field in bases && bases[field] == BaseJson(r)
    ensures RestoreBase(Pack(t, overrides, bases, extra), field)
            == Some(Pack(Restore(t, PathOf(field), r), overrides, bases - {field}, extra))
  {
    var path := PathOf(field);
    PackEntries(t, overrides, bases, extra);
    PackFields(t, overrides, bases, extra, field, if r.Some? then r.value else JNull);
    PutBackBase(Pack(t, overrides, bases, extra), path, r);
    StoreBasesPacked(Restore(t, path, r), overrides, bases, extra, bases - {field});
  }

  /** What a removal does to the parts: the base is put back, and override and base are forgotten. */
  lemma RemovePacked(t: Obj, overrides: Obj, bases: Obj, extra: Obj, field: string, r: Option<Json>)
    requires SafeField(field) && BASES !in extra
    requires field in bases && bases[field] == BaseJson(r)
    ensures RemoveOverride(Pack(t, overrides, bases, extra), field)
            == Some(Pack(Restore(t, PathOf(field), r), overrides - {field}, bases - {field}, extra))
  {
    PackEntries(t, overrides, bases, extra);
    PackReplaced(t, overrides, bases, extra, overrides - {field}, bases);
    RestorePacked(t, overrides - {field}, bases, extra, field, r);
  }

  lemma Overwritten(o: Obj, a: string, x: Json, b: string, y: Json, z: Json)
    requires a != b
    ensures o[b := y][a := x][b := z] == o[a := x][b := z]
    ensures o[b := y][b := z] == o[b := z]
  {
  }

  lemma NormalEntries(p: Obj)
    requires Settled(p)
    ensures OverridesOf(Normal(p)) == OverridesOf(p) && InternalOf(Normal(p)) == InternalOf(p)
    ensures BasesOf(p).Some? && BasesOf(Normal(p)) == BasesOf(p)
  {
  }

  /** An override reads an absent `overrides` as empty. */
  lemma OverrideNormal(p: Obj, field: string, value: Json)
    requires Settled(p) && SafeField(field)
    ensures OverrideField(p, field, value) == OverrideField(Normal(p), field, value)
  {
    var o := JObj(OverridesOf(p).value);
    var x := JObj(OverridesOf(p).value[field := OverrideValue(field, value)]);
    var saved := BasesOf(p).value[field := BaseJson(Read(p, PathOf(field)))];
    var i := JObj(InternalOf(p)[BASES := JObj(saved)]);
    OtherKeyRead(p, PathOf(field), OVERRIDES, o);
    NormalEntries(p);
    Overwritten(p, INTERNAL, i, OVERRIDES, o, x);
    hide PathOf, Read, Set, OverrideValue, BaseJson, SafeField, OverridesOf, InternalOf, BasesOf, Settled;
  }

  lemma RestoreAfterSet(t: Obj, path: Path, v: Json)
    requires PlainPath(path) && ParentsOk(t, path)
    ensures Restore(Set(t, path, v), path, Read(t, path)) == t
  {
    if Has(JObj(t), path) {
      SetSet(t, path, v, Get(JObj(t), path));
      SetRead(t, path);
    } else {
      DeleteSet(t, path, v);
    }
  }

  lemma PackedOverrideUndone(t: Obj, overrides: Obj, bases: Obj, extra: Obj, field: string, value: Json)
      returns (q: Obj)
    requires SafeField(field) && BASES !in extra && ParentsOk(t, PathOf(field))
    requires field !in overrides && field !in bases
    ensures OverrideField(Pack(t, overrides, bases, extra), field, value) == Some(q)
    ensures Settled(q) && Normal(q) == q
    ensures RemoveOverride(q, field) == Some(Pack(t, overrides, bases, extra))
  {
    var path, v := PathOf(field), OverrideValue(field, value);
    var t', overrides', saved := Set(t, path, v), overrides[field := v], Saved(t, bases, field);
    assert saved - {field} == bases && overrides' - {field} == overrides;
    q := Pack(t', overrides', saved, extra);
    assert Settled(q) && Normal(q) == q by {
      PackEntries(t', overrides', saved, extra);
    }
    assert OverrideField(Pack(t, overrides, bases, extra), field, value) == Some(q) by {
      OverridePacked(t, overrides, bases, extra, field, value);
    }
    assert RemoveOverride(q, field) == Some(Pack(t, overrides, bases, extra)) by {
      RestoreAfterSet(t, path, v);
      RemovePacked(t', overrides', saved, extra, field, Read(t, path));
    }
  }

  /** Overriding a field that is not overridden, under parents that are there, and removing the override again
      gives the whole payload back. */
  lemma OverrideUndone(p: Obj, field: string, value: Json)
    requires Settled(p) && Untouched(p, field) && SafeField(field) && ParentsOk(p, PathOf(field))
    ensures OverrideField(p, field, value).Some? && Settled(OverrideField(p, field, value).value)
    ensures Normal(OverrideField(p, field, value).value) == OverrideField(p, field, value).value
    ensures RemoveOverride(OverrideField(p, field, value).value, field) == Some(Normal(p))
  {
    hide PathOf, Set, Read, RemoveOverride;
    var bases, extra := Unpack(p);
    OverrideNormal(p, field, value);
    var _ := PackedOverrideUndone(p, OverridesOf(p).value, bases, extra, field, value);
  }

  /** Whatever its parents, a field reads as before after an override and its removal. */
  lemma RestoreReads(t: Obj, path: Path, v: Json)
    requires PlainPath(path)
    ensures Read(Restore(Set(t, path, v), path, Read(t, path)), path) == Read(t, path)
    ensures Restore(Set(t, path, v), path, Read(t, path)) == t <==> ParentsOk(t, path)
  {
    if ParentsOk(t, path) {
      RestoreAfterSet(t, path, v);
    } else {
      if Has(JObj(t), path) {
        HasNeedsParents(t, path);
      }
      NothingAfterDelete(t, path, v);
      RestoredParents(t, path, v);
    }
  }

  /** What an override and its removal leave, in parts. */
  lemma PackedRoundTrip(t: Obj, overrides: Obj, bases: Obj, extra: Obj, field: string, value: Json)
    requires SafeField(field) && BASES !in extra && field !in overrides && field !in bases
    ensures var path, v := PathOf(field), OverrideValue(field, value);
            var q := OverrideField(Pack(t, overrides, bases, extra), field, value);
            q.Some? && RemoveOverride(q.value, field)
                       == Some(Pack(Restore(Set(t, path, v), path, Read(t, path)), overrides, bases, extra))
  {
    hide PathOf, Set, Read, OverrideField, RemoveOverride, Pack, Restore, OverrideValue, SafeField;
    var path, v := PathOf(field), OverrideValue(field, value);
    var overrides', saved := overrides[field := v], Saved(t, bases, field);
    assert saved - {field} == bases && overrides' - {field} == overrides;
    OverridePacked(t, overrides, bases, extra, field, value);
    RemovePacked(Set(t, path, v), overrides', saved, extra, field, Read(t, path));
  }

  /** An override of a field that is not overridden and its removal always give back what is read at the field, and
      the whole payload if and only if the field's parents were there. */
  lemma OverrideUndoneExactly(p: Obj, field: string, value: Json)
    requires Settled(p) && Untouched(p, field) && SafeField(field)
    ensures OverrideField(p, field, value).Some?
    ensures var q := RemoveOverride(OverrideField(p, field, value).value, field);
            && q.Some? && Read(q.value, PathOf(field)) == Read(p, PathOf(field))
            && (q.value == Normal(p) <==> ParentsOk(p, PathOf(field)))
  {
    hide Set, Read, OverrideField, RemoveOverride, Pack, Restore, OverrideValue, Normal, ParentsOk, PathOf;
    var path, v := PathOf(field), OverrideValue(field, value);
    var bases, extra := Unpack(p);
    var overrides := OverridesOf(p).value;
    OverrideNormal(p, field, value);
    PackedRoundTrip(p, overrides, bases, extra, field, value);
    RestoreReads(p, path, v);
    var r := Restore(Set(p, path, v), path, Read(p, path));
    PackFields(r, overrides, bases, extra, field, JNull);
    PackFields(p, overrides, bases, extra, field, JNull);
    if !ParentsOk(p, path) {
      RestoredParents(p, path, v);
    }
  }

  /* A removal that finds no saved base: the entity was published again after the override. */

  /** The paths that no override of a safe field can reach read the same whatever the override code keeps. */
  lemma OwnEntriesRead(p: Obj, path: Path, x: Json)
    requires |path| > 0 && OVERRIDES !in Spellings(path[0]) && INTERNAL !in Spellings(path[0])
    ensures Read(p[OVERRIDES := x], path) == Read(p, path)
    ensures Read(p[INTERNAL := x], path) == Read(p, path) == Read(p - {INTERNAL}, path)
  {
    OtherKeyRead(p, path, OVERRIDES, x);
    OtherKeyRead(p, path, INTERNAL, x);
    hide Read;
  }

  lemma StoreBasesReads(p: Obj, internal: Obj, rest: Obj, path: Path)
    requires |path| > 0 && OVERRIDES !in Spellings(path[0]) && INTERNAL !in Spellings(path[0])
    ensures Read(StoreBases(p, internal, rest), path) == Read(p, path)
  {
    hide Read, Spellings;
    OwnEntriesRead(p, path, JObj(internal[BASES := JObj(rest)]));
    OwnEntriesRead(p, path, JObj(internal - {BASES}));
  }

  lemma StoreBasesEntries(p: Obj, internal: Obj, rest: Obj)
    ensures var q := StoreBases(p, internal, rest);
            && OverridesOf(q) == OverridesOf(p) && BasesOf(q) == Some(rest)
            && InternalOf(q) - {BASES} == internal - {BASES}
  {
    if rest != map[] {
      assert internal[BASES := JObj(rest)] - {BASES} == internal - {BASES};
    } else {
      assert AsDict(JNull) == Some(rest);
      assert (internal - {BASES}) - {BASES} == internal - {BASES};
    }
  }

  /** What a removal without a saved base gives: the field is deleted. */
  lemma RemoveBare(p: Obj, field: string)
    requires SafeField(field) && OverridesOf(p).Some? && BasesOf(p).Some?
    requires Lookup(BasesOf(p).value, field) == JNull
    ensures var kept, rest := OverridesOf(p).value - {field}, BasesOf(p).value - {field};
            RemoveOverride(p, field)
            == Some(StoreBases(Delete(p, PathOf(field))[OVERRIDES := JObj(kept)], InternalOf(p), rest))
  {
    var o := JObj(OverridesOf(p).value - {field});
    OtherKeyDelete(p, PathOf(field), OVERRIDES, o);
    assert InternalOf(p[OVERRIDES := o]) == InternalOf(p);
    hide PathOf, Delete, InternalOf, SafeField, StoreBases;
  }

  lemma BareReads(p: Obj, field: string, o: Json, rest: Obj, g: string)
    requires SafeField(g)
    ensures Read(StoreBases(Delete(p, PathOf(field))[OVERRIDES := o], InternalOf(p), rest), PathOf(g))
            == Read(Delete(p, PathOf(field)), PathOf(g))
  {
    hide PathOf, Delete, Read, StoreBases, InternalOf;
    StoreBasesReads(Delete(p, PathOf(field))[OVERRIDES := o], InternalOf(p), rest, PathOf(g));
    OwnEntriesRead(Delete(p, PathOf(field)), PathOf(g), o);
  }

  lemma BareEntries(p: Obj, o: Obj, internal: Obj, rest: Obj)
    ensures var q := StoreBases(p[OVERRIDES := JObj(o)], internal, rest);
            OverridesOf(q) == Some(o) && BasesOf(q) == Some(rest) && InternalOf(q) - {BASES} == internal - {BASES}
  {
    StoreBasesEntries(p[OVERRIDES := JObj(o)], internal, rest);
    hide StoreBases, BasesOf, InternalOf;
    assert o == map[] || Truthy(JObj(o));
  }

  /** No base is saved for the field, and the override entries can be read. */
  predicate NoBase(p: Obj, field: string) {
    OverridesOf(p).Some? && BasesOf(p).Some? && Lookup(BasesOf(p).value, field) == JNull
  }

  /** Removing an override that has no saved base succeeds where the override entries can be read. The field is gone
      (unless its object holds it under a second spelling), every independent field reads as before, `overrides` and
      the saved bases lose the field and nothing else. */
  lemma RemovedWithoutBase(p: Obj, field: string, other: string)
    requires SafeField(field) && NoBase(p, field)
    ensures RemoveOverride(p, field).Some?
    ensures var q, path := RemoveOverride(p, field).value, PathOf(field);
            && (Read(q, path) == None <==> LoneLeaf(p, path))
            && (SafeField(other) && Independent(path, PathOf(other))
                ==> Read(q, PathOf(other)) == Read(p, PathOf(other)))
            && OverridesOf(q) == Some(OverridesOf(p).value - {field})
            && BasesOf(q) == Some(BasesOf(p).value - {field})
            && InternalOf(q) - {BASES} == InternalOf(p) - {BASES}
  {
    hide PathOf, Delete, Read, StoreBases, RemoveOverride, OverridesOf, BasesOf, InternalOf, LoneLeaf, Independent,
         SafeField, Lookup;
    var path, kept, rest := PathOf(field), OverridesOf(p).value - {field}, BasesOf(p).value - {field};
    RemoveBare(p, field);
    BareEntries(Delete(p, path), kept, InternalOf(p), rest);
    NothingLeft(p, path);
    BareReads(p, field, JObj(kept), rest, field);
    if SafeField(other) && Independent(path, PathOf(other)) {
      BareReads(p, field, JObj(kept), rest, other);
      DeleteKeepsIndependent(p, path, PathOf(other));
    }
  }

  /** A removal raises only over override entries that are no objects, or over a saved base that is none. */
  lemma RemovalRaises(p: Obj, field: string)
    ensures RemoveOverride(p, field) == None <==>
            || OverridesOf(p).None? || BasesOf(p).None?
            || !(Lookup(BasesOf(p).value, field).JNull? || Lookup(BasesOf(p).value, field).JObj?)
  {
    hide PathOf, Set, Delete, StoreBases;
    if OverridesOf(p).Some? {
      var o := JObj(OverridesOf(p).value - {field});
      assert InternalOf(p[OVERRIDES := o]) == InternalOf(p);
    }
  }

  lemma RestoredParents(t: Obj, path: Path, v: Json)
    requires PlainPath(path) && !ParentsOk(t, path)
    ensures ParentsOk(Restore(Set(t, path, v), path, Read(t, path)), path)
  {
    if Has(JObj(t), path) {
      HasNeedsParents(t, path);
    }
    SetMakesParents(t, path, v);
    DeleteKeepsParents(Set(t, path, v), path);
  }
}
