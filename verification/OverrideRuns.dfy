/** Whole runs of overrides and removals on one payload: last-in first-out undo, and free interleaving of
    overrides on independent fields. */
module OverrideRuns {
  import opened PyValues
  import opened FieldPaths
  import opened Overrides

  datatype Command = Put(field: string, value: Json) | Drop(field: string)

  function Apply(p: Obj, command: Command): Option<Obj> {
    match command
    case Put(field, value) => OverrideField(p, field, value)
    case Drop(field) => RemoveOverride(p, field)
  }

  /** The payload after the commands, None when one of them raises. */
  function Play(p: Obj, commands: seq<Command>): Option<Obj>
    decreases |commands|
  {
    if commands == [] then Some(p)
    else
      var q := Apply(p, commands[0]);
      if q.None? then None else Play(q.value, commands[1..])
  }

  lemma {:induction false} PlayConcat(p: Obj, first: seq<Command>, second: seq<Command>)
    ensures Play(p, first + second)
            == if Play(p, first).None? then None else Play(Play(p, first).value, second)
    decreases |first|
  {
    hide Apply;
    if first == [] {
      assert first + second == second;
    } else {
      assert (first + second)[1..] == first[1..] + second;
      var q := Apply(p, first[0]);
      if q.Some? {
        PlayConcat(q.value, first[1..], second);
      }
    }
  }

  /* A stack of overrides. */

  /** Each command overrides a field that is not overridden yet, under parents that are there by then. */
  predicate Stackable(p: Obj, puts: seq<Command>)
    decreases |puts|
  {
    puts == [] ||
    (puts[0].Put? && Untouched(p, puts[0].field) && SafeField(puts[0].field) && ParentsOk(p, PathOf(puts[0].field)) &&
     OverrideField(p, puts[0].field, puts[0].value).Some? &&
     Stackable(OverrideField(p, puts[0].field, puts[0].value).value, puts[1..]))
  }

  /** The removals, last override first. */
  function Undo(puts: seq<Command>): (drops: seq<Command>)
    ensures |drops| == |puts|
  {
    if puts == [] then [] else Undo(puts[1..]) + [Drop(puts[0].field)]
  }

  lemma PlayFirst(p: Obj, command: Command, rest: seq<Command>)
    ensures Play(p, [command] + rest)
            == if Apply(p, command).None? then None else Play(Apply(p, command).value, rest)
    ensures Play(p, [command]) == Apply(p, command)
  {
    hide Apply;
    assert ([command] + rest)[1..] == rest && [command][1..] == [];
  }

  lemma Regrouped(a: seq<Command>, b: seq<Command>, c: seq<Command>, d: seq<Command>)
    ensures (a + b) + (c + d) == a + ((b + c) + d)
  {
  }

  lemma UndoShape(puts: seq<Command>)
    requires puts != []
    ensures puts + Undo(puts) == [puts[0]] + ((puts[1..] + Undo(puts[1..])) + [Drop(puts[0].field)])
  {
    var first, rest, last := [puts[0]], puts[1..], [Drop(puts[0].field)];
    assert puts == first + rest && Undo(puts) == Undo(rest) + last;
    hide Undo;
    Regrouped(first, rest, Undo(rest), last);
  }

  /** A stack of overrides undone from the top gives the payload back, however the fields overlap or nest. */
  lemma {:induction false} StackUndone(p: Obj, puts: seq<Command>)
    requires Settled(p) && Stackable(p, puts) && puts != []
    ensures Play(p, puts + Undo(puts)) == Some(Normal(p))
    decreases |puts|
  {
    var put, rest := puts[0], puts[1..];
    OverrideUndone(p, put.field, put.value);
    var q := OverrideField(p, put.field, put.value).value;
    if rest == [] {
      assert Play(q, rest + Undo(rest)) == Some(q);
    } else {
      StackUndone(q, rest);
    }
    hide OverrideField, RemoveOverride, Settled, Normal, Play, Undo, Stackable;
    UndoShape(puts);
    PlayFirst(p, put, (rest + Undo(rest)) + [Drop(put.field)]);
    PlayConcat(q, rest + Undo(rest), [Drop(put.field)]);
    PlayFirst(q, Drop(put.field), []);
  }

  lemma PlayNothing(p: Obj)
    ensures Play(p, []) == Some(p)
  {
  }

  lemma StackableFirst(p: Obj, puts: seq<Command>)
    requires Stackable(p, puts) && puts != []
    ensures var put := puts[0];
            && put.Put? && Untouched(p, put.field) && SafeField(put.field) && ParentsOk(p, PathOf(put.field))
            && OverrideField(p, put.field, put.value).Some?
            && Stackable(OverrideField(p, put.field, put.value).value, puts[1..])
  {
  }

  lemma SlicesOfRest(puts: seq<Command>, k: nat)
    requires 0 < k <= |puts|
    ensures puts[..k] == [puts[0]] + puts[1..][..k - 1] && puts[k..] == puts[1..][k - 1..]
  {
  }

  lemma {:induction false} StackSuffix(p: Obj, puts: seq<Command>, k: nat)
    requires Settled(p) && Stackable(p, puts) && k <= |puts|
    ensures Play(p, puts[..k]).Some? && Settled(Play(p, puts[..k]).value)
    ensures Stackable(Play(p, puts[..k]).value, puts[k..])
    decreases k
  {
    hide OverrideField, PathOf, SafeField, ParentsOk, Settled, Untouched, Play, Stackable, Normal;
    if k == 0 {
      assert puts[..k] == [] && puts[k..] == puts;
      PlayNothing(p);
    } else {
      StackableFirst(p, puts);
      SlicesOfRest(puts, k);
      OverrideUndone(p, puts[0].field, puts[0].value);
      StackSuffix(OverrideField(p, puts[0].field, puts[0].value).value, puts[1..], k - 1);
      PlayFirst(p, puts[0], puts[1..][..k - 1]);
    }
  }

  lemma {:induction false} UndoConcat(a: seq<Command>, b: seq<Command>)
    ensures Undo(a + b) == Undo(b) + Undo(a)
  {
    if a == [] {
      assert a + b == b;
    } else {
      assert (a + b)[0] == a[0] && (a + b)[1..] == a[1..] + b;
      UndoConcat(a[1..], b);
    }
  }

  /** Undoing all overrides but the first `k` restores the state after the first `k`. */
  lemma StackRestoresEveryState(p: Obj, puts: seq<Command>, k: nat)
    requires Settled(p) && Stackable(p, puts) && k < |puts|
    ensures Play(p, puts[..k]).Some? && OverridesOf(Play(p, puts[..k]).value).Some?
    ensures Play(p, puts + Undo(puts)[..|puts| - k]) == Some(Normal(Play(p, puts[..k]).value))
  {
    hide OverrideField, RemoveOverride, PathOf, Play, Stackable, Undo, OverridesOf;
    var first, rest := puts[..k], puts[k..];
    assert puts == first + rest;
    StackSuffix(p, puts, k);
    assert OverridesOf(Play(p, first).value).Some?;
    hide Settled, Normal;
    UndoConcat(first, rest);
    StackUndone(Play(p, first).value, rest);
    PlayConcat(p, first, rest + Undo(rest));
    assert Undo(puts)[..|puts| - k] == Undo(rest);
    assert first + (rest + Undo(rest)) == (first + rest) + Undo(rest);
  }

  /* Independent fields in any order. */

  function FieldsNamed(commands: seq<Command>): set<string> {
    set c | c in commands :: c.field
  }

  /** The fields are safe and any two of their paths are independent. */
  predicate Family(fields: set<string>) {
    (forall f :: f in fields ==> SafeField(f)) &&
    forall f, g :: f in fields && g in fields && f != g ==> Independent(PathOf(f), PathOf(g))
  }

  predicate AllParentsOk(t: Obj, fields: set<string>) {
    forall f :: f in fields ==> ParentsOk(t, PathOf(f))
  }

  /** The active overrides after one more command. */
  function Next(current: Obj, command: Command): Obj {
    match command
    case Put(field, value) => current[field := OverrideValue(field, value)]
    case Drop(field) => current - {field}
  }

  /** The overrides a run of commands leaves active. */
  function Active(current: Obj, commands: seq<Command>): Obj
    decreases |commands|
  {
    if commands == [] then current else Active(Next(current, commands[0]), commands[1..])
  }

  /** Only active overrides are removed. */
  predicate Legal(current: Obj, commands: seq<Command>)
    decreases |commands|
  {
    commands == [] ||
    ((commands[0].Drop? ==> commands[0].field in current) && Legal(Next(current, commands[0]), commands[1..]))
  }

  /** `t` with the active overrides written in the order of `order`. */
  function WriteAll(t: Obj, order: seq<string>, current: Obj): Obj
  {
    if order == [] then t
    else
      var n := |order| - 1;
      Set(WriteAll(t, order[..n], current), PathOf(order[n]), Lookup(current, order[n]))
  }

  predicate Orders(order: seq<string>, fields: set<string>) {
    (set f | f in order) == fields && forall i, j :: 0 <= i < j < |order| ==> order[i] != order[j]
  }

  lemma PlainField(field: string)
    requires SafeField(field)
    ensures PlainPath(PathOf(field))
  {
  }

  /** Writes do not disturb a path independent of them all. */
  lemma {:induction false} WriteAllKeeps(t: Obj, order: seq<string>, current: Obj, q: Path)
    requires forall f :: f in order ==> SafeField(f) && Independent(PathOf(f), q)
    ensures Read(WriteAll(t, order, current), q) == Read(t, q)
    ensures ParentsOk(t, q) ==> ParentsOk(WriteAll(t, order, current), q)
  {
    hide Set, PathOf, SafeField;
    forall f | f in order ensures PlainPath(PathOf(f)) { PlainField(f); }
    if order == [] {
    } else {
      var n := |order| - 1;
      WriteAllKeeps(t, order[..n], current, q);
      var before := WriteAll(t, order[..n], current);
      SetKeepsIndependent(before, PathOf(order[n]), q, Lookup(current, order[n]));
      if ParentsOk(t, q) {
        SetKeepsParents(before, PathOf(order[n]), q, Lookup(current, order[n]));
      }
    }
  }

  lemma {:induction false} WriteAllExtends(t: Obj, order: seq<string>, current: Obj, field: string, v: Json)
    requires field !in order
    ensures WriteAll(t, order + [field], current[field := v]) == Set(WriteAll(t, order, current), PathOf(field), v)
    ensures WriteAll(t, order, current - {field}) == WriteAll(t, order, current)
  {
    hide Set, PathOf;
    assert (order + [field])[..|order|] == order;
    SameWrites(t, order, current, current[field := v]);
    SameWrites(t, order, current, current - {field});
  }

  lemma {:induction false} SameWrites(t: Obj, order: seq<string>, a: Obj, b: Obj)
    requires forall f :: f in order ==> Lookup(a, f) == Lookup(b, f)
    ensures WriteAll(t, order, a) == WriteAll(t, order, b)
  {
    hide Set, PathOf;
    if order == [] {
    } else {
      SameWrites(t, order[..|order| - 1], a, b);
    }
  }

  /** The write of any field can be done last. */
  function Without(order: seq<string>, i: nat): seq<string>
    requires i < |order|
  {
    order[..i] + order[i + 1..]
  }

  lemma WithoutEarlier(order: seq<string>, i: nat)
    requires i < |order| - 1
    ensures Without(order, i) == Without(order[..|order| - 1], i) + [order[|order| - 1]]
  {
    var n := |order| - 1;
    assert order[i + 1..] == order[..n][i + 1..] + [order[n]];
    assert order[..n][..i] == order[..i];
  }

  lemma WriteLast(t: Obj, order: seq<string>, field: string, current: Obj)
    ensures WriteAll(t, order + [field], current)
            == Set(WriteAll(t, order, current), PathOf(field), Lookup(current, field))
  {
    hide Set, PathOf;
    assert (order + [field])[..|order|] == order;
  }

  /** Of independent writes any one may come last. */
  lemma {:induction false} MoveLast(t: Obj, order: seq<string>, current: Obj, i: nat)
    requires i < |order| && forall f :: f in order ==> SafeField(f)
    requires forall j :: 0 <= j < |order| && j != i ==> Independent(PathOf(order[i]), PathOf(order[j]))
    ensures WriteAll(t, order, current)
            == Set(WriteAll(t, Without(order, i), current), PathOf(order[i]), Lookup(current, order[i]))
    decreases |order|
  {
    hide Set, PathOf, SafeField, WriteAll, Independent;
    var n := |order| - 1;
    var front := order[..n];
    assert order == front + [order[n]];
    WriteLast(t, front, order[n], current);
    if i == n {
      assert Without(order, i) == front;
    } else {
      var rest := Without(front, i);
      WithoutEarlier(order, i);
      MoveLast(t, front, current, i);
      WriteLast(t, rest, order[n], current);
      PlainField(order[i]);
      PlainField(order[n]);
      hide Without;
      SetsCommute(WriteAll(t, rest, current), PathOf(order[i]), PathOf(order[n]),
                  Lookup(current, order[i]), Lookup(current, order[n]));
    }
  }

  /** A payload taken apart before the run. */
  datatype Start = Start(t: Obj, overrides: Obj, bases: Obj, extra: Obj)

  function BaseMap(t: Obj, fields: set<string>): Obj {
    map f | f in fields :: BaseJson(Read(t, PathOf(f)))
  }

  /** The payload with exactly the overrides in `current` put on top of the start. */
  function Layer(s: Start, order: seq<string>, current: Obj): Obj {
    Pack(WriteAll(s.t, order, current), s.overrides + current, s.bases + BaseMap(s.t, current.Keys), s.extra)
  }

  /** The fields may be overridden freely on top of the start. */
  predicate Free(s: Start, fields: set<string>) {
    BASES !in s.extra && Family(fields) && AllParentsOk(s.t, fields) &&
    fields !! s.overrides.Keys && fields !! s.bases.Keys
  }

  lemma WithoutOne(order: seq<string>, fields: set<string>, i: nat)
    requires Orders(order, fields) && i < |order|
    ensures Orders(Without(order, i), fields - {order[i]})
  {
    var rest := Without(order, i);
    assert forall j :: 0 <= j < |rest| ==> rest[j] == order[if j < i then j else j + 1];
    forall f | f in fields - {order[i]} ensures f in rest {
      var j :| 0 <= j < |order| && order[j] == f;
      assert rest[if j < i then j else j - 1] == f;
    }
  }

  /** Writing an active field again is the same as writing it once, last. */
  lemma RewriteField(t: Obj, order: seq<string>, current: Obj, i: nat, v: Json)
    requires Orders(order, current.Keys) && Family(current.Keys) && i < |order|
    ensures var rest := Without(order, i);
            Orders(rest, current.Keys - {order[i]})
            && Set(WriteAll(t, order, current), PathOf(order[i]), v)
               == WriteAll(t, rest + [order[i]], current[order[i] := v])
  {
    hide Set, PathOf, SafeField;
    forall f | f in order ensures PlainPath(PathOf(f)) && SafeField(f) { PlainField(f); }
    var field, rest := order[i], Without(order, i);
    WithoutOne(order, current.Keys, i);
    assert forall f :: f in rest ==> f in current.Keys - {field};
    MoveLast(t, order, current, i);
    SetSet(WriteAll(t, rest, current), PathOf(field), current[field], v);
    WriteAllExtends(t, rest, current, field, v);
  }

  lemma OneMore(order: seq<string>, fields: set<string>, field: string)
    requires Orders(order, fields) && field !in fields
    ensures Orders(order + [field], fields + {field})
  {
    assert field !in order by {
      assert forall f :: f in order ==> f in (set f | f in order);
    }
    assert (set f | f in order + [field]) == fields + {field};
  }

  /** The write of an override, on the fields. */
  lemma PutFields(t: Obj, order: seq<string>, current: Obj, field: string, v: Json) returns (order': seq<string>)
    requires Family(current.Keys + {field}) && Orders(order, current.Keys)
    ensures Orders(order', current.Keys + {field})
    ensures Set(WriteAll(t, order, current), PathOf(field), v) == WriteAll(t, order', current[field := v])
  {
    hide Set, PathOf, SafeField, Independent, WriteAll;
    assert forall f :: f in order <==> f in current.Keys;
    if field in current {
      var i :| 0 <= i < |order| && order[i] == field;
      assert current.Keys + {field} == current.Keys;
      hide Orders;
      RewriteField(t, order, current, i, v);
      order' := Without(order, i) + [field];
      OneMore(Without(order, i), current.Keys - {field}, field);
      assert current.Keys - {field} + {field} == current.Keys;
    } else {
      order' := order + [field];
      OneMore(order, current.Keys, field);
      hide Orders;
      WriteAllExtends(t, order, current, field, v);
    }
  }

  lemma MapPut(a: Obj, b: Obj, field: string, v: Json)
    ensures (a + b)[field := v] == a + b[field := v]
    ensures b[field := v].Keys == b.Keys + {field}
  {
  }

  lemma MapDrop(a: Obj, b: Obj, field: string)
    requires field !in a
    ensures a + b - {field} == a + (b - {field})
    ensures (b - {field}).Keys == b.Keys - {field}
  {
  }

  lemma BaseMapPut(t: Obj, fields: set<string>, field: string)
    ensures field in fields ==> fields + {field} == fields
    ensures BaseMap(t, fields + {field}) == BaseMap(t, fields)[field := BaseJson(Read(t, PathOf(field)))]
    ensures BaseMap(t, fields) - {field} == BaseMap(t, fields - {field})
  {
    hide Read, PathOf, BaseJson;
  }

  /** The base an override saves is the value the field had at the start. */
  lemma PutBases(s: Start, order: seq<string>, current: Obj, field: string)
    requires Free(s, current.Keys + {field}) && Orders(order, current.Keys)
    ensures Saved(WriteAll(s.t, order, current), s.bases + BaseMap(s.t, current.Keys), field)
            == s.bases + BaseMap(s.t, current.Keys + {field})
  {
    var known := BaseMap(s.t, current.Keys);
    assert field in s.bases + known <==> field in current;
    hide Set, PathOf, SafeField, Independent, Read, BaseJson, WriteAll, BaseMap;
    BaseMapPut(s.t, current.Keys, field);
    if field !in current {
      assert forall f :: f in order ==> f in current.Keys;
      WriteAllKeeps(s.t, order, current, PathOf(field));
      MapPut(s.bases, known, field, BaseJson(Read(s.t, PathOf(field))));
    }
  }

  lemma PutStep(s: Start, order: seq<string>, current: Obj, field: string, value: Json) returns (order': seq<string>)
    requires Free(s, current.Keys + {field}) && Orders(order, current.Keys)
    ensures Orders(order', current.Keys + {field})
    ensures OverrideField(Layer(s, order, current), field, value)
            == Some(Layer(s, order', current[field := OverrideValue(field, value)]))
  {
    hide Set, Pack, PathOf, OverrideField, SafeField, Read, OverrideValue, WriteAll, ParentsOk, Independent, Saved,
        BaseMap;
    var v := OverrideValue(field, value);
    order' := PutFields(s.t, order, current, field, v);
    PutBases(s, order, current, field);
    MapPut(s.overrides, current, field, v);
    hide Family, AllParentsOk, Orders;
    OverridePacked(WriteAll(s.t, order, current), s.overrides + current, s.bases + BaseMap(s.t, current.Keys), s.extra,
                   field, value);
  }

  /** Putting a base back, on the fields, leaves the writes of the others. */
  lemma DropFields(t: Obj, order: seq<string>, current: Obj, i: nat)
    requires Family(current.Keys) && AllParentsOk(t, current.Keys) && Orders(order, current.Keys) && i < |order|
    ensures var field, rest := order[i], Without(order, i);
            Orders(rest, current.Keys - {field})
            && Restore(WriteAll(t, order, current), PathOf(field), Read(t, PathOf(field)))
               == WriteAll(t, rest, current - {field})
  {
    hide Set, Delete, PathOf, SafeField, Read, ParentsOk, Independent, Restore;
    var field, rest := order[i], Without(order, i);
    WithoutOne(order, current.Keys, i);
    assert forall f :: f in rest ==> f in current.Keys - {field};
    PlainField(field);
    MoveLast(t, order, current, i);
    WriteAllKeeps(t, rest, current, PathOf(field));
    RestoreAfterSet(WriteAll(t, rest, current), PathOf(field), current[field]);
    SameWrites(t, rest, current, current - {field});
  }

  lemma DropStep(s: Start, order: seq<string>, current: Obj, field: string) returns (order': seq<string>)
    requires Free(s, current.Keys) && Orders(order, current.Keys) && field in current
    ensures Orders(order', current.Keys - {field})
    ensures RemoveOverride(Layer(s, order, current), field) == Some(Layer(s, order', current - {field}))
  {
    hide Set, Pack, PathOf, RemoveOverride, SafeField, Read, BaseJson, WriteAll, ParentsOk, Independent, Restore;
    var known, base := BaseMap(s.t, current.Keys), Read(s.t, PathOf(field));
    assert (s.bases + known)[field] == BaseJson(base);
    hide BaseMap;
    var i :| 0 <= i < |order| && order[i] == field;
    order' := Without(order, i);
    DropFields(s.t, order, current, i);
    MapDrop(s.overrides, current, field);
    MapDrop(s.bases, known, field);
    BaseMapPut(s.t, current.Keys, field);
    hide Family, AllParentsOk, Orders;
    RemovePacked(WriteAll(s.t, order, current), s.overrides + current, s.bases + known, s.extra, field, base);
  }

  lemma ApplyLayer(s: Start, order: seq<string>, current: Obj, command: Command) returns (order': seq<string>)
    requires Free(s, current.Keys + {command.field}) && Orders(order, current.Keys)
    requires command.Drop? ==> command.field in current
    ensures Orders(order', Next(current, command).Keys)
    ensures Next(current, command).Keys <= current.Keys + {command.field}
    ensures Apply(Layer(s, order, current), command) == Some(Layer(s, order', Next(current, command)))
  {
    hide Free, Layer, OverrideField, RemoveOverride, OverrideValue;
    match command
    case Put(field, value) =>
      order' := PutStep(s, order, current, field, value);
      assert current[field := OverrideValue(field, value)].Keys == current.Keys + {field};
    case Drop(field) =>
      assert current.Keys + {field} == current.Keys;
      order' := DropStep(s, order, current, field);
      assert (current - {field}).Keys == current.Keys - {field};
  }

  /** Any legal run over independent fields keeps the payload equal to the start plus the active overrides. */
  lemma {:induction false} PlayLayers(s: Start, fields: set<string>, order: seq<string>, current: Obj,
                                      commands: seq<Command>)
      returns (order': seq<string>)
    requires Free(s, fields) && current.Keys <= fields && (forall c :: c in commands ==> c.field in fields)
    requires Orders(order, current.Keys) && Legal(current, commands)
    ensures Orders(order', Active(current, commands).Keys) && Active(current, commands).Keys <= fields
    ensures Play(Layer(s, order, current), commands) == Some(Layer(s, order', Active(current, commands)))
    decreases |commands|
  {
    hide Free, Layer, Orders, Next, Apply;
    if commands == [] {
      order' := order;
    } else {
      var command, rest := commands[0], commands[1..];
      FreeSubset(s, fields, current.Keys + {command.field});
      var middle := ApplyLayer(s, order, current, command);
      order' := PlayLayers(s, fields, middle, Next(current, command), rest);
    }
  }

  lemma FreeSubset(s: Start, fields: set<string>, fewer: set<string>)
    requires Free(s, fields) && fewer <= fields
    ensures Free(s, fewer)
  {
    hide SafeField, PathOf, ParentsOk, Independent;
  }

  /** The fields may be overridden freely on the payload. */
  predicate FreeOn(p: Obj, fields: set<string>) {
    Settled(p) && Family(fields) && AllParentsOk(p, fields) && forall f :: f in fields ==> Untouched(p, f)
  }

  /** A run of overrides and removals on independent fields never raises. While it runs, `overrides` records the
      active values, each active field reads as its value, and every independent field reads as before. When no
      override is left, the payload is the original one. */
  lemma IndependentRuns(p: Obj, commands: seq<Command>)
    requires FreeOn(p, FieldsNamed(commands)) && Legal(map[], commands) && commands != []
    ensures Play(p, commands).Some?
    ensures var q, active := Play(p, commands).value, Active(map[], commands);
            && OverridesOf(q) == Some(OverridesOf(p).value + active)
            && (forall f :: f in active ==> Read(q, PathOf(f)) == Some(active[f]))
            && (forall g :: SafeField(g) && (forall f :: f in active ==> Independent(PathOf(f), PathOf(g)))
                  ==> Read(q, PathOf(g)) == Read(p, PathOf(g)))
            && (active == map[] ==> q == Normal(p))
  {
    hide PathOf, Set, Play, Pack, Active, Legal, Independent, ParentsOk, SafeField, Read;
    var bases, extra := Unpack(p);
    var s, none: Obj := Start(p, OverridesOf(p).value, bases, extra), map[];
    PlayNormal(p, commands);
    EmptyLayer(s);
    assert forall c :: c in commands ==> c.field in FieldsNamed(commands);
    var order := PlayLayers(s, FieldsNamed(commands), [], none, commands);
    var active := Active(none, commands);
    assert Free(s, active.Keys) by {
      FreeSubset(s, FieldsNamed(commands), active.Keys);
    }
    hide BasesOf, InternalOf, Settled;
    LayerReads(s, order, active);
    if active == none {
      assert order == [] by {
        assert forall f :: f in order ==> f in active.Keys;
      }
    }
  }

  lemma EmptyLayer(s: Start)
    ensures Layer(s, [], map[]) == Pack(s.t, s.overrides, s.bases, s.extra)
  {
    var none: Obj := map[];
    assert s.bases + BaseMap(s.t, none.Keys) == s.bases && s.overrides + none == s.overrides;
  }

  lemma LayerReads(s: Start, order: seq<string>, active: Obj)
    requires Free(s, active.Keys) && Orders(order, active.Keys)
    ensures var q := Layer(s, order, active);
            && OverridesOf(q) == Some(s.overrides + active)
            && (forall f :: f in active ==> Read(q, PathOf(f)) == Some(active[f]))
            && (forall g :: SafeField(g) && (forall f :: f in active ==> Independent(PathOf(f), PathOf(g)))
                  ==> Read(q, PathOf(g)) == Read(s.t, PathOf(g)))
  {
    hide PathOf, Set, Pack, Independent, ParentsOk, SafeField, Read, WriteAll, OverridesOf, Delete;
    var saved := s.bases + BaseMap(s.t, active.Keys);
    var t, q := WriteAll(s.t, order, active), Layer(s, order, active);
    PackEntries(t, s.overrides + active, saved, s.extra);
    assert forall f :: f in order <==> f in active.Keys;
    forall f | f in active ensures Read(q, PathOf(f)) == Some(active[f]) {
      var i :| 0 <= i < |order| && order[i] == f;
      PackFields(t, s.overrides + active, saved, s.extra, f, JNull);
      MoveLast(s.t, order, active, i);
      PlainField(f);
      GetAfterSet(WriteAll(s.t, Without(order, i), active), PathOf(f), active[f]);
    }
    forall g | SafeField(g) && (forall f :: f in active ==> Independent(PathOf(f), PathOf(g)))
      ensures Read(q, PathOf(g)) == Read(s.t, PathOf(g))
    {
      PackFields(t, s.overrides + active, saved, s.extra, g, JNull);
      WriteAllKeeps(s.t, order, active, PathOf(g));
    }
  }

  lemma PlayNormal(p: Obj, commands: seq<Command>)
    requires FreeOn(p, FieldsNamed(commands)) && Legal(map[], commands) && commands != []
    ensures Play(p, commands) == Play(Normal(p), commands)
  {
    hide PathOf, OverrideField, RemoveOverride, SafeField, ParentsOk, Independent;
    assert commands[0].field in FieldsNamed(commands);
    OverrideNormal(p, commands[0].field, commands[0].value);
  }

  /** Any interleaving of overrides, with repeats, then one removal of each field in any order, gives the original
      payload. */
  lemma OverridesAllRemoved(p: Obj, puts: seq<Command>, order: seq<string>)
    requires forall c :: c in puts ==> c.Put?
    requires puts != [] && Orders(order, FieldsNamed(puts))
    requires FreeOn(p, FieldsNamed(puts))
    ensures Play(p, puts + Drops(order)) == Some(Normal(p))
  {
    var commands := puts + Drops(order);
    assert FieldsNamed(commands) == FieldsNamed(puts) by {
      forall c | c in commands ensures c.field in FieldsNamed(puts) {
        if c in Drops(order) {
          assert c.field in order;
        }
      }
      assert forall c :: c in puts ==> c in commands;
    }
    var none: Obj := map[];
    assert none.Keys + FieldsNamed(puts) == FieldsNamed(puts);
    PutsLegal(map[], puts, order);
    IndependentRuns(p, commands);
  }

  function Drops(order: seq<string>): (drops: seq<Command>)
    ensures |drops| == |order| && forall i :: 0 <= i < |order| ==> drops[i] == Drop(order[i])
  {
    seq(|order|, i requires 0 <= i < |order| => Drop(order[i]))
  }

  /** An override adds its field to the active ones. */
  lemma PutFirst(current: Obj, puts: seq<Command>, rest: seq<Command>)
    requires puts != [] && puts[0].Put?
    ensures var next := Next(current, puts[0]);
            && next.Keys == current.Keys + {puts[0].field}
            && (Legal(current, puts + rest) <==> Legal(next, puts[1..] + rest))
            && Active(current, puts + rest) == Active(next, puts[1..] + rest)
  {
    hide OverrideValue;
    assert (puts + rest)[0] == puts[0] && (puts + rest)[1..] == puts[1..] + rest;
  }

  lemma FieldsFirst(puts: seq<Command>)
    requires puts != []
    ensures FieldsNamed(puts) == {puts[0].field} + FieldsNamed(puts[1..])
  {
    assert puts == [puts[0]] + puts[1..];
  }

  lemma {:induction false} PutsLegal(current: Obj, puts: seq<Command>, order: seq<string>)
    requires forall c :: c in puts ==> c.Put?
    requires Orders(order, current.Keys + FieldsNamed(puts))
    ensures Legal(current, puts + Drops(order)) && Active(current, puts + Drops(order)) == map[]
    decreases |puts|
  {
    hide Orders, Drops, Legal, Active, Next, OverrideValue;
    if puts == [] {
      assert puts + Drops(order) == Drops(order) && current.Keys + FieldsNamed(puts) == current.Keys;
      DropsLegal(current, order);
    } else {
      var next := Next(current, puts[0]);
      PutFirst(current, puts, Drops(order));
      FieldsFirst(puts);
      hide FieldsNamed;
      assert current.Keys + FieldsNamed(puts) == next.Keys + FieldsNamed(puts[1..]);
      PutsLegal(next, puts[1..], order);
    }
  }

  lemma DropsFirst(order: seq<string>)
    requires order != []
    ensures Drops(order)[0] == Drop(order[0]) && Drops(order)[1..] == Drops(order[1..])
  {
  }

  /** Removing the first of the active overrides leads to removing the rest. */
  lemma DropFirst(current: Obj, order: seq<string>)
    requires order != [] && order[0] in current
    ensures var rest := current - {order[0]};
            && (Legal(current, Drops(order)) <==> Legal(rest, Drops(order[1..])))
            && Active(current, Drops(order)) == Active(rest, Drops(order[1..]))
  {
    DropsFirst(order);
    hide Drops;
  }

  lemma {:induction false} DropsLegal(current: Obj, order: seq<string>)
    requires Orders(order, current.Keys)
    ensures Legal(current, Drops(order)) && Active(current, Drops(order)) == map[]
    decreases |order|
  {
    if order == [] {
      assert current.Keys == {};
    } else {
      FirstOrdered(order, current.Keys);
      hide Orders, Drops, Legal, Active;
      DropFirst(current, order);
      assert (current - {order[0]}).Keys == current.Keys - {order[0]};
      DropsLegal(current - {order[0]}, order[1..]);
    }
  }

  lemma FirstOrdered(order: seq<string>, fields: set<string>)
    requires order != [] && Orders(order, fields)
    ensures order[0] in fields && Orders(order[1..], fields - {order[0]})
  {
    WithoutOne(order, fields, 0);
    assert order[..0] + order[1..] == order[1..];
    assert order[0] in order;
  }
}
