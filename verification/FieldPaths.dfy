/** Dotted field paths into JSON trees. A segment names a key under any of its spellings. */
module FieldPaths {
  import opened PyValues
  import opened Text
  import opened Names

  /** One segment of a path with the keys it may stand for, in the order they are tried. */
  datatype Segment = Segment(text: string, camel: string, snake: string)

  type Path = seq<Segment>

  function SegmentOf(text: string): Segment {
    Segment(text, SnakeToCamel(text), CamelToSnake(text))
  }

  /** The path a dotted string names. */
  function PathOf(fieldPath: string): (path: Path)
    ensures |path| > 0
  {
    var texts := Split(fieldPath, '.');
    seq(|texts|, i requires 0 <= i < |texts| => SegmentOf(texts[i]))
  }

  function Spellings(segment: Segment): set<string> {
    {segment.text, segment.camel, segment.snake}
  }

  function ResolveKey(o: Obj, segment: Segment): (key: Option<string>)
    ensures key.Some? ==> key.value in o && key.value in Spellings(segment)
    ensures key.None? ==> forall k :: k in Spellings(segment) ==> k !in o
  {
    if segment.text in o then Some(segment.text)
    else if segment.camel in o then Some(segment.camel)
    else if segment.snake in o then Some(segment.snake)
    else None
  }

  /** A segment stands for the first of its spellings that the object holds: the text as it is, the camel one, the snake
      one. */
  lemma ResolvedFirst(o: Obj, segment: Segment, key: string)
    ensures ResolveKey(o, segment) == Some(key) <==>
              && key in o && key in Spellings(segment)
              && (segment.text in o ==> key == segment.text)
              && (segment.text !in o && segment.camel in o ==> key == segment.camel)
  {
  }

  /** The key a write uses: `resolve(o, segment) or segment`. */
  function WriteKey(o: Obj, segment: Segment): string {
    var key := ResolveKey(o, segment);
    if key.Some? && key.value != "" then key.value else segment.text
  }

  predicate Has(j: Json, path: Path)
    decreases |path|
  {
    path == [] ||
    (j.JObj? &&
     var key := ResolveKey(j.fields, path[0]);
     key.Some? && Has(j.fields[key.value], path[1..]))
  }

  function Get(j: Json, path: Path): Json
    decreases |path|
  {
    if path == [] then j
    else if !j.JObj? then JNull
    else
      var key := ResolveKey(j.fields, path[0]);
      if key.None? then JNull else Get(j.fields[key.value], path[1..])
  }

  /** Writes `v` at `path`; a parent that is missing or not an object is replaced by a new object. */
  function Set(o: Obj, path: Path, v: Json): Obj
    requires |path| > 0
    decreases |path|, 0
  {
    var key := WriteKey(o, path[0]);
    o[key := Fill(Lookup(o, key), path[1..], v)]
  }

  /** What a write of `v` at `rest` below a key leaves at that key. */
  function Fill(was: Json, rest: Path, v: Json): Json
    decreases |rest|, 1
  {
    if rest == [] then v else JObj(Set(FieldsOf(was), rest, v))
  }

  /** Removes the field at `path`, if its parents lead to it. */
  function Delete(o: Obj, path: Path): Obj
    requires |path| > 0
    decreases |path|
  {
    var key := ResolveKey(o, path[0]);
    if key.None? then o
    else if |path| == 1 then o - {key.value}
    else
      var nested := o[key.value];
      if nested.JObj? then o[key.value := JObj(Delete(nested.fields, path[1..]))] else o
  }

  /** The value at a path, None when the path leads nowhere. */
  function Read(o: Obj, path: Path): Option<Json> {
    if Has(JObj(o), path) then Some(Get(JObj(o), path)) else None
  }

  /** A segment the two key rules treat alike: none of its spellings is the empty key, unless it is empty. */
  predicate Plain(segment: Segment) {
    segment.text == "" || "" !in Spellings(segment)
  }

  predicate PlainPath(path: Path) {
    |path| > 0 && forall i :: 0 <= i < |path| ==> Plain(path[i])
  }

  /** The paths part at a segment whose spellings are disjoint; in particular neither is a prefix of the other. */
  predicate Independent(p: Path, q: Path) {
    p != [] && q != [] &&
    (Spellings(p[0]) !! Spellings(q[0]) || (p[0] == q[0] && Independent(p[1..], q[1..])))
  }

  /** Every parent on the path is an object that is there. */
  predicate ParentsOk(o: Obj, path: Path)
    decreases |path|
  {
    |path| <= 1 ||
    (var key := ResolveKey(o, path[0]);
     key.Some? && o[key.value].JObj? && ParentsOk(o[key.value].fields, path[1..]))
  }

  lemma WriteKeyResolves(o: Obj, segment: Segment, v: Json)
    requires Plain(segment)
    ensures var key := WriteKey(o, segment);
            ResolveKey(o[key := v], segment) == Some(key) && WriteKey(o[key := v], segment) == key
    ensures ResolveKey(o, segment).Some? ==> ResolveKey(o, segment).value == WriteKey(o, segment)
    ensures WriteKey(o, segment) in o ==> ResolveKey(o, segment).Some?
  {
  }

  /** A value written at any path of any tree is read back there. */
  lemma {:induction false} GetAfterSet(o: Obj, path: Path, v: Json)
    requires PlainPath(path)
    ensures Read(Set(o, path, v), path) == Some(v)
    decreases |path|
  {
    var key, rest := WriteKey(o, path[0]), path[1..];
    var was := Lookup(o, key);
    WriteKeyResolves(o, path[0], Fill(was, rest, v));
    if rest == [] {
    } else {
      GetAfterSet(FieldsOf(was), rest, v);
    }
    assert Has(Fill(was, rest, v), rest) && Get(Fill(was, rest, v), rest) == v;
  }

  lemma {:induction false} NothingInside(j: Json, path: Path)
    requires !j.JObj? || j.fields == map[]
    requires path != []
    ensures !Has(j, path) && Get(j, path) == JNull
  {
  }

  /** A write leaves every independent path alone, also when it creates or replaces objects on its way. */
  lemma {:induction false} SetKeepsIndependent(o: Obj, p: Path, q: Path, v: Json)
    requires PlainPath(p) && Independent(p, q)
    ensures Read(Set(o, p, v), q) == Read(o, q)
    decreases |p|
  {
    var key := WriteKey(o, p[0]);
    var was := Lookup(o, key);
    var new' := Fill(was, p[1..], v);
    if Spellings(p[0]) !! Spellings(q[0]) {
      OtherKeyRead(o, q, key, new');
    } else {
      WriteKeyResolves(o, p[0], new');
      assert p[1..] != [] && q[1..] != [];
      SetKeepsIndependent(FieldsOf(was), p[1..], q[1..], v);
      if !was.JObj? {
        NothingInside(was, q[1..]);
        NothingInside(JObj(map[]), q[1..]);
      }
    }
  }

  /** So does a deletion. */
  lemma {:induction false} DeleteKeepsIndependent(o: Obj, p: Path, q: Path)
    requires |p| > 0 && Independent(p, q)
    ensures Read(Delete(o, p), q) == Read(o, q)
    decreases |p|
  {
    var key := ResolveKey(o, p[0]);
    var after := Delete(o, p);
    if Spellings(p[0]) !! Spellings(q[0]) {
      assert ResolveKey(after, q[0]) == ResolveKey(o, q[0]);
    } else if key.Some? && |p| > 1 && o[key.value].JObj? {
      assert q[1..] != [] && p[1..] != [];
      DeleteKeepsIndependent(o[key.value].fields, p[1..], q[1..]);
      assert ResolveKey(after, q[0]) == key;
    }
  }

  /** The second of two writes at one path decides. */
  lemma {:induction false} SetSet(o: Obj, path: Path, v: Json, w: Json)
    requires PlainPath(path)
    ensures Set(Set(o, path, v), path, w) == Set(o, path, w)
    decreases |path|, 0
  {
    var key, rest := WriteKey(o, path[0]), path[1..];
    var was := Lookup(o, key);
    FillFill(was, rest, v, w);
    WriteKeyResolves(o, path[0], Fill(was, rest, v));
    hide Fill, ResolveKey, WriteKey;
  }

  lemma {:induction false} FillFill(was: Json, rest: Path, v: Json, w: Json)
    requires forall i :: 0 <= i < |rest| ==> Plain(rest[i])
    ensures Fill(Fill(was, rest, v), rest, w) == Fill(was, rest, w)
    decreases |rest|, 1
  {
    if rest == [] {
    } else {
      SetSet(FieldsOf(was), rest, v, w);
    }
  }

  /** Writing what is there already changes nothing. */
  lemma {:induction false} SetRead(o: Obj, path: Path)
    requires PlainPath(path) && Has(JObj(o), path)
    ensures Set(o, path, Get(JObj(o), path)) == o
    decreases |path|
  {
    var key, rest := WriteKey(o, path[0]), path[1..];
    WriteKeyResolves(o, path[0], JNull);
    if rest == [] {
    } else {
      assert o[key].JObj?;
      SetRead(o[key].fields, rest);
    }
    assert Fill(o[key], rest, Get(o[key], rest)) == o[key];
  }

  lemma HasLeaf(o: Obj, path: Path)
    requires |path| == 1
    ensures Has(JObj(o), path) <==> ResolveKey(o, path[0]).Some?
  {
    assert path[1..] == [];
  }

  /** A write at a path that was empty, under parents that were there, is undone by a deletion. */
  lemma {:induction false} DeleteSet(o: Obj, path: Path, v: Json)
    requires PlainPath(path) && ParentsOk(o, path) && !Has(JObj(o), path)
    ensures Delete(Set(o, path, v), path) == o
    decreases |path|
  {
    var key, rest := WriteKey(o, path[0]), path[1..];
    var new' := Fill(Lookup(o, key), rest, v);
    WriteKeyResolves(o, path[0], new');
    if rest == [] {
      HasLeaf(o, path);
      assert o[key := new'] - {key} == o;
    } else {
      DeleteSet(o[key].fields, rest, v);
    }
  }

  /** A write makes the parents it needs. */
  lemma {:induction false} SetMakesParents(o: Obj, path: Path, v: Json)
    requires PlainPath(path)
    ensures ParentsOk(Set(o, path, v), path)
    decreases |path|
  {
    if |path| <= 1 {
    } else {
      var key, rest := WriteKey(o, path[0]), path[1..];
      WriteKeyResolves(o, path[0], Fill(Lookup(o, key), rest, v));
      SetMakesParents(FieldsOf(Lookup(o, key)), rest, v);
    }
  }

  /** A deletion never removes a parent. */
  lemma {:induction false} DeleteKeepsParents(o: Obj, path: Path)
    requires |path| > 0 && ParentsOk(o, path)
    ensures ParentsOk(Delete(o, path), path)
    decreases |path|
  {
    if |path| <= 1 {
    } else {
      DeleteKeepsParents(o[ResolveKey(o, path[0]).value].fields, path[1..]);
    }
  }

  /** A value can only be read under parents that are there. */
  lemma {:induction false} HasNeedsParents(o: Obj, path: Path)
    requires Has(JObj(o), path)
    ensures ParentsOk(o, path)
    decreases |path|
  {
    if |path| <= 1 {
    } else {
      HasNeedsParents(o[ResolveKey(o, path[0]).value].fields, path[1..]);
    }
  }

  /** Where nothing was read, nothing is read after a write and a deletion, whatever parents they leave behind. */
  lemma {:induction false} NothingAfterDelete(o: Obj, path: Path, v: Json)
    requires PlainPath(path) && !Has(JObj(o), path)
    ensures !Has(JObj(Delete(Set(o, path, v), path)), path)
    decreases |path|
  {
    var key, rest := WriteKey(o, path[0]), path[1..];
    var was := Lookup(o, key);
    var new' := Fill(was, rest, v);
    WriteKeyResolves(o, path[0], new');
    if rest == [] {
      HasLeaf(o, path);
      assert o[key := new'] - {key} == o;
    } else {
      if !was.JObj? || key !in o {
        NothingInside(JObj(map[]), rest);
      }
      NothingAfterDelete(FieldsOf(was), rest, v);
      hide Set, Delete;
      assert ResolveKey(o[key := JObj(Delete(new'.fields, rest))], path[0]) == Some(key);
    }
  }

  /** The object that a deletion takes its leaf from holds no other spelling of that leaf. */
  predicate LoneLeaf(o: Obj, path: Path)
    requires |path| > 0
    decreases |path|
  {
    var key := ResolveKey(o, path[0]);
    if key.None? then true
    else if |path| == 1 then forall k :: k in Spellings(path[0]) && k in o ==> k == key.value
    else if o[key.value].JObj? then LoneLeaf(o[key.value].fields, path[1..])
    else true
  }

  lemma OtherSpellings(o: Obj, segment: Segment, key: string)
    ensures ResolveKey(o - {key}, segment) == None <==> forall k :: k in Spellings(segment) && k in o ==> k == key
  {
    var left := ResolveKey(o - {key}, segment);
    assert left.Some? ==> left.value in Spellings(segment) && left.value in o && left.value != key;
  }

  /** A deletion leaves nothing to read at its path exactly when the leaf was there under one spelling at most. */
  lemma {:induction false} NothingLeft(o: Obj, path: Path)
    requires |path| > 0
    ensures Read(Delete(o, path), path) == None <==> LoneLeaf(o, path)
    decreases |path|
  {
    var key := ResolveKey(o, path[0]);
    if |path| == 1 {
      HasLeaf(Delete(o, path), path);
      if key.Some? {
        OtherSpellings(o, path[0], key.value);
      }
    } else if key.Some? && o[key.value].JObj? {
      var inner := Delete(o[key.value].fields, path[1..]);
      NothingLeft(o[key.value].fields, path[1..]);
      assert Delete(o, path) == o[key.value := JObj(inner)];
      assert ResolveKey(o[key.value := JObj(inner)], path[0]) == key;
    } else {
      assert path[1..] != [];
      assert !Has(JObj(o), path);
      assert Delete(o, path) == o;
    }
  }

  /** Parents that are there stay there. */
  lemma {:induction false} SetKeepsParents(o: Obj, p: Path, q: Path, v: Json)
    requires PlainPath(p) && (p == q || Independent(p, q))
    requires ParentsOk(o, q)
    ensures ParentsOk(Set(o, p, v), q)
    decreases |p|
  {
    var key := WriteKey(o, p[0]);
    var new' := Fill(Lookup(o, key), p[1..], v);
    if p != q && Spellings(p[0]) !! Spellings(q[0]) {
      OtherKeyRead(o, q, key, new');
    } else if |q| > 1 {
      WriteKeyResolves(o, p[0], new');
      assert |p| > 1;
      SetKeepsParents(o[key].fields, p[1..], q[1..], v);
    }
  }

  lemma ResolveOther(o: Obj, segment: Segment, key: string, x: Json)
    requires key !in Spellings(segment)
    ensures ResolveKey(o[key := x], segment) == ResolveKey(o, segment) == ResolveKey(o - {key}, segment)
    ensures WriteKey(o[key := x], segment) == WriteKey(o, segment) == WriteKey(o - {key}, segment) != key
  {
  }

  /** A change at a key that the first segment cannot name passes through every operation on the path. */
  lemma OtherKeyRead(o: Obj, path: Path, key: string, x: Json)
    requires |path| > 0 && key !in Spellings(path[0])
    ensures Read(o[key := x], path) == Read(o, path) == Read(o - {key}, path)
    ensures ParentsOk(o[key := x], path) == ParentsOk(o, path) == ParentsOk(o - {key}, path)
  {
    ResolveOther(o, path[0], key, x);
  }

  lemma OtherKeySet(o: Obj, path: Path, key: string, x: Json, v: Json)
    requires |path| > 0 && key !in Spellings(path[0])
    ensures Set(o[key := x], path, v) == Set(o, path, v)[key := x]
    ensures Set(o - {key}, path, v) == Set(o, path, v) - {key}
    ensures key in Set(o, path, v) <==> key in o
    ensures key in o ==> Set(o, path, v)[key] == o[key]
  {
    hide Fill;
    ResolveOther(o, path[0], key, x);
    hide ResolveKey, WriteKey, Spellings;
    var k := WriteKey(o, path[0]);
    var y := Fill(Lookup(o, k), path[1..], v);
    assert o[key := x][k := y] == o[k := y][key := x];
    assert (o - {key})[k := y] == o[k := y] - {key};
  }

  lemma OtherKeyDelete(o: Obj, path: Path, key: string, x: Json)
    requires |path| > 0 && key !in Spellings(path[0])
    ensures Delete(o[key := x], path) == Delete(o, path)[key := x]
    ensures Delete(o - {key}, path) == Delete(o, path) - {key}
    ensures key in Delete(o, path) <==> key in o
    ensures key in o ==> Delete(o, path)[key] == o[key]
  {
    ResolveOther(o, path[0], key, x);
  }

  lemma SetTwice(o: Obj, p: Path, q: Path, v: Json, w: Json)
    requires |p| > 1 && |q| > 1 && p[0] == q[0] && Plain(p[0])
    ensures var key := WriteKey(o, p[0]);
            Set(Set(o, p, v), q, w) == o[key := JObj(Set(Set(FieldsOf(Lookup(o, key)), p[1..], v), q[1..], w))]
  {
    var key := WriteKey(o, p[0]);
    var was := Lookup(o, key);
    var inner := Fill(was, p[1..], v);
    WriteKeyResolves(o, p[0], inner);
    assert Fill(inner, q[1..], w) == JObj(Set(Set(FieldsOf(was), p[1..], v), q[1..], w));
    hide Fill, ResolveKey, WriteKey;
    assert o[key := inner][key := Fill(inner, q[1..], w)] == o[key := Fill(inner, q[1..], w)];
  }

  lemma SetTop(o: Obj, path: Path, v: Json) returns (key: string, x: Json)
    requires |path| > 0
    ensures key in Spellings(path[0]) && Set(o, path, v) == o[key := x]
  {
    key := WriteKey(o, path[0]);
    x := Fill(Lookup(o, key), path[1..], v);
  }

  lemma UpdatesCommute(o: Obj, a: string, x: Json, b: string, y: Json)
    requires a != b
    ensures o[a := x][b := y] == o[b := y][a := x]
  {
  }

  lemma SetsApart(o: Obj, p: Path, q: Path, v: Json, w: Json)
    requires |p| > 0 && |q| > 0 && Spellings(p[0]) !! Spellings(q[0])
    ensures Set(Set(o, p, v), q, w) == Set(Set(o, q, w), p, v)
  {
    hide Set;
    var pk, px := SetTop(o, p, v);
    var qk, qx := SetTop(o, q, w);
    OtherKeySet(o, q, pk, px, w);
    OtherKeySet(o, p, qk, qx, v);
    UpdatesCommute(o, pk, px, qk, qx);
  }

  /** Writes at independent paths commute. */
  lemma {:induction false} SetsCommute(o: Obj, p: Path, q: Path, v: Json, w: Json)
    requires PlainPath(p) && PlainPath(q) && Independent(p, q)
    ensures Set(Set(o, p, v), q, w) == Set(Set(o, q, w), p, v)
    decreases |p|
  {
    if Spellings(p[0]) !! Spellings(q[0]) {
      SetsApart(o, p, q, v, w);
    } else {
      assert p[1..] != [] && q[1..] != [];
      hide Set;
      SetTwice(o, p, q, v, w);
      SetTwice(o, q, p, w, v);
      SetsCommute(FieldsOf(Lookup(o, WriteKey(o, p[0]))), p[1..], q[1..], v, w);
    }
  }

  /** The reading loops of the store, over a moving `current`. */
  method HasFieldPath(payload: Obj, segments: Path) returns (found: bool)
    ensures found == Has(JObj(payload), segments)
  {
    var current := JObj(payload);
    for i := 0 to |segments|
      invariant Has(JObj(payload), segments) == Has(current, segments[i..])
    {
      if !current.JObj? {
        return false;
      }
      var key := ResolveKey(current.fields, segments[i]);
      if key.None? {
        return false;
      }
      current := current.fields[key.value];
    }
    return true;
  }

  method GetFieldPath(payload: Obj, segments: Path) returns (value: Json)
    ensures value == Get(JObj(payload), segments)
    ensures Read(payload, segments) == Some(value) || (Read(payload, segments) == None && value == JNull)
  {
    if !Has(JObj(payload), segments) {
      NothingRead(JObj(payload), segments);
    }
    var current := JObj(payload);
    for i := 0 to |segments|
      invariant Get(JObj(payload), segments) == Get(current, segments[i..])
    {
      if !current.JObj? {
        return JNull;
      }
      var key := ResolveKey(current.fields, segments[i]);
      if key.None? {
        return JNull;
      }
      current := current.fields[key.value];
    }
    return current;
  }

  /** The objects passed on the way down, each with the key it was left by. */
  type Trail = seq<(Obj, string)>

  /** The payload again, with `o` at the end of the trail. */
  function Rebuild(trail: Trail, o: Obj): Obj {
    if trail == [] then o
    else
      var (parent, key) := trail[|trail| - 1];
      Rebuild(trail[..|trail| - 1], parent[key := JObj(o)])
  }

  lemma RebuildPush(trail: Trail, parent: Obj, key: string, o: Obj)
    ensures Rebuild(trail + [(parent, key)], o) == Rebuild(trail, parent[key := JObj(o)])
  {
    assert (trail + [(parent, key)])[..|trail|] == trail;
  }

  method WriteBack(passed: Trail, o: Obj) returns (payload: Obj)
    ensures payload == Rebuild(passed, o)
  {
    var trail := passed;
    payload := o;
    while trail != []
      invariant Rebuild(trail, payload) == Rebuild(passed, o)
      decreases |trail|
    {
      var (parent, key) := trail[|trail| - 1];
      payload := parent[key := JObj(payload)];
      trail := trail[..|trail| - 1];
    }
  }

  method SetFieldPath(payload: Obj, segments: Path, value: Json) returns (result: Obj)
    requires |segments| > 0
    ensures result == Set(payload, segments, value)
  {
    var current, trail: Trail := payload, [];
    for i := 0 to |segments| - 1
      invariant Rebuild(trail, Set(current, segments[i..], value)) == Set(payload, segments, value)
    {
      var key := WriteKey(current, segments[i]);
      RebuildPush(trail, current, key, Set(FieldsOf(Lookup(current, key)), segments[i + 1..], value));
      assert segments[i..][1..] == segments[i + 1..];
      trail := trail + [(current, key)];
      current := FieldsOf(Lookup(current, key));
    }
    assert segments[|segments| - 1..][1..] == [];
    current := current[WriteKey(current, segments[|segments| - 1]) := value];
    result := WriteBack(trail, current);
  }

  method DeleteFieldPath(payload: Obj, segments: Path) returns (result: Obj)
    requires |segments| > 0
    ensures result == Delete(payload, segments)
  {
    var current, trail: Trail := payload, [];
    for i := 0 to |segments| - 1
      invariant Rebuild(trail, Delete(current, segments[i..])) == Delete(payload, segments)
      invariant Rebuild(trail, current) == payload
    {
      var key := ResolveKey(current, segments[i]);
      if key.None? || !current[key.value].JObj? {
        return payload;
      }
      var nested := current[key.value].fields;
      assert segments[i..][1..] == segments[i + 1..];
      RebuildPush(trail, current, key.value, Delete(nested, segments[i + 1..]));
      RebuildPush(trail, current, key.value, nested);
      assert current[key.value := JObj(nested)] == current;
      trail := trail + [(current, key.value)];
      current := nested;
    }
    var leaf := ResolveKey(current, segments[|segments| - 1]);
    if leaf.None? {
      return payload;
    }
    result := WriteBack(trail, current - {leaf.value});
  }

  lemma {:induction false} NothingRead(j: Json, path: Path)
    requires !Has(j, path)
    decreases |path|
    ensures Get(j, path) == JNull
  {
    if j.JObj? && ResolveKey(j.fields, path[0]).Some? {
      NothingRead(j.fields[ResolveKey(j.fields, path[0]).value], path[1..]);
    }
  }

  /** A snake name and its camel spelling resolve to the same key exactly when the object does not hold both. */
  lemma SpellingsResolveAlike(o: Obj, name: string)
    requires SnakeName(name)
    ensures ResolveKey(o, SegmentOf(name)) == ResolveKey(o, SegmentOf(SnakeToCamel(name)))
            <==> (name in o && SnakeToCamel(name) in o ==> name == SnakeToCamel(name))
  {
    SnakeRoundTrip(name);
    SpellingsAreStable(name);
  }

  /** No object inside `j`, as far as the path reaches, holds both spellings of a segment. */
  predicate OneSpelling(j: Json, path: Path)
    decreases |path|
  {
    path == [] || !j.JObj? ||
    ((path[0].text in j.fields && path[0].camel in j.fields ==> path[0].text == path[0].camel) &&
     var key := ResolveKey(j.fields, path[0]);
     key.Some? ==> OneSpelling(j.fields[key.value], path[1..]))
  }

  /** Under either spelling of each of its segments, a path reads the same value. */
  lemma {:induction false} EitherSpellingReads(j: Json, path: Path, other: Path)
    requires |path| == |other|
    requires forall i :: 0 <= i < |path| ==>
               SnakeName(path[i].text) && path[i] == SegmentOf(path[i].text) &&
               (other[i] == path[i] || other[i] == SegmentOf(path[i].camel))
    requires OneSpelling(j, path)
    decreases |path|
    ensures Has(j, path) == Has(j, other) && Get(j, path) == Get(j, other)
  {
    if path != [] && j.JObj? {
      SpellingsResolveAlike(j.fields, path[0].text);
      var key := ResolveKey(j.fields, path[0]);
      if key.Some? {
        EitherSpellingReads(j.fields[key.value], path[1..], other[1..]);
      }
    }
  }
}
