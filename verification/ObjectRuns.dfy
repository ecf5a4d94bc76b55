/** What every run of the object store keeps. */
module ObjectRuns {
  import opened PyValues
  import opened Text
  import opened Events
  import opened Objects

  /* Every call is made of a few changes: a row stored, a row dropped, a tree changed, an event of another store. */

  datatype Change =
    | Stored(path: string, row: ObjectRow, content: Bytes, now: int)
    | Dropped(path: string, now: int)
    | Removed(path: string)
    | Made(at: Place)
    | Foreign(event: Event)

  /** The change can happen in this state. */
  predicate Possible(db: ObjectDb, c: Change) {
    match c
    case Stored(path, row, content, _) => !Blocked(db.tree, PlaceOf(path)) && PlaceOf(path) !in db.tree.dirs
    case Dropped(path, _) => path in db.rows
    case Removed(path) => path !in db.rows
    case Made(at) => at in db.tree.dirs && !Blocked(db.tree, at)
    case Foreign(event) => !event.stream.ObjectStream?
  }

  function Written(tree: Tree, at: Place, content: Bytes): Tree {
    var made := MakeParents(tree, at);
    made.(files := made.files[at := content])
  }

  function Changed(cfg: Config, db: ObjectDb, c: Change): ObjectDb
    requires Possible(db, c)
  {
    match c
    case Stored(path, row, content, now) =>
      StoreRow(cfg, db.(tree := Written(db.tree, PlaceOf(path), content)), path, row, now)
    case Dropped(path, now) => DropRow(cfg, db, path, now)
    case Removed(path) => db.(tree := Remove(db.tree, PlaceOf(path)))
    case Made(at) => db.(tree := MakeParents(db.tree, at))
    case Foreign(event) => db.(log := db.log + [event.(id := |db.log| + 1)])
  }

  /** The place a call may change. */
  function Target(op: ObjectOp): Option<Place> {
    match op
    case Elsewhere(_) => None
    case Pruning(row, _) => Some(PlaceOf(row))
    case _ => if ValidatePath(op.path).Ok? then Some(PlaceOf(ValidatePath(op.path).value)) else None
  }

  function PlaceChanged(c: Change): Option<Place> {
    match c
    case Foreign(_) => None
    case Made(at) => Some(at)
    case _ => Some(PlaceOf(c.path))
  }

  /** The step is one change, or none. */
  lemma StepChange(cfg: Config, db: ObjectDb, op: ObjectOp) returns (c: Option<Change>)
    ensures c.None? ==> Step(cfg, db, op) == db
    ensures c.Some? ==> Possible(db, c.value) && Changed(cfg, db, c.value) == Step(cfg, db, op)
    ensures c.Some? && !c.value.Foreign? ==> PlaceChanged(c.value) == Target(op)
    ensures c.Some? && c.value.Stored? ==>
              op.Putting? && ValidatePath(op.path) == Ok(c.value.path) && c.value.content == op.content
              && c.value.row.size == |op.content| && c.value.row.checksum == cfg.sha(op.content)
  {
    hide ValidatePath, PlaceOf, Record, Remove, MakeParents, Blocked, HasExpired;
    c := None;
    match op
    case Putting(path, content, contentType, ttl, metadata, now) =>
      var valid := ValidatePath(path);
      if |content| <= cfg.maxBytes && valid.Ok? && !Blocked(db.tree, PlaceOf(valid.value)) {
        var row := NewRow(cfg, db, valid.value, content, contentType, ttl, metadata, now);
        c := Some(if PlaceOf(valid.value) in db.tree.dirs then Made(PlaceOf(valid.value))
                  else Stored(valid.value, row, content, now));
      }
    case Deleting(path, now) =>
      var valid := ValidatePath(path);
      if valid.Ok? {
        c := Some(if valid.value in db.rows then Dropped(valid.value, now) else Removed(valid.value));
      }
    case Elsewhere(event) =>
      if !event.stream.ObjectStream? {
        c := Some(Foreign(event));
      }
    case Fetching(path, now) =>
      var valid := ValidatePath(path);
      if valid.Ok? && Prune(cfg, db, valid.value, now) != db {
        c := Some(Dropped(valid.value, now));
      }
    case Describing(path, now) =>
      var valid := ValidatePath(path);
      if valid.Ok? && Prune(cfg, db, valid.value, now) != db {
        c := Some(Dropped(valid.value, now));
      }
    case Pruning(row, now) =>
      if Prune(cfg, db, row, now) != db {
        c := Some(Dropped(row, now));
      }
  }

  /* The tree stays a tree. */

  lemma WrittenOk(tree: Tree, at: Place, content: Bytes)
    requires TreeOk(tree) && !Blocked(tree, at) && at !in tree.dirs
    ensures TreeOk(Written(tree, at, content))
  {
    var made := MakeParents(tree, at);
    MadeOk(tree, at);
    assert forall i :: 0 <= i < |at| ==> at[..i] in Ancestors(at);
    assert at !in Ancestors(at);
  }

  lemma MadeOk(tree: Tree, at: Place)
    requires TreeOk(tree) && !Blocked(tree, at)
    ensures TreeOk(MakeParents(tree, at))
  {
    var made := MakeParents(tree, at);
    forall q, i | q in made.dirs && 0 <= i < |q| ensures q[..i] in made.dirs {
      if q in Ancestors(at) {
        var k :| 0 <= k < |at| && q == at[..k];
        assert q[..i] == at[..i];
        assert q[..i] in Ancestors(at);
      }
    }
  }

  lemma RemoveOk(tree: Tree, at: Place)
    requires TreeOk(tree)
    ensures TreeOk(Remove(tree, at))
  {
    var rest := Remove(tree, at);
    forall q, i | Exists(rest, q) && 0 <= i < |q| ensures q[..i] in rest.dirs {
      assert at <= q[..i] ==> at <= q;
    }
  }

  lemma StepTree(cfg: Config, db: ObjectDb, op: ObjectOp)
    requires TreeOk(db.tree)
    ensures TreeOk(Step(cfg, db, op).tree)
  {
    hide Step, TreeOk, ValidatePath, PlaceOf, Record, Remove, MakeParents, Blocked;
    var c := StepChange(cfg, db, op);
    if c.Some? {
      match c.value
      case Stored(path, row, content, now) => WrittenOk(db.tree, PlaceOf(path), content);
      case Dropped(path, now) => RemoveOk(db.tree, PlaceOf(path));
      case Removed(path) => RemoveOk(db.tree, PlaceOf(path));
      case Made(at) => MadeOk(db.tree, at);
      case Foreign(event) =>
    }
  }

  /** In every reachable state the files form a tree. */
  lemma {:induction false} RunTree(cfg: Config, db: ObjectDb, ops: seq<ObjectOp>)
    requires TreeOk(db.tree)
    ensures TreeOk(Run(cfg, db, ops).tree)
    decreases |ops|
  {
    if ops == [] {
    } else {
      hide Step, TreeOk;
      StepTree(cfg, db, ops[0]);
      RunTree(cfg, Step(cfg, db, ops[0]), ops[1..]);
    }
  }

  /* Histories. */

  /** Where a history of the form (CREATE UPDATE* DELETED)* (CREATE UPDATE*)? stands: whether its last block is open;
      None when it has another form. */
  function Block(log: Log, path: string): Option<bool> {
    if log == [] then Some(false)
    else
      var e, before := log[|log| - 1], Block(log[..|log| - 1], path);
      if !e.stream.ObjectStream? || e.subject != path || before.None? then before
      else if e.kind == Create && !before.value then Some(true)
      else if e.kind == Update && before.value then Some(true)
      else if e.kind == Deleted && before.value then Some(false)
      else None
  }

  /** What the log says is stored under a path. */
  function Shelf(log: Log, path: string): Option<Obj> {
    if log == [] then None
    else
      var e := log[|log| - 1];
      if !e.stream.ObjectStream? || e.subject != path then Shelf(log[..|log| - 1], path)
      else if e.kind == Deleted || !e.body.ObjectBody? then None
      else Some(e.body.object')
  }

  predicate InStep(cfg: Config, db: ObjectDb, path: string) {
    Block(db.log, path) == Some(path in db.rows) &&
    Shelf(db.log, path) == if path in db.rows then Some(RowPayload(cfg.rt, path, db.rows[path])) else None
  }

  lemma PushBlock(log: Log, e: Event, path: string)
    ensures !e.stream.ObjectStream? || e.subject != path ==>
              Block(log + [e], path) == Block(log, path) && Shelf(log + [e], path) == Shelf(log, path)
    ensures e.stream.ObjectStream? && e.subject == path && e.body.ObjectBody? ==>
              && (e.kind == Create && Block(log, path) == Some(false) ==>
                    Block(log + [e], path) == Some(true) && Shelf(log + [e], path) == Some(e.body.object'))
              && (e.kind == Update && Block(log, path) == Some(true) ==>
                    Block(log + [e], path) == Some(true) && Shelf(log + [e], path) == Some(e.body.object'))
              && (e.kind == Deleted && Block(log, path) == Some(true) ==>
                    Block(log + [e], path) == Some(false) && Shelf(log + [e], path) == None)
  {
    assert (log + [e])[..|log|] == log;
  }

  lemma StepInStep(cfg: Config, db: ObjectDb, op: ObjectOp, path: string)
    requires InStep(cfg, db, path)
    ensures InStep(cfg, Step(cfg, db, op), path)
  {
    hide Step, ValidatePath, PlaceOf, Remove, MakeParents, Blocked, RowPayload, Block, Shelf;
    var c := StepChange(cfg, db, op);
    var next := Step(cfg, db, op);
    if next.log != db.log {
      var e := next.log[|db.log|];
      assert next.log == db.log + [e];
      PushBlock(db.log, e, path);
    }
  }

  /** In every reachable state each object's history is well formed, its row exists if and only if the last block is
      open, and the row is what the log says is stored. */
  lemma {:induction false} RunInStep(cfg: Config, db: ObjectDb, ops: seq<ObjectOp>, path: string)
    requires InStep(cfg, db, path)
    ensures InStep(cfg, Run(cfg, db, ops), path)
    decreases |ops|
  {
    if ops == [] {
    } else {
      hide Step, InStep;
      StepInStep(cfg, db, ops[0], path);
      RunInStep(cfg, Step(cfg, db, ops[0]), ops[1..], path);
    }
  }

  lemma EmptyInStep(cfg: Config, path: string)
    ensures InStep(cfg, EMPTY, path) && TreeOk(EMPTY.tree)
  {
  }

  /* Bytes match metadata. */

  /** The file of a row is the one its metadata was computed from. */
  predicate Match(cfg: Config, db: ObjectDb, path: string) {
    path in db.rows && PlaceOf(path) in db.tree.files ==>
      && db.rows[path].size == |db.tree.files[PlaceOf(path)]|
      && db.rows[path].checksum == cfg.sha(db.tree.files[PlaceOf(path)])
  }

  /** No call stores another path at the same place. */
  predicate OwnPlace(ops: seq<ObjectOp>, path: string) {
    forall op :: op in ops && op.Putting? && Target(op) == Some(PlaceOf(path)) ==> ValidatePath(op.path).value == path
  }

  lemma StepMatch(cfg: Config, db: ObjectDb, op: ObjectOp, path: string)
    requires Match(cfg, db, path) && OwnPlace([op], path)
    ensures Match(cfg, Step(cfg, db, op), path)
  {
    hide Step, ValidatePath, PlaceOf, Record, MakeParents, Blocked;
    var c := StepChange(cfg, db, op);
    assert op in [op];
    if c.Some? && c.value.Stored? {
      MakeKeepsFiles(db.tree, PlaceOf(c.value.path));
    }
    if c.Some? && c.value.Made? {
      MakeKeepsFiles(db.tree, c.value.at);
    }
  }

  lemma MakeKeepsFiles(tree: Tree, at: Place)
    ensures MakeParents(tree, at).files == tree.files
  {
  }

  /** As long as no other path is stored at its place, an object's file is the one its metadata describes, in every
      state that puts, deletes (of ancestors, too) and expiry can reach. */
  lemma {:induction false} RunMatch(cfg: Config, db: ObjectDb, ops: seq<ObjectOp>, path: string)
    requires Match(cfg, db, path) && OwnPlace(ops, path)
    ensures Match(cfg, Run(cfg, db, ops), path)
    decreases |ops|
  {
    if ops == [] {
    } else {
      assert OwnPlace([ops[0]], path) && OwnPlace(ops[1..], path);
      hide Step, Match, OwnPlace;
      StepMatch(cfg, db, ops[0], path);
      RunMatch(cfg, Step(cfg, db, ops[0]), ops[1..], path);
    }
  }

  lemma PayloadFields(rt: Runtime, path: string, row: ObjectRow)
    ensures Lookup(RowPayload(rt, path, row), "sizeBytes") == JInt(row.size)
    ensures Lookup(RowPayload(rt, path, row), "checksumSha256") == JStr(row.checksum)
  {
  }

  /** What a fetch returns has the size and the checksum of its bytes. */
  lemma FetchMatches(cfg: Config, db: ObjectDb, path: string, now: int)
    requires ValidatePath(path).Ok? && Match(cfg, db, ValidatePath(path).value)
    ensures var reply := Fetch(cfg, db, path, now).1;
            reply.Ok? && reply.value.Some? ==>
              var (metadata, bytes) := reply.value.value;
              && Lookup(metadata, "sizeBytes") == JInt(|bytes|)
              && Lookup(metadata, "checksumSha256") == JStr(cfg.sha(bytes))
  {
    hide ValidatePath, PlaceOf, Record, Remove, RowPayload, Lookup;
    var p := ValidatePath(path).value;
    if p in db.rows {
      PayloadFields(cfg.rt, p, db.rows[p]);
    }
  }

  lemma {:induction false} AllKept(parts: seq<string>)
    requires forall i :: 0 <= i < |parts| ==> parts[i] != "" && parts[i] != "."
    ensures Components(parts) == parts
  {
    if parts == [] {
    } else {
      AllKept(parts[1..]);
    }
  }

  /** Canonical paths name different places. */
  lemma CanonicalPlaces(p: string, q: string)
    requires Canonical(p) && Canonical(q) && PlaceOf(p) == PlaceOf(q)
    ensures p == q
  {
    AllKept(Split(p, '/'));
    AllKept(Split(q, '/'));
    SplitInjective(p, q, '/');
  }

  /** With canonical paths only, every fetch in every reachable state returns bytes that match their metadata. */
  lemma CanonicalFetchMatches(cfg: Config, ops: seq<ObjectOp>, path: string, now: int)
    requires forall op :: op in ops && op.Putting? && ValidatePath(op.path).Ok? ==>
        Canonical(ValidatePath(op.path).value)
    requires ValidatePath(path).Ok? && Canonical(ValidatePath(path).value)
    ensures var reply := Fetch(cfg, Run(cfg, EMPTY, ops), path, now).1;
            reply.Ok? && reply.value.Some? ==>
              var (metadata, bytes) := reply.value.value;
              && Lookup(metadata, "sizeBytes") == JInt(|bytes|)
              && Lookup(metadata, "checksumSha256") == JStr(cfg.sha(bytes))
  {
    hide ValidatePath, PlaceOf, Canonical, Run, Fetch, Lookup;
    var p := ValidatePath(path).value;
    forall op | op in ops && op.Putting? && Target(op) == Some(PlaceOf(p)) ensures ValidatePath(op.path).value == p {
      CanonicalPlaces(ValidatePath(op.path).value, p);
    }
    RunMatch(cfg, EMPTY, ops, p);
    FetchMatches(cfg, Run(cfg, EMPTY, ops), path, now);
  }

  function Upload(path: string, content: Bytes): ObjectOp {
    Putting(path, content, "application/octet-stream", None, map[], 0)
  }

  lemma FirstUpload(cfg: Config, path: string, content: Bytes)
    requires ValidatePath(path) == Ok(path) && PlaceOf(path) != [] && |content| <= cfg.maxBytes
    ensures var db := Step(cfg, EMPTY, Upload(path, content));
            && db.rows.Keys == {path} && db.rows[path].expiry == None
            && db.rows[path].size == |content| && db.rows[path].checksum == cfg.sha(content)
            && db.tree.files == map[PlaceOf(path) := content]
            && PlaceOf(path) !in db.tree.dirs && !Blocked(db.tree, PlaceOf(path))
  {
    hide ValidatePath, PlaceOf, Record;
    var db := Step(cfg, EMPTY, Upload(path, content));
    assert db.tree.dirs == {[]} + Ancestors(PlaceOf(path));
  }

  /** The condition is needed: two spellings of one place, each put once into an empty store, make the first path
      describe the bytes of the second. */
  lemma AliasBreaksMatch(cfg: Config, p: string, q: string, c: Bytes, d: Bytes)
    requires ValidatePath(p) == Ok(p) && ValidatePath(q) == Ok(q) && p != q && PlaceOf(p) == PlaceOf(q) != []
    requires |c| <= cfg.maxBytes && |d| <= cfg.maxBytes && (|c| != |d| || cfg.sha(c) != cfg.sha(d))
    ensures var db := Run(cfg, EMPTY, [Upload(p, c), Upload(q, d)]);
            && !Match(cfg, db, p)
            && var reply := Fetch(cfg, db, p, 0).1;
               reply.Ok? && reply.value.Some? && reply.value.value.1 == d
               && reply.value.value.0 == RowPayload(cfg.rt, p, db.rows[p]) && db.rows[p].size == |c|
               && db.rows[p].checksum == cfg.sha(c)
  {
    hide ValidatePath, PlaceOf, Record, RowPayload, Ancestors, Blocked;
    var s1 := Step(cfg, EMPTY, Upload(p, c));
    var s2 := Step(cfg, s1, Upload(q, d));
    FirstUpload(cfg, p, c);
    assert [Upload(p, c), Upload(q, d)][1..] == [Upload(q, d)] && [Upload(q, d)][1..] == [];
    assert Run(cfg, EMPTY, [Upload(p, c), Upload(q, d)]) == Run(cfg, s1, [Upload(q, d)]) == s2;
  }

  lemma {:induction false} SplitAt(x: string, y: string, sep: char)
    ensures Split(x + [sep] + y, sep) == Split(x, sep) + Split(y, sep)
  {
    assert Split("", sep) == [""];
    hide Split;
    if x == "" {
      assert x + [sep] + y == [sep] + y;
      SplitFirst(sep, y, sep);
    } else {
      var rest := x[1..];
      assert x == [x[0]] + rest && x + [sep] + y == [x[0]] + (rest + [sep] + y);
      SplitAt(rest, y, sep);
      SplitFirst(x[0], rest, sep);
      SplitFirst(x[0], rest + [sep] + y, sep);
    }
  }

  lemma {:induction false} ComponentsConcat(a: seq<string>, b: seq<string>)
    ensures Components(a + b) == Components(a) + Components(b)
  {
    if a == [] {
      assert a + b == b;
    } else {
      assert (a + b)[1..] == a[1..] + b;
      ComponentsConcat(a[1..], b);
    }
  }

  lemma PlaceAt(x: string, y: string)
    ensures PlaceOf(x + "/" + y) == PlaceOf(x) + PlaceOf(y)
  {
    SplitAt(x, y, '/');
    ComponentsConcat(Split(x, '/'), Split(y, '/'));
  }

  lemma NoPlace(segment: string)
    requires segment == "" || segment == "."
    ensures PlaceOf(segment) == []
  {
    if segment == "." {
      assert "."[1..] == "";
      assert Split(".", '/') == ["."];
    }
  }

  /** The paths that the checks leave as they are. */
  predicate Accepted(path: string) {
    path != "" && path[0] != '/' && ".." !in Split(path, '/') && forall i :: 0 <= i < |path| ==> PathChar(path[i])
  }

  lemma AcceptedAsIs(path: string)
    ensures Accepted(path) <==> ValidatePath(path) == Ok(path)
  {
    hide Split;
    if Accepted(path) {
      assert PathChar(path[0]) && PathChar(path[|path| - 1]);
      assert Trimmed(path);
      hide Strip;
    } else if ValidatePath(path) == Ok(path) {
      SlashesStripped(Strip(path));
    }
  }

  lemma {:induction false} SlashesStripped(s: string)
    ensures var t := StripSlashes(s); t == "" || t[0] != '/'
  {
    if s != "" && s[0] == '/' {
      SlashesStripped(s[1..]);
    } else {
    }
  }

  /** Such spellings: an empty or a "." segment put anywhere into an accepted path is accepted too, is kept in the
      row's key, and is lost in the place of its file. */
  lemma LostSegment(x: string, segment: string, y: string)
    requires segment == "" || segment == "."
    ensures PlaceOf(x + "/" + (segment + "/" + y)) == PlaceOf(x + "/" + y)
    ensures x + "/" + (segment + "/" + y) != x + "/" + y
    ensures ValidatePath(x + "/" + y) == Ok(x + "/" + y) ==>
              ValidatePath(x + "/" + (segment + "/" + y)) == Ok(x + "/" + (segment + "/" + y))
  {
    hide PlaceOf, ValidatePath, Accepted;
    PlaceAt(x, segment + "/" + y);
    PlaceAt(segment, y);
    PlaceAt(x, y);
    NoPlace(segment);
    assert |x + "/" + (segment + "/" + y)| > |x + "/" + y|;
    AcceptedAsIs(x + "/" + y);
    AcceptedAsIs(x + "/" + (segment + "/" + y));
    if Accepted(x + "/" + y) {
      SegmentAccepted(x, segment, y);
    }
  }

  lemma SegmentAccepted(x: string, segment: string, y: string)
    requires (segment == "" || segment == ".") && Accepted(x + "/" + y)
    ensures Accepted(x + "/" + (segment + "/" + y))
  {
    var p, q := x + "/" + y, x + "/" + (segment + "/" + y);
    assert x != "" && p[0] == x[0] == q[0];
    SplitAt(x, y, '/');
    SplitAt(x, segment + "/" + y, '/');
    SplitAt(segment, y, '/');
    NoParentSegment(segment);
    hide Split;
    forall i | 0 <= i < |q| ensures PathChar(q[i]) {
      var k := |x| + 1 + |segment| + 1;
      if i < |x| {
        assert q[i] == p[i];
      } else if i >= k {
        assert q[i] == p[i - |segment| - 1];
      }
    }
  }

  lemma NoParentSegment(segment: string)
    requires segment == "" || segment == "."
    ensures ".." !in Split(segment, '/')
  {
    SplitWhole(segment, '/');
    hide Split;
    assert |segment| <= 1 && |".."| == 2;
  }

  /** One such pair, in one run: "a/b" and "a//b" put into an empty store leave the first with the second one's
      bytes. */
  lemma DoubledSlash(cfg: Config)
    requires cfg.maxBytes >= 1
    ensures ValidatePath("a/b") == Ok("a/b") && ValidatePath("a//b") == Ok("a//b")
    ensures var db := Run(cfg, EMPTY, [Upload("a/b", [1]), Upload("a//b", [])]);
            var reply := Fetch(cfg, db, "a/b", 0).1;
            && reply.Ok? && reply.value.Some? && reply.value.value.1 == []
            && Lookup(reply.value.value.0, "sizeBytes") == JInt(1)
  {
    PlainPair();
    hide ValidatePath, PlaceOf, Run, Fetch, RowPayload, Lookup;
    LostSegment("a", "", "b");
    PairText();
    AliasBreaksMatch(cfg, "a/b", "a//b", [1], []);
    var db := Run(cfg, EMPTY, [Upload("a/b", [1]), Upload("a//b", [])]);
    PayloadFields(cfg.rt, "a/b", db.rows["a/b"]);
  }

  lemma PlainPair()
    ensures ValidatePath("a/b") == Ok("a/b") && PlaceOf("a/b") != []
  {
    AcceptedAsIs("a/b");
    SplitAt("a", "b", '/');
    PlaceAt("a", "b");
    assert "a" + "/" + "b" == "a/b" && "a" + ['/'] + "b" == "a/b";
    OneSegment("a");
    OneSegment("b");
    hide ValidatePath, Split, PlaceOf;
    assert |".."| == 2 && |"a"| == 1 && |"b"| == 1;
  }

  lemma PairText()
    ensures "a" + "/" + "b" == "a/b" && "a" + "/" + ("" + "/" + "b") == "a//b"
  {
    var tail := "" + "/" + "b";
    assert tail == "/b";
    assert "a" + "/" + tail == "a//b";
  }

  lemma OneSegment(s: string)
    requires |s| == 1 && s[0] != '/' && s[0] != '.'
    ensures Split(s, '/') == [s] && PlaceOf(s) == [s]
  {
    hide Split;
    assert '/' !in s && s != "" && s != ".";
    SplitWhole(s, '/');
    AllKept([s]);
    hide Components;
  }

  /* What is put can be fetched. */

  /** The object is stored with these bytes. */
  predicate Holds(db: ObjectDb, path: string, row: ObjectRow, content: Bytes) {
    path in db.rows && db.rows[path] == row && PlaceOf(path) in db.tree.files && db.tree.files[PlaceOf(path)] == content
  }

  /** The call leaves the object alone: it names a place that is neither the object's nor above it, or it reads the
      object before it expires. */
  predicate LeavesAlone(op: ObjectOp, path: string, row: ObjectRow) {
    (Target(op).Some? ==> !(Target(op).value <= PlaceOf(path))) ||
    ((op.Fetching? || op.Describing?) && ValidatePath(op.path) == Ok(path) && !HasExpired(row, op.now)) ||
    (op.Pruning? && op.row == path && !HasExpired(row, op.now))
  }

  lemma StepHolds(cfg: Config, db: ObjectDb, op: ObjectOp, path: string, row: ObjectRow, content: Bytes)
    requires TreeOk(db.tree) && Holds(db, path, row, content) && LeavesAlone(op, path, row)
    ensures Holds(Step(cfg, db, op), path, row, content)
  {
    hide ValidatePath, PlaceOf, Record, Blocked, TreeOk;
    if Target(op).Some? && Target(op).value <= PlaceOf(path) {
    } else {
      var c := StepChange(cfg, db, op);
      hide Step, Target;
    }
  }

  /** An object survives every run that leaves it alone. */
  lemma {:induction false} RunHolds(
      cfg: Config, db: ObjectDb, ops: seq<ObjectOp>, path: string, row: ObjectRow, content: Bytes)
    requires TreeOk(db.tree) && Holds(db, path, row, content)
    requires forall op :: op in ops ==> LeavesAlone(op, path, row)
    ensures Holds(Run(cfg, db, ops), path, row, content) && TreeOk(Run(cfg, db, ops).tree)
    decreases |ops|
  {
    if ops == [] {
    } else {
      hide Step, Holds, TreeOk, LeavesAlone;
      StepHolds(cfg, db, ops[0], path, row, content);
      StepTree(cfg, db, ops[0]);
      RunHolds(cfg, Step(cfg, db, ops[0]), ops[1..], path, row, content);
    }
  }

  /** What was put is fetched again, with the metadata that the put returned, after any calls that leave it alone. */
  lemma FetchAfterPut(
      cfg: Config, db: ObjectDb, path: string, content: Bytes, contentType: string, ttl: Option<int>, metadata: Obj,
      now: int, ops: seq<ObjectOp>, later: int)
    requires TreeOk(db.tree)
    requires var (stored, reply) := Put(cfg, db, path, content, contentType, ttl, metadata, now);
             && reply.Ok?
             && var row := NewRow(cfg, db, ValidatePath(path).value, content, contentType, ttl, metadata, now);
                !HasExpired(row, later) && forall op :: op in ops ==> LeavesAlone(op, ValidatePath(path).value, row)
    ensures var (stored, reply) := Put(cfg, db, path, content, contentType, ttl, metadata, now);
            var last := Run(cfg, stored, ops);
            Fetch(cfg, last, path, later) == (last, Ok(Some((reply.value, content))))
  {
    hide ValidatePath, PlaceOf, Record, Blocked, RowPayload, TreeOk, Run, LeavesAlone, HasExpired;
    var p := ValidatePath(path).value;
    var stored := Put(cfg, db, path, content, contentType, ttl, metadata, now).0;
    var row := NewRow(cfg, db, p, content, contentType, ttl, metadata, now);
    StepTree(cfg, db, Putting(path, content, contentType, ttl, metadata, now));
    assert Holds(stored, p, row, content);
    RunHolds(cfg, stored, ops, p, row, content);
    hide Put, NewRow;
    NoDirectory(Run(cfg, stored, ops).tree, PlaceOf(p));
  }

  lemma NoDirectory(tree: Tree, at: Place)
    requires TreeOk(tree) && at in tree.files
    ensures at !in tree.dirs
  {
  }

  /** Deleting a path above an object takes its file away and leaves its row: metadata is still there, bytes are not. */
  lemma DeleteTakesTree(cfg: Config, db: ObjectDb, above: string, path: string, now: int, later: int)
    requires ValidatePath(above).Ok? && ValidatePath(path).Ok? && ValidatePath(above).value != ValidatePath(path).value
    requires PlaceOf(ValidatePath(above).value) in db.tree.dirs
    requires PlaceOf(ValidatePath(above).value) <= PlaceOf(ValidatePath(path).value)
    requires ValidatePath(path).value in db.rows && !HasExpired(db.rows[ValidatePath(path).value], later)
    ensures var next := Delete(cfg, db, above, now).0;
            && Fetch(cfg, next, path, later).1 == Ok(None)
            && Describe(cfg, next, path, later).1
               == Ok(Some(RowPayload(cfg.rt, ValidatePath(path).value, db.rows[ValidatePath(path).value])))
  {
    hide ValidatePath, PlaceOf, Record, RowPayload, HasExpired;
  }
}
