/** What the object calls accept, answer and keep, said from their arguments. */
module ObjectAnswers {
  import opened PyValues
  import opened Text
  import opened Objects
  import opened ObjectRuns

  /* Paths. */

  /** `p` is `s` without the slashes it starts with. */
  ghost predicate WithoutSlashes(s: string, p: string) {
    (p == "" || p[0] != '/') && |p| <= |s| && s[|s| - |p|..] == p && forall j :: 0 <= j < |s| - |p| ==> s[j] == '/'
  }

  /** Every character is a letter, a digit or one of five signs, and no segment is "..". */
  predicate Legal(p: string) {
    p != "" && ".." !in Split(p, '/') &&
    forall i :: 0 <= i < |p| ==>
      'a' <= p[i] <= 'z' || 'A' <= p[i] <= 'Z' || '0' <= p[i] <= '9' || p[i] in {'/', '_', '=', '-', '.'}
  }

  lemma {:induction false} StrippedSlashes(s: string)
    ensures WithoutSlashes(s, StripSlashes(s))
  {
    if s != "" && s[0] == '/' {
      StrippedSlashes(s[1..]);
      var p := StripSlashes(s[1..]);
      assert s[1..][|s[1..]| - |p|..] == s[|s| - |p|..];
      forall j | 0 <= j < |s| - |p| ensures s[j] == '/' {
        assert j > 0 ==> s[1..][j - 1] == s[j];
      }
    } else {
    }
  }

  lemma OneWithoutSlashes(s: string, p: string, q: string)
    requires WithoutSlashes(s, p) && WithoutSlashes(s, q)
    ensures p == q
  {
    assert p != "" ==> s[|s| - |p|] != '/';
    assert q != "" ==> s[|s| - |q|] != '/';
  }

  /** A path is accepted exactly when it is legal once white space at its ends and leading slashes are gone, and it is
      used in that form. */
  lemma ValidExactly(path: string, p: string)
    ensures ValidatePath(path) == Ok(p) <==> WithoutSlashes(Strip(path), p) && Legal(p)
  {
    var cleaned := StripSlashes(Strip(path));
    StrippedSlashes(Strip(path));
    if WithoutSlashes(Strip(path), p) {
      OneWithoutSlashes(Strip(path), p, cleaned);
    }
    hide StripSlashes, Strip, WithoutSlashes, Split;
  }

  /* Putting. */

  /** Content that is too large and a path that is not valid are refused, in this order, and change nothing. */
  lemma PutRefuses(
      cfg: Config, db: ObjectDb, path: string, content: Bytes, contentType: string, ttl: Option<int>, metadata: Obj,
      now: int)
    ensures var (next, reply) := Put(cfg, db, path, content, contentType, ttl, metadata, now);
            && (reply == Fails(TooLarge) <==> |content| > cfg.maxBytes)
            && (reply == Fails(BadPath) <==> |content| <= cfg.maxBytes && forall p :: ValidatePath(path) != Ok(p))
            && (reply == Fails(TooLarge) || reply == Fails(BadPath) ==> next == db)
  {
    hide ValidatePath, PlaceOf, RowPayload, StoreRow;
    assert forall p :: ValidatePath(path) == Ok(p) ==> ValidatePath(path).Ok?;
    if ValidatePath(path).Ok? {
      assert ValidatePath(path) == Ok(ValidatePath(path).value);
    }
    ValidFailure(path);
  }

  lemma ValidFailure(path: string)
    ensures ValidatePath(path).Fails? ==> ValidatePath(path).error == BadPath
  {
  }

  predicate FileAbove(tree: Tree, at: Place) {
    exists i :: 0 <= i < |at| && at[..i] in tree.files
  }

  /** Otherwise a put fails exactly when a file stands in the way of its directories or a directory in its place; the
      table, the log and the files stay as they were. */
  lemma PutFails(
      cfg: Config, db: ObjectDb, path: string, content: Bytes, contentType: string, ttl: Option<int>, metadata: Obj,
      now: int, p: string)
    requires ValidatePath(path) == Ok(p) && |content| <= cfg.maxBytes
    ensures var (next, reply) := Put(cfg, db, path, content, contentType, ttl, metadata, now);
            var at := PlaceOf(p);
            && (reply == Fails(NotADirectory) <==> FileAbove(db.tree, at))
            && (reply == Fails(IsADirectory) <==> !FileAbove(db.tree, at) && at in db.tree.dirs)
            && (reply.Ok? <==> !FileAbove(db.tree, at) && at !in db.tree.dirs)
            && (reply.Fails? ==> next.log == db.log && next.rows == db.rows && next.tree.files == db.tree.files)
  {
    hide ValidatePath, PlaceOf, RowPayload, MakeParents;
    assert MakeParents(db.tree, PlaceOf(p)).files == db.tree.files by {
      MakeParentsFiles(db.tree, PlaceOf(p));
    }
  }

  lemma MakeParentsFiles(tree: Tree, at: Place)
    ensures MakeParents(tree, at).files == tree.files
  {
  }

  /** What a put that succeeds stores and answers, entry by entry. */
  lemma PutAnswers(
      cfg: Config, db: ObjectDb, path: string, content: Bytes, contentType: string, ttl: Option<int>, metadata: Obj,
      now: int, p: string)
    requires ValidatePath(path) == Ok(p)
    requires Put(cfg, db, path, content, contentType, ttl, metadata, now).1.Ok?
    ensures var (next, reply) := Put(cfg, db, path, content, contentType, ttl, metadata, now);
            var shown := reply.value;
            && p in next.rows && PlaceOf(p) in next.tree.files && next.tree.files[PlaceOf(p)] == content
            && Lookup(shown, "objectPath") == JStr(p) && Lookup(shown, "checksumSha256") == JStr(cfg.sha(content))
            && Lookup(shown, "sizeBytes") == JInt(|content|) && Lookup(shown, "contentType") == JStr(contentType)
            && Lookup(shown, "updatedTime") == JStr(cfg.rt.printTime(now))
            && Lookup(shown, "createdTime")
               == JStr(cfg.rt.printTime(if p in db.rows then db.rows[p].created else now))
            && Lookup(shown, "expiryTime")
               == (if ttl.None? then JNull else JStr(cfg.rt.printTime(now + 1000000 * ttl.value)))
            && Lookup(shown, "metadata") == JObj(metadata)
            && next.rows[p].created == (if p in db.rows then db.rows[p].created else now)
  {
    hide ValidatePath, PlaceOf, MakeParents, Blocked, RowPayload, Lookup, Record;
    var row := NewRow(cfg, db, p, content, contentType, ttl, metadata, now);
    RowShown(cfg.rt, p, row);
  }

  lemma RowShown(rt: Runtime, path: string, row: ObjectRow)
    ensures var shown := RowPayload(rt, path, row);
            && Lookup(shown, "objectPath") == JStr(path) && Lookup(shown, "checksumSha256") == JStr(row.checksum)
            && Lookup(shown, "sizeBytes") == JInt(row.size) && Lookup(shown, "contentType") == JStr(row.contentType)
            && Lookup(shown, "createdTime") == JStr(rt.printTime(row.created))
            && Lookup(shown, "updatedTime") == JStr(rt.printTime(row.updated))
            && Lookup(shown, "expiryTime")
               == (if row.expiry.None? then JNull else JStr(rt.printTime(row.expiry.value)))
            && Lookup(shown, "metadata") == JObj(row.metadata)
  {
  }

  /* How long an object can be fetched. */

  /** The object is stored as it was put, or its expiry is over by `later` and its row is gone. */
  predicate HoldsOrGone(db: ObjectDb, path: string, row: ObjectRow, content: Bytes, later: int) {
    Holds(db, path, row, content) || (path !in db.rows && row.expiry.Some? && row.expiry.value <= later)
  }

  /** The call names a place that is neither the object's nor above it, or reads the object by `later`. */
  predicate Away(op: ObjectOp, path: string, later: int) {
    (Target(op).Some? ==> !(Target(op).value <= PlaceOf(path))) ||
    ((op.Fetching? || op.Describing?) && ValidatePath(op.path) == Ok(path) && op.now <= later) ||
    (op.Pruning? && op.row == path && op.now <= later)
  }

  lemma StepGone(cfg: Config, db: ObjectDb, op: ObjectOp, path: string, later: int)
    requires path !in db.rows && Away(op, path, later)
    ensures path !in Step(cfg, db, op).rows
  {
    hide ValidatePath, PlaceOf, Record, Blocked;
    if Target(op).Some? && Target(op).value <= PlaceOf(path) {
    } else {
      var c := StepChange(cfg, db, op);
      hide Step, Target;
    }
  }

  lemma StepHoldsOrGone(
      cfg: Config, db: ObjectDb, op: ObjectOp, path: string, row: ObjectRow, content: Bytes, later: int)
    requires TreeOk(db.tree) && HoldsOrGone(db, path, row, content, later) && Away(op, path, later)
    ensures HoldsOrGone(Step(cfg, db, op), path, row, content, later)
  {
    hide ValidatePath, PlaceOf, Target, TreeOk, Record, Remove;
    if path !in db.rows {
      StepGone(cfg, db, op, path, later);
    } else if LeavesAlone(op, path, row) {
      hide Step;
      StepHolds(cfg, db, op, path, row, content);
    } else {
      assert Step(cfg, db, op).rows == db.rows - {path};
    }
  }

  lemma {:induction false} RunHoldsOrGone(
      cfg: Config, db: ObjectDb, ops: seq<ObjectOp>, path: string, row: ObjectRow, content: Bytes, later: int)
    requires TreeOk(db.tree) && HoldsOrGone(db, path, row, content, later)
    requires forall op :: op in ops ==> Away(op, path, later)
    ensures HoldsOrGone(Run(cfg, db, ops), path, row, content, later) && TreeOk(Run(cfg, db, ops).tree)
    decreases |ops|
  {
    if ops == [] {
    } else {
      hide Step, HoldsOrGone, TreeOk, Away;
      StepHoldsOrGone(cfg, db, ops[0], path, row, content, later);
      StepTree(cfg, db, ops[0]);
      RunHoldsOrGone(cfg, Step(cfg, db, ops[0]), ops[1..], path, row, content, later);
    }
  }

  /** What was put can be fetched exactly as long as its time to live in seconds, from the put on, is not over, after
      any calls that do not name its place or one above it, reads of the object included. */
  lemma FetchedUntilExpiry(
      cfg: Config, db: ObjectDb, path: string, content: Bytes, contentType: string, ttl: Option<int>, metadata: Obj,
      now: int, ops: seq<ObjectOp>, later: int, p: string)
    requires TreeOk(db.tree) && ValidatePath(path) == Ok(p)
    requires Put(cfg, db, path, content, contentType, ttl, metadata, now).1.Ok?
    requires forall op :: op in ops ==> Away(op, p, later)
    ensures var (stored, reply) := Put(cfg, db, path, content, contentType, ttl, metadata, now);
            Fetch(cfg, Run(cfg, stored, ops), path, later).1
            == Ok(if ttl.None? || later < now + 1000000 * ttl.value then Some((reply.value, content)) else None)
  {
    hide ValidatePath, PlaceOf, Record, Blocked, RowPayload, TreeOk, Run, Away, MakeParents;
    var stored := Put(cfg, db, path, content, contentType, ttl, metadata, now).0;
    var row := NewRow(cfg, db, p, content, contentType, ttl, metadata, now);
    StepTree(cfg, db, Putting(path, content, contentType, ttl, metadata, now));
    assert Holds(stored, p, row, content);
    RunHoldsOrGone(cfg, stored, ops, p, row, content, later);
    hide Put;
    FetchHeld(cfg, Run(cfg, stored, ops), path, p, row, content, later);
  }

  lemma FetchHeld(
      cfg: Config, db: ObjectDb, path: string, p: string, row: ObjectRow, content: Bytes, later: int)
    requires TreeOk(db.tree) && ValidatePath(path) == Ok(p) && HoldsOrGone(db, p, row, content, later)
    ensures Fetch(cfg, db, path, later).1
            == Ok(if row.expiry.Some? && row.expiry.value <= later then None
                  else Some((RowPayload(cfg.rt, p, row), content)))
  {
    hide ValidatePath, PlaceOf, Record, RowPayload, Remove, TreeOk;
    if p in db.rows {
      NoDirectory(db.tree, PlaceOf(p));
    }
  }
}
