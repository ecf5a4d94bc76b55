/** The object store: rows, and a tree of files that should agree with them. */
module Objects {
  import opened PyValues
  import opened Text
  import opened Events

  newtype Byte = n: int | 0 <= n < 256

  type Bytes = seq<Byte>

  datatype ObjectRow = ObjectRow(
    checksum: string, size: nat, contentType: string, created: int, updated: int, expiry: Option<int>, metadata: Obj)

  /* Files below the root, named by the components of their paths; the root itself is []. */

  type Place = seq<string>

  datatype Tree = Tree(files: map<Place, Bytes>, dirs: set<Place>)

  datatype ObjectDb = ObjectDb(log: Log, rows: map<string, ObjectRow>, tree: Tree)

  datatype Config = Config(rt: Runtime, sha: Bytes -> string, maxBytes: int)

  datatype Failure = TooLarge | BadPath | NotADirectory | IsADirectory

  datatype Outcome<+T> = Ok(value: T) | Fails(error: Failure)

  /** A file or directory lies in directories, and is not both. */
  predicate TreeOk(tree: Tree) {
    tree.files.Keys !! tree.dirs &&
    (forall at, i :: at in tree.files && 0 <= i < |at| ==> at[..i] in tree.dirs) &&
    forall at, i :: at in tree.dirs && 0 <= i < |at| ==> at[..i] in tree.dirs
  }

  predicate Exists(tree: Tree, at: Place) {
    at in tree.files || at in tree.dirs
  }

  predicate Blocked(tree: Tree, at: Place) {
    exists i :: 0 <= i < |at| && at[..i] in tree.files
  }

  function Ancestors(at: Place): set<Place> {
    set i | 0 <= i < |at| :: at[..i]
  }

  function MakeParents(tree: Tree, at: Place): Tree {
    tree.(dirs := tree.dirs + Ancestors(at))
  }

  /** Removes a file, or a directory with everything below it. */
  function Remove(tree: Tree, at: Place): Tree {
    if at in tree.dirs then
      Tree(map q | q in tree.files && !(at <= q) :: tree.files[q], set q | q in tree.dirs && !(at <= q))
    else tree.(files := tree.files - {at})
  }

  /* Paths. */

  predicate PathChar(c: char) {
    'a' <= c <= 'z' || 'A' <= c <= 'Z' || '0' <= c <= '9' || c == '/' || c == '_' || c == '=' || c == '-' || c == '.'
  }

  function StripSlashes(s: string): string {
    if s != "" && s[0] == '/' then StripSlashes(s[1..]) else s
  }

  function ValidatePath(path: string): Outcome<string> {
    var cleaned := StripSlashes(Strip(path));
    if cleaned == "" || ".." in Split(cleaned, '/') || exists i :: 0 <= i < |cleaned| && !PathChar(cleaned[i])
    then Fails(BadPath)
    else Ok(cleaned)
  }

  /** The components a path library keeps. */
  function Components(parts: seq<string>): Place {
    if parts == [] then []
    else (if parts[0] == "" || parts[0] == "." then [] else [parts[0]]) + Components(parts[1..])
  }

  /** `root / path` */
  function PlaceOf(path: string): Place {
    Components(Split(path, '/'))
  }

  /** No empty and no "." segment. */
  predicate Canonical(path: string) {
    forall i :: 0 <= i < |Split(path, '/')| ==> Split(path, '/')[i] != "" && Split(path, '/')[i] != "."
  }

  /* The calls. */

  function RowPayload(rt: Runtime, path: string, row: ObjectRow): Obj {
    map["objectPath" := JStr(path), "checksumSha256" := JStr(row.checksum), "sizeBytes" := JInt(row.size),
        "contentType" := JStr(row.contentType), "createdTime" := JStr(rt.printTime(row.created)),
        "updatedTime" := JStr(rt.printTime(row.updated)),
        "expiryTime" := if row.expiry.Some? then JStr(rt.printTime(row.expiry.value)) else JNull,
        "metadata" := JObj(row.metadata)]
  }

  function Record(cfg: Config, db: ObjectDb, path: string, row: ObjectRow, kind: Kind, now: int): Log {
    AddEvent(db.log, ObjectStream, path, kind, now, ObjectBody(RowPayload(cfg.rt, path, row)))
  }

  function StoreRow(cfg: Config, db: ObjectDb, path: string, row: ObjectRow, now: int): ObjectDb {
    db.(log := Record(cfg, db, path, row, if path in db.rows then Update else Create, now),
        rows := db.rows[path := row])
  }

  /** Logs the end of an object and removes its row and its file. */
  function DropRow(cfg: Config, db: ObjectDb, path: string, now: int): ObjectDb
    requires path in db.rows
  {
    ObjectDb(Record(cfg, db, path, db.rows[path], Deleted, now), db.rows - {path}, Remove(db.tree, PlaceOf(path)))
  }

  function NewRow(
      cfg: Config, db: ObjectDb, path: string, content: Bytes, contentType: string, ttl: Option<int>, metadata: Obj,
      now: int): ObjectRow
  {
    ObjectRow(cfg.sha(content), |content|, contentType, if path in db.rows then db.rows[path].created else now, now,
              if ttl.Some? then Some(now + ttl.value * 1000000) else None, metadata)
  }

  function Put(
      cfg: Config, db: ObjectDb, path: string, content: Bytes, contentType: string, ttl: Option<int>, metadata: Obj,
      now: int): (ObjectDb, Outcome<Obj>)
  {
    var valid := ValidatePath(path);
    if |content| > cfg.maxBytes then (db, Fails(TooLarge))
    else if valid.Fails? then (db, Fails(valid.error))
    else
      var at, made := PlaceOf(valid.value), MakeParents(db.tree, PlaceOf(valid.value));
      if Blocked(db.tree, at) then (db, Fails(NotADirectory))
      else if at in db.tree.dirs then (db.(tree := made), Fails(IsADirectory))
      else
        var row := NewRow(cfg, db, valid.value, content, contentType, ttl, metadata, now);
        (StoreRow(cfg, db.(tree := made.(files := made.files[at := content])), valid.value, row, now),
         Ok(RowPayload(cfg.rt, valid.value, row)))
  }

  predicate HasExpired(row: ObjectRow, now: int) {
    row.expiry.Some? && row.expiry.value <= now
  }

  /** Drops a row that has expired. */
  function Prune(cfg: Config, db: ObjectDb, path: string, now: int): ObjectDb {
    if path in db.rows && HasExpired(db.rows[path], now) then DropRow(cfg, db, path, now) else db
  }

  function Fetch(cfg: Config, db: ObjectDb, path: string, now: int): (ObjectDb, Outcome<Option<(Obj, Bytes)>>) {
    var valid := ValidatePath(path);
    if valid.Fails? then (db, Fails(valid.error))
    else
      var p, next := valid.value, Prune(cfg, db, valid.value, now);
      if p !in next.rows || !Exists(next.tree, PlaceOf(p)) then (next, Ok(None))
      else if PlaceOf(p) in next.tree.dirs then (next, Fails(IsADirectory))
      else (next, Ok(Some((RowPayload(cfg.rt, p, next.rows[p]), next.tree.files[PlaceOf(p)]))))
  }

  function Describe(cfg: Config, db: ObjectDb, path: string, now: int): (ObjectDb, Outcome<Option<Obj>>) {
    var valid := ValidatePath(path);
    if valid.Fails? then (db, Fails(valid.error))
    else
      var p, next := valid.value, Prune(cfg, db, valid.value, now);
      (next, Ok(if p in next.rows then Some(RowPayload(cfg.rt, p, next.rows[p])) else None))
  }

  function Delete(cfg: Config, db: ObjectDb, path: string, now: int): (ObjectDb, Outcome<bool>) {
    var valid := ValidatePath(path);
    if valid.Fails? then (db, Fails(valid.error))
    else if valid.value in db.rows then (DropRow(cfg, db, valid.value, now), Ok(true))
    else (db.(tree := Remove(db.tree, PlaceOf(valid.value))), Ok(false))
  }

  /** One call; `Pruning` is the part of a listing that drops the expired rows it meets. */
  datatype ObjectOp =
    | Putting(path: string, content: Bytes, contentType: string, ttl: Option<int>, metadata: Obj, now: int)
    | Fetching(path: string, now: int)
    | Describing(path: string, now: int)
    | Deleting(path: string, now: int)
    | Pruning(row: string, now: int)
    | Elsewhere(event: Event)

  function Step(cfg: Config, db: ObjectDb, op: ObjectOp): ObjectDb {
    match op
    case Putting(path, content, contentType, ttl, metadata, now) =>
      Put(cfg, db, path, content, contentType, ttl, metadata, now).0
    case Fetching(path, now) => Fetch(cfg, db, path, now).0
    case Describing(path, now) => Describe(cfg, db, path, now).0
    case Deleting(path, now) => Delete(cfg, db, path, now).0
    case Pruning(row, now) => Prune(cfg, db, row, now)
    case Elsewhere(event) =>
      if event.stream.ObjectStream? then db else db.(log := db.log + [event.(id := |db.log| + 1)])
  }

  function Run(cfg: Config, db: ObjectDb, ops: seq<ObjectOp>): ObjectDb
    decreases |ops|
  {
    if ops == [] then db else Run(cfg, Step(cfg, db, ops[0]), ops[1..])
  }

  /** An empty root. */
  const EMPTY := ObjectDb([], map[], Tree(map[], {[]}))
}
