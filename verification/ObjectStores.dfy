/** The object store over the shared database and the files below its root. */
module ObjectStores {
  import opened PyValues
  import opened Events
  import opened Objects
  import opened Databases

  class ObjectStore {
    const database: Database
    const cfg: Config
    var files: map<Place, Bytes>
    var dirs: set<Place>

    /** Makes the root directory. */
    constructor (database: Database, cfg: Config)
      ensures this.database == database && this.cfg == cfg && files == map[] && dirs == {[]}
    {
      this.database, this.cfg := database, cfg;
      files, dirs := map[], {[]};
    }

    function State(): ObjectDb
      reads this, database
    {
      ObjectDb(database.events, database.objects, Tree(files, dirs))
    }

    /** Makes the missing directories above a place. */
    method MakeDirectories(at: Place)
      modifies this`dirs
      ensures dirs == old(dirs) + Ancestors(at)
    {
      for i := 0 to |at|
        invariant dirs == old(dirs) + Ancestors(at[..i])
      {
        assert Ancestors(at[..i + 1]) == Ancestors(at[..i]) + {at[..i]} by {
          AncestorsGrow(at, i);
        }
        dirs := dirs + {at[..i]};
      }
      assert at[..|at|] == at;
    }

    method RemoveFile(path: string)
      modifies this`files, this`dirs
      ensures Tree(files, dirs) == Remove(Tree(old(files), old(dirs)), PlaceOf(path))
    {
      var at := PlaceOf(path);
      if at in files || at in dirs {
        if at in dirs {
          files := map q | q in files && !(at <= q) :: files[q];
          dirs := set q | q in dirs && !(at <= q);
        } else {
          files := files - {at};
        }
      } else {
        assert files - {at} == files;
      }
    }

    method Put(path: string, content: Bytes, contentType: string, ttl: Option<int>, metadata: Obj, now: int)
        returns (reply: Outcome<Obj>)
      modifies this`files, this`dirs, database`events, database`objects
      ensures (State(), reply) == Objects.Put(cfg, old(State()), path, content, contentType, ttl, metadata, now)
    {
      hide PlaceOf, ValidatePath, Ancestors;
      if |content| > cfg.maxBytes {
        return Fails(TooLarge);
      }
      var valid := ValidatePath(path);
      if valid.Fails? {
        return Fails(valid.error);
      }
      var p, at := valid.value, PlaceOf(valid.value);
      hide Blocked;
      if Blocked(Tree(files, dirs), at) {
        return Fails(NotADirectory);
      }
      MakeDirectories(at);
      NotItsAncestor(at);
      if at in dirs {
        return Fails(IsADirectory);
      }
      files := files[at := content];
      var checksum := cfg.sha(content);
      var expiry := if ttl.Some? then Some(now + ttl.value * 1000000) else None;
      var kind, row := Create, ObjectRow(checksum, |content|, contentType, now, now, expiry, metadata);
      if p in database.objects {
        kind := Update;
        row := row.(created := database.objects[p].created);
      }
      database.objects := database.objects[p := row];
      var shown := RowPayload(cfg.rt, p, row);
      hide RowPayload;
      var _ := database.AddEvent(ObjectStream, p, kind, now, ObjectBody(shown));
      return Ok(shown);
    }

    method PruneIfExpired(path: string, now: int) returns (pruned: bool)
      requires path in database.objects
      modifies this`files, this`dirs, database`events, database`objects
      ensures State() == Prune(cfg, old(State()), path, now)
      ensures pruned <==> path !in database.objects
    {
      hide PlaceOf, Remove, RowPayload;
      var row := database.objects[path];
      if row.expiry.None? || row.expiry.value > now {
        return false;
      }
      var _ := database.AddEvent(ObjectStream, path, Deleted, now, ObjectBody(RowPayload(cfg.rt, path, row)));
      database.objects := database.objects - {path};
      RemoveFile(path);
      return true;
    }

    method Get(path: string, now: int) returns (reply: Outcome<Option<(Obj, Bytes)>>)
      modifies this`files, this`dirs, database`events, database`objects
      ensures (State(), reply) == Fetch(cfg, old(State()), path, now)
    {
      hide PlaceOf, ValidatePath, RowPayload, DropRow;
      var valid := ValidatePath(path);
      if valid.Fails? {
        return Fails(valid.error);
      }
      var p, at := valid.value, PlaceOf(valid.value);
      if p !in database.objects {
        return Ok(None);
      }
      var pruned := PruneIfExpired(p, now);
      if pruned {
        return Ok(None);
      }
      if at !in files && at !in dirs {
        return Ok(None);
      }
      if at in dirs {
        return Fails(IsADirectory);
      }
      return Ok(Some((RowPayload(cfg.rt, p, database.objects[p]), files[at])));
    }

    method Metadata(path: string, now: int) returns (reply: Outcome<Option<Obj>>)
      modifies this`files, this`dirs, database`events, database`objects
      ensures (State(), reply) == Describe(cfg, old(State()), path, now)
    {
      hide PlaceOf, ValidatePath, RowPayload, DropRow;
      var valid := ValidatePath(path);
      if valid.Fails? {
        return Fails(valid.error);
      }
      var p := valid.value;
      if p !in database.objects {
        return Ok(None);
      }
      var pruned := PruneIfExpired(p, now);
      if pruned {
        return Ok(None);
      }
      return Ok(Some(RowPayload(cfg.rt, p, database.objects[p])));
    }

    method Delete(path: string, now: int) returns (reply: Outcome<bool>)
      modifies this`files, this`dirs, database`events, database`objects
      ensures (State(), reply) == Objects.Delete(cfg, old(State()), path, now)
    {
      hide PlaceOf, ValidatePath, RowPayload, Remove;
      var valid := ValidatePath(path);
      if valid.Fails? {
        return Fails(valid.error);
      }
      var p := valid.value;
      var existed := p in database.objects;
      if existed {
        var _ := database.AddEvent(
          ObjectStream, p, Deleted, now, ObjectBody(RowPayload(cfg.rt, p, database.objects[p])));
      }
      assert !existed ==> database.objects - {p} == database.objects;
      database.objects := database.objects - {p};
      RemoveFile(p);
      return Ok(existed);
    }
  }

  lemma NotItsAncestor(at: Place)
    ensures at !in Ancestors(at)
  {
    assert forall i :: 0 <= i < |at| ==> |at[..i]| < |at|;
  }

  lemma AncestorsGrow(at: Place, i: nat)
    requires i < |at|
    ensures Ancestors(at[..i + 1]) == Ancestors(at[..i]) + {at[..i]}
  {
    var more := at[..i + 1];
    assert forall k :: 0 <= k <= i ==> more[..k] == at[..k];
    assert forall k :: 0 <= k < i ==> at[..i][..k] == at[..k];
    forall q ensures q in Ancestors(more) <==> q in Ancestors(at[..i]) + {at[..i]} {
      if q in Ancestors(more) {
        var k :| 0 <= k < |more| && q == more[..k];
        assert k < i ==> at[..i][..k] in Ancestors(at[..i]);
      }
      if q in Ancestors(at[..i]) {
        var k :| 0 <= k < i && q == at[..i][..k];
        assert more[..k] in Ancestors(more);
      }
      assert more[..i] in Ancestors(more);
    }
  }
}
