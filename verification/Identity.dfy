/** What the server reads out of a payload to name it, to address it and to date it. */
module Identity {
  import opened PyValues
  import opened Text

  /** The first string that is not blank, stripped. */
  function FirstString(values: seq<Json>): Option<string> {
    if values == [] then None
    else if values[0].JStr? && Strip(values[0].s) != "" then Some(Strip(values[0].s))
    else FirstString(values[1..])
  }

  function NestedValue(value: Json, path: seq<string>): Json
    decreases |path|
  {
    if path == [] then value
    else if !value.JObj? then JNull
    else NestedValue(Lookup(value.fields, path[0]), path[1..])
  }

  method GetNestedValue(payload: Obj, path: seq<string>) returns (value: Json)
    ensures value == NestedValue(JObj(payload), path)
  {
    value := JObj(payload);
    for i := 0 to |path|
      invariant NestedValue(JObj(payload), path) == NestedValue(value, path[i..])
    {
      if !value.JObj? {
        return JNull;
      }
      value := Lookup(value.fields, path[i]);
    }
  }

  function NestedString(payload: Obj, path: seq<string>): Json {
    var value := NestedValue(JObj(payload), path);
    if value.JStr? && Strip(value.s) != "" then value else JNull
  }

  /** Where an entity payload may carry its id. */
  function EntityIds(payload: Obj): seq<Json> {
    [Lookup(payload, "entityId"), Lookup(payload, "entity_id"),
     NestedString(payload, ["entity", "entityId"]), NestedString(payload, ["entity", "entity_id"])]
  }

  /** The entity id in the payload, None when there is none. */
  function EntityIdOf(payload: Obj): Option<string> {
    FirstString(EntityIds(payload))
  }

  function TaskIds(payload: Obj): seq<Json> {
    [Lookup(payload, "taskId"), Lookup(payload, "task_id"),
     NestedString(payload, ["task", "taskId"]), NestedString(payload, ["task", "task_id"]),
     NestedString(payload, ["version", "taskId"]), NestedString(payload, ["version", "task_id"])]
  }

  function TaskIdOf(payload: Obj): Option<string> {
    FirstString(TaskIds(payload))
  }

  /** A string that was found is trimmed and not empty. */
  lemma {:induction false} FoundIsClean(values: seq<Json>)
    ensures var found := FirstString(values); found.Some? ==> Clean(found.value)
  {
    if values == [] {
    } else {
      FoundIsClean(values[1..]);
    }
  }

  predicate Clean(id: string) {
    id != "" && Strip(id) == id
  }

  /** Filling in the string that was found, or one where nothing was found, at any places leaves it to be found. */
  lemma {:induction false} FilledIn(values: seq<Json>, filled: seq<Json>, id: string)
    requires |filled| == |values| && Clean(id) && FirstString(values) in {None, Some(id)}
    requires forall i :: 0 <= i < |values| ==> filled[i] in {values[i], JStr(id)}
    ensures FirstString(filled) in {None, Some(id)}
    ensures FirstString(values).Some? || JStr(id) in filled ==> FirstString(filled).Some?
  {
    hide Strip;
    if values == [] {
    } else if filled[0] != JStr(id) {
      assert forall i :: 0 <= i < |values[1..]| ==> values[1..][i] == values[i + 1] && filled[1..][i] == filled[i + 1];
      if FirstString(values) == FirstString(values[1..]) {
        FilledIn(values[1..], filled[1..], id);
      }
    }
  }

  function NestedStrings(payload: Obj, paths: seq<seq<string>>): seq<Json> {
    if paths == [] then [] else [NestedString(payload, paths[0])] + NestedStrings(payload, paths[1..])
  }

  /** Where a task may name its assignee, below the entries `assignee` and `relations`. */
  const ASSIGNEE_PATHS := [
    ["entityId"], ["entity_id"]]

  const RELATION_PATHS := [
    ["assignee", "entityId"], ["assignee", "entity_id"],
    ["assignee", "system", "entityId"], ["assignee", "system", "entity_id"],
    ["assignee", "agent", "system", "entityId"], ["assignee", "agent", "system", "entity_id"],
    ["assignee", "team", "entityId"], ["assignee", "team", "entity_id"],
    ["assigneeId"], ["assignee_id"]]

  /** The assignee of a task; it depends on four entries of the payload. */
  function AssigneeOf(payload: Obj): Option<string> {
    FirstString([Lookup(payload, "assigneeId"), Lookup(payload, "assignee_id")]
                + NestedStrings(FieldsOf(Lookup(payload, "assignee")), ASSIGNEE_PATHS)
                + NestedStrings(FieldsOf(Lookup(payload, "relations")), RELATION_PATHS))
  }

  function SourceTimeText(payload: Obj): Option<string> {
    FirstString([
      NestedString(payload, ["provenance", "sourceUpdateTime"]),
      NestedString(payload, ["provenance", "source_update_time"]),
      NestedString(payload, ["metadata", "provenance", "sourceUpdateTime"]),
      NestedString(payload, ["metadata", "provenance", "source_update_time"])])
  }

  /** The parsed source update time of an entity. */
  function SourceTime(rt: Runtime, payload: Obj): Option<int> {
    var text := SourceTimeText(payload);
    if text.Some? then rt.parseTime(text.value) else None
  }

  /** Reading below an entry is reading from the object in it, so the paths of the source are these. */
  lemma NestedBelow(payload: Obj, key: string, path: seq<string>)
    requires path != []
    ensures NestedString(payload, [key] + path) == NestedString(FieldsOf(Lookup(payload, key)), path)
  {
    var inner := Lookup(payload, key);
    assert ([key] + path)[1..] == path;
    assert NestedValue(JObj(payload), [key] + path) == NestedValue(inner, path);
    if !inner.JObj? {
      NothingNested(path);
    }
  }

  lemma {:induction false} NothingNested(path: seq<string>)
    requires path != []
    ensures NestedValue(JObj(map[]), path) == JNull
  {
    assert NestedValue(JObj(map[]), path) == NestedValue(JNull, path[1..]);
  }

  /* The same, said by the paths into the payload: the first path with a text decides. */

  const ENTITY_ID := [["entityId"], ["entity_id"], ["entity", "entityId"], ["entity", "entity_id"]]

  const TASK_ID := [
    ["taskId"], ["task_id"], ["task", "taskId"], ["task", "task_id"], ["version", "taskId"], ["version", "task_id"]]

  const SOURCE_TIME := [
    ["provenance", "sourceUpdateTime"], ["provenance", "source_update_time"],
    ["metadata", "provenance", "sourceUpdateTime"], ["metadata", "provenance", "source_update_time"]]

  const ASSIGNEE := [
    ["assigneeId"], ["assignee_id"], ["assignee", "entityId"], ["assignee", "entity_id"],
    ["relations", "assignee", "entityId"], ["relations", "assignee", "entity_id"],
    ["relations", "assignee", "system", "entityId"], ["relations", "assignee", "system", "entity_id"],
    ["relations", "assignee", "agent", "system", "entityId"], ["relations", "assignee", "agent", "system", "entity_id"],
    ["relations", "assignee", "team", "entityId"], ["relations", "assignee", "team", "entity_id"],
    ["relations", "assigneeId"], ["relations", "assignee_id"]]

  /** The text of a value, stripped; a value that is no string has none. */
  function TextOf(j: Json): string {
    if j.JStr? then Strip(j.s) else ""
  }

  function TextAt(payload: Obj, path: seq<string>): string {
    TextOf(NestedValue(JObj(payload), path))
  }

  /** No path before the `k`-th has a text. */
  predicate FirstAt(payload: Obj, paths: seq<seq<string>>, k: nat)
    requires k <= |paths|
  {
    forall j :: 0 <= j < k ==> TextAt(payload, paths[j]) == ""
  }

  /** What the first path with a text says. */
  ghost predicate Says(payload: Obj, paths: seq<seq<string>>, said: Option<string>) {
    match said
    case None => forall k :: 0 <= k < |paths| ==> TextAt(payload, paths[k]) == ""
    case Some(text) =>
      text != "" && exists k :: 0 <= k < |paths| && FirstAt(payload, paths, k) && TextAt(payload, paths[k]) == text
  }

  /** The paths say one thing. */
  lemma SaysOne(payload: Obj, paths: seq<seq<string>>, a: Option<string>, b: Option<string>)
    requires Says(payload, paths, a) && Says(payload, paths, b)
    ensures a == b
  {
    hide TextAt;
    if a.Some? && b.Some? {
      var j :| 0 <= j < |paths| && FirstAt(payload, paths, j) && TextAt(payload, paths[j]) == a.value;
      var k :| 0 <= k < |paths| && FirstAt(payload, paths, k) && TextAt(payload, paths[k]) == b.value;
    }
  }

  /** The first of some values with the texts at some paths is what those paths say. */
  lemma {:induction false} FirstSays(payload: Obj, paths: seq<seq<string>>, values: seq<Json>)
    requires |values| == |paths| && forall k :: 0 <= k < |paths| ==> TextOf(values[k]) == TextAt(payload, paths[k])
    ensures Says(payload, paths, FirstString(values))
  {
    hide TextAt, Strip;
    if values == [] {
    } else if TextOf(values[0]) == "" {
      var rest := paths[1..];
      forall k | 0 <= k < |rest| ensures TextOf(values[1..][k]) == TextAt(payload, rest[k]) {
        assert values[1..][k] == values[k + 1] && rest[k] == paths[k + 1];
      }
      FirstSays(payload, rest, values[1..]);
      SaysLater(payload, paths, FirstString(values));
    } else {
      assert FirstAt(payload, paths, 0) && TextAt(payload, paths[0]) == FirstString(values).value;
    }
  }

  lemma SaysLater(payload: Obj, paths: seq<seq<string>>, said: Option<string>)
    requires paths != [] && TextAt(payload, paths[0]) == "" && Says(payload, paths[1..], said)
    ensures Says(payload, paths, said)
  {
    hide TextAt;
    var rest := paths[1..];
    assert forall k :: 0 < k < |paths| ==> paths[k] == rest[k - 1];
    if said.Some? {
      var k :| 0 <= k < |rest| && FirstAt(payload, rest, k) && TextAt(payload, rest[k]) == said.value;
      assert FirstAt(payload, paths, k + 1) && TextAt(payload, paths[k + 1]) == said.value;
    }
  }

  lemma EntryText(payload: Obj, key: string)
    ensures TextAt(payload, [key]) == TextOf(Lookup(payload, key))
  {
    assert [key][1..] == [];
    assert NestedValue(JObj(payload), [key]) == NestedValue(Lookup(payload, key), []);
  }

  lemma NestedText(payload: Obj, path: seq<string>)
    ensures TextOf(NestedString(payload, path)) == TextAt(payload, path)
  {
    hide NestedValue, Strip;
  }

  lemma EntityIdSaid(payload: Obj)
    ensures Says(payload, ENTITY_ID, EntityIdOf(payload))
  {
    hide Says, TextAt, TextOf, FirstString, NestedString, Lookup;
    EntryText(payload, "entityId");
    EntryText(payload, "entity_id");
    NestedText(payload, ["entity", "entityId"]);
    NestedText(payload, ["entity", "entity_id"]);
    FirstSays(payload, ENTITY_ID, EntityIds(payload));
  }

  lemma TaskIdSaid(payload: Obj)
    ensures Says(payload, TASK_ID, TaskIdOf(payload))
  {
    hide Says, TextAt, TextOf, FirstString, NestedString, Lookup;
    EntryText(payload, "taskId");
    EntryText(payload, "task_id");
    NestedText(payload, ["task", "taskId"]);
    NestedText(payload, ["task", "task_id"]);
    NestedText(payload, ["version", "taskId"]);
    NestedText(payload, ["version", "task_id"]);
    FirstSays(payload, TASK_ID, TaskIds(payload));
  }

  lemma SourceTimeSaid(payload: Obj)
    ensures Says(payload, SOURCE_TIME, SourceTimeText(payload))
  {
    hide Says, TextAt, TextOf, FirstString, NestedString, Lookup;
    NestedText(payload, ["provenance", "sourceUpdateTime"]);
    NestedText(payload, ["provenance", "source_update_time"]);
    NestedText(payload, ["metadata", "provenance", "sourceUpdateTime"]);
    NestedText(payload, ["metadata", "provenance", "source_update_time"]);
    FirstSays(payload, SOURCE_TIME, [
      NestedString(payload, ["provenance", "sourceUpdateTime"]),
      NestedString(payload, ["provenance", "source_update_time"]),
      NestedString(payload, ["metadata", "provenance", "sourceUpdateTime"]),
      NestedString(payload, ["metadata", "provenance", "source_update_time"])]);
  }

  /** Strings below an entry are strings at longer paths. */
  lemma {:induction false} TextsBelow(payload: Obj, key: string, paths: seq<seq<string>>)
    requires forall p :: p in paths ==> p != []
    ensures var values := NestedStrings(FieldsOf(Lookup(payload, key)), paths);
            && |values| == |paths|
            && forall k :: 0 <= k < |paths| ==> TextOf(values[k]) == TextAt(payload, [key] + paths[k])
  {
    hide NestedString, TextOf, TextAt, Lookup, FieldsOf;
    if paths == [] {
    } else {
      assert paths[0] in paths && forall p :: p in paths[1..] ==> p in paths;
      NestedBelow(payload, key, paths[0]);
      NestedText(payload, [key] + paths[0]);
      TextsBelow(payload, key, paths[1..]);
      assert forall k :: 0 < k < |paths| ==> paths[k] == paths[1..][k - 1];
    }
  }

  lemma AssigneePaths()
    ensures |ASSIGNEE| == 14 && |ASSIGNEE_PATHS| == 2 && |RELATION_PATHS| == 10
    ensures forall k :: 0 <= k < 2 ==> ASSIGNEE[k + 2] == ["assignee"] + ASSIGNEE_PATHS[k]
    ensures forall k :: 0 <= k < 10 ==> ASSIGNEE[k + 4] == ["relations"] + RELATION_PATHS[k]
  {
    assert ASSIGNEE[2] == ["assignee"] + ASSIGNEE_PATHS[0] && ASSIGNEE[3] == ["assignee"] + ASSIGNEE_PATHS[1];
    assert ASSIGNEE[4] == ["relations"] + RELATION_PATHS[0] && ASSIGNEE[5] == ["relations"] + RELATION_PATHS[1];
    assert ASSIGNEE[6] == ["relations"] + RELATION_PATHS[2] && ASSIGNEE[7] == ["relations"] + RELATION_PATHS[3];
    assert ASSIGNEE[8] == ["relations"] + RELATION_PATHS[4] && ASSIGNEE[9] == ["relations"] + RELATION_PATHS[5];
    assert ASSIGNEE[10] == ["relations"] + RELATION_PATHS[6] && ASSIGNEE[11] == ["relations"] + RELATION_PATHS[7];
    assert ASSIGNEE[12] == ["relations"] + RELATION_PATHS[8] && ASSIGNEE[13] == ["relations"] + RELATION_PATHS[9];
  }

  lemma AssigneeSaid(payload: Obj)
    ensures Says(payload, ASSIGNEE, AssigneeOf(payload))
  {
    hide Says, TextAt, TextOf, FirstString, NestedStrings, Lookup, FieldsOf;
    EntryText(payload, "assigneeId");
    EntryText(payload, "assignee_id");
    TextsBelow(payload, "assignee", ASSIGNEE_PATHS);
    TextsBelow(payload, "relations", RELATION_PATHS);
    AssigneePaths();
    var own := [Lookup(payload, "assigneeId"), Lookup(payload, "assignee_id")];
    var assignee := NestedStrings(FieldsOf(Lookup(payload, "assignee")), ASSIGNEE_PATHS);
    var relations := NestedStrings(FieldsOf(Lookup(payload, "relations")), RELATION_PATHS);
    var values := own + assignee + relations;
    forall k | 0 <= k < |ASSIGNEE| ensures TextOf(values[k]) == TextAt(payload, ASSIGNEE[k]) {
      if k >= 4 {
        assert values[k] == relations[k - 4] && ASSIGNEE[k] == ["relations"] + RELATION_PATHS[k - 4];
      } else if k >= 2 {
        assert values[k] == assignee[k - 2] && ASSIGNEE[k] == ["assignee"] + ASSIGNEE_PATHS[k - 2];
      }
    }
    FirstSays(payload, ASSIGNEE, values);
  }
}
