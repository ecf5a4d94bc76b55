/** JSON values as the server holds them, with the Python operations it applies to them. */
module PyValues {

  datatype Option<+T> = None | Some(value: T)

  datatype Json =
    | JNull
    | JBool(b: bool)
    | JInt(n: int)
    | JReal(r: real)
    | JStr(s: string)
    | JArr(items: seq<Json>)
    | JObj(fields: map<string, Json>)

  /** A JSON object; assignment copies it. */
  type Obj = map<string, Json>

  /** `bool(j)` */
  predicate Truthy(j: Json) {
    match j
    case JNull => false
    case JBool(b) => b
    case JInt(n) => n != 0
    case JReal(r) => r != 0.0
    case JStr(s) => s != ""
    case JArr(items) => items != []
    case JObj(fields) => fields != map[]
  }

  /** The values that count as nothing. */
  lemma NothingValues(j: Json)
    ensures !Truthy(j) <==> j in [JNull, JBool(false), JInt(0), JReal(0.0), JStr(""), JArr([]), JObj(map[])]
  {
  }

  /** `a or b` */
  function Or(a: Json, b: Json): Json {
    if Truthy(a) then a else b
  }

  /** `o.get(k)`, None being JSON null. */
  function Lookup(o: Obj, k: string): Json {
    if k in o then o[k] else JNull
  }

  function SetDefault(o: Obj, k: string, v: Json): Obj {
    if k in o then o else o[k := v]
  }

  /** `dict(j or {})`, where None says the call raises. */
  function AsDict(j: Json): Option<Obj> {
    if !Truthy(j) then Some(map[])
    else if j.JObj? then Some(j.fields)
    else None
  }

  /** The fields of a dict, and no fields for anything else. */
  function FieldsOf(j: Json): Obj {
    if j.JObj? then j.fields else map[]
  }

  /** `isinstance(j, int)`: Python's booleans are integers. */
  predicate IsInt(j: Json) {
    j.JInt? || j.JBool?
  }

  function IntValue(j: Json): int
    requires IsInt(j)
  {
    match j
    case JInt(n) => n
    case JBool(b) => if b then 1 else 0
  }

  /** What the server takes from the Python runtime: date parsing and printing, and `str()` of a value
      that is not a string. */
  datatype Runtime = Runtime(
    parseTime: string -> Option<int>,
    printTime: int -> string,
    show: Json -> string
  )

  /** `str()` never gives an empty string for a value that is not one. */
  ghost predicate ValidRuntime(rt: Runtime) {
    forall j :: rt.show(j) != ""
  }

  /** `str(j)` */
  function PyStr(rt: Runtime, j: Json): string {
    if j.JStr? then j.s else rt.show(j)
  }

  /** `parse_iso_datetime(j)` */
  function ParseTime(rt: Runtime, j: Json): Option<int> {
    if j.JStr? then rt.parseTime(j.s) else None
  }

  /* `a or b or c` over more values. */

  /** The first value that is something, or the default. */
  ghost predicate FirstTrue(values: seq<Json>, default': Json, chosen: Json) {
    (chosen == default' && NothingTrue(values)) ||
    exists k :: 0 <= k < |values| && NothingTrue(values[..k]) && Truthy(values[k]) && chosen == values[k]
  }

  predicate NothingTrue(values: seq<Json>) {
    forall j :: 0 <= j < |values| ==> !Truthy(values[j])
  }

  lemma FirstOfThree(v: seq<Json>, default': Json, chosen: Json)
    requires |v| == 3 && FirstTrue(v, default', chosen)
    ensures chosen == Or(Or(v[0], v[1]), Or(v[2], default'))
  {
    hide Truthy;
    if exists k :: 0 <= k < |v| && NothingTrue(v[..k]) && Truthy(v[k]) && chosen == v[k] {
      var k :| 0 <= k < |v| && NothingTrue(v[..k]) && Truthy(v[k]) && chosen == v[k];
      assert forall j :: 0 <= j < k ==> v[..k][j] == v[j];
    }
  }

  lemma FirstOfSix(v: seq<Json>, default': Json, chosen: Json)
    requires |v| == 6 && FirstTrue(v, default', chosen)
    ensures chosen == Or(Or(Or(Or(v[0], v[1]), v[2]), Or(Or(v[3], v[4]), v[5])), default')
  {
    hide Truthy;
    if exists k :: 0 <= k < |v| && NothingTrue(v[..k]) && Truthy(v[k]) && chosen == v[k] {
      var k :| 0 <= k < |v| && NothingTrue(v[..k]) && Truthy(v[k]) && chosen == v[k];
      assert forall j :: 0 <= j < k ==> v[..k][j] == v[j];
    }
  }
}
