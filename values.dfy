// Python values as they reach the shop: JSON bodies from Supabase,
// metadata dictionaries, POST fields and session entries.

module Values {

  datatype Option<T> = None | Some(value: T)

  /** A value that either was produced, or whose computation raised. */
  datatype Result<T, E> = Ok(value: T) | Err(error: E)

  /** A JSON-shaped Python value; `JNull` stands for `None`. */
  datatype Json =
    | JNull
    | JBool(b: bool)
    | JNum(n: int)
    | JStr(s: string)
    | JArr(items: seq<Json>)
    | JObj(fields: map<string, Json>)

  /** Python truthiness: `None`, `False`, `0`, `''`, `[]` and `{}` are falsy. */
  predicate Truthy(v: Json) {
    match v
    case JNull => false
    case JBool(b) => b
    case JNum(n) => n != 0
    case JStr(s) => s != ""
    case JArr(xs) => xs != []
    case JObj(m) => m != map[]
  }

  /** Python `a or b`: the first operand when it is truthy, else the second. */
  function Or(a: Json, b: Json): Json {
    if Truthy(a) then a else b
  }

  /** Python `d.get(key, default)`. */
  function Get(d: map<string, Json>, key: string, default: Json): Json {
    if key in d then d[key] else default
  }

  const EmptyDict: Json := JObj(map[])

  /** The first truthy value of a list of candidates, if any. */
  function FirstTruthy(vs: seq<Json>): (r: Option<Json>)
    ensures r.Some? ==> Truthy(r.value) && r.value in vs
    ensures r.None? <==> forall i :: 0 <= i < |vs| ==> !Truthy(vs[i])
    ensures r.Some? ==> exists i :: 0 <= i < |vs| && vs[i] == r.value && forall j :: 0 <= j < i ==> !Truthy(vs[j])
  {
    if vs == [] then None
    else if Truthy(vs[0]) then Some(vs[0])
    else
      var r := FirstTruthy(vs[1..]);
      assert r.Some? ==> exists i :: 0 <= i < |vs| - 1 && vs[1..][i] == r.value && forall j :: 0 <= j < i ==> !Truthy(vs[1..][j]);
      if r.Some? then
        var i :| 0 <= i < |vs| - 1 && vs[1..][i] == r.value && forall j :: 0 <= j < i ==> !Truthy(vs[1..][j]);
        assert vs[i + 1] == r.value;
        assert forall j :: 0 <= j < i + 1 ==> !Truthy(vs[j]) by {
          forall j | 0 <= j < i + 1 ensures !Truthy(vs[j]) {
            if j > 0 { assert vs[j] == vs[1..][j - 1]; }
          }
        }
        r
      else
        r
  }
}
