/** JSON documents as value trees, standing for the jansson `json_t` values the
    configuration code builds and inspects; the text encoding is not modelled. */
module JsonTree {
  import opened Wrappers

  datatype Json =
    | JObj(members: map<string, Json>)
    | JArr(items: seq<Json>)
    | JStr(text: string)
    | JInt(num: int)
    | JReal(approx: real)
    | JBool(truth: bool)
    | JNull

  /** `json_object_get`: the member named key, or nothing when obj is not an
      object or has no such member. */
  function Get(obj: Json, key: string): (r: Option<Json>)
    ensures r.Some? <==> obj.JObj? && key in obj.members
  {
    if obj.JObj? && key in obj.members then Some(obj.members[key]) else None
  }

  /** The member reached by following a path of keys from the root. */
  function Lookup(root: Json, path: seq<string>): Option<Json>
    decreases |path|
  {
    if path == [] then Some(root)
    else match Get(root, path[0])
      case None => None
      case Some(child) => Lookup(child, path[1..])
  }

  /** The member as a string, when `json_is_string` holds of it. */
  function StringAt(obj: Json, key: string): (r: Option<string>)
    ensures r.Some? <==> Get(obj, key).Some? && Get(obj, key).value.JStr?
    ensures r.Some? ==> Get(obj, key) == Some(JStr(r.value))
  {
    match Get(obj, key)
    case Some(JStr(s)) => Some(s)
    case _ => None
  }

  /** The member as an integer, when `json_is_integer` holds of it. */
  function IntAt(obj: Json, key: string): (r: Option<int>)
    ensures r.Some? <==> Get(obj, key).Some? && Get(obj, key).value.JInt?
    ensures r.Some? ==> Get(obj, key) == Some(JInt(r.value))
  {
    match Get(obj, key)
    case Some(JInt(n)) => Some(n)
    case _ => None
  }

  /** The member as a boolean, when `json_is_boolean` holds of it. */
  function BoolAt(obj: Json, key: string): (r: Option<bool>)
    ensures r.Some? <==> Get(obj, key).Some? && Get(obj, key).value.JBool?
    ensures r.Some? ==> Get(obj, key) == Some(JBool(r.value))
  {
    match Get(obj, key)
    case Some(JBool(b)) => Some(b)
    case _ => None
  }

  /** The member itself, when `json_is_object` holds of it. */
  function ObjectAt(obj: Json, key: string): (r: Option<Json>)
    ensures r.Some? <==> Get(obj, key).Some? && Get(obj, key).value.JObj?
    ensures r.Some? ==> Get(obj, key) == r
  {
    match Get(obj, key)
    case Some(JObj(m)) => Some(JObj(m))
    case _ => None
  }
}
