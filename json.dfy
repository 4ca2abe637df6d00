/**
 * Decoded JSON values as Python's `json` module yields them (dicts, lists,
 * str, int, bool, None), and Python's `dict.get` over them.
 */
module JsonTree {
  import opened Wrappers

  datatype Json =
    | Null
    | Bool(b: bool)
    | Int(i: int)
    | Str(s: string)
    | Arr(items: seq<Json>)
    | Obj(fields: map<string, Json>)

  /** `d.get(key)`: the value under `key`, or `None` when the key is missing. */
  function Get<K, V>(d: map<K, V>, key: K): (r: Option<V>)
    ensures r.Some? <==> key in d
    ensures r.Some? ==> r.value == d[key]
  {
    if key in d then Some(d[key]) else None
  }

  /**
   * Following a path of keys from `root`: `None` as soon as a key is
   * missing or a value on the way is not an object.
   */
  function LookupPath(root: Json, path: seq<string>): Option<Json>
    decreases |path|
  {
    if path == [] then Some(root)
    else
      match root
      case Obj(f) => if path[0] in f then LookupPath(f[path[0]], path[1..]) else None
      case _ => None
  }
}
