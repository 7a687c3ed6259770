/**
 * Parsed JSON values as the reconciliation script sees them after `json.loads`,
 * the physical lines of a JSON-Lines file, and the few Python conveniences the
 * script leans on: `dict.get` with a default, truthiness, and string slicing.
 */
module Json {

  datatype Option<+T> = None | Some(value: T)

  /** A JSON value. Numbers are integers (floating point is not modelled); an
      object is a map, since the script never observes the order of its fields. */
  datatype Json =
    | Null
    | Bool(b: bool)
    | Num(n: int)
    | Str(s: string)
    | Arr(items: seq<Json>)
    | Obj(fields: map<string, Json>)

  /** One physical line of a JSON-Lines file: blank after stripping, rejected by
      the JSON parser, or parsed into a value. */
  datatype Line = Blank | Malformed | Record(data: Json)

  /** Python truthiness of a JSON value: null, false, 0, "", [] and {} are falsy. */
  predicate Truthy(j: Json) {
    match j
    case Null => false
    case Bool(b) => b
    case Num(n) => n != 0
    case Str(s) => |s| > 0
    case Arr(items) => |items| > 0
    case Obj(fields) => |fields| > 0
  }

  /** `o.get(key, default)` on a JSON object. */
  function Get(o: map<string, Json>, key: string, default: Json): (r: Json)
    ensures key in o ==> r == o[key]
    ensures key !in o ==> r == default
  {
    if key in o then o[key] else default
  }

  /** The fields of an object (none for any other value). */
  function Fields(j: Json): map<string, Json> {
    if j.Obj? then j.fields else map[]
  }

  /** The elements of an array (none for any other value). */
  function Items(j: Json): seq<Json> {
    if j.Arr? then j.items else []
  }

  /** The text of a string (empty for any other value). */
  function AsStr(j: Json): string {
    if j.Str? then j.s else ""
  }

  /** Python's `t in s` on strings: `t` occurs in `s` as a substring. */
  predicate Contains(s: string, t: string)
    decreases |s|
  {
    t <= s || (s != [] && Contains(s[1..], t))
  }

  /** The field, when present, holds a string (reading it does not raise). */
  predicate StrOrAbsent(o: map<string, Json>, key: string) {
    key in o ==> o[key].Str?
  }

  /** `o.get(key, '')` for a field that holds a string when present. */
  function GetStr(o: map<string, Json>, key: string): (r: string)
    requires StrOrAbsent(o, key)
    ensures key in o ==> Str(r) == o[key]
    ensures key !in o ==> r == ""
  {
    if key in o then o[key].s else ""
  }

  /** Python's slice `s[:n]`: the first `n` characters, or all of `s` when it is shorter. */
  function Prefix(s: string, n: nat): (r: string)
    ensures |r| <= n && r <= s
    ensures |r| == n || r == s
  {
    if |s| <= n then s else s[..n]
  }
}
