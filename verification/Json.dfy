/** JSON values, and the accessors of the JSON library that the kernel uses. */
module Json {
  import opened Wrappers

  datatype Json =
    | Null
    | Bool(b: bool)
    | Num(n: int)
    | Str(s: string)
    | Arr(items: seq<Json>)
    | Obj(fields: map<string, Json>)

  /** `v[key]`: the member of an object, and null for anything else. */
  function Member(v: Json, key: string): Json {
    if v.Obj? && key in v.fields then v.fields[key] else Null
  }

  /** `v[key].as_str().unwrap_or(default)`. */
  function StrOr(v: Json, key: string, default: string): string {
    match Member(v, key)
    case Str(s) => s
    case _ => default
  }

  /** A text together with the value that it parses to, if it is JSON at all. */
  datatype Content = Content(raw: string, json: Option<Json>)
}
