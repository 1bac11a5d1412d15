/** The part of a JSON library the service uses. */
module Json {
  datatype Json =
    | Null | Bool(b: bool) | Int(i: int) | Float(r: real) | Str(s: string)
    | Array(items: seq<Json>) | Object(fields: map<string, Json>)
  {
    /** False for anything that is not an object. */
    predicate Contains(key: string) { Object? && key in fields }
  }
}
