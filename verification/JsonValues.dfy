/** Decoded JSON and the two things Python asks of it everywhere: its truth and `dict.get`. */
module JsonValues {

  datatype Json =
    | Null | Bool(flag: bool) | Int(number: int) | Float(zero: bool, digits: string) | Str(text: string)
    | Arr(items: seq<Json>) | Obj(fields: map<string, Json>)

  predicate Truthy(v: Json) {
    match v
    case Null => false
    case Bool(flag) => flag
    case Int(number) => number != 0
    case Float(zero, _) => !zero
    case Str(text) => text != ""
    case Arr(items) => items != []
    case Obj(fields) => fields != map[]
  }

  /** `dict.get(key)`; null for an absent key. */
  function Get(fields: map<string, Json>, key: string): Json {
    if key in fields then fields[key] else Null
  }
}
