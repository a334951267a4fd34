/** The JSON values a publisher may store in `outbox_events.callbacks`. */
module Json {
  import opened Basics
  import Decimal

  /** `Float` is a number with a fraction; `fields` keeps the order the values are iterated in. */
  datatype Json =
    | Null
    | Bool(b: bool)
    | Int(n: int)
    | Float(whole: int, fraction: string)
    | Str(s: string)
    | Arr(items: seq<Json>)
    | Obj(fields: seq<(string, Json)>)

  function Field(fields: seq<(string, Json)>, key: string): Option<Json> {
    if fields == [] then None
    else if fields[0].0 == key then Some(fields[0].1)
    else Field(fields[1..], key)
  }

  /** `Value::get`: the member of an object, nothing for any other value. */
  function Get(j: Json, key: string): Option<Json> {
    if j.Obj? then Field(j.fields, key) else None
  }

  function AsStr(j: Json): Option<string> {
    if j.Str? then Some(j.s) else None
  }

  /** `Value::as_u64`. */
  function AsU64(j: Json): Option<nat> {
    if j.Int? && 0 <= j.n <= Decimal.U64_MAX then Some(j.n) else None
  }

  /** PostgreSQL's `->>`: the text of a value, SQL NULL for JSON null. Of the text of arrays and
      objects only the first character is kept. */
  function SqlText(j: Json): Option<string> {
    match j
    case Null => None
    case Bool(b) => Some(if b then "true" else "false")
    case Int(n) => Some(Decimal.IntText(n))
    case Float(whole, fraction) => Some(Decimal.IntText(whole) + "." + fraction)
    case Str(s) => Some(s)
    case Arr(_) => Some("[")
    case Obj(_) => Some("{")
  }
}
