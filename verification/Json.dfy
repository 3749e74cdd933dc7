/** JSON values, as the request bodies and stream frames carry them. Object equality ignores key order. */
module Json {
  import opened Prelude

  datatype Value =
    | Null
    | Bool(bit: bool)
    | Num(number: real)
    | Str(text: string)
    | Arr(items: seq<Value>)
    | Obj(fields: map<string, Value>)

  /** `v[key]`, absent for a missing key and for anything that is not an object. */
  function Get(v: Value, key: string): Option<Value>
  {
    if v.Obj? && key in v.fields then Some(v.fields[key]) else None
  }

  function GetStr(v: Value, key: string): Option<string>
  {
    match Get(v, key)
    case Some(Str(s)) => Some(s)
    case _ => None
  }
}
