/** JSON values as tools exchange them. */
module Json {
  import opened Wrappers

  type U64 = n: nat | n < 0x1_0000_0000_0000_0000
  type I64 = n: int | -0x8000_0000_0000_0000 <= n < 0x8000_0000_0000_0000
  type NegativeI64 = n: int | -0x8000_0000_0000_0000 <= n < 0 witness -1

  const I64_MAX: nat := 0x7fff_ffff_ffff_ffff

  /** A JSON number is an unsigned word, a negative signed word or a finite float. */
  datatype Number = PosInt(u: U64) | NegInt(i: NegativeI64) | Float(f: real)

  datatype Value =
    | Null
    | Bool(b: bool)
    | Num(n: Number)
    | Str(s: string)
    | Array(items: seq<Value>)
    | Object(fields: map<string, Value>)

  function Get(v: Value, field: string): Option<Value> {
    if v.Object? && field in v.fields then Some(v.fields[field]) else None
  }

  function AsStr(v: Value): Option<string> {
    if v.Str? then Some(v.s) else None
  }

  function GetStr(v: Value, field: string): Option<string> {
    match Get(v, field)
    case Some(found) => AsStr(found)
    case None => None
  }
}
