/** JSON values. Numbers are integers only: floating point carries no rule of the validator. */
module Json {
  datatype Value =
    | Null
    | Bool(b: bool)
    | Number(n: int)
    | Str(s: string)
    | Array(items: seq<Value>)
    | Object(fields: seq<(string, Value)>)
}
