/** Values as JSON delivers them; Undefined is an absent field. */
module Json {
  datatype Value =
    | Undefined
    | Null
    | Bool(b: bool)
    | Num(n: int)
    | Str(s: string)
    | Arr(items: seq<Value>)
    | Obj(fields: Fields)

  type Fields = map<string, Value>

  function Field(o: Fields, name: string): Value {
    if name in o then o[name] else Undefined
  }
}
