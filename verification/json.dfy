/** The JSON value a query is evaluated against, as a JSON decoder produces it. */
module Json {

  /** Numbers are integers: the evaluator only looks values up, it never does
      arithmetic on them. An object maps each key to one value; the order of
      its keys is never observed by the evaluator, which only looks keys up. */
  datatype Value =
    | Null
    | Bool(b: bool)
    | Num(n: int)
    | Str(s: string)
    | Arr(items: seq<Value>)
    | Obj(fields: map<string, Value>)
}
