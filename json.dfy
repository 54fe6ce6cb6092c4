/**
 * The JSON-like tree values that a document holds and that a transaction carries.
 * The formatter never looks inside a value: it only copies one into an operation.
 */
module Json {

  datatype Value =
    | Null
    | Bool(b: bool)
    | Number(n: int)
    | Str(s: string)
    | Array(items: seq<Value>)
    | Object(fields: seq<(string, Value)>)
}
