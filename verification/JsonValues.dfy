/** Decoded JSON values. Two of them are equal here exactly when their canonical texts are: sorted keys, and
    1, 1.0 and true three different values. Numbers are reals, so the sign of a zero is not kept. */
module JsonValues {
  datatype Value =
    | Null
    | Bool(b: bool)
    | Number(value: real, integer: bool)
    | Text(s: string)
    | Array(items: seq<Value>)
    | Object(fields: map<string, Value>)
}
