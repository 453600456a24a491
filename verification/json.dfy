/** The untyped value that Go's encoding/json produces when decoding into an
    `interface{}`: objects, arrays, strings, float64 numbers, booleans and null.
    Numbers are modelled as exact reals; float64 rounding is not modelled. */
module Json {

  datatype JValue =
    | JNull
    | JBool(b: bool)
    | JNum(n: real)
    | JStr(s: string)
    | JArr(items: seq<JValue>)
    | JObj(fields: map<string, JValue>)
}
