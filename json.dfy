/**
 * Decoded JSON values, as `json.loads` produces them. Objects are keyed
 * dictionaries; the order of their keys is left to the (abstract) encoder.
 * Floating-point numbers are not modelled.
 */
module Json {

  datatype Json =
    | JNull
    | JBool(b: bool)
    | JInt(i: int)
    | JStr(s: string)
    | JArr(items: seq<Json>)
    | JObj(fields: map<string, Json>)
}
