/** JSON values as the relationship files hold them. */
module JsonModel {

  /** A JSON value; objects are dictionaries (key order is not modelled). */
  datatype Json =
    | JNull
    | JBool(b: bool)
    | JNum(n: int)
    | JStr(s: string)
    | JList(items: seq<Json>)
    | JObj(fields: map<string, Json>)

  /** A JSON object as read from a file: its members in file order. */
  type Record = seq<(string, Json)>

  /** The dictionary of a record; a repeated key keeps its last value. */
  function ToMap(r: Record): (m: map<string, Json>)
    ensures forall i :: 0 <= i < |r| ==> r[i].0 in m
    decreases |r|
  {
    if r == [] then map[] else ToMap(r[..|r| - 1])[r[|r| - 1].0 := r[|r| - 1].1]
  }
}
