/** The JSON tokens the configuration file is made of, as the album code sees
    them after the document has been parsed. */
module Json {
  import opened Wrappers

  datatype Json =
    | JNull
    | JBool(b: bool)
    | JNum(num: real)
    | JStr(str: string)
    | JArr(items: seq<Json>)
    | JObj(fields: map<string, Json>)

  /** `obj[key]`: the token stored under `key`, or no token at all. */
  function Field(fields: map<string, Json>, key: string): Option<Json>
  {
    if key in fields then Some(fields[key]) else None
  }

  /** A JSON array of strings, as `new JArray(strings)` builds it. */
  function StringArray(strings: seq<string>): (r: seq<Json>)
    ensures |r| == |strings|
    ensures forall i :: 0 <= i < |r| ==> r[i] == JStr(strings[i])
  {
    if strings == [] then [] else [JStr(strings[0])] + StringArray(strings[1..])
  }
}
