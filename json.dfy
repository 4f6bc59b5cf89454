/** The part of a JSON document model (nlohmann::json) the tagger reads and writes. */
module JsonValues {
  datatype Json =
    | JNull
    | JBool(b: bool)
    | JInt(i: int)
    | JStr(s: string)
    | JArr(items: seq<Json>)
    | JObj(fields: map<string, Json>)

  /** Why a document could not be read back. */
  datatype JsonError = Malformed(what: string) | NotJson(path: string)
}
