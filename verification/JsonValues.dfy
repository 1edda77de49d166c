/** JSON as a value type. An object is the list of its fields in text order, so
    that key order and repeated keys stay visible. A number is its literal. */
module JsonValues {
  datatype Json =
    | JNull
    | JBool(b: bool)
    | JNum(literal: string)
    | JStr(s: string)
    | JArr(items: seq<Json>)
    | JObj(fields: seq<Field>)

  datatype Field = Field(key: string, value: Json)
}
