/** JSON values as encoding/json decodes them. A number is kept as its printed text, because
    two values count as equal when they print alike. */
module JsonValues {

  datatype Json =
    | Null
    | Bool(b: bool)
    | Num(text: string)
    | Str(s: string)
    | Arr(elems: seq<Json>)
    | Obj(fields: map<string, Json>)

  type Object = map<string, Json>
}
