/** JSON values, and what Python's readers of a parsed document ask of them. */
module Json {
  import opened Texts

  datatype Json =
    | Null
    | Bool(b: bool)
    | Int(n: int)
    | Text(s: string)
    | List(items: seq<Json>)
    | Object(fields: map<string, Json>)

  /** The value where `isinstance(j, int)` holds: a truth value counts as an integer. */
  function AsInt(j: Json): Option<int> {
    match j
    case Int(n) => Some(n)
    case Bool(b) => Some(if b then 1 else 0)
    case _ => None
  }

  predicate Has(j: Json, name: string) {
    j.Object? && name in j.fields
  }

  /** `dict.get`. */
  function Field(j: Json, name: string, default: Json): Json {
    if Has(j, name) then j.fields[name] else default
  }

  /** `str(...)` of an element of a list of ids; what nested values print as is not modelled. */
  function TextOf(j: Json): string {
    match j
    case Text(s) => s
    case Null => "None"
    case Bool(b) => if b then "True" else "False"
    case Int(n) => if n >= 0 then Decimal(n) else "-" + Decimal(-n)
    case _ => "?"
  }

  /** A list whose items are all objects. */
  predicate IsObjects(j: Json) {
    j.List? && forall item :: item in j.items ==> item.Object?
  }
}
