// JSON values as encoding/json decodes them into interface{}: every number is a float64.
module JsonTree {
  datatype Json =
    | Null
    | Bool(b: bool)
    | Num(n: real)
    | Str(s: string)
    | Lst(items: seq<Json>)
    | Obj(fields: map<string, Json>)

  const EMPTY: Json := Obj(map[])

  predicate IsScalar(v: Json) {
    v.Bool? || v.Num? || v.Str?
  }

  predicate IsZero(v: Json) {
    v == Bool(false) || v == Num(0.0) || v == Str("")
  }

  // The zero value of a scalar's type.
  function ZeroOf(v: Json): (z: Json)
    requires IsScalar(v)
    ensures IsZero(z)
  {
    if v.Bool? then Bool(false) else if v.Str? then Str("") else Num(0.0)
  }
}
