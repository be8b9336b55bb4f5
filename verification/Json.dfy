/** JSON documents and the Python values `json.loads` makes of them. */
module Json {
  import opened Wrappers

  /** The length of `n` in binary. */
  function BitLength(n: nat): nat {
    if n == 0 then 0 else 1 + BitLength(n / 2)
  }

  /** A binary fraction `mantissa * 2^exponent` with a sign, or one of the values beside the numbers. */
  datatype Binary = Finite(negative: bool, mantissa: nat, exponent: int) | Infinite(negative: bool) | NotANumber

  /** The binary fractions of 64-bit floating point, in lowest terms. */
  predicate IsFloat(f: Binary) {
    f.Finite? ==>
      if f.mantissa == 0 then f.exponent == 0
      else f.mantissa % 2 == 1 && BitLength(f.mantissa) <= 53 && -1074 <= f.exponent && BitLength(f.mantissa) + f.exponent <= 1024
  }

  type Float = f: Binary | IsFloat(f) witness Finite(false, 0, 0)

  datatype Json =
    | JNull
    | JBool(b: bool)
    | JInt(n: int)
    | JFloat(x: Float)
    | JStr(s: string)
    | JList(items: seq<Json>)
    | JObject(fields: map<string, Json>)

  /** `bool(value)` */
  predicate Truthy(j: Json) {
    match j
    case JNull => false
    case JBool(b) => b
    case JInt(n) => n != 0
    case JFloat(x) => !(x.Finite? && x.mantissa == 0)
    case JStr(s) => s != ""
    case JList(items) => items != []
    case JObject(fields) => fields != map[]
  }

  /** `fields.get(key)` */
  function Get(fields: map<string, Json>, key: string): Json {
    if key in fields then fields[key] else JNull
  }

  /** `dict(value or {})`: None where Python raises. */
  function AsDict(pairs: seq<Json> -> Option<map<string, Json>>, j: Json): Option<map<string, Json>> {
    if !Truthy(j) then Some(map[])
    else match j
      case JObject(fields) => Some(fields)
      case JList(items) => pairs(items)
      case _ => None
  }
}
