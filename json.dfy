/**
 * Decoded JSON values, as PHP's `json_decode($body, true)` hands them to the
 * controllers: objects become associative arrays, arrays become lists.
 * Numbers are integers here; fractional numbers are not part of this model.
 */
module Json {
  datatype Json =
    | JNull
    | JBool(b: bool)
    | JNum(n: int)
    | JStr(s: string)
    | JArr(items: seq<Json>)
    | JObj(fields: map<string, Json>)

  /** PHP `$v['k']` as it is evaluated inside `isset`/`??`, for a non-numeric
      key `k`: a missing key, or indexing something that is not an
      associative array, reads as null. */
  function Field(v: Json, k: string): (r: Json)
    ensures r != JNull <==> v.JObj? && k in v.fields && v.fields[k] != JNull
    ensures r != JNull ==> r == v.fields[k]
  {
    if v.JObj? && k in v.fields then v.fields[k] else JNull
  }

  /** PHP `$v ?? $d`: the default replaces null, whether the null was stored or missing. */
  function Coalesce(v: Json, d: Json): (r: Json)
    ensures v != JNull ==> r == v
    ensures v == JNull ==> r == d
  {
    if v.JNull? then d else v
  }

  /** Following a chain of keys, `$v['a']['b']['c']`; null as soon as a level is missing. */
  function Path(v: Json, keys: seq<string>): (r: Json)
    ensures r != JNull <==> PathPresent(v, keys)
    ensures r != JNull ==> r == PathValue(v, keys)
    decreases |keys|
  {
    if keys == [] then v else Path(Field(v, keys[0]), keys[1..])
  }

  /** True when every level of the chain exists and the last one is not null. */
  ghost predicate PathPresent(v: Json, keys: seq<string>)
    decreases |keys|
  {
    if keys == [] then v != JNull
    else v.JObj? && keys[0] in v.fields && PathPresent(v.fields[keys[0]], keys[1..])
  }

  /** The value at the end of a present chain. */
  ghost function PathValue(v: Json, keys: seq<string>): Json
    requires PathPresent(v, keys)
    decreases |keys|
  {
    if keys == [] then v else PathValue(v.fields[keys[0]], keys[1..])
  }

  /** A `??` over a chain yields the stored value exactly when the whole chain is present. */
  lemma PathCoalesce(v: Json, keys: seq<string>, d: Json)
    ensures PathPresent(v, keys) ==> Coalesce(Path(v, keys), d) == PathValue(v, keys)
    ensures !PathPresent(v, keys) ==> Coalesce(Path(v, keys), d) == d
  {
  }

  /** PHP truthiness, as `$x ? a : b` tests it: null, false, 0, "", "0" and the empty array are false. */
  predicate Truthy(v: Json)
    ensures !Truthy(v) <==>
              v in {JNull, JBool(false), JNum(0), JStr(""), JStr("0"), JArr([]), JObj(map[])}
  {
    match v
    case JNull => false
    case JBool(b) => b
    case JNum(n) => n != 0
    case JStr(s) => s != "" && s != "0"
    case JArr(items) => items != []
    case JObj(fields) => fields != map[]
  }
}
