/** The JSON / YAML values the pipeline reads: transcript files and the settings file. */
module Json {
  import opened Wrappers

  /** Numbers are kept as reals; objects keep their members in document order. */
  datatype Json =
    | JNull
    | JBool(b: bool)
    | JNum(n: real)
    | JStr(s: string)
    | JArr(items: seq<Json>)
    | JObj(fields: seq<Field>)

  datatype Field = Field(key: string, value: Json)

  /** Python truthiness of a decoded value. */
  predicate Truthy(j: Json) {
    match j
    case JNull => false
    case JBool(b) => b
    case JNum(n) => n != 0.0
    case JStr(s) => s != ""
    case JArr(xs) => xs != []
    case JObj(fs) => fs != []
  }

  /** `d.get(key)`: the value bound to `key`; a repeated key keeps its last binding, as
      `json.load` and `yaml.safe_load` do. */
  function Get(fs: seq<Field>, key: string): (r: Option<Json>)
    ensures r.None? <==> forall k :: 0 <= k < |fs| ==> fs[k].key != key
    ensures r.Some? ==> exists k :: 0 <= k < |fs| && fs[k].key == key && fs[k].value == r.value
    decreases |fs|
  {
    if fs == [] then None
    else if fs[|fs| - 1].key == key then Some(fs[|fs| - 1].value)
    else Get(fs[..|fs| - 1], key)
  }

  function Keys(fs: seq<Field>): (r: seq<string>)
    ensures |r| == |fs| && forall k :: 0 <= k < |fs| ==> r[k] == fs[k].key
    decreases |fs|
  {
    if fs == [] then [] else [fs[0].key] + Keys(fs[1..])
  }
}
