/**
 * JSON values as the JavaScript code sees them after `JSON.parse` of a
 * request body, and the two library calls `JSON.parse` / `JSON.stringify`
 * as an abstract codec. No JSON grammar is modelled: a `Codec` is any pair
 * of functions, and `Lawful` states the one law the lemmas rely on.
 * Numbers are integers only.
 */
module Json {
  import opened Wrappers
  import Text

  datatype Json =
    | JNull
    | JBool(b: bool)
    | JNumber(n: int)
    | JString(str: string)
    | JArray(items: seq<Json>)
    | JObject(fields: seq<(string, Json)>)

  /** `parse` returns `None` where `JSON.parse` throws. */
  datatype Codec = Codec(parse: string -> Option<Json>, serialize: Json -> string)

  /** Parsing what was serialised gives the value back. */
  ghost predicate Lawful(c: Codec) {
    forall j :: c.parse(c.serialize(j)) == Some(j)
  }

  /**
   * Three answers of `JSON.parse` the admin form depends on: `'[]'` is the
   * empty array, `'null'` (what `JSON.parse(null)` reads) is null, and the
   * empty string does not parse.
   */
  predicate KnowsLiterals(c: Codec) {
    c.parse("[]") == Some(JArray([])) && c.parse("null") == Some(JNull) && c.parse("") == None
  }

  /** JavaScript truthiness, which decides `value || fallback`. */
  predicate Truthy(j: Json) {
    match j
    case JNull => false
    case JBool(b) => b
    case JNumber(n) => n != 0
    case JString(s) => s != ""
    case _ => true
  }

  /** `String(j)`, which `Array.prototype.join` applies to each element (null becomes ""). */
  function ElementText(j: Json): (r: string)
    decreases j, 1
    ensures j.JNull? ==> r == ""
    ensures j.JString? ==> r == j.str
    ensures j.JArray? ==> r == Text.Join(ElementTexts(j.items), ",")
  {
    match j
    case JNull => ""
    case JBool(b) => if b then "true" else "false"
    case JNumber(n) => Text.IntText(n)
    case JString(s) => s
    case JArray(items) => Text.Join(ElementTexts(items), ",")
    case JObject(_) => "[object Object]"
  }

  /** `String(item)` for every element, as `Array.prototype.join` renders them. */
  function ElementTexts(items: seq<Json>): (r: seq<string>)
    decreases items, 0
    ensures |r| == |items| && forall i :: 0 <= i < |items| ==> r[i] == ElementText(items[i])
  {
    seq(|items|, i requires 0 <= i < |items| => ElementText(items[i]))
  }

  /** A list of strings as a JSON array. */
  function Strings(xs: seq<string>): (j: Json)
    ensures j.JArray? && |j.items| == |xs|
    ensures forall i :: 0 <= i < |xs| ==> j.items[i] == JString(xs[i])
  {
    JArray(seq(|xs|, i requires 0 <= i < |xs| => JString(xs[i])))
  }
}
