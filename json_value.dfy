/** The values `JSON.parse` produces, and the JavaScript operations the
    application applies to them without knowing their shape: property reads,
    truthiness, `Array.isArray`, `Object.values` and `String(x)`. */
module JsValue {
  import opened Wrappers
  import opened Strings

  /** A parsed JSON value. Numbers are integers in this model. An object is
      the list of its own properties in enumeration order; `JSON.parse`
      never produces two properties with one key. */
  datatype Json =
    | JNull
    | JBool(b: bool)
    | JNum(n: int)
    | JStr(s: string)
    | JArr(items: seq<Json>)
    | JObj(fields: seq<(string, Json)>)

  /** The first property named `key`, if any. */
  function Lookup(fields: seq<(string, Json)>, key: string): (r: Option<Json>)
    ensures r.Some? <==> exists i :: 0 <= i < |fields| && fields[i].0 == key
    ensures r.Some? ==> exists i :: 0 <= i < |fields| && fields[i] == (key, r.value)
  {
    if |fields| == 0 then None
    else if fields[0].0 == key then Some(fields[0].1)
    else
      var r := Lookup(fields[1..], key);
      assert forall i :: 1 <= i < |fields| ==> fields[i] == fields[1..][i - 1];
      r
  }

  /** The property read `v.key`; `None` stands for `undefined`. Values other
      than objects have no own properties that the application reads. */
  function Get(v: Json, key: string): Option<Json> {
    if v.JObj? then Lookup(v.fields, key) else None
  }

  /** JavaScript truthiness of a value that is present. */
  predicate Truthy(v: Json) {
    match v
    case JNull => false
    case JBool(b) => b
    case JNum(n) => n != 0
    case JStr(s) => s != ""
    case JArr(_) => true
    case JObj(_) => true
  }

  /** Truthiness of a value that may be `undefined`. */
  predicate IsTruthy(v: Option<Json>) {
    v.Some? && Truthy(v.value)
  }

  /** `a || b` where `a` may be `undefined`. */
  function Or(a: Option<Json>, b: Json): (r: Json)
    ensures IsTruthy(a) ==> r == a.value
    ensures !IsTruthy(a) ==> r == b
  {
    if IsTruthy(a) then a.value else b
  }

  /** `ensureArray(v)`: the elements of `v` when it is an array, else none.
      Applied to the elements of an array it gives them back unchanged. */
  function EnsureArray(v: Option<Json>): (r: seq<Json>)
    ensures v.Some? && v.value.JArr? ==> v == Some(JArr(r))
    ensures r == [] || v == Some(JArr(r))
  {
    if v.Some? && v.value.JArr? then v.value.items else []
  }

  /** Applying `ensureArray` to its own result changes nothing. */
  lemma EnsureArrayIdempotent(v: Option<Json>)
    ensures EnsureArray(Some(JArr(EnsureArray(v)))) == EnsureArray(v)
  {
  }

  /** `Object.values(o)`. */
  function Values(fields: seq<(string, Json)>): (r: seq<Json>)
    ensures |r| == |fields|
    ensures forall i :: 0 <= i < |fields| ==> r[i] == fields[i].1
  {
    seq(|fields|, i requires 0 <= i < |fields| => fields[i].1)
  }

  function Width(v: Json): nat {
    if v.JArr? then |v.items| + 1 else 0
  }

  /** `String(v)`: an array is the `join(",")` of its elements, in which
      `null` elements become empty; any other object is "[object Object]". */
  function ToStr(v: Json): string
    decreases v, Width(v)
  {
    match v
    case JNull => "null"
    case JBool(b) => if b then "true" else "false"
    case JNum(n) => IntToDecimal(n)
    case JStr(s) => s
    case JArr(items) => JoinElements(v, |items|)
    case JObj(_) => "[object Object]"
  }

  /** The `join(",")` of the first `n` elements of the array `v`. */
  function JoinElements(v: Json, n: nat): string
    requires v.JArr? && n <= |v.items|
    decreases v, n
  {
    if n == 0 then ""
    else
      var last := if v.items[n - 1].JNull? then "" else ToStr(v.items[n - 1]);
      if n == 1 then last else JoinElements(v, n - 1) + "," + last
  }

  /** `String(v)` where `v` may be `undefined`, as a template literal
      `${v}` renders it. */
  function TemplateStr(v: Option<Json>): string {
    if v.None? then "undefined" else ToStr(v.value)
  }
}
