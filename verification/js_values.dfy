/**
 * The JavaScript value semantics both sides of the schedule request rely
 * on: JSON values as `JSON.parse` yields them, truthiness (what `||` tests),
 * reading a `message` property off a parsed value, and `String(v)` (what
 * `new Error(v)` stores as the message).
 */
module JsValues {
  import opened Wrappers
  import Text

  /** A JSON value. Numbers are integers here. */
  datatype Json =
    | JNull
    | JBool(b: bool)
    | JNumber(n: int)
    | JString(s: string)
    | JArray(items: seq<Json>)
    | JObject(fields: map<string, Json>)

  /** What a `catch` block receives from a thrown error: its `name` and its `message`. */
  datatype Thrown = Thrown(name: string, message: string)

  /** The outcome of `JSON.parse` or `response.json()`: a value, or the error thrown for text that is not JSON. */
  datatype Parsed<T> = Parsed(value: T) | Unparsable(error: Thrown)

  /** The message the JavaScript engine (V8) gives the TypeError for reading `message` off `null`. */
  const NullReadMessage := "Cannot read properties of null (reading 'message')"

  /** JavaScript truthiness: `null`, `false`, `0` and `""` are falsy; arrays and objects, even empty ones, are truthy. */
  predicate Truthy(j: Json) {
    match j
    case JNull => false
    case JBool(b) => b
    case JNumber(n) => n != 0
    case JString(s) => s != ""
    case JArray(_) => true
    case JObject(_) => true
  }

  /** `{ message: m }`. */
  function MessageObject(m: Json): Json {
    JObject(map["message" := m])
  }

  /**
   * `v.message` for a value that is not `null`: the field of an object that
   * has one, and `undefined` (none) for every other value.
   */
  function MessageOf(j: Json): (m: Option<Json>)
    requires !j.JNull?
    ensures m.Some? <==> j.JObject? && "message" in j.fields
    ensures m.Some? ==> m.value == j.fields["message"]
  {
    match j
    case JObject(fields) => if "message" in fields then Some(fields["message"]) else None
    case _ => None
  }

  /** `a || b` where `a` may be `undefined`: `a` when it is truthy, else `b`. */
  function Or(a: Option<Json>, b: Json): (r: Json)
    ensures a.Some? && Truthy(a.value) ==> r == a.value
    ensures !(a.Some? && Truthy(a.value)) ==> r == b
    ensures Truthy(r) <==> (a.Some? && Truthy(a.value)) || Truthy(b)
  {
    match a
    case Some(v) => if Truthy(v) then v else b
    case None => b
  }

  /** The values JavaScript treats as false and JSON can carry: `null`, `false`, `0` and `""`. */
  datatype FalsyValue = FalsyNull | FalsyFalse | FalsyZero | FalsyEmpty

  function FalsyJson(v: FalsyValue): (j: Json)
    ensures !Truthy(j)
  {
    match v
    case FalsyNull => JNull
    case FalsyFalse => JBool(false)
    case FalsyZero => JNumber(0)
    case FalsyEmpty => JString("")
  }

  /** The four falsy values are exactly the JSON values that are not truthy. */
  lemma {:induction false} FalsyJsonExactly(j: Json)
    ensures !Truthy(j) <==> exists v :: FalsyJson(v) == j
  {
    if !Truthy(j) {
      var v := match j
        case JNull => FalsyNull
        case JBool(_) => FalsyFalse
        case JNumber(_) => FalsyZero
        case _ => FalsyEmpty;
      assert FalsyJson(v) == j;
    }
  }

  /**
   * `String(v)`: how `new Error(v)` and a template literal turn a value into
   * text. A string passes unchanged; a truthy value other than an array never
   * prints as the empty string, while the empty array, although truthy, does.
   */
  function ToJsString(j: Json): (s: string)
    ensures j.JString? ==> s == j.s
    ensures j.JNull? ==> s == "null"
    ensures j.JNumber? ==> s == Text.IntToDecimal(j.n)
    ensures Truthy(j) && !j.JArray? ==> s != ""
    ensures j == JArray([]) ==> s == "" && Truthy(j)
    decreases j
  {
    match j
    case JNull => "null"
    case JBool(b) => if b then "true" else "false"
    case JNumber(n) => Text.IntToDecimal(n)
    case JString(s) => s
    case JArray(items) =>
      // Array.prototype.join(","): a null element becomes the empty string.
      Text.Join(seq(|items|, i requires 0 <= i < |items| =>
        if items[i].JNull? then "" else ToJsString(items[i])), ',')
    case JObject(_) => "[object Object]"
  }
}
