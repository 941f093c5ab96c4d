/**
 * The values `JSON.parse` produces, and the two JavaScript operations the
 * application performs on them: reading a property and testing truthiness.
 * Objects are maps because `JSON.parse` keeps the last of duplicate keys.
 */
module Json {
  import opened Text

  datatype Json =
    | JNull
    | JBool(b: bool)
    | JNum(n: int)
    | JStr(s: string)
    | JArr(items: seq<Json>)
    | JObj(fields: map<string, Json>)

  /** The outcome of the property read `v.key` on a non-null value. */
  datatype Prop = Undefined | Defined(value: Json)

  /**
   * `v.key` for a value `v` that is not `null`: an object's own field, and
   * `undefined` for every other kind of value (none of the keys the
   * application reads is a property of strings, numbers or arrays).
   */
  function Lookup(v: Json, key: string): (p: Prop)
    ensures p.Defined? ==> v.JObj? && key in v.fields && p.value == v.fields[key]
    ensures v.JObj? && key in v.fields ==> p.Defined?
  {
    match v
    case JObj(m) => if key in m then Defined(m[key]) else Undefined
    case _ => Undefined
  }

  /** JavaScript truthiness of a JSON value. */
  predicate Truthy(v: Json) {
    match v
    case JNull => false
    case JBool(b) => b
    case JNum(n) => n != 0
    case JStr(s) => s != ""
    case JArr(_) => true
    case JObj(_) => true
  }

  /** Truthiness of a property read; `undefined` is falsy. */
  predicate PropTruthy(p: Prop) {
    p.Defined? && Truthy(p.value)
  }

  /** `v.key === "text"`. */
  predicate PropIs(v: Json, key: string, text: string) {
    Lookup(v, key) == Defined(JStr(text))
  }

  /**
   * `String(v)`, as a template literal or `new Error(v)` renders a value:
   * strings as themselves, numbers in decimal, an array as its items' texts
   * joined by commas (a `null` item as the empty string) and every object as
   * "[object Object]".
   */
  function ToText(v: Json): (r: string)
    ensures v.JStr? ==> r == v.s
    ensures v.JObj? ==> r == "[object Object]"
    decreases v
  {
    match v
    case JNull => "null"
    case JBool(b) => if b then "true" else "false"
    case JNum(n) => if n < 0 then "-" + NatToString(-n) else NatToString(n)
    case JStr(s) => s
    case JArr(items) => Join(seq(|items|, i requires 0 <= i < |items| => if items[i] == JNull then "" else ToText(items[i])), ",")
    case JObj(_) => "[object Object]"
  }
}
