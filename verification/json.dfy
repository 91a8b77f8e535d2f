/**
 * The JavaScript values a JSON response can carry, with the two coercions the
 * components apply to them: truthiness (`!!v`, `v || d`) and string conversion
 * (`${v}`).
 */
module Json {
  import opened Strings

  /**
   * A parsed JSON value. A number is kept as the text `String(n)` produces for it
   * (so zero, positive or negative, is `"0"`); number formatting itself is not modelled.
   */
  datatype Json =
    | JNull
    | JBool(b: bool)
    | JNum(text: string)
    | JStr(s: string)
    | JArr(items: seq<Json>)
    | JObj(fields: map<string, Json>)

  /** JavaScript truthiness of a JSON value. */
  predicate Truthy(j: Json) {
    match j
    case JNull => false
    case JBool(b) => b
    case JNum(t) => t != "0"
    case JStr(s) => s != ""
    case JArr(_) => true
    case JObj(_) => true
  }

  /** `${j}`: the template-literal (String) conversion of a JSON value. */
  function ToText(j: Json): string
    decreases j
  {
    match j
    case JNull => "null"
    case JBool(b) => if b then "true" else "false"
    case JNum(t) => t
    case JStr(s) => s
    case JArr(items) =>
      // Array.prototype.join renders null elements as empty strings.
      Join(seq(|items|, i requires 0 <= i < |items| =>
                 if items[i].JNull? then "" else ToText(items[i])), ",")
    case JObj(_) => "[object Object]"
  }

  /**
   * How Lit renders a value in a child position: null renders nothing, an
   * array renders its items one after another with no separator, and anything
   * else renders as `${j}`.
   */
  function LitText(j: Json): (r: string)
    ensures j.JNull? ==> r == ""
    ensures !j.JNull? && !j.JArr? ==> r == ToText(j)
    ensures j.JArr? && j.items == [] ==> r == ""
    decreases j
  {
    match j
    case JNull => ""
    case JArr(items) => Join(seq(|items|, i requires 0 <= i < |items| => LitText(items[i])), "")
    case _ => ToText(j)
  }

  /** `${j ?? ''}`: string conversion in which null becomes the empty string. */
  function TextOrEmpty(j: Json): (r: string)
    ensures j.JNull? ==> r == ""
    ensures j.JStr? ==> r == j.s
  {
    if j.JNull? then "" else ToText(j)
  }

  /** A missing field behaves like `undefined`, which is falsy. */
  predicate FieldTruthy(fields: map<string, Json>, name: string) {
    name in fields && Truthy(fields[name])
  }
}
