/** The JSON values that a request body's `text` field can carry, and the two
    JavaScript conversions the server applies to them: truthiness (`!text`)
    and the rendering `Array.prototype.join` gives each element. */
module JsValues {

  /** A request-body value. Numbers, arrays and objects are not modelled. */
  datatype Value = Undefined | Null | Bool(b: bool) | Str(s: string)

  /** JavaScript truthiness: `!v` holds exactly for undefined, null, false and "". */
  predicate Truthy(v: Value): (r: bool)
    ensures r <==> v != Undefined && v != Null && v != Bool(false) && v != Str("")
  {
    match v
    case Undefined => false
    case Null => false
    case Bool(b) => b
    case Str(s) => s != ""
  }

  /** How `join` turns one element into text: undefined and null become the
      empty string, everything else its `String(...)` form. */
  function Render(v: Value): (r: string)
    ensures v == Undefined || v == Null ==> r == ""
    ensures v.Str? ==> r == v.s
    ensures v.Bool? ==> r == if v.b then "true" else "false"
  {
    match v
    case Undefined => ""
    case Null => ""
    case Bool(b) => if b then "true" else "false"
    case Str(s) => s
  }

  /** A value that passes the `!text` check renders as non-empty text. */
  lemma TruthyRendersNonEmpty(v: Value)
    requires Truthy(v)
    ensures Render(v) != ""
  {
  }
}
