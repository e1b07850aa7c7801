/** The values a handler reads out of a parsed JSON request body, and the
    JavaScript notion of truthiness that the presence checks and the
    `a || b` fallbacks of the handlers rely on. */
module Json {

  /** A JSON value as it reaches a handler. `Undefined` is a key the body
      does not have; arrays and objects are one opaque case, always truthy. */
  datatype Value =
    | Undefined
    | Null
    | Bool(b: bool)
    | Num(x: real)
    | Str(s: string)
    | Composite

  /** JavaScript truthiness: `undefined`, `null`, `false`, `0`, `-0` and the
      empty string are falsy; everything else is truthy. */
  predicate Truthy(v: Value)
    ensures !Truthy(v) <==>
              v == Undefined || v == Null || v == Bool(false) || v == Num(0.0) || v == Str("")
  {
    match v
    case Undefined => false
    case Null => false
    case Bool(b) => b
    case Num(x) => x != 0.0
    case Str(s) => s != ""
    case Composite => true
  }

  /** JavaScript `a || b`: the first operand whenever that is truthy, the
      second otherwise; the result is truthy exactly when one of them is. */
  function Or(a: Value, b: Value): (r: Value)
    ensures r == a || r == b
    ensures Truthy(a) ==> r == a
    ensures !Truthy(a) ==> r == b
    ensures Truthy(r) <==> Truthy(a) || Truthy(b)
  {
    if Truthy(a) then a else b
  }
}
