/**
 * The values held in a record's open attribute map (`metrics`), and JavaScript's
 * `Number(v)` coercion of them, on which every "is this a metric" decision rests.
 */
module JsValue {
  import opened Wrappers

  /**
   * A JSON value as read back from the store, plus NaN, which the collector's
   * in-memory state can hold (and which JSON serialises as null). `Obj` is a nested
   * object, whose content no part of the core looks into.
   */
  datatype Value =
    | Num(n: real)
    | Bool(b: bool)
    | Str(s: string)
    | List(items: seq<Value>)
    | Null
    | Obj
    | NaN

  /** An attribute map: field label to value. */
  type Attrs = map<string, Value>

  /**
   * `Number(s)` for a string. JavaScript's string-numeric grammar is not part of this
   * model: every operation that coerces receives it as a parameter, None standing for NaN.
   */
  type StrCoercion = string -> Option<real>

  /** The one fact about `Number(s)` the model relies on: the empty string is 0. */
  predicate EmptyIsZero(strNum: StrCoercion) {
    strNum("") == Some(0.0)
  }

  /**
   * `Number(v)`, with None for NaN. An array converts through its string form: `[]` is
   * `""` (0), `[x]` is `String(x)` (which reads back as `x` except for booleans, whose
   * text is "true"/"false"), and two or more elements give a comma, hence NaN.
   */
  function ToNumber(v: Value, strNum: StrCoercion): (r: Option<real>)
    ensures v.Num? ==> r == Some(v.n)
    ensures v.Bool? ==> r == Some(if v.b then 1.0 else 0.0)
    ensures v.Null? ==> r == Some(0.0)
    ensures v.Obj? || v.NaN? ==> r == None
    ensures v.Str? ==> r == strNum(v.s)
    ensures v.List? && |v.items| >= 2 ==> r == None
  {
    match v
    case Num(n) => Some(n)
    case Bool(b) => Some(if b then 1.0 else 0.0)
    case Null => Some(0.0)
    case Str(s) => strNum(s)
    case List(items) =>
      if |items| == 0 then Some(0.0)
      else if |items| == 1 then (if items[0].Bool? then None else ToNumber(items[0], strNum))
      else None
    case Obj => None
    case NaN => None
  }

  /** `!Number.isNaN(Number(v))`. */
  predicate IsNumeric(v: Value, strNum: StrCoercion) {
    ToNumber(v, strNum).Some?
  }

  /** `Number(v) || 0`: the coerced number, with NaN read as 0. */
  function NumberOrZero(v: Value, strNum: StrCoercion): (r: real)
    ensures IsNumeric(v, strNum) ==> r == ToNumber(v, strNum).value
    ensures !IsNumeric(v, strNum) ==> r == 0.0
  {
    ToNumber(v, strNum).GetOr(0.0)
  }
}
