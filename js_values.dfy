/**
 * The JavaScript values the program stores, prints and reads back, as far
 * as the model needs them: numbers, which may be NaN or infinite, and the
 * values `JSON.parse` produces.  Numbers are whole (the program only ever
 * stores integer quantities).
 */
module Js {
  import opened Wrappers

  /** A JavaScript number: a finite (integral) value, NaN, or an infinity. */
  datatype Num = Finite(value: int) | NaN | Infinity(negative: bool)

  /** A value as `JSON.parse` (or an object literal) gives it. */
  datatype JVal =
    | JNull
    | JBool(b: bool)
    | JNum(n: Num)
    | JStr(s: string)
    | JArr(elems: seq<JVal>)
    | JObj(fields: map<string, JVal>)

  /** `!!v`; `None` is a missing property, which is `undefined`. */
  predicate Truthy(v: Option<JVal>) {
    match v
    case None => false
    case Some(JNull) => false
    case Some(JBool(b)) => b
    case Some(JNum(n)) => n.Infinity? || (n.Finite? && n.value != 0)
    case Some(JStr(s)) => s != []
    case Some(JArr(_)) => true
    case Some(JObj(_)) => true
  }

  /** `typeof v === "string" ? v : null`. */
  function StringOrNull(v: Option<JVal>): Option<string> {
    match v
    case Some(JStr(s)) => Some(s)
    case _ => None
  }
}
