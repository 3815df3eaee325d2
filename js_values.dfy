/**
 * The slice of JavaScript value semantics that the map viewer's helpers rely on:
 * truthiness (`||`), nullishness (`??`, `?.`) and the `Number(x)` conversion.
 */
module JsValues {

  datatype Option<+T> = None | Some(value: T)

  /** A JavaScript number: a finite value (both zeros collapse to 0), NaN or an infinity. */
  datatype JsNumber = Finite(r: real) | NaN | PosInf | NegInf

  /** The values a GeoJSON properties object can hold, plus `undefined` for a missing key. */
  datatype JsValue =
    | Undefined
    | Null
    | Bool(b: bool)
    | Num(n: JsNumber)
    | Str(s: string)
    | Arr(elems: seq<JsValue>)
    | Obj(fields: map<string, JsValue>)

  /** A properties object, as read with `p?.KEY`. */
  type Props = map<string, JsValue>

  /** `p?.key` on an object: a key that is not there reads as `undefined`. */
  function Get(p: Props, key: string): JsValue {
    if key in p then p[key] else Undefined
  }

  /** `v == null`: the values `??` skips. */
  predicate Nullish(v: JsValue) {
    v.Undefined? || v.Null?
  }

  predicate NotNullish(v: JsValue) {
    !Nullish(v)
  }

  /** `!!v`: false for undefined, null, false, 0, NaN and the empty string. */
  predicate Truthy(v: JsValue) {
    match v
    case Undefined => false
    case Null => false
    case Bool(b) => b
    case Num(n) => !n.NaN? && n != Finite(0.0)
    case Str(s) => s != ""
    case Arr(_) => true
    case Obj(_) => true
  }

  /** No element of `vs` satisfies `stop`. */
  predicate NoneWhere(vs: seq<JsValue>, stop: JsValue -> bool) {
    forall j | 0 <= j < |vs| :: !stop(vs[j])
  }

  /**
   * The value of a left-associated chain `vs[0] op vs[1] op ... op vs[n-1]` where `op` is
   * `||` (stop = Truthy) or `??` (stop = NotNullish): the first operand that satisfies
   * `stop`, and the last operand when no earlier one does.
   */
  function FirstWhere(vs: seq<JsValue>, stop: JsValue -> bool): (r: JsValue)
    requires |vs| > 0
    ensures forall i | 0 <= i < |vs| :: stop(vs[i]) && NoneWhere(vs[..i], stop) ==> r == vs[i]
    ensures NoneWhere(vs[..|vs| - 1], stop) ==> r == vs[|vs| - 1]
    ensures r in vs
  {
    if |vs| == 1 || stop(vs[0]) then vs[0]
    else
      var r := FirstWhere(vs[1..], stop);
      assert forall i | 1 <= i <= |vs| :: vs[1..][..i - 1] == vs[1..i];
      assert forall i | 1 <= i <= |vs| :: NoneWhere(vs[..i], stop) ==> NoneWhere(vs[1..i], stop);
      r
  }

  /** `vs[0] || vs[1] || ...`. */
  function Or(vs: seq<JsValue>): (r: JsValue)
    requires |vs| > 0
  {
    FirstWhere(vs, Truthy)
  }

  /** `vs[0] ?? vs[1] ?? ...`. */
  function Coalesce(vs: seq<JsValue>): (r: JsValue)
    requires |vs| > 0
  {
    FirstWhere(vs, NotNullish)
  }

  /**
   * `Number(v)`. Converting a string is the engine's string-to-number grammar, which this
   * model takes as the parameter `parse`; arrays and objects convert to NaN.
   */
  function ToNumber(v: JsValue, parse: string -> JsNumber): JsNumber {
    match v
    case Undefined => NaN
    case Null => Finite(0.0)
    case Bool(b) => Finite(if b then 1.0 else 0.0)
    case Num(n) => n
    case Str(s) => parse(s)
    case Arr(_) => NaN
    case Obj(_) => NaN
  }
}
