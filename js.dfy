/**
 * The slice of JavaScript that the runtime relies on: values, truthiness,
 * `String(value)`, `isNaN`, thrown errors, and the platform services (number
 * and date conversion, `Intl`) that the model does not define. Those services
 * are fields of a `Host` value passed in by the caller, so every property
 * proved below holds for every behaviour the platform may have.
 */
module Js {
  import opened Base

  /** An IEEE double as far as the runtime can tell numbers apart. */
  datatype Number = NaN | Finite(x: real) | Infinity(negative: bool)

  datatype Value =
    | Undefined
    | Null
    | Bool(b: bool)
    | Num(n: Number)
    | Str(s: string)
    | DateValue(time: Number)
    | Arr(items: seq<Value>)
    | Obj(props: map<string, Value>)

  /** A thrown error: its constructor name and message. */
  datatype JsError = JsError(name: string, message: string)

  /** The completion of a call that may throw. */
  datatype Outcome<+T> = Returned(value: T) | Threw(error: JsError)

  /**
   * The platform services, left undefined by the model:
   * `numberToString` is `String(n)`, `dateToString` is `String(date)`,
   * `stringToNumber` is `Number(s)`;
   * `plural(lc, options, x)` is `new Intl.PluralRules(lc, options).select(x)`;
   * `numberFormat(lc, options, x)` is `new Intl.NumberFormat(lc, options).format(x)`;
   * `formatNumber` and `formatDate` are the default number and date formats
   * of `lc`. The `Intl` services may throw (a malformed locale or option).
   */
  datatype Host = Host(
    numberToString: Number -> string,
    dateToString: Number -> string,
    stringToNumber: string -> Number,
    plural: (Value, Value, Value) -> Outcome<string>,
    numberFormat: (Value, Value, Value) -> Outcome<string>,
    formatNumber: (Value, Number) -> Outcome<string>,
    formatDate: (Value, Number) -> Outcome<string>)

  predicate IsTruthyNumber(n: Number)
  {
    (n.Finite? && n.x != 0.0) || n.Infinity?
  }

  /** JavaScript truthiness. */
  predicate Truthy(v: Value)
  {
    match v
    case Undefined => false
    case Null => false
    case Bool(b) => b
    case Num(n) => IsTruthyNumber(n)
    case Str(s) => s != ""
    case _ => true
  }

  /** `v[key]` for an own property; anything else reads as `undefined`. */
  function Prop(v: Value, key: string): Value
  {
    if v.Obj? && key in v.props then v.props[key] else Undefined
  }

  /** `String(v)`; an array joins its items with commas, `undefined` and `null` as empty. */
  function ToString(host: Host, v: Value): string
  {
    match v
    case Undefined => "undefined"
    case Null => "null"
    case Bool(b) => if b then "true" else "false"
    case Num(n) => host.numberToString(n)
    case Str(s) => s
    case DateValue(t) => host.dateToString(t)
    case Arr(items) => Join(JoinItems(host, items), ",")
    case Obj(_) => "[object Object]"
  }

  /** How `Array.prototype.join` renders each item. */
  function JoinItems(host: Host, items: seq<Value>): (r: seq<string>)
    ensures |r| == |items|
  {
    if items == [] then []
    else
      var first := if items[0].Undefined? || items[0].Null? then "" else ToString(host, items[0]);
      [first] + JoinItems(host, items[1..])
  }

  /** `Number(v)`, the coercion behind `isNaN`. */
  function ToNumber(host: Host, v: Value): Number
  {
    match v
    case Undefined => NaN
    case Null => Finite(0.0)
    case Bool(b) => Finite(if b then 1.0 else 0.0)
    case Num(n) => n
    case Str(s) => host.stringToNumber(s)
    case DateValue(t) => t
    case Arr(_) => host.stringToNumber(ToString(host, v))
    case Obj(_) => NaN
  }

  /** The global `isNaN(v)`. */
  predicate IsNaN(host: Host, v: Value)
  {
    ToNumber(host, v).NaN?
  }

  /** `isNaN` needs the platform only for strings and arrays. */
  lemma IsNaNWithoutHost(h1: Host, h2: Host, v: Value)
    requires !v.Str? && !v.Arr?
    ensures IsNaN(h1, v) == IsNaN(h2, v)
    ensures v.Undefined? || v.Obj? || (v.Num? && v.n.NaN?) ==> IsNaN(h1, v)
    ensures v.Null? || v.Bool? || (v.Num? && !v.n.NaN?) ==> !IsNaN(h1, v)
  {
  }
}
