/**
 * The runtime factory `Runtime(lc)`: variant selection, bidi isolation and the
 * `NUMBER` builtin. `lc` is whatever the generated module passed in, so it is
 * a JavaScript value; plural rules and number formatting come from the host.
 */
module Runtime {
  import opened Base
  import opened Js

  /** FIRST STRONG ISOLATE and POP DIRECTIONAL ISOLATE. */
  const FSI: string := "\U{2068}"
  const PDI: string := "\U{2069}"

  /** `isol(expr)`: an array is spread between the isolation marks, anything else wrapped. */
  function Isol(expr: Value): (r: Value)
    ensures r.Arr? && |r.items| == (if expr.Arr? then |expr.items| else 1) + 2
    ensures r.items[0] == Str(FSI) && r.items[|r.items| - 1] == Str(PDI)
    ensures r.items[1..|r.items| - 1] == (if expr.Arr? then expr.items else [expr])
  {
    if expr.Arr? then Arr([Str(FSI)] + expr.items + [Str(PDI)]) else Arr([Str(FSI), expr, Str(PDI)])
  }

  /** `value && value.$`: a formatted number carrying its formatting options. */
  predicate IsTagged(value: Value)
  {
    Truthy(value) && Truthy(Prop(value, "$"))
  }

  /** `variants[def]` */
  function DefaultVariant(variants: map<string, Value>, def: string): Value
  {
    if def in variants then variants[def] else Undefined
  }

  /** The variant for plural category `cat`, else the default. */
  function CategoryOrDefault(variants: map<string, Value>, def: string, cat: string): Value
  {
    if cat in variants then variants[cat] else DefaultVariant(variants, def)
  }

  /**
   * `select(value, def, variants)`. A tagged number is matched by its
   * formatted text, then by its plural category under its own options; any
   * other value by its string form, then, for a number, by its plural
   * category; everything else falls back to the default variant.
   */
  function Select(host: Host, lc: Value, value: Value, def: string, variants: map<string, Value>): (r: Outcome<Value>)
  {
    if IsTagged(value) then
      var fmt := ToString(host, Prop(value, "fmt"));
      if fmt in variants then Returned(variants[fmt])
      else match host.plural(lc, Prop(value, "$"), Prop(value, "value"))
        case Threw(e) => Threw(e)
        case Returned(cat) => Returned(CategoryOrDefault(variants, def, cat))
    else
      var key := ToString(host, value);
      if key in variants then Returned(variants[key])
      else if value.Num? then
        match host.plural(lc, Undefined, value)
        case Threw(e) => Threw(e)
        case Returned(cat) => Returned(CategoryOrDefault(variants, def, cat))
      else Returned(DefaultVariant(variants, def))
  }

  /** The key `select` tries first: the formatted text of a tagged number, else the value's string form. */
  function ExactKey(host: Host, value: Value): string
  {
    if IsTagged(value) then ToString(host, Prop(value, "fmt")) else ToString(host, value)
  }

  /** Whatever `select` returns is one of the variants, or `undefined` when the default key is missing. */
  lemma SelectReturnsVariant(host: Host, lc: Value, value: Value, def: string, variants: map<string, Value>)
    ensures var r := Select(host, lc, value, def, variants);
      r.Returned? ==> r.value in variants.Values || (r.value == Undefined && def !in variants)
  {
  }

  /** An exact key match wins over plural categories, whatever the plural rules say. */
  lemma ExactKeyFirst(host: Host, lc: Value, value: Value, def: string, variants: map<string, Value>)
    requires ExactKey(host, value) in variants
    ensures Select(host, lc, value, def, variants) == Returned(variants[ExactKey(host, value)])
  {
  }

  /**
   * Without an exact match, a tagged number or a plain number goes to the
   * variant of its plural category (under the tagged options, or none), and to
   * the default when that category has no variant.
   */
  lemma CategorySecond(host: Host, lc: Value, value: Value, def: string, variants: map<string, Value>)
    requires ExactKey(host, value) !in variants
    requires IsTagged(value) || value.Num?
    ensures var options := if IsTagged(value) then Prop(value, "$") else Undefined;
      var x := if IsTagged(value) then Prop(value, "value") else value;
      var cat := host.plural(lc, options, x);
      && (cat.Threw? ==> Select(host, lc, value, def, variants) == Threw(cat.error))
      && (cat.Returned? ==> Select(host, lc, value, def, variants) == Returned(CategoryOrDefault(variants, def, cat.value)))
  {
  }

  /**
   * Anything that is neither a tagged nor a plain number, such as the string
   * `other`, `undefined`, a date or an array, never reaches the plural rules:
   * without an exact match on its string form it selects the default variant.
   */
  lemma OtherValuesUseDefault(host: Host, lc: Value, value: Value, def: string, variants: map<string, Value>)
    requires !IsTagged(value) && !value.Num?
    ensures ToString(host, value) in variants ==> Select(host, lc, value, def, variants) == Returned(variants[ToString(host, value)])
    ensures ToString(host, value) !in variants ==> Select(host, lc, value, def, variants) == Returned(DefaultVariant(variants, def))
  {
  }

  /**
   * For a value whose string form the platform does not decide (not a
   * number, a date or an array), the variant chosen is the same on every
   * platform.
   */
  lemma SelectHostIndependent(h1: Host, h2: Host, lc: Value, value: Value, def: string, variants: map<string, Value>)
    requires !IsTagged(value) && !value.Num? && !value.DateValue? && !value.Arr?
    ensures Select(h1, lc, value, def, variants) == Select(h2, lc, value, def, variants)
  {
  }

  /** `NUMBER($, value)`: `'NaN'` for what `isNaN` rejects, a tagged number, or `String(value)` if formatting throws. */
  function NumberFn(host: Host, lc: Value, options: Value, value: Value): Value
  {
    if IsNaN(host, value) then Str("NaN")
    else match host.numberFormat(lc, options, value)
      case Returned(fmt) => Obj(map["$" := options, "value" := value, "fmt" := Str(fmt)])
      case Threw(_) => Str(ToString(host, value))
  }

  /**
   * The shape of a `NUMBER` result: the NaN guard comes before any
   * formatting; a formatted result keeps the options and the value beside the
   * formatted text, and it is tagged whenever the options are truthy.
   */
  lemma NumberShape(host: Host, lc: Value, options: Value, value: Value)
    ensures IsNaN(host, value) ==> NumberFn(host, lc, options, value) == Str("NaN")
    ensures !IsNaN(host, value) && host.numberFormat(lc, options, value).Threw? ==>
      NumberFn(host, lc, options, value) == Str(ToString(host, value))
    ensures !IsNaN(host, value) && host.numberFormat(lc, options, value).Returned? ==>
      var r := NumberFn(host, lc, options, value);
      && Prop(r, "$") == options && Prop(r, "value") == value
      && Prop(r, "fmt") == Str(host.numberFormat(lc, options, value).value)
      && (Truthy(options) <==> IsTagged(r))
  {
  }

  /**
   * `NUMBER` and `select` together: a formatted number whose text names a
   * variant selects that variant, so `[2]` beats `[two]` for an ordinal 2.
   */
  lemma NumberThenSelect(host: Host, lc: Value, options: Value, value: Value, def: string, variants: map<string, Value>)
    requires Truthy(options) && !IsNaN(host, value)
    requires host.numberFormat(lc, options, value).Returned?
    requires host.numberFormat(lc, options, value).value in variants
    ensures Select(host, lc, NumberFn(host, lc, options, value), def, variants)
      == Returned(variants[host.numberFormat(lc, options, value).value])
  {
    NumberShape(host, lc, options, value);
  }
}
