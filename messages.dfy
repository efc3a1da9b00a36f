/**
 * The `$messages(data)` object of the compiled-module runtime: a plain object
 * from message ids to message functions, filled in place by `addResource`,
 * read by `compound`, `format` and `hasMessage`. Selection and rendering are
 * the same as the bundle's.
 */
module Messages {
  import opened Base
  import opened Js
  import opened Runtime
  import opened Bundle

  /**
   * A compiled message: a function of the arguments whose own enumerable
   * properties, in creation order, are its attribute functions. The names are
   * distinct, being property keys of one object, so the list stands for the
   * `Map` that `compound` builds from it.
   */
  datatype MessageFn = MessageFn(call: Producer, attributes: seq<(string, Producer)>)

  /** `fn.hasOwnProperty(name) && fn[name]` for an attribute name. */
  function OwnAttribute(attributes: seq<(string, Producer)>, name: string): Option<Producer>
  {
    if attributes == [] then None
    else if attributes[0].0 == name then Some(attributes[0].1)
    else OwnAttribute(attributes[1..], name)
  }

  /** What `compound` returns: the message text and one text per attribute. */
  datatype CompoundResult = CompoundResult(value: string, attributes: seq<(string, string)>)

  /** `Object.keys(fn).map(an => [an, msgString(fn[an](args))])`; the first exception propagates. */
  function CompoundAttributes(host: Host, lc: Value, attributes: seq<(string, Producer)>, args: Value): Outcome<seq<(string, string)>>
  {
    if attributes == [] then Returned([])
    else
      var (name, fn) := attributes[0];
      match fn(args)
      case Threw(e) => Threw(e)
      case Returned(parts) =>
        match MsgStringOf(host, lc, parts)
        case Threw(e) => Threw(e)
        case Returned(text) =>
          match CompoundAttributes(host, lc, attributes[1..], args)
          case Threw(e) => Threw(e)
          case Returned(rest) => Returned([(name, text)] + rest)
  }

  /**
   * `compound(id, args, errors)` as a value: the result and the recorded error.
   * Exceptions of the message functions are not caught here.
   */
  function CompoundSpec(host: Host, lc: Value, data: map<string, MessageFn>, id: string, args: Value): Outcome<(CompoundResult, Option<JsError>)>
  {
    if id !in data then Returned((CompoundResult(id, []), Some(Unknown(id))))
    else
      var a := ArgsOrEmpty(args);
      match data[id].call(a)
      case Threw(e) => Threw(e)
      case Returned(parts) =>
        match MsgStringOf(host, lc, parts)
        case Threw(e) => Threw(e)
        case Returned(value) =>
          match CompoundAttributes(host, lc, data[id].attributes, a)
          case Threw(e) => Threw(e)
          case Returned(attributes) => Returned((CompoundResult(value, attributes), None))
  }

  /**
   * The attributes of a compound come out one per attribute function, named
   * as the function and in its order, each rendered from its own parts.
   */
  lemma {:induction false} CompoundAttributesInOrder(host: Host, lc: Value, attributes: seq<(string, Producer)>, args: Value)
    requires CompoundAttributes(host, lc, attributes, args).Returned?
    ensures var r := CompoundAttributes(host, lc, attributes, args).value;
      && |r| == |attributes|
      && forall i :: 0 <= i < |attributes| ==>
        && r[i].0 == attributes[i].0
        && attributes[i].1(args).Returned?
        && MsgStringOf(host, lc, attributes[i].1(args).value) == Returned(r[i].1)
  {
    if attributes != [] {
      CompoundAttributesInOrder(host, lc, attributes[1..], args);
      var r := CompoundAttributes(host, lc, attributes, args).value;
      forall i | 1 <= i < |attributes|
        ensures attributes[i] == attributes[1..][i - 1]
      {
      }
    }
  }

  /** An unknown id yields the id as text, no attributes, and one error. */
  lemma CompoundOfUnknownId(host: Host, lc: Value, data: map<string, MessageFn>, id: string, args: Value)
    requires id !in data
    ensures CompoundSpec(host, lc, data, id, args) == Returned((CompoundResult(id, []), Some(Unknown(id))))
  {
  }

  /** Calling the target of `format` inside its `try`: a missing target is an unknown message. */
  function Attempt(host: Host, lc: Value, id: string, fn: Option<Producer>, args: Value): Formatted
  {
    if fn.None? then Formatted(id, Some(Unknown(id))) else Render(host, lc, id, fn.value, args)
  }

  /** What calling `hasOwnProperty` on the missing message throws. */
  function UndefinedHasOwnProperty(): JsError
  {
    JsError("TypeError", "Cannot read properties of undefined (reading 'hasOwnProperty')")
  }

  /**
   * `format(id, args, errors)` as a value. The attribute lookup runs before
   * the `try`, so an attribute of a missing message throws out of `format`.
   */
  function FormatOutcome(host: Host, lc: Value, data: map<string, MessageFn>, id: string, args: Value): Outcome<Formatted>
  {
    var (msg, attr) := SplitId(id);
    if attr.Some? && attr.value != "" then
      if msg !in data then Threw(UndefinedHasOwnProperty())
      else Returned(Attempt(host, lc, id, OwnAttribute(data[msg].attributes, attr.value), args))
    else Returned(Attempt(host, lc, id, if msg in data then Some(data[msg].call) else None, args))
  }

  /**
   * `format` of an id without a dot never throws: an unknown id comes back
   * unchanged with one `ReferenceError`, and any failure returns the id.
   */
  lemma FormatPlainId(host: Host, lc: Value, data: map<string, MessageFn>, id: string, args: Value)
    requires '.' !in id
    ensures FormatOutcome(host, lc, data, id, args).Returned?
    ensures id !in data ==> FormatOutcome(host, lc, data, id, args) == Returned(Formatted(id, Some(Unknown(id))))
    ensures var f := FormatOutcome(host, lc, data, id, args).value; f.error.Some? ==> f.text == id
  {
    SplitIdParts(id, "", "");
    FormatWithoutAttribute(host, lc, data, id, args);
    AttemptRecovers(host, lc, id, if id in data then Some(data[id].call) else None, args);
  }

  /** Inside the `try`, every failure gives back the id, and a missing target is an unknown message. */
  lemma AttemptRecovers(host: Host, lc: Value, id: string, fn: Option<Producer>, args: Value)
    ensures fn.None? ==> Attempt(host, lc, id, fn, args) == Formatted(id, Some(Unknown(id)))
    ensures Attempt(host, lc, id, fn, args).error.Some? ==> Attempt(host, lc, id, fn, args).text == id
  {
  }

  lemma FormatWithoutAttribute(host: Host, lc: Value, data: map<string, MessageFn>, id: string, args: Value)
    requires SplitId(id) == (id, None)
    ensures FormatOutcome(host, lc, data, id, args)
      == Returned(Attempt(host, lc, id, if id in data then Some(data[id].call) else None, args))
  {
  }

  /** `format("msg.attr")` on a missing message throws a `TypeError` instead of returning the id. */
  lemma FormatMissingMessageAttributeThrows(host: Host, lc: Value, data: map<string, MessageFn>, m: string, a: string, args: Value)
    requires '.' !in m && '.' !in a && a != "" && m !in data
    ensures FormatOutcome(host, lc, data, m + "." + a, args).Threw?
    ensures FormatOutcome(host, lc, data, m + "." + a, args).error.name == "TypeError"
  {
    SplitIdParts(m, a, "");
    FormatAttributeOfMissing(host, lc, data, m + "." + a, args);
  }

  lemma FormatAttributeOfMissing(host: Host, lc: Value, data: map<string, MessageFn>, id: string, args: Value)
    requires SplitId(id).1.Some? && SplitId(id).1.value != "" && SplitId(id).0 !in data
    ensures FormatOutcome(host, lc, data, id, args) == Threw(UndefinedHasOwnProperty())
  {
  }

  /** A message whose function returns only strings formats to their concatenation. */
  lemma FormatOfStrings(host: Host, lc: Value, data: map<string, MessageFn>, id: string, args: Value, parts: seq<Value>)
    requires '.' !in id && id in data
    requires data[id].call(ArgsOrEmpty(args)) == Returned(Arr(parts))
    requires forall i :: 0 <= i < |parts| ==> parts[i].Str?
    ensures FormatOutcome(host, lc, data, id, args)
      == Returned(Formatted(Concat(seq(|parts|, i requires 0 <= i < |parts| => parts[i].s)), None))
  {
    SplitIdParts(id, "", "");
    FormatWithoutAttribute(host, lc, data, id, args);
    MsgStringOfStrings(host, lc, parts);
  }

  /** The `$messages(data)` object. */
  class MessagesBundle {
    const host: Host
    const lc: Value
    /** `lc` if it is an array, else `[lc]`. */
    const locales: Value
    var data: map<string, MessageFn>

    constructor(host: Host, lc: Value, data: map<string, MessageFn>)
      ensures this.host == host && this.lc == lc && this.data == data
      ensures locales == (if lc.Arr? then lc else Arr([lc]))
    {
      this.host := host;
      this.lc := lc;
      this.data := data;
      locales := if lc.Arr? then lc else Arr([lc]);
    }

    /** `addResource(resource, { allowOverrides })` over the plain `data` object. */
    method AddResource(resource: seq<(string, MessageFn)>, allowOverrides: bool) returns (errors: seq<string>)
      modifies this
      ensures (data, errors) == Merge(old(data), resource, allowOverrides)
    {
      errors := [];
      ghost var start := data;
      var i := 0;
      while i < |resource|
        invariant 0 <= i <= |resource|
        invariant (data, errors) == Merge(start, resource[..i], allowOverrides)
      {
        var (id, msg) := resource[i];
        assert resource[..i + 1][..i] == resource[..i];
        if !allowOverrides && id in data {
          errors := errors + [OverrideMessage(id)];
        } else {
          data := data[id := msg];
        }
        i := i + 1;
      }
      assert resource[..i] == resource;
    }

    /** `compound(id, args, errors)` */
    method Compound(id: string, args: Value, errors: ErrorList?) returns (r: Outcome<CompoundResult>)
      modifies errors
      ensures var c := CompoundSpec(host, lc, data, id, args);
        r == (if c.Threw? then Threw(c.error) else Returned(c.value.0))
      ensures var c := CompoundSpec(host, lc, data, id, args);
        errors != null ==> errors.errors == old(errors.errors) + (if c.Returned? then ErrorsOf(c.value.1) else [])
    {
      var c := CompoundSpec(host, lc, data, id, args);
      if c.Threw? {
        return Threw(c.error);
      }
      if c.value.1.Some? && errors != null {
        errors.errors := errors.errors + [c.value.1.value];
      }
      r := Returned(c.value.0);
    }

    /** `format(id, args, errors)` */
    method Format(id: string, args: Value, errors: ErrorList?) returns (r: Outcome<string>)
      modifies errors
      ensures var f := FormatOutcome(host, lc, data, id, args);
        r == (if f.Threw? then Threw(f.error) else Returned(f.value.text))
      ensures var f := FormatOutcome(host, lc, data, id, args);
        errors != null ==> errors.errors == old(errors.errors) + (if f.Returned? then ErrorsOf(f.value.error) else [])
    {
      var f := FormatOutcome(host, lc, data, id, args);
      if f.Threw? {
        return Threw(f.error);
      }
      if f.value.error.Some? && errors != null {
        errors.errors := errors.errors + [f.value.error.value];
      }
      r := Returned(f.value.text);
    }

    /** `hasMessage(id)`: an own-property check that does not hide terms. */
    predicate HasMessage(id: string)
      reads this
    {
      id in data
    }
  }

  /** Unlike the bundle's, this `hasMessage` reports a term id that is in the table. */
  lemma HasMessageShowsTerms(messages: MessagesBundle, bundle: FluentBundle, id: string)
    requires |id| > 0 && id[0] == '-'
    ensures id in messages.data ==> messages.HasMessage(id)
    ensures !bundle.HasMessage(id)
  {
  }
}
