/**
 * `FluentBundle`: a table of compiled messages keyed by id, filled in place by
 * `addResource` and read by `format`, `getMessage` and `hasMessage`; and
 * `msgString`, which flattens the parts a message function returns into text.
 * The merge of a resource into a table is shared with the `$messages` object.
 */
module Bundle {
  import opened Base
  import opened Js
  import opened Runtime

  // ---------------------------------------------------------------------
  // msgString

  /** How `msgString` renders one part. */
  function MsgPart(host: Host, lc: Value, part: Value): Outcome<string>
    decreases part
  {
    match part
    case Str(s) => Returned(s)
    case Num(n) => host.formatNumber(lc, n)
    case DateValue(t) => host.formatDate(lc, t)
    case Arr(items) => MsgString(host, lc, items)
    case Obj(_) =>
      if Truthy(Prop(part, "$")) then
        var fmt := Prop(part, "fmt");
        Returned(if fmt.Undefined? || fmt.Null? then "" else ToString(host, fmt))
      else Returned(ToString(host, part))
    case _ => Returned(ToString(host, part))
  }

  /** `msgString(lc, parts)`: the parts rendered in order and joined; the first exception propagates. */
  function MsgString(host: Host, lc: Value, parts: seq<Value>): Outcome<string>
    decreases parts
  {
    if parts == [] then Returned("")
    else AndThen(MsgPart(host, lc, parts[0]), MsgString(host, lc, parts[1..]))
  }

  /** Two renderings in sequence: the first exception wins, otherwise the texts are joined. */
  function AndThen(first: Outcome<string>, rest: Outcome<string>): Outcome<string>
  {
    match first
    case Threw(e) => Threw(e)
    case Returned(f) =>
      match rest
      case Threw(e) => Threw(e)
      case Returned(r) => Returned(f + r)
  }

  /** Rendering in sequence is associative, with the empty text as its unit. */
  lemma AndThenAssociative(x: Outcome<string>, y: Outcome<string>, z: Outcome<string>)
    ensures AndThen(x, AndThen(y, z)) == AndThen(AndThen(x, y), z)
    ensures AndThen(Returned(""), z) == z
  {
    if x.Returned? && y.Returned? && z.Returned? {
      assert x.value + (y.value + z.value) == (x.value + y.value) + z.value;
    }
    if z.Returned? {
      assert "" + z.value == z.value;
    }
  }

  /** `msgString` applied to what a message function returned; only an array has `map`. */
  function MsgStringOf(host: Host, lc: Value, result: Value): Outcome<string>
  {
    if result.Arr? then MsgString(host, lc, result.items)
    else Threw(JsError("TypeError", "parts.map is not a function"))
  }

  /** Rendering a concatenation renders each half in order; the first exception wins. */
  lemma {:induction false} MsgStringAppend(host: Host, lc: Value, a: seq<Value>, b: seq<Value>)
    ensures MsgString(host, lc, a + b) == AndThen(MsgString(host, lc, a), MsgString(host, lc, b))
  {
    if a == [] {
      assert a + b == b;
      AndThenAssociative(Returned(""), Returned(""), MsgString(host, lc, b));
    } else {
      assert (a + b)[0] == a[0];
      assert (a + b)[1..] == a[1..] + b;
      MsgStringAppend(host, lc, a[1..], b);
      AndThenAssociative(MsgPart(host, lc, a[0]), MsgString(host, lc, a[1..]), MsgString(host, lc, b));
    }
  }

  /** Nested arrays flatten in place: nesting does not change the text. */
  lemma MsgStringFlattens(host: Host, lc: Value, inner: seq<Value>, rest: seq<Value>)
    ensures MsgString(host, lc, [Arr(inner)] + rest) == MsgString(host, lc, inner + rest)
  {
    MsgStringAppend(host, lc, inner, rest);
    assert ([Arr(inner)] + rest)[1..] == rest;
  }

  /** Parts that are all strings are concatenated verbatim, on every platform. */
  lemma {:induction false} MsgStringOfStrings(host: Host, lc: Value, parts: seq<Value>)
    requires forall i :: 0 <= i < |parts| ==> parts[i].Str?
    ensures MsgString(host, lc, parts) == Returned(Concat(seq(|parts|, i requires 0 <= i < |parts| => parts[i].s)))
  {
    if parts != [] {
      MsgStringOfStrings(host, lc, parts[1..]);
      var strings := seq(|parts|, i requires 0 <= i < |parts| => parts[i].s);
      assert strings[1..] == seq(|parts[1..]|, i requires 0 <= i < |parts[1..]| => parts[1..][i].s);
    }
  }

  /** A tagged number renders as its formatted text; `undefined` as `"undefined"`. */
  lemma MsgPartValues(host: Host, lc: Value, fmt: string, options: Value, x: Value)
    requires Truthy(options)
    ensures MsgPart(host, lc, Obj(map["$" := options, "value" := x, "fmt" := Str(fmt)])) == Returned(fmt)
    ensures MsgPart(host, lc, Undefined) == Returned("undefined")
  {
    var tagged := Obj(map["$" := options, "value" := x, "fmt" := Str(fmt)]);
    assert Prop(tagged, "$") == options;
    assert Prop(tagged, "fmt") == Str(fmt);
  }

  lemma MsgStringSingle(host: Host, lc: Value, part: Value)
    ensures MsgString(host, lc, [part]) == MsgPart(host, lc, part)
  {
    assert [part][1..] == [];
    if MsgPart(host, lc, part).Returned? {
      assert MsgPart(host, lc, part).value + "" == MsgPart(host, lc, part).value;
    }
  }

  /** An isolated part renders between the two isolation marks. */
  lemma IsolRendersBetweenMarks(host: Host, lc: Value, expr: Value)
    ensures var inner := MsgPart(host, lc, expr);
      && (inner.Threw? ==> MsgPart(host, lc, Isol(expr)) == inner)
      && (inner.Returned? ==> MsgPart(host, lc, Isol(expr)) == Returned(FSI + inner.value + PDI))
  {
    var middle := if expr.Arr? then expr.items else [expr];
    var items := [Str(FSI)] + middle + [Str(PDI)];
    assert Isol(expr) == Arr(items);
    MsgPartOfArray(host, lc, items);
    if expr.Arr? {
      MsgPartOfArray(host, lc, middle);
    } else {
      MsgStringSingle(host, lc, expr);
    }
    MsgStringBetween(host, lc, FSI, middle, PDI);
  }

  lemma MsgPartOfArray(host: Host, lc: Value, items: seq<Value>)
    ensures MsgPart(host, lc, Arr(items)) == MsgString(host, lc, items)
  {
  }

  /** Parts between two strings render between those strings; an exception passes through. */
  lemma MsgStringBetween(host: Host, lc: Value, open: string, middle: seq<Value>, close: string)
    ensures var inner := MsgString(host, lc, middle);
      && (inner.Threw? ==> MsgString(host, lc, [Str(open)] + middle + [Str(close)]) == inner)
      && (inner.Returned? ==> MsgString(host, lc, [Str(open)] + middle + [Str(close)]) == Returned(open + inner.value + close))
  {
    MsgStringAppend(host, lc, [Str(open)] + middle, [Str(close)]);
    MsgStringAppend(host, lc, [Str(open)], middle);
    MsgStringSingle(host, lc, Str(open));
    MsgStringSingle(host, lc, Str(close));
  }

  // ---------------------------------------------------------------------
  // The message table

  /** A message function: called with the arguments object, it returns the parts or throws. */
  type Producer = Value -> Outcome<Value>

  /** An entry of the bundle's table: the value function and the attribute functions. */
  datatype MessageEntry = MessageEntry(value: Option<Producer>, attr: Option<map<string, Producer>>)

  function OverrideMessage(id: string): string
  {
    "Attempt to override an existing message: \"" + id + "\""
  }

  /**
   * The loop of `addResource` over the `[id, msg]` pairs of a resource: the new
   * table and the conflict messages, in order. Without `allowOverrides` an id
   * already present (also from earlier in the same resource) keeps its entry.
   */
  function Merge<M>(table: map<string, M>, incoming: seq<(string, M)>, allowOverrides: bool): (map<string, M>, seq<string>)
  {
    if incoming == [] then (table, [])
    else
      var (t, errors) := Merge(table, incoming[..|incoming| - 1], allowOverrides);
      var (id, msg) := incoming[|incoming| - 1];
      if !allowOverrides && id in t then (t, errors + [OverrideMessage(id)])
      else (t[id := msg], errors)
  }

  /** The ids of a resource. */
  function Ids<M>(incoming: seq<(string, M)>): set<string>
  {
    set i | 0 <= i < |incoming| :: incoming[i].0
  }

  lemma IdsInit<M>(incoming: seq<(string, M)>)
    requires incoming != []
    ensures Ids(incoming) == Ids(incoming[..|incoming| - 1]) + {incoming[|incoming| - 1].0}
  {
    var init := incoming[..|incoming| - 1];
    forall id | id in Ids(incoming)
      ensures id in Ids(init) + {incoming[|incoming| - 1].0}
    {
      var i :| 0 <= i < |incoming| && incoming[i].0 == id;
      if i < |init| {
        assert init[i] == incoming[i];
      }
    }
    forall id | id in Ids(init)
      ensures id in Ids(incoming)
    {
      var i :| 0 <= i < |init| && init[i].0 == id;
      assert incoming[i] == init[i];
    }
  }

  /** After a merge the table holds exactly the old ids and the resource's ids. */
  lemma {:induction false} MergeKeys<M>(table: map<string, M>, incoming: seq<(string, M)>, allowOverrides: bool)
    ensures Merge(table, incoming, allowOverrides).0.Keys == table.Keys + Ids(incoming)
  {
    if incoming != [] {
      MergeKeys(table, incoming[..|incoming| - 1], allowOverrides);
      IdsInit(incoming);
    } else {
      assert Ids(incoming) == {};
    }
  }

  /** `error` is the conflict message for some id of the resource. */
  predicate IsOverrideOf<M>(error: string, incoming: seq<(string, M)>)
  {
    exists i :: 0 <= i < |incoming| && error == OverrideMessage(incoming[i].0)
  }

  /**
   * Without `allowOverrides`, entries already in the table are kept, and every
   * conflict message names an id of the resource that was already present.
   */
  lemma {:induction false} MergeKeepsExisting<M>(table: map<string, M>, incoming: seq<(string, M)>)
    ensures forall id :: id in table ==> id in Merge(table, incoming, false).0 && Merge(table, incoming, false).0[id] == table[id]
    ensures forall k :: 0 <= k < |Merge(table, incoming, false).1| ==> IsOverrideOf(Merge(table, incoming, false).1[k], incoming)
  {
    if incoming != [] {
      var n := |incoming| - 1;
      var init := incoming[..n];
      MergeKeepsExisting(table, init);
      MergeKeys(table, init, false);
      var errors := Merge(table, incoming, false).1;
      var initErrors := Merge(table, init, false).1;
      assert errors[..|initErrors|] == initErrors;
      forall k | 0 <= k < |errors|
        ensures IsOverrideOf(errors[k], incoming)
      {
        if k < |initErrors| {
          assert errors[k] == initErrors[k];
          assert IsOverrideOf(initErrors[k], init);
          var i :| 0 <= i < |init| && initErrors[k] == OverrideMessage(init[i].0);
          assert incoming[i] == init[i];
        } else {
          assert errors[k] == OverrideMessage(incoming[n].0);
        }
      }
    }
  }

  /**
   * Without `allowOverrides` every entry of the resource either adds a new id
   * or adds one conflict message.
   */
  lemma {:induction false} MergeCountsConflicts<M>(table: map<string, M>, incoming: seq<(string, M)>)
    ensures |Merge(table, incoming, false).1| + |Merge(table, incoming, false).0.Keys| == |table.Keys| + |incoming|
  {
    if incoming != [] {
      var n := |incoming| - 1;
      MergeCountsConflicts(table, incoming[..n]);
      var t := Merge(table, incoming[..n], false).0;
      var id := incoming[n].0;
      if id !in t {
        assert t[id := incoming[n].1].Keys == t.Keys + {id};
      }
    }
  }

  /** Without `allowOverrides`, a new id gets the first entry the resource gives it. */
  lemma {:induction false} MergeFirstWins<M>(table: map<string, M>, incoming: seq<(string, M)>, i: nat)
    requires i < |incoming| && incoming[i].0 !in table
    requires forall j :: 0 <= j < i ==> incoming[j].0 != incoming[i].0
    ensures incoming[i].0 in Merge(table, incoming, false).0
    ensures Merge(table, incoming, false).0[incoming[i].0] == incoming[i].1
  {
    var n := |incoming| - 1;
    var init := incoming[..n];
    if i < n {
      assert init[i] == incoming[i];
      MergeFirstWins(table, init, i);
    } else {
      MergeKeys(table, init, false);
      assert incoming[i].0 !in Ids(init) by {
        forall j | 0 <= j < |init|
          ensures init[j].0 != incoming[i].0
        {
          assert init[j] == incoming[j];
        }
      }
    }
  }

  /**
   * With `allowOverrides` there are no conflicts: the last entry for an id
   * wins and ids outside the resource keep their entries.
   */
  lemma {:induction false} MergeOverrides<M>(table: map<string, M>, incoming: seq<(string, M)>)
    ensures Merge(table, incoming, true).1 == []
    ensures forall id :: id in table && id !in Ids(incoming) ==>
      id in Merge(table, incoming, true).0 && Merge(table, incoming, true).0[id] == table[id]
    ensures forall i :: 0 <= i < |incoming| && (forall j :: i < j < |incoming| ==> incoming[j].0 != incoming[i].0) ==>
      incoming[i].0 in Merge(table, incoming, true).0 && Merge(table, incoming, true).0[incoming[i].0] == incoming[i].1
  {
    if incoming != [] {
      var n := |incoming| - 1;
      var init := incoming[..n];
      MergeOverrides(table, init);
      IdsInit(incoming);
      MergeKeys(table, init, true);
      var r := Merge(table, incoming, true).0;
      forall i | 0 <= i < |incoming| && (forall j :: i < j < |incoming| ==> incoming[j].0 != incoming[i].0)
        ensures incoming[i].0 in r && r[incoming[i].0] == incoming[i].1
      {
        if i < n {
          assert init[i] == incoming[i];
          assert forall j :: i < j < |init| ==> init[j] == incoming[j];
        }
      }
    }
  }

  /** `id.split('.', 2)`: the message id and, after the first dot, the attribute id. */
  function SplitId(id: string): (string, Option<string>)
  {
    var parts := Split(id, '.');
    (parts[0], if |parts| > 1 then Some(parts[1]) else None)
  }

  /** `"a.b.c"` names attribute `b` of message `a`; an id without a dot names no attribute. */
  lemma SplitIdParts(m: string, a: string, rest: string)
    requires '.' !in m && '.' !in a
    ensures SplitId(m) == (m, None)
    ensures SplitId(m + "." + a) == (m, Some(a))
    ensures SplitId(m + "." + a + "." + rest) == (m, Some(a))
  {
    SplitNoSeparator(m, '.');
    SplitNoSeparator(a, '.');
    SplitAfter(m, a, '.');
    assert m + "." + a == m + ['.'] + a;
    SplitAfter(a, rest, '.');
    assert m + "." + a + "." + rest == m + ['.'] + (a + ['.'] + rest);
    SplitAfter(m, a + ['.'] + rest, '.');
  }

  /** What `format` returns and the error it records, if any. */
  datatype Formatted = Formatted(text: string, error: Option<JsError>)

  function Unknown(id: string): JsError
  {
    JsError("ReferenceError", "Unknown message: " + id)
  }

  /** `${attrId}` where `attrId` may be missing. */
  function AttrText(attrId: Option<string>): string
  {
    if attrId.Some? then attrId.value else "undefined"
  }

  /** `args || {}` */
  function ArgsOrEmpty(args: Value): Value
  {
    if Truthy(args) then args else Obj(map[])
  }

  /** The function `format` calls: an attribute's when a non-empty attribute id is given, else the value's. */
  function Target(msg: MessageEntry, attrId: Option<string>): Option<Producer>
  {
    if attrId.Some? && attrId.value != "" then
      if msg.attr.Some? && attrId.value in msg.attr.value then Some(msg.attr.value[attrId.value]) else None
    else msg.value
  }

  /** Calling a message function and rendering its parts; every exception is caught. */
  function Render(host: Host, lc: Value, id: string, fn: Producer, args: Value): Formatted
  {
    match fn(ArgsOrEmpty(args))
    case Threw(e) => Formatted(id, Some(e))
    case Returned(parts) =>
      match MsgStringOf(host, lc, parts)
      case Threw(e) => Formatted(id, Some(e))
      case Returned(text) => Formatted(text, None)
  }

  /** `format(id, args, errors)` of a `FluentBundle` as a value. */
  function FormatSpec(host: Host, locales: Value, res: map<string, MessageEntry>, id: string, args: Value): Formatted
  {
    var (msgId, attrId) := SplitId(id);
    if (|id| > 0 && id[0] == '-') || msgId !in res then Formatted(id, Some(Unknown(id)))
    else
      var fn := Target(res[msgId], attrId);
      if fn.None? then Formatted(id, Some(JsError("ReferenceError", "No attribute called: " + AttrText(attrId))))
      else Render(host, locales, id, fn.value, args)
  }

  /**
   * `format` never throws: on any failure it returns the id itself and records
   * exactly one error; term ids, unknown ids and missing attributes fail with a
   * `ReferenceError`.
   */
  lemma FormatRecovers(host: Host, locales: Value, res: map<string, MessageEntry>, id: string, args: Value)
    ensures var f := FormatSpec(host, locales, res, id, args);
      f.error.Some? ==> f.text == id
    ensures var f := FormatSpec(host, locales, res, id, args);
      (|id| > 0 && id[0] == '-') || SplitId(id).0 !in res ==> f == Formatted(id, Some(Unknown(id)))
    ensures var f := FormatSpec(host, locales, res, id, args);
      var (msgId, attrId) := SplitId(id);
      !(|id| > 0 && id[0] == '-') && msgId in res && Target(res[msgId], attrId).None? ==>
        f.error.Some? && f.error.value.name == "ReferenceError"
  {
  }

  /** The caller's `errors` array. */
  class ErrorList {
    var errors: seq<JsError>

    constructor()
      ensures errors == []
    {
      errors := [];
    }
  }

  /** The recorded error as a list. */
  function ErrorsOf(error: Option<JsError>): seq<JsError>
  {
    if error.Some? then [error.value] else []
  }

  class FluentBundle {
    const host: Host
    /** `lc` if it is an array, else `[lc]`; fixed at construction. */
    const locales: Value
    var res: map<string, MessageEntry>

    constructor(host: Host, lc: Value, resource: map<string, MessageEntry>)
      ensures this.host == host && res == resource
      ensures locales == (if lc.Arr? then lc else Arr([lc]))
    {
      this.host := host;
      res := resource;
      locales := if lc.Arr? then lc else Arr([lc]);
    }

    /** `addResource(resource, { allowOverrides })` */
    method AddResource(resource: seq<(string, MessageEntry)>, allowOverrides: bool) returns (errors: seq<string>)
      modifies this
      ensures (res, errors) == Merge(old(res), resource, allowOverrides)
    {
      errors := [];
      ghost var start := res;
      var i := 0;
      while i < |resource|
        invariant 0 <= i <= |resource|
        invariant (res, errors) == Merge(start, resource[..i], allowOverrides)
      {
        var (id, msg) := resource[i];
        assert resource[..i + 1][..i] == resource[..i];
        if !allowOverrides && id in res {
          errors := errors + [OverrideMessage(id)];
        } else {
          res := res[id := msg];
        }
        i := i + 1;
      }
      assert resource[..i] == resource;
    }

    /** `format(id, args, errors)`: returns the text, and appends the error (if any) to `errors` when given. */
    method Format(id: string, args: Value, errors: ErrorList?) returns (r: string)
      modifies errors
      ensures r == FormatSpec(host, locales, res, id, args).text
      ensures errors != null ==> errors.errors == old(errors.errors) + ErrorsOf(FormatSpec(host, locales, res, id, args).error)
    {
      var (msgId, attrId) := SplitId(id);
      var outcome: Formatted;
      if (|id| > 0 && id[0] == '-') || msgId !in res {
        outcome := Formatted(id, Some(Unknown(id)));
      } else {
        var fn := Target(res[msgId], attrId);
        if fn.None? {
          outcome := Formatted(id, Some(JsError("ReferenceError", "No attribute called: " + AttrText(attrId))));
        } else {
          outcome := Render(host, locales, id, fn.value, args);
        }
      }
      if outcome.error.Some? && errors != null {
        errors.errors := errors.errors + [outcome.error.value];
      }
      r := outcome.text;
    }

    /** `getMessage(id)`: terms are hidden. */
    function GetMessage(id: string): (r: Option<MessageEntry>)
      reads this
      ensures r.Some? ==> !(|id| > 0 && id[0] == '-') && id in res
    {
      if (|id| > 0 && id[0] == '-') || id !in res then None else Some(res[id])
    }

    /** `hasMessage(id)`: terms are hidden. */
    predicate HasMessage(id: string)
      reads this
    {
      !(|id| > 0 && id[0] == '-') && id in res
    }
  }

  /** `hasMessage` and `getMessage` agree, and both hide term ids (those starting with `-`). */
  lemma LookupHidesTerms(bundle: FluentBundle, id: string)
    ensures bundle.HasMessage(id) <==> bundle.GetMessage(id).Some?
    ensures |id| > 0 && id[0] == '-' ==> !bundle.HasMessage(id) && bundle.GetMessage(id).None?
    ensures !(|id| > 0 && id[0] == '-') ==> (bundle.HasMessage(id) <==> id in bundle.res)
  {
  }
}
