/**
 * The compiler from a Fluent resource to the text of an ES module. The
 * lowering of patterns, placeables and expressions is pure and shared with the
 * serializer; the `FluentJSCompiler` class holds the per-run export list and
 * walks the entries of a resource with a bit-mask state.
 */
module Compiler {
  import opened Base
  import opened Util
  import opened Ast

  /** The errors the lowering throws; each aborts the whole compilation. */
  datatype CompileError =
    | UnknownResourceType(kind: string)
    | UnknownEntryType(kind: string)
    | UnknownElementType(kind: string)
    | UnknownExpressionType(kind: string)
    | UnknownVariantKeyType(kind: string)
      /** A select expression without a default variant reads `.key` of `undefined`. */
    | NoDefaultVariant

  type Code = Result<string, CompileError>

  /** The compiler state bit set once an entry has been emitted. */
  const HAS_ENTRIES: bv8 := 1

  /** The loop's state is either empty or has the `HAS_ENTRIES` flag, and setting the flag is idempotent. */
  lemma HasEntriesFlag(state: bv8)
    requires state == 0 || state == HAS_ENTRIES
    ensures (state & HAS_ENTRIES != 0) <==> state == HAS_ENTRIES
    ensures state | HAS_ENTRIES == HAS_ENTRIES
  {
  }

  /** `indent`: four spaces after every line break. */
  function Indent(content: string): string
  {
    Join(Split(content, '\n'), "\n    ")
  }

  // ---------------------------------------------------------------------
  // Comments, junk and exports

  /** One comment line under `prefix`: an empty line gets the bare prefix. */
  function PrefixLine(line: string, prefix: string): string
  {
    if |line| > 0 then prefix + " " + line else prefix
  }

  function PrefixLines(lines: seq<string>, prefix: string): (r: seq<string>)
    ensures |r| == |lines|
  {
    seq(|lines|, i requires 0 <= i < |lines| => PrefixLine(lines[i], prefix))
  }

  /** `compileComment(comment, prefix)` */
  function CompileComment(content: string, prefix: string): (r: string)
    ensures |r| > 0 && r[|r| - 1] == '\n'
  {
    Join(PrefixLines(Split(content, '\n'), prefix), "\n") + "\n"
  }

  /** A line terminator as the `m` flag of a JavaScript regular expression sees it. */
  predicate IsLineTerminator(c: char)
  {
    c == '\n' || c == '\r' || c == '\U{2028}' || c == '\U{2029}'
  }

  /** `"// "` after every line terminator of `s`. */
  function MarkLines(s: string): string
  {
    if s == [] then ""
    else [s[0]] + (if IsLineTerminator(s[0]) then "// " else "") + MarkLines(s[1..])
  }

  /** `compileJunk(junk)`: `content.replace(/^/gm, '// ')` */
  function CompileJunk(content: string): (r: string)
    ensures |r| >= |content| + 3 && r[..3] == "// "
  {
    MarkLinesLength(content);
    "// " + MarkLines(content)
  }

  lemma {:induction false} MarkLinesLength(s: string)
    ensures |MarkLines(s)| >= |s|
  {
    if s != [] {
      MarkLinesLength(s[1..]);
    }
  }

  /** Undoes `MarkLines`; `None` if some line break is not followed by `// `. */
  function UnmarkLines(r: string): Option<string>
    decreases |r|
  {
    if r == [] then Some("")
    else if !IsLineTerminator(r[0]) then
      match UnmarkLines(r[1..])
      case Some(rest) => Some([r[0]] + rest)
      case None => None
    else if |r| >= 4 && r[1..4] == "// " then
      match UnmarkLines(r[4..])
      case Some(rest) => Some([r[0]] + rest)
      case None => None
    else None
  }

  /** Recovers junk content from its commented-out form. */
  function UncompileJunk(r: string): Option<string>
  {
    if |r| >= 3 && r[..3] == "// " then UnmarkLines(r[3..]) else None
  }

  lemma {:induction false} MarkLinesRoundTrip(s: string)
    ensures UnmarkLines(MarkLines(s)) == Some(s)
  {
    if s != [] {
      MarkLinesRoundTrip(s[1..]);
      var m := MarkLines(s);
      var tail := MarkLines(s[1..]);
      assert [s[0]] + s[1..] == s;
      if IsLineTerminator(s[0]) {
        assert m == [s[0]] + "// " + tail;
        assert m[1..4] == "// " && m[4..] == tail;
      } else {
        assert m == [s[0]] + tail;
        assert m[1..] == tail;
      }
    }
  }

  /** Commented-out junk gives back the original content. */
  lemma JunkRoundTrip(content: string)
    ensures UncompileJunk(CompileJunk(content)) == Some(content)
  {
    MarkLinesRoundTrip(content);
    var r := CompileJunk(content);
    assert r[3..] == MarkLines(content);
  }

  /** Every line of commented-out junk starts with `// `. */
  lemma {:induction false} MarkLinesComments(s: string, i: int)
    requires 0 <= i < |MarkLines(s)| && IsLineTerminator(MarkLines(s)[i])
    ensures i + 4 <= |MarkLines(s)|
    ensures MarkLines(s)[i + 1] == '/' && MarkLines(s)[i + 2] == '/' && MarkLines(s)[i + 3] == ' '
  {
    var m := MarkLines(s);
    var tail := MarkLines(s[1..]);
    if IsLineTerminator(s[0]) {
      assert m == [s[0]] + "// " + tail;
      if i > 3 {
        assert m[i] == tail[i - 4];
        MarkLinesComments(s[1..], i - 4);
        assert m[i + 1] == tail[i - 3] && m[i + 2] == tail[i - 2] && m[i + 3] == tail[i - 1];
      }
    } else {
      assert m == [s[0]] + tail;
      assert m[0] == s[0] && !IsLineTerminator(m[0]);
      assert i != 0;
      assert m[i] == tail[i - 1];
      MarkLinesComments(s[1..], i - 1);
      assert m[i + 1] == tail[i] && m[i + 2] == tail[i + 1] && m[i + 3] == tail[i + 2];
    }
  }

  /** `compileExport(id, varName)`: bare when the variable has the message's name. */
  function CompileExport(id: string, varName: string): string
  {
    if id == varName then id else PropName(None, id) + ": " + varName
  }

  /**
   * A message is exported under its own bare name exactly when `funcname`
   * leaves its id unchanged; otherwise the export maps the (possibly quoted) id
   * to the derived variable.
   */
  lemma ExportIsBareIffSafe(id: string)
    ensures CompileExport(id, FuncName(id)) == id <==> IsSafeName(id)
    ensures !IsSafeName(id) ==> CompileExport(id, FuncName(id)) == PropName(None, id) + ": " + FuncName(id)
  {
    FuncNameIsSafe(id);
    if IsSafeName(id) {
      FuncNameFixesSafeNames(id);
    } else {
      assert FuncName(id) != id;
      var r := CompileExport(id, FuncName(id));
      assert |PropName(None, id)| >= |id|;
      assert |r| > |id|;
    }
  }

  // ---------------------------------------------------------------------
  // Patterns and expressions

  /** `contentLength` of a compiled pattern: element lengths plus two per separator. */
  function ContentLength(content: seq<string>): int
  {
    TotalLength(content) + (|content| - 1) * 2
  }

  /**
   * The tail of `compilePattern`: a pattern whose content is longer than 60
   * characters starts on a new line, one element per indented line; a shorter
   * one stays on the same line.
   */
  function Layout(content: seq<string>): (r: string)
    ensures |r| >= 2 && r[|r| - 1] == ']'
    ensures r[0] == '[' <==> ContentLength(content) > 60
    ensures r[0] == ' ' <==> ContentLength(content) <= 60
  {
    if ContentLength(content) > 60 then "[\n    " + Indent(Join(content, ",\n")) + "\n]"
    else " [" + Join(content, ", ") + "]"
  }

  /** The index of the first default variant (`variants.find(v => v.default)`). */
  function FirstDefault(variants: seq<Variant>): (r: Option<nat>)
    ensures r.None? <==> forall i :: 0 <= i < |variants| ==> !variants[i].isDefault
    ensures r.Some? ==> r.value < |variants| && variants[r.value].isDefault
    ensures r.Some? ==> forall i :: 0 <= i < r.value ==> !variants[i].isDefault
  {
    if variants == [] then None
    else if variants[0].isDefault then Some(0)
    else match FirstDefault(variants[1..])
      case None => None
      case Some(d) => Some(d + 1)
  }

  /** `compileVariantKey(key)`: identifiers and number literals verbatim. */
  function CompileVariantKey(key: VariantKey): Code
  {
    match key
    case Identifier(name) => Ok(name)
    case NumberKey(value) => Ok(value)
    case UnknownKey(kind) => Err(UnknownVariantKeyType(kind))
  }

  /** `compileElement(element)` */
  function CompileElement(element: PatternElement): Code
    decreases element, 0
  {
    match element
    case TextElement(value) => Ok(JsonQuote(value))
    case Placeable(expression) => CompilePlaceable(expression)
    case UnknownElement(kind) => Err(UnknownElementType(kind))
  }

  /** `elements.map(compileElement)`: the first error wins. */
  function CompileElements(elements: seq<PatternElement>): Result<seq<string>, CompileError>
    decreases elements, 0
  {
    if elements == [] then Ok([])
    else
      var head :- CompileElement(elements[0]);
      var tail :- CompileElements(elements[1..]);
      Ok([head] + tail)
  }

  /** `compilePattern(pattern)` */
  function CompilePattern(pattern: Pattern): Code
    decreases pattern, 0
  {
    var content :- CompileElements(pattern.elements);
    Ok(Layout(content))
  }

  /**
   * `compilePlaceable` on the placeable's expression: nested placeables are
   * unwrapped.
   */
  function CompilePlaceable(expression: Expression): Code
    decreases expression, 2
  {
    match expression
    case NestedPlaceable(inner) => CompilePlaceable(inner)
    case _ => CompileExpression(expression)
  }

  /** `compileExpression(expr)` */
  function CompileExpression(expression: Expression): Code
    decreases expression, 1
  {
    match expression
    case StringLiteral(value) => Ok("\"" + value + "\"")
    case NumberLiteral(value) => Ok(value)
    case VariableReference(id) => Ok(PropName(Some("$"), id))
    case TermReference(id, attribute, arguments) =>
      var name := FuncName("-" + id);
      var out := if attribute.Some? then PropName(Some(name), attribute.value) else name;
      var args :- CompileCallArguments(arguments);
      Ok(out + args)
    case MessageReference(id, attribute) =>
      var name := FuncName(id);
      var out := if attribute.Some? then PropName(Some(name), attribute.value) else name;
      Ok(out + "($)")
    case FunctionReference(id, arguments) =>
      var args :- CompileCallArguments(arguments);
      Ok(id + args)
    case SelectExpression(selector, variants) =>
      var sel :- CompileExpression(selector);
      var d := FirstDefault(variants);
      if d.None? then Err(NoDefaultVariant)
      else
        var key :- CompileVariantKey(variants[d.value].key);
        var vs :- CompileVariants(variants);
        Ok("$select(" + sel + ", " + JsonQuote(key) + ", { " + Join(vs, ", ") + " })")
    case NestedPlaceable(inner) => CompilePlaceable(inner)
    case UnknownExpression(kind) => Err(UnknownExpressionType(kind))
  }

  /** `expressions.map(compileExpression)` */
  function CompileExpressions(expressions: seq<Expression>): Result<seq<string>, CompileError>
    decreases expressions, 0
  {
    if expressions == [] then Ok([])
    else
      var head :- CompileExpression(expressions[0]);
      var tail :- CompileExpressions(expressions[1..]);
      Ok([head] + tail)
  }

  /** `compileVariant(variant)`: a one-element value is inlined after a space. */
  function CompileVariant(variant: Variant): Code
    decreases variant, 0
  {
    var key :- CompileVariantKey(variant.key);
    var value :-
      if |variant.value.elements| == 1 then
        var element :- CompileElement(variant.value.elements[0]);
        Ok(" " + element)
      else CompilePattern(variant.value);
    Ok(key + ":" + Indent(value))
  }

  function CompileVariants(variants: seq<Variant>): Result<seq<string>, CompileError>
    decreases variants, 0
  {
    if variants == [] then Ok([])
    else
      var head :- CompileVariant(variants[0]);
      var tail :- CompileVariants(variants[1..]);
      Ok([head] + tail)
  }

  /** The context object of a call: `$`, or `$` spread under the named arguments. */
  function CallContext(named: seq<string>): string
  {
    if |named| > 0 then "{ ...$, " + Join(named, ", ") + " }" else "$"
  }

  /** The parenthesised argument list: the context, then the positional arguments. */
  function ArgumentList(context: string, positional: seq<string>): string
  {
    if |positional| > 0 then "(" + context + ", " + Join(positional, ", ") + ")" else "(" + context + ")"
  }

  /**
   * `compileCallArguments(expr)`: named arguments are compiled before
   * positional ones; a missing argument list compiles like an empty one.
   */
  function CompileCallArguments(arguments: Option<CallArguments>): Code
    decreases arguments, 0
  {
    match arguments
    case None => Ok(ArgumentList(CallContext([]), []))
    case Some(CallArguments(positional, named)) =>
      var namedCode :- CompileNamedArguments(named);
      var positionalCode :- CompileExpressions(positional);
      Ok(ArgumentList(CallContext(namedCode), positionalCode))
  }

  /** `compileNamedArgument(arg)` */
  function CompileNamedArgument(argument: NamedArgument): Code
    decreases argument, 0
  {
    var value :- CompileExpression(argument.value);
    Ok(PropName(None, argument.name) + ": " + value)
  }

  function CompileNamedArguments(arguments: seq<NamedArgument>): Result<seq<string>, CompileError>
    decreases arguments, 0
  {
    if arguments == [] then Ok([])
    else
      var head :- CompileNamedArgument(arguments[0]);
      var tail :- CompileNamedArguments(arguments[1..]);
      Ok([head] + tail)
  }

  // ---------------------------------------------------------------------
  // Properties of the expression lowering

  /**
   * Variant keys are kept as written, so `007` and `7` select different
   * variants and a name and a number with the same text are the same key;
   * only a key of unknown type fails.
   */
  lemma VariantKeysVerbatim(a: string, b: string, key: VariantKey)
    ensures CompileVariantKey(key).Err? <==> key.UnknownKey?
    ensures CompileVariantKey(NumberKey(a)) == CompileVariantKey(NumberKey(b)) <==> a == b
    ensures CompileVariantKey(NumberKey("007")) != CompileVariantKey(NumberKey("7"))
    ensures CompileVariantKey(Identifier(a)) == CompileVariantKey(NumberKey(a))
  {
  }

  /** The expression inside any number of placeable wrappers. */
  function Unwrap(expression: Expression): (r: Expression)
    ensures !r.NestedPlaceable?
  {
    if expression.NestedPlaceable? then Unwrap(expression.expression) else expression
  }

  /** A placeable, however deeply nested, compiles as its innermost expression. */
  lemma {:induction false} PlaceableUnwraps(expression: Expression)
    ensures CompileElement(Placeable(expression)) == CompileExpression(Unwrap(expression))
    ensures CompileExpression(expression) == CompileExpression(Unwrap(expression))
  {
    if expression.NestedPlaceable? {
      PlaceableUnwraps(expression.expression);
    }
  }

  /**
   * Compiling the elements of a pattern succeeds exactly when every element
   * compiles, keeps their order, and otherwise fails with the error of the
   * first element that fails.
   */
  lemma {:induction false} ElementsCompileInOrder(elements: seq<PatternElement>)
    ensures CompileElements(elements).Ok? <==> forall i :: 0 <= i < |elements| ==> CompileElement(elements[i]).Ok?
    ensures CompileElements(elements).Ok? ==>
      && |CompileElements(elements).value| == |elements|
      && forall i :: 0 <= i < |elements| ==> CompileElements(elements).value[i] == CompileElement(elements[i]).value
    ensures CompileElements(elements).Err? ==>
      exists i :: 0 <= i < |elements| && CompileElement(elements[i]).Err?
        && CompileElements(elements).error == CompileElement(elements[i]).error
        && forall j :: 0 <= j < i ==> CompileElement(elements[j]).Ok?
  {
    if elements != [] {
      ElementsCompileInOrder(elements[1..]);
      var r := CompileElements(elements);
      if CompileElement(elements[0]).Ok? && CompileElements(elements[1..]).Err? {
        var i :| 0 <= i < |elements[1..]| && CompileElement(elements[1..][i]).Err?
          && CompileElements(elements[1..]).error == CompileElement(elements[1..][i]).error
          && forall j :: 0 <= j < i ==> CompileElement(elements[1..][j]).Ok?;
        assert CompileElement(elements[i + 1]).Err?;
        assert forall j :: 0 <= j < i + 1 ==> CompileElement(elements[j]).Ok? by {
          forall j | 0 <= j < i + 1
            ensures CompileElement(elements[j]).Ok?
          {
            if j > 0 {
              assert elements[j] == elements[1..][j - 1];
            }
          }
        }
      }
    }
  }

  /** A pattern holding an element of unknown type does not compile. */
  lemma UnknownElementFails(elements: seq<PatternElement>, i: int)
    requires 0 <= i < |elements| && elements[i].UnknownElement?
    ensures CompilePattern(Pattern(elements)).Err?
  {
    ElementsCompileInOrder(elements);
  }

  /**
   * A select expression whose selector compiles but which has no default
   * variant fails; the selector's own error takes precedence.
   */
  lemma SelectNeedsDefault(selector: Expression, variants: seq<Variant>)
    ensures CompileExpression(selector).Err? ==>
      CompileExpression(SelectExpression(selector, variants)) == Err(CompileExpression(selector).error)
    ensures CompileExpression(selector).Ok? && (forall i :: 0 <= i < |variants| ==> !variants[i].isDefault) ==>
      CompileExpression(SelectExpression(selector, variants)) == Err(NoDefaultVariant)
  {
  }

  /**
   * A compiled select expression passes the JSON-quoted key of its first
   * default variant as the fallback key, followed by every variant in source
   * order (`VariantsInOrder`).
   */
  lemma SelectUsesFirstDefault(selector: Expression, variants: seq<Variant>)
    requires CompileExpression(SelectExpression(selector, variants)).Ok?
    ensures CompileVariants(variants).Ok?
    ensures exists d, sel, key ::
      && 0 <= d < |variants| && variants[d].isDefault
      && (forall i :: 0 <= i < d ==> !variants[i].isDefault)
      && CompileExpression(selector) == Ok(sel)
      && CompileVariantKey(variants[d].key) == Ok(key)
      && CompileExpression(SelectExpression(selector, variants)).value
         == "$select(" + sel + ", " + JsonQuote(key) + ", { " + Join(CompileVariants(variants).value, ", ") + " })"
  {
    var d := FirstDefault(variants).value;
    var sel := CompileExpression(selector).value;
    var key := CompileVariantKey(variants[d].key).value;
    assert CompileExpression(SelectExpression(selector, variants)).value
      == "$select(" + sel + ", " + JsonQuote(key) + ", { " + Join(CompileVariants(variants).value, ", ") + " })";
  }

  /** The variants of a select compile one to one and in source order. */
  lemma {:induction false} VariantsInOrder(variants: seq<Variant>)
    requires CompileVariants(variants).Ok?
    ensures |CompileVariants(variants).value| == |variants|
    ensures forall i :: 0 <= i < |variants| ==>
      CompileVariant(variants[i]).Ok? && CompileVariants(variants).value[i] == CompileVariant(variants[i]).value
  {
    if variants != [] {
      VariantsInOrder(variants[1..]);
      forall i | 1 <= i < |variants|
        ensures variants[i] == variants[1..][i - 1]
      {
      }
    }
  }

  /**
   * A variant is its key, a colon and its indented value. A one-element value
   * is inlined after a space, without the brackets of a pattern; any other
   * value is laid out as a pattern.
   */
  lemma VariantShape(variant: Variant)
    requires CompileVariant(variant).Ok?
    ensures CompileVariantKey(variant.key).Ok?
    ensures |variant.value.elements| == 1 ==>
      && CompileElement(variant.value.elements[0]).Ok?
      && CompileVariant(variant).value
         == CompileVariantKey(variant.key).value + ":" + Indent(" " + CompileElement(variant.value.elements[0]).value)
    ensures |variant.value.elements| != 1 ==>
      && CompilePattern(variant.value).Ok?
      && CompileVariant(variant).value == CompileVariantKey(variant.key).value + ":" + Indent(CompilePattern(variant.value).value)
  {
  }

  /** A one-element text variant is inlined as its JSON-quoted text. */
  lemma TextVariantInlined(key: string, text: string)
    ensures CompileVariant(Variant(Identifier(key), Pattern([TextElement(text)]), false))
      == Ok(key + ":" + Indent(" " + JsonQuote(text)))
  {
  }

  /** Any function name compiles into a call: no list of known builtins is consulted. */
  lemma AnyFunctionNameCompiles(id: string)
    ensures CompileExpression(FunctionReference(id, None)) == Ok(id + "($)")
  {
    assert ArgumentList(CallContext([]), []) == "(" + "$" + ")" == "($)";
  }

  /** Compiled argument lists keep their length and order. */
  lemma {:induction false} ExpressionsInOrder(expressions: seq<Expression>)
    requires CompileExpressions(expressions).Ok?
    ensures |CompileExpressions(expressions).value| == |expressions|
    ensures forall i :: 0 <= i < |expressions| ==>
      CompileExpression(expressions[i]).Ok? && CompileExpressions(expressions).value[i] == CompileExpression(expressions[i]).value
  {
    if expressions != [] {
      ExpressionsInOrder(expressions[1..]);
      forall i | 1 <= i < |expressions|
        ensures expressions[i] == expressions[1..][i - 1]
      {
      }
    }
  }

  lemma {:induction false} NamedArgumentsInOrder(arguments: seq<NamedArgument>)
    requires CompileNamedArguments(arguments).Ok?
    ensures |CompileNamedArguments(arguments).value| == |arguments|
    ensures forall i :: 0 <= i < |arguments| ==>
      CompileNamedArgument(arguments[i]).Ok? && CompileNamedArguments(arguments).value[i] == CompileNamedArgument(arguments[i]).value
  {
    if arguments != [] {
      NamedArgumentsInOrder(arguments[1..]);
      forall i | 1 <= i < |arguments|
        ensures arguments[i] == arguments[1..][i - 1]
      {
      }
    }
  }

  /**
   * The layout of a call's arguments: the context is `$` when there are no
   * named arguments and `{ ...$, k: v, ... }` otherwise; positional arguments
   * follow it, each compiled in order; a call without arguments passes `($)`.
   */
  lemma CallArgumentsLayout(arguments: Option<CallArguments>)
    requires CompileCallArguments(arguments).Ok?
    ensures arguments.None? ==> CompileCallArguments(arguments).value == "($)"
    ensures arguments.Some? ==>
      var CallArguments(positional, named) := arguments.value;
      && CompileNamedArguments(named).Ok?
      && CompileExpressions(positional).Ok?
      && |CompileNamedArguments(named).value| == |named|
      && |CompileExpressions(positional).value| == |positional|
      && CompileCallArguments(arguments).value
         == "(" + (if |named| == 0 then "$" else "{ ...$, " + Join(CompileNamedArguments(named).value, ", ") + " }")
         + (if |positional| == 0 then "" else ", " + Join(CompileExpressions(positional).value, ", "))
         + ")"
  {
    if arguments.Some? {
      var CallArguments(positional, named) := arguments.value;
      NamedArgumentsInOrder(named);
      ExpressionsInOrder(positional);
    }
  }

  /** Errors in named arguments are reported before errors in positional ones. */
  lemma CallArgumentsErrorOrder(positional: seq<Expression>, named: seq<NamedArgument>)
    ensures CompileNamedArguments(named).Err? ==>
      CompileCallArguments(Some(CallArguments(positional, named))) == Err(CompileNamedArguments(named).error)
    ensures CompileNamedArguments(named).Ok? && CompileExpressions(positional).Err? ==>
      CompileCallArguments(Some(CallArguments(positional, named))) == Err(CompileExpressions(positional).error)
  {
  }

  // ---------------------------------------------------------------------
  // Entries

  /** The `locales` argument of `compile`: absent, one tag, or a list of tags. */
  datatype Locales = NoLocales | LocaleTag(tag: string) | LocaleList(tags: seq<string>)

  function QuoteAll(tags: seq<string>): (r: seq<string>)
    ensures |r| == |tags| && forall i :: 0 <= i < |tags| ==> r[i] == JsonQuote(tags[i])
  {
    if tags == [] then [] else [JsonQuote(tags[0])] + QuoteAll(tags[1..])
  }

  /** `JSON.stringify(locales || undefined)` as it lands in the template. */
  function LocalesJson(locales: Locales): string
  {
    match locales
    case NoLocales => "undefined"
    case LocaleTag(tag) => if tag == "" then "undefined" else JsonQuote(tag)
    case LocaleList(tags) => "[" + Join(QuoteAll(tags), ",") + "]"
  }

  /** The two lines that open every compiled module. */
  function PreludeLines(locales: Locales): seq<string>
  {
    [RuntimeImport(), RuntimeBindings(LocalesJson(locales))]
  }

  /** The import of the runtime package. */
  function RuntimeImport(): string
  {
    "import $Runtime from \"fluent-compiler/runtime\"\n"
  }

  /** The runtime's helpers, bound for the locales `lc` (already in JSON). */
  function RuntimeBindings(lc: string): string
  {
    "const { $messages, $select, DATETIME, NUMBER } = $Runtime(" + lc + ")\n\n"
  }

  /** The line that exports the message table built from `exports`. */
  function DefaultExportLine(exports: seq<string>): string
  {
    "\nexport default $messages({ " + Join(exports, ", ") + " })\n"
  }

  function Prelude(locales: Locales): string
  {
    Concat(PreludeLines(locales))
  }

  /** The closing default export, present only when something was exported. */
  function DefaultExport(exports: seq<string>): string
  {
    if |exports| > 0 then DefaultExportLine(exports) else ""
  }

  /** `compileAttribute(parentName, attribute)` */
  function CompileAttribute(parentName: string, attribute: Attribute): Code
  {
    var value :- CompilePattern(attribute.value);
    Ok("\n" + PropName(Some(parentName), attribute.id) + " = $ =>" + Indent(value))
  }

  /** The attributes of a message or term, in order; the first error wins. */
  function AttributesCode(parentName: string, attributes: seq<Attribute>): Result<seq<string>, CompileError>
  {
    if attributes == [] then Ok([])
    else
      var init :- AttributesCode(parentName, attributes[..|attributes| - 1]);
      var last :- CompileAttribute(parentName, attributes[|attributes| - 1]);
      Ok(init + [last])
  }

  /** Once a prefix of the attributes fails, the whole list fails the same way. */
  lemma {:induction false} AttributesErrPersists(parentName: string, attributes: seq<Attribute>, k: nat)
    requires k <= |attributes| && AttributesCode(parentName, attributes[..k]).Err?
    ensures AttributesCode(parentName, attributes) == AttributesCode(parentName, attributes[..k])
    decreases |attributes| - k
  {
    if k < |attributes| {
      var next := attributes[..k + 1];
      assert next[..|next| - 1] == attributes[..k];
      AttributesErrPersists(parentName, attributes, k + 1);
    } else {
      assert attributes[..k] == attributes;
    }
  }

  /**
   * Compiled attributes correspond one to one, in order, to the source
   * attributes, each assigned as a property of the parent function.
   */
  lemma {:induction false} AttributesInOrder(parentName: string, attributes: seq<Attribute>)
    requires AttributesCode(parentName, attributes).Ok?
    ensures |AttributesCode(parentName, attributes).value| == |attributes|
    ensures forall i :: 0 <= i < |attributes| ==>
      CompileAttribute(parentName, attributes[i]).Ok?
      && AttributesCode(parentName, attributes).value[i] == CompileAttribute(parentName, attributes[i]).value
  {
    if attributes != [] {
      var init := attributes[..|attributes| - 1];
      AttributesInOrder(parentName, init);
      forall i | 0 <= i < |attributes| - 1
        ensures attributes[i] == init[i]
      {
      }
    }
  }

  function CommentParts(comment: Option<string>): seq<string>
  {
    if comment.Some? then [CompileComment(comment.value, "//")] else []
  }

  /** The value of a message; a message without one compiles to `null`. */
  function MessageValue(message: Entry): Code
    requires message.Message?
  {
    if message.value.Some? then CompilePattern(message.value.value) else Ok(" null")
  }

  /** `compileMessage(message, varName)` */
  function MessageCode(message: Entry, varName: string): Code
    requires message.Message?
  {
    Declare(message.comment, varName, MessageValue(message), AttributesCode(varName, message.attributes))
  }

  /** The declaration of a message or term once its value and attributes are compiled; the value's error comes first. */
  function Declare(comment: Option<string>, name: string, value: Code, attributes: Result<seq<string>, CompileError>): Code
  {
    var v :- value;
    var a :- attributes;
    Ok(DeclarationCode(comment, name, v, a))
  }

  /** The parts a message or term compiles to, joined: comment, declaration, value, attributes, line break. */
  function DeclarationCode(comment: Option<string>, name: string, value: string, attributes: seq<string>): string
  {
    Concat(CommentParts(comment) + [Declaration(name), value] + attributes + ["\n"])
  }

  /** The variable that holds a term: `funcname` of its id behind a dash. */
  function TermName(id: string): string
  {
    FuncName("-" + id)
  }

  /** `compileTerm(term)` */
  function TermCode(term: Entry): Code
    requires term.Term?
  {
    var name := TermName(term.id);
    Declare(term.comment, name, CompilePattern(term.termValue), AttributesCode(name, term.attributes))
  }

  lemma DeclarationParts(c: seq<string>, decl: string, value: string, attributes: seq<string>)
    ensures var r := Concat(c + [decl, value] + attributes + ["\n"]);
      r == Concat(c) + decl + value + Concat(attributes) + "\n"
  {
    assert c + [decl, value] + attributes + ["\n"] == c + ([decl, value] + (attributes + ["\n"]));
    ConcatAppend(c, [decl, value] + (attributes + ["\n"]));
    assert ([decl, value] + (attributes + ["\n"]))[1..][1..] == attributes + ["\n"];
    ConcatAppend(attributes, ["\n"]);
  }

  /** The text before the value of a message or term: doc comment and declaration. */
  function DeclarationHead(comment: Option<string>, name: string): string
  {
    Concat(CommentParts(comment)) + Declaration(name)
  }

  /** `const <name> = $ =>` */
  function Declaration(name: string): string
  {
    "const " + name + " = $ =>"
  }

  /** A declaration that compiles starts with its head and ends with a line break. */
  lemma DeclarePrefix(comment: Option<string>, name: string, value: Code, attributes: Result<seq<string>, CompileError>, code: string)
    requires Declare(comment, name, value, attributes) == Ok(code)
    ensures |DeclarationHead(comment, name)| < |code|
    ensures code[..|DeclarationHead(comment, name)|] == DeclarationHead(comment, name)
    ensures code[|code| - 1] == '\n'
  {
    DeclarationParts(CommentParts(comment), Declaration(name), value.value, attributes.value);
  }

  /**
   * A compiled message is its doc comment, the declaration of its function
   * under `varName`, and a final line break.
   */
  lemma MessageShape(message: Entry, varName: string, code: string)
    requires message.Message? && MessageCode(message, varName) == Ok(code)
    ensures |DeclarationHead(message.comment, varName)| < |code|
    ensures code[..|DeclarationHead(message.comment, varName)|] == DeclarationHead(message.comment, varName)
    ensures code[|code| - 1] == '\n'
  {
    DeclarePrefix(message.comment, varName, MessageValue(message), AttributesCode(varName, message.attributes), code);
  }

  /** A compiled term declares the function `TermName(id)` after its doc comment. */
  lemma TermShape(term: Entry, code: string)
    requires term.Term? && TermCode(term) == Ok(code)
    ensures |DeclarationHead(term.comment, TermName(term.id))| < |code|
    ensures code[..|DeclarationHead(term.comment, TermName(term.id))|] == DeclarationHead(term.comment, TermName(term.id))
    ensures code[|code| - 1] == '\n'
  {
    var name := TermName(term.id);
    DeclarePrefix(term.comment, name, CompilePattern(term.termValue), AttributesCode(name, term.attributes), code);
  }

  /** A comment entry, led by a blank line once an earlier entry was emitted. */
  function CommentEntry(content: string, prefix: string, padded: bool): string
  {
    if padded then "\n" + CompileComment(content, prefix) + "\n" else CompileComment(content, prefix) + "\n"
  }

  /** What `compileEntry(entry, state)` returns, given whether `state` has `HAS_ENTRIES`. */
  function EntryCode(entry: Entry, hasEntries: bool): Code
  {
    match entry
    case Message(id, _, _, _) => MessageCode(entry, FuncName(id))
    case Term(_, _, _, _) => TermCode(entry)
    case Comment(content) => Ok(CommentEntry(content, "//", hasEntries))
    case GroupComment(content) => Ok(CommentEntry(content, "// ##", hasEntries))
    case ResourceComment(content) => Ok(CommentEntry(content, "// ###", hasEntries))
    case Junk(content) => Ok(CompileJunk(content))
    case UnknownEntry(kind) => Err(UnknownEntryType(kind))
  }

  /** What `compileEntry` adds to the export list: one export per message. */
  function ExportOf(entry: Entry): seq<string>
  {
    if entry.Message? then [CompileExport(entry.id, FuncName(entry.id))] else []
  }

  /** Whether the compile loop hands `entry` to `compileEntry`. */
  predicate Emits(withJunk: bool, entry: Entry)
  {
    !entry.Junk? || withJunk
  }

  /** How many of `entries` the compile loop emits. */
  function EmittedCount(withJunk: bool, entries: seq<Entry>): nat
  {
    if entries == [] then 0
    else EmittedCount(withJunk, entries[..|entries| - 1]) + (if Emits(withJunk, entries[|entries| - 1]) then 1 else 0)
  }

  /** How many of `entries` are messages. */
  function MessageCount(entries: seq<Entry>): nat
  {
    if entries == [] then 0
    else MessageCount(entries[..|entries| - 1]) + (if entries[|entries| - 1].Message? then 1 else 0)
  }

  /**
   * The compile loop over `entries`: the compiled pieces (or the first error)
   * and the export list. A message's export is recorded before its body is
   * compiled, so it stays even when that body fails.
   */
  function Run(withJunk: bool, entries: seq<Entry>): (Result<seq<string>, CompileError>, seq<string>)
  {
    if entries == [] then (Ok([]), [])
    else
      var init := entries[..|entries| - 1];
      var entry := entries[|entries| - 1];
      var (pieces, exports) := Run(withJunk, init);
      if pieces.Err? || !Emits(withJunk, entry) then (pieces, exports)
      else
        var code := EntryCode(entry, EmittedCount(withJunk, init) > 0);
        (if code.Ok? then Ok(pieces.value + [code.value]) else Err(code.error), exports + ExportOf(entry))
  }

  /** `compile(locales, resource)` as a value. */
  function ResourceCode(withJunk: bool, locales: Locales, resource: Resource): Code
  {
    if resource.kind != "Resource" then Err(UnknownResourceType(resource.kind))
    else
      var (pieces, exports) := Run(withJunk, resource.body);
      var ps :- pieces;
      Ok(Prelude(locales) + ModuleBody(ps, exports))
  }

  /** The entries' code followed by the default export. */
  function ModuleBody(pieces: seq<string>, exports: seq<string>): string
  {
    Concat(pieces) + DefaultExport(exports)
  }

  /** The export list `compile` leaves behind. */
  function ResourceExports(withJunk: bool, resource: Resource): seq<string>
  {
    if resource.kind != "Resource" then [] else Run(withJunk, resource.body).1
  }

  // ---------------------------------------------------------------------
  // Properties of comments and of the entry loop

  lemma PrefixLinesFree(lines: seq<string>, prefix: string)
    requires '\n' !in prefix
    requires forall i :: 0 <= i < |lines| ==> '\n' !in lines[i]
    ensures forall i :: 0 <= i < |lines| ==> '\n' !in PrefixLines(lines, prefix)[i]
  {
  }

  /**
   * A comment keeps its line count: its lines, in order, each become
   * `prefix + " " + line`, or the bare `prefix` when empty, and one line break
   * ends the block.
   */
  lemma CommentLines(content: string, prefix: string)
    requires '\n' !in prefix
    ensures var r := CompileComment(content, prefix);
      && Split(r[..|r| - 1], '\n') == PrefixLines(Split(content, '\n'), prefix)
      && Count(r, '\n') == Count(content, '\n') + 1
  {
    var lines := Split(content, '\n');
    var prefixed := PrefixLines(lines, prefix);
    PrefixLinesFree(lines, prefix);
    var r := CompileComment(content, prefix);
    assert r[..|r| - 1] == Join(prefixed, "\n");
    SplitJoin(prefixed, '\n');
    CountJoin(prefixed, '\n');
    CountAppend(Join(prefixed, "\n"), "\n", '\n');
    SplitLength(content, '\n');
  }

  lemma JoinStartsWithFirst(parts: seq<string>, sep: string)
    requires |parts| >= 1
    ensures |Join(parts, sep)| >= |parts[0]| && Join(parts, sep)[..|parts[0]|] == parts[0]
  {
  }

  /** A comment block starts with its prefix. */
  lemma CommentStartsWithPrefix(content: string, prefix: string)
    requires |prefix| > 0
    ensures CompileComment(content, prefix)[0] == prefix[0]
  {
    var prefixed := PrefixLines(Split(content, '\n'), prefix);
    JoinStartsWithFirst(prefixed, "\n");
    assert prefixed[0][0] == prefix[0];
    assert Join(prefixed, "\n")[0] == prefixed[0][0];
  }

  predicate IsCommentEntry(entry: Entry)
  {
    entry.Comment? || entry.GroupComment? || entry.ResourceComment?
  }

  /** A comment entry starts with a blank line exactly when it is padded. */
  lemma CommentEntryPadding(entry: Entry, hasEntries: bool)
    requires IsCommentEntry(entry)
    ensures EntryCode(entry, hasEntries).Ok?
    ensures var code := EntryCode(entry, hasEntries).value;
      |code| > 0 && (code[0] == '\n' <==> hasEntries)
  {
    var prefix := if entry.Comment? then "//" else if entry.GroupComment? then "// ##" else "// ###";
    CommentStartsWithPrefix(entry.content, prefix);
  }

  /** Some of `entries` is emitted exactly when the emitted count is positive. */
  lemma {:induction false} EmittedCountPositive(withJunk: bool, entries: seq<Entry>)
    ensures EmittedCount(withJunk, entries) > 0 <==> exists j :: 0 <= j < |entries| && Emits(withJunk, entries[j])
  {
    if entries != [] {
      var init := entries[..|entries| - 1];
      EmittedCountPositive(withJunk, init);
      if exists j :: 0 <= j < |init| && Emits(withJunk, init[j]) {
        var j :| 0 <= j < |init| && Emits(withJunk, init[j]);
        assert entries[j] == init[j];
      }
      if exists j :: 0 <= j < |entries| && Emits(withJunk, entries[j]) {
        var j :| 0 <= j < |entries| && Emits(withJunk, entries[j]);
        if j < |init| {
          assert init[j] == entries[j];
        }
      }
    }
  }

  /** Once the loop has failed, later entries change neither the result nor the exports. */
  lemma {:induction false} RunErrPersists(withJunk: bool, entries: seq<Entry>, k: nat)
    requires k <= |entries| && Run(withJunk, entries[..k]).0.Err?
    ensures Run(withJunk, entries) == Run(withJunk, entries[..k])
    decreases |entries| - k
  {
    if k < |entries| {
      var next := entries[..k + 1];
      assert next[..|next| - 1] == entries[..k];
      RunErrPersists(withJunk, entries, k + 1);
    } else {
      assert entries[..k] == entries;
    }
  }

  /**
   * The pieces of a successful loop are the emitted entries, in order, each
   * compiled with `HAS_ENTRIES` set exactly when an entry was emitted before it.
   */
  lemma {:induction false} RunPieces(withJunk: bool, entries: seq<Entry>)
    requires Run(withJunk, entries).0.Ok?
    ensures |Run(withJunk, entries).0.value| == EmittedCount(withJunk, entries)
    ensures forall k :: 0 <= k < |entries| && Emits(withJunk, entries[k]) ==>
      var before := EmittedCount(withJunk, entries[..k]);
      && before < |Run(withJunk, entries).0.value|
      && EntryCode(entries[k], before > 0).Ok?
      && Run(withJunk, entries).0.value[before] == EntryCode(entries[k], before > 0).value
  {
    if entries != [] {
      var n := |entries| - 1;
      var init := entries[..n];
      RunPieces(withJunk, init);
      var pieces := Run(withJunk, entries).0.value;
      forall k | 0 <= k < |entries| && Emits(withJunk, entries[k])
        ensures var before := EmittedCount(withJunk, entries[..k]);
          && before < |pieces|
          && EntryCode(entries[k], before > 0).Ok?
          && pieces[before] == EntryCode(entries[k], before > 0).value
      {
        if k < n {
          assert entries[..k] == init[..k];
          assert entries[k] == init[k];
        } else {
          assert entries[..k] == init;
        }
      }
    }
  }

  /** Some entry before index `k` is emitted exactly when the emitted count up to `k` is positive. */
  lemma EmittedBefore(withJunk: bool, entries: seq<Entry>, k: nat)
    requires k <= |entries|
    ensures EmittedCount(withJunk, entries[..k]) > 0 <==> exists j :: 0 <= j < k && Emits(withJunk, entries[j])
  {
    EmittedCountPositive(withJunk, entries[..k]);
    if exists j :: 0 <= j < k && Emits(withJunk, entries[j]) {
      var j :| 0 <= j < k && Emits(withJunk, entries[j]);
      assert entries[..k][j] == entries[j];
    }
  }

  /**
   * Comment padding: a comment, group comment or resource comment is led by a
   * blank line exactly when some entry before it was emitted.
   */
  lemma CommentPadding(withJunk: bool, entries: seq<Entry>, k: nat)
    requires Run(withJunk, entries).0.Ok?
    requires k < |entries| && IsCommentEntry(entries[k])
    ensures var pieces := Run(withJunk, entries).0.value;
      var i := EmittedCount(withJunk, entries[..k]);
      && i < |pieces| && |pieces[i]| > 0
      && (pieces[i][0] == '\n' <==> exists j :: 0 <= j < k && Emits(withJunk, entries[j]))
  {
    RunPieces(withJunk, entries);
    var pieces := Run(withJunk, entries).0.value;
    var before := EmittedCount(withJunk, entries[..k]);
    assert Emits(withJunk, entries[k]);
    assert before < |pieces| && pieces[before] == EntryCode(entries[k], before > 0).value;
    CommentEntryPadding(entries[k], before > 0);
    EmittedBefore(withJunk, entries, k);
  }

  /** One step of the compile loop, from the entries before `i` to those up to `i`. */
  lemma RunStep(withJunk: bool, entries: seq<Entry>, i: nat)
    requires i < |entries| && Run(withJunk, entries[..i]).0.Ok?
    ensures EmittedCount(withJunk, entries[..i + 1])
      == EmittedCount(withJunk, entries[..i]) + (if Emits(withJunk, entries[i]) then 1 else 0)
    ensures !Emits(withJunk, entries[i]) ==> Run(withJunk, entries[..i + 1]) == Run(withJunk, entries[..i])
    ensures Emits(withJunk, entries[i]) ==>
      Run(withJunk, entries[..i + 1]).1 == Run(withJunk, entries[..i]).1 + ExportOf(entries[i])
    ensures Emits(withJunk, entries[i]) ==>
      var code := EntryCode(entries[i], EmittedCount(withJunk, entries[..i]) > 0);
      Run(withJunk, entries[..i + 1]).0 == (if code.Ok? then Ok(Run(withJunk, entries[..i]).0.value + [code.value]) else Err(code.error))
  {
    assert entries[..i + 1][..i] == entries[..i];
  }

  /**
   * Exports: one per message, in source order, whether or not its body
   * compiles; terms and the other entries export nothing.
   */
  lemma {:induction false} RunExports(withJunk: bool, entries: seq<Entry>)
    requires Run(withJunk, entries).0.Ok?
    ensures |Run(withJunk, entries).1| == MessageCount(entries)
    ensures forall k :: 0 <= k < |entries| && entries[k].Message? ==>
      var before := MessageCount(entries[..k]);
      && before < |Run(withJunk, entries).1|
      && Run(withJunk, entries).1[before] == CompileExport(entries[k].id, FuncName(entries[k].id))
  {
    if entries != [] {
      var n := |entries| - 1;
      var init := entries[..n];
      RunExports(withJunk, init);
      var exports := Run(withJunk, entries).1;
      forall k | 0 <= k < |entries| && entries[k].Message?
        ensures var before := MessageCount(entries[..k]);
          && before < |exports|
          && exports[before] == CompileExport(entries[k].id, FuncName(entries[k].id))
      {
        if k < n {
          assert entries[..k] == init[..k];
          assert entries[k] == init[k];
        } else {
          assert entries[..k] == init;
        }
      }
    }
  }

  lemma {:induction false} MessageCountPositive(entries: seq<Entry>)
    ensures MessageCount(entries) > 0 <==> exists j :: 0 <= j < |entries| && entries[j].Message?
  {
    if entries != [] {
      var init := entries[..|entries| - 1];
      MessageCountPositive(init);
      if exists j :: 0 <= j < |init| && init[j].Message? {
        var j :| 0 <= j < |init| && init[j].Message?;
        assert entries[j] == init[j];
      }
      if exists j :: 0 <= j < |entries| && entries[j].Message? {
        var j :| 0 <= j < |entries| && entries[j].Message?;
        if j < |init| {
          assert init[j] == entries[j];
        }
      }
    }
  }

  /** The default export is written exactly when the resource holds a message. */
  lemma DefaultExportIffMessage(withJunk: bool, locales: Locales, resource: Resource)
    requires ResourceCode(withJunk, locales, resource).Ok?
    ensures DefaultExport(ResourceExports(withJunk, resource)) != ""
      <==> exists j :: 0 <= j < |resource.body| && resource.body[j].Message?
  {
    RunExports(withJunk, resource.body);
    MessageCountPositive(resource.body);
  }

  /** The entries that are not junk. */
  function WithoutJunk(entries: seq<Entry>): (r: seq<Entry>)
    ensures forall i :: 0 <= i < |r| ==> !r[i].Junk?
  {
    if entries == [] then []
    else
      var init := WithoutJunk(entries[..|entries| - 1]);
      if entries[|entries| - 1].Junk? then init else init + [entries[|entries| - 1]]
  }

  lemma {:induction false} EmittedCountWithoutJunk(entries: seq<Entry>)
    ensures EmittedCount(false, entries) == EmittedCount(false, WithoutJunk(entries))
  {
    if entries != [] {
      var n := |entries| - 1;
      EmittedCountWithoutJunk(entries[..n]);
      var w := WithoutJunk(entries[..n]);
      if !entries[n].Junk? {
        assert (w + [entries[n]])[..|w|] == w;
      }
    }
  }

  /** Without `withJunk`, junk entries leave no trace: not in the pieces, not in the padding. */
  lemma {:induction false} RunIgnoresJunk(entries: seq<Entry>)
    ensures Run(false, entries) == Run(false, WithoutJunk(entries))
  {
    if entries != [] {
      var n := |entries| - 1;
      var init := entries[..n];
      RunIgnoresJunk(init);
      var w := WithoutJunk(init);
      if !entries[n].Junk? {
        var w' := w + [entries[n]];
        assert w'[..|w'| - 1] == w && w'[|w'| - 1] == entries[n];
        EmittedCountWithoutJunk(init);
      }
    }
  }

  /** Compiling without junk gives the same module as compiling the resource with its junk removed. */
  lemma SkippedJunkIsInvisible(locales: Locales, resource: Resource)
    ensures ResourceCode(false, locales, resource) == ResourceCode(false, locales, Resource(resource.kind, WithoutJunk(resource.body)))
    ensures ResourceExports(false, resource) == ResourceExports(false, Resource(resource.kind, WithoutJunk(resource.body)))
  {
    RunIgnoresJunk(resource.body);
  }

  /** Every compiled module opens with the runtime import and the locales of the call. */
  lemma CompiledModuleOpensWithPrelude(withJunk: bool, locales: Locales, resource: Resource)
    requires ResourceCode(withJunk, locales, resource).Ok?
    ensures var code := ResourceCode(withJunk, locales, resource).value;
      |Prelude(locales)| <= |code| && code[..|Prelude(locales)|] == Prelude(locales)
  {
  }

  // ---------------------------------------------------------------------
  // Fatal errors: one failing entry aborts the whole compilation

  /** An emitted entry that fails to compile, padded or not, makes the loop fail. */
  lemma FailingEntryIsFatal(withJunk: bool, entries: seq<Entry>, k: nat)
    requires k < |entries| && Emits(withJunk, entries[k])
    requires EntryCode(entries[k], true).Err? && EntryCode(entries[k], false).Err?
    ensures Run(withJunk, entries).0.Err?
  {
    if Run(withJunk, entries[..k]).0.Err? {
      RunErrPersists(withJunk, entries, k);
    } else {
      RunStep(withJunk, entries, k);
      RunErrPersists(withJunk, entries, k + 1);
    }
  }

  /** `compile` fails whenever its loop fails. */
  lemma RunErrFailsCompile(withJunk: bool, locales: Locales, resource: Resource)
    requires Run(withJunk, resource.body).0.Err?
    ensures ResourceCode(withJunk, locales, resource).Err?
  {
  }

  /** An emitted entry that fails to compile, padded or not, aborts `compile`. */
  lemma FailingEntryFailsCompile(withJunk: bool, locales: Locales, resource: Resource, k: nat)
    requires k < |resource.body| && Emits(withJunk, resource.body[k])
    requires EntryCode(resource.body[k], true).Err? && EntryCode(resource.body[k], false).Err?
    ensures ResourceCode(withJunk, locales, resource).Err?
  {
    FailingEntryIsFatal(withJunk, resource.body, k);
    RunErrFailsCompile(withJunk, locales, resource);
  }

  /** An entry of unknown type anywhere in the body aborts `compile`, whatever `withJunk` says. */
  lemma UnknownEntryIsFatal(withJunk: bool, locales: Locales, resource: Resource, k: nat)
    requires k < |resource.body| && resource.body[k].UnknownEntry?
    ensures ResourceCode(withJunk, locales, resource).Err?
  {
    var entry := resource.body[k];
    assert Emits(withJunk, entry);
    assert EntryCode(entry, true) == EntryCode(entry, false) == Err(UnknownEntryType(entry.kind));
    FailingEntryFailsCompile(withJunk, locales, resource, k);
  }

  /** A message whose value or attributes fail to compile aborts `compile`. */
  lemma BrokenMessageIsFatal(withJunk: bool, locales: Locales, resource: Resource, k: nat)
    requires k < |resource.body| && resource.body[k].Message?
    requires MessageCode(resource.body[k], FuncName(resource.body[k].id)).Err?
    ensures ResourceCode(withJunk, locales, resource).Err?
  {
    var entry := resource.body[k];
    assert Emits(withJunk, entry);
    assert EntryCode(entry, true) == EntryCode(entry, false) == MessageCode(entry, FuncName(entry.id));
    FailingEntryFailsCompile(withJunk, locales, resource, k);
  }

  /** A term whose value or attributes fail to compile aborts `compile`. */
  lemma BrokenTermIsFatal(withJunk: bool, locales: Locales, resource: Resource, k: nat)
    requires k < |resource.body| && resource.body[k].Term?
    requires TermCode(resource.body[k]).Err?
    ensures ResourceCode(withJunk, locales, resource).Err?
  {
    var entry := resource.body[k];
    assert Emits(withJunk, entry);
    assert EntryCode(entry, true) == EntryCode(entry, false) == TermCode(entry);
    FailingEntryFailsCompile(withJunk, locales, resource, k);
  }

  /** A message value holding an element of unknown type aborts `compile`. */
  lemma UnknownElementIsFatal(withJunk: bool, locales: Locales, resource: Resource, k: nat, i: nat)
    requires k < |resource.body| && resource.body[k].Message? && resource.body[k].value.Some?
    requires i < |resource.body[k].value.value.elements| && resource.body[k].value.value.elements[i].UnknownElement?
    ensures ResourceCode(withJunk, locales, resource).Err?
  {
    UnknownElementFails(resource.body[k].value.value.elements, i);
    BrokenMessageIsFatal(withJunk, locales, resource, k);
  }

  /** A message value placing a select expression without a default variant aborts `compile`. */
  lemma SelectWithoutDefaultIsFatal(withJunk: bool, locales: Locales, resource: Resource, k: nat, i: nat)
    requires k < |resource.body| && resource.body[k].Message? && resource.body[k].value.Some?
    requires i < |resource.body[k].value.value.elements|
    requires resource.body[k].value.value.elements[i].Placeable?
    requires resource.body[k].value.value.elements[i].expression.SelectExpression?
    requires forall j :: 0 <= j < |resource.body[k].value.value.elements[i].expression.variants| ==>
      !resource.body[k].value.value.elements[i].expression.variants[j].isDefault
    ensures ResourceCode(withJunk, locales, resource).Err?
  {
    var elements := resource.body[k].value.value.elements;
    var select := elements[i].expression;
    SelectNeedsDefault(select.selector, select.variants);
    assert CompileElement(elements[i]).Err?;
    ElementsCompileInOrder(elements);
    BrokenMessageIsFatal(withJunk, locales, resource, k);
  }

  // ---------------------------------------------------------------------
  // The imperative compiler

  /** The attribute loop of `compileMessage` and `compileTerm`. */
  method CompileAttributes(parentName: string, attributes: seq<Attribute>) returns (r: Result<seq<string>, CompileError>)
    ensures r == AttributesCode(parentName, attributes)
  {
    var parts: seq<string> := [];
    var i := 0;
    while i < |attributes|
      invariant 0 <= i <= |attributes|
      invariant AttributesCode(parentName, attributes[..i]) == Ok(parts)
    {
      var attribute := CompileAttribute(parentName, attributes[i]);
      assert attributes[..i + 1][..i] == attributes[..i];
      if attribute.Err? {
        AttributesErrPersists(parentName, attributes, i + 1);
        return Err(attribute.error);
      }
      parts := parts + [attribute.value];
      i := i + 1;
    }
    assert attributes[..i] == attributes;
    return Ok(parts);
  }

  /** `compileMessage(message, varName)`, pushing onto a local `parts` list. */
  method CompileMessage(message: Entry, varName: string) returns (r: Code)
    requires message.Message?
    ensures r == MessageCode(message, varName)
  {
    var parts: seq<string> := [];
    if message.comment.Some? {
      parts := parts + [CompileComment(message.comment.value, "//")];
    }
    parts := parts + [Declaration(varName)];
    if message.value.Some? {
      var value := CompilePattern(message.value.value);
      if value.Err? {
        return Err(value.error);
      }
      parts := parts + [value.value];
    } else {
      parts := parts + [" null"];
    }
    assert parts == CommentParts(message.comment) + [Declaration(varName), MessageValue(message).value];
    var attributes := CompileAttributes(varName, message.attributes);
    if attributes.Err? {
      return Err(attributes.error);
    }
    parts := parts + attributes.value + ["\n"];
    return Ok(Concat(parts));
  }

  /** `compileTerm(term)`, pushing onto a local `parts` list. */
  method CompileTerm(term: Entry) returns (r: Code)
    requires term.Term?
    ensures r == TermCode(term)
  {
    var parts: seq<string> := [];
    if term.comment.Some? {
      parts := parts + [CompileComment(term.comment.value, "//")];
    }
    var name := TermName(term.id);
    parts := parts + [Declaration(name)];
    var value := CompilePattern(term.termValue);
    if value.Err? {
      return Err(value.error);
    }
    parts := parts + [value.value];
    assert parts == CommentParts(term.comment) + [Declaration(name), value.value];
    var attributes := CompileAttributes(name, term.attributes);
    if attributes.Err? {
      return Err(attributes.error);
    }
    parts := parts + attributes.value + ["\n"];
    return Ok(Concat(parts));
  }

  lemma ConcatModule(head: seq<string>, pieces: seq<string>, tail: seq<string>)
    ensures Concat(head + pieces + tail) == Concat(head) + (Concat(pieces) + Concat(tail))
  {
    assert head + pieces + tail == head + (pieces + tail);
    ConcatAppend(head, pieces + tail);
    ConcatAppend(pieces, tail);
  }

  /** The module is the prelude, the entries' code and the default export, in this order. */
  lemma AssembleModule(withJunk: bool, locales: Locales, resource: Resource, prelude: seq<string>, tail: seq<string>)
    requires resource.kind == "Resource" && Run(withJunk, resource.body).0.Ok?
    requires prelude == PreludeLines(locales)
    requires Concat(tail) == DefaultExport(Run(withJunk, resource.body).1)
    ensures ResourceCode(withJunk, locales, resource) == Ok(Concat(prelude + Run(withJunk, resource.body).0.value + tail))
  {
    var pieces := Run(withJunk, resource.body).0.value;
    ConcatModule(prelude, pieces, tail);
  }

  /**
   * The compiler object. Its export list is rebuilt by every call of
   * `Compile`, so a compiler can be reused.
   */
  class FluentJSCompiler {
    const withJunk: bool
    var exports: seq<string>

    constructor(withJunk: bool)
      ensures this.withJunk == withJunk && exports == []
    {
      this.withJunk := withJunk;
      exports := [];
    }

    /** `compile(locales, resource)` */
    method Compile(locales: Locales, resource: Resource) returns (r: Code)
      modifies this
      ensures r == ResourceCode(withJunk, locales, resource)
      ensures exports == ResourceExports(withJunk, resource)
    {
      exports := [];
      if resource.kind != "Resource" {
        return Err(UnknownResourceType(resource.kind));
      }
      var lc := LocalesJson(locales);
      var parts := [RuntimeImport(), RuntimeBindings(lc)];
      var pieces := CompileEntries(resource.body);
      if pieces.Err? {
        return Err(pieces.error);
      }
      parts := parts + pieces.value;
      var tail: seq<string> := [];
      if |exports| > 0 {
        tail := [DefaultExportLine(exports)];
        assert Concat(tail) == tail[0] + Concat([]);
      }
      assert Concat(tail) == DefaultExport(exports);
      AssembleModule(withJunk, locales, resource, [RuntimeImport(), RuntimeBindings(lc)], tail);
      parts := parts + tail;
      r := Ok(Concat(parts));
    }

    /**
     * The loop of `compile` over the resource body: each emitted entry is
     * compiled with the `HAS_ENTRIES` flag telling whether one came before.
     */
    method CompileEntries(body: seq<Entry>) returns (r: Result<seq<string>, CompileError>)
      requires exports == []
      modifies this
      ensures (r, exports) == Run(withJunk, body)
    {
      var state: bv8 := 0;
      var parts: seq<string> := [];
      var i := 0;
      while i < |body|
        invariant 0 <= i <= |body|
        invariant Run(withJunk, body[..i]) == (Ok(parts), exports)
        invariant state == 0 || state == HAS_ENTRIES
        invariant state == HAS_ENTRIES <==> EmittedCount(withJunk, body[..i]) > 0
      {
        var entry := body[i];
        RunStep(withJunk, body, i);
        HasEntriesFlag(state);
        if !entry.Junk? || withJunk {
          var code := CompileEntry(entry, state);
          if code.Err? {
            RunErrPersists(withJunk, body, i + 1);
            assert body[..|body|] == body;
            return Err(code.error);
          }
          parts := parts + [code.value];
          if state & HAS_ENTRIES == 0 {
            state := state | HAS_ENTRIES;
          }
        }
        i := i + 1;
      }
      assert body[..i] == body;
      r := Ok(parts);
    }

    /** `compileEntry(entry, state)`: records a message's export before compiling its body. */
    method CompileEntry(entry: Entry, state: bv8) returns (r: Code)
      modifies this
      ensures r == EntryCode(entry, state & HAS_ENTRIES != 0)
      ensures exports == old(exports) + ExportOf(entry)
    {
      match entry {
        case Message(id, _, _, _) =>
          var varName := FuncName(id);
          exports := exports + [CompileExport(id, varName)];
          r := CompileMessage(entry, varName);
        case Term(_, _, _, _) =>
          r := CompileTerm(entry);
        case Comment(content) =>
          if state & HAS_ENTRIES != 0 {
            return Ok("\n" + CompileComment(content, "//") + "\n");
          }
          return Ok(CompileComment(content, "//") + "\n");
        case GroupComment(content) =>
          if state & HAS_ENTRIES != 0 {
            return Ok("\n" + CompileComment(content, "// ##") + "\n");
          }
          return Ok(CompileComment(content, "// ##") + "\n");
        case ResourceComment(content) =>
          if state & HAS_ENTRIES != 0 {
            return Ok("\n" + CompileComment(content, "// ###") + "\n");
          }
          return Ok(CompileComment(content, "// ###") + "\n");
        case Junk(content) =>
          r := Ok(CompileJunk(content));
        case UnknownEntry(kind) =>
          r := Err(UnknownEntryType(kind));
      }
    }
  }

  /**
   * Compiling the same resource twice with one compiler gives the same module
   * and the same exports: no state leaks from one call into the next.
   */
  method CompileTwice(compiler: FluentJSCompiler, locales: Locales, resource: Resource)
    returns (first: Code, second: Code, firstExports: seq<string>, secondExports: seq<string>)
    modifies compiler
    ensures first == second && firstExports == secondExports
    ensures first == ResourceCode(compiler.withJunk, locales, resource)
    ensures firstExports == ResourceExports(compiler.withJunk, resource)
  {
    first := compiler.Compile(locales, resource);
    firstExports := compiler.exports;
    second := compiler.Compile(locales, resource);
    secondExports := compiler.exports;
  }
}
