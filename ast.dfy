/**
 * The Fluent syntax tree the compiler walks, as produced by the external
 * parser. Each union has one extra constructor for a node whose `type` tag is
 * none of the known ones, so that the compiler's "unknown type" errors can be
 * reached.
 */
module Ast {
  import opened Base

  /** The input to `compile`; `kind` is the node's `type` tag. */
  datatype Resource = Resource(kind: string, body: seq<Entry>)

  datatype Entry =
    | Message(id: string, value: Option<Pattern>, attributes: seq<Attribute>, comment: Option<string>)
    | Term(id: string, termValue: Pattern, attributes: seq<Attribute>, comment: Option<string>)
    | Comment(content: string)
    | GroupComment(content: string)
    | ResourceComment(content: string)
    | Junk(content: string)
    | UnknownEntry(kind: string)

  datatype Attribute = Attribute(id: string, value: Pattern)

  datatype Pattern = Pattern(elements: seq<PatternElement>)

  datatype PatternElement =
    | TextElement(value: string)
    | Placeable(expression: Expression)
    | UnknownElement(kind: string)

  datatype Expression =
    | StringLiteral(value: string)
    | NumberLiteral(value: string)
    | VariableReference(id: string)
    | TermReference(id: string, attribute: Option<string>, arguments: Option<CallArguments>)
    | MessageReference(id: string, attribute: Option<string>)
    | FunctionReference(id: string, arguments: Option<CallArguments>)
    | SelectExpression(selector: Expression, variants: seq<Variant>)
    | NestedPlaceable(expression: Expression)
    | UnknownExpression(kind: string)

  datatype CallArguments = CallArguments(positional: seq<Expression>, named: seq<NamedArgument>)

  datatype NamedArgument = NamedArgument(name: string, value: Expression)

  datatype Variant = Variant(key: VariantKey, value: Pattern, isDefault: bool)

  /** A number key keeps its source text: `007` and `7` are different keys. */
  datatype VariantKey =
    | Identifier(name: string)
    | NumberKey(value: string)
    | UnknownKey(kind: string)
}
