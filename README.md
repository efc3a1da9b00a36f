# fluent-compiler in Dafny

This project models the core of `fluent-compiler`. That package turns a parsed
Project Fluent resource (messages, terms, comments, junk) into the text of an
ES module. The module calls a small runtime that selects variants, isolates
placeables and formats messages at run time. The model covers the compiler,
the serializer, both runtimes and the webpack loader's locale detection.

- `base.dfy` — `Option`, a `Result` with failure propagation, and the
  `split` / `join` helpers the JavaScript code gets from its standard library,
  with their round-trip and counting lemmas.
- `util.dfy` — `propname` and `funcname`.
  - The two reserved-word tables.
  - Identifier-name and `\w` tests, `trim`, and `replace(/\W+/g, '_')`.
  - `JSON.stringify` on strings, written out with its escapes and proved
    reversible.
- `ast.dfy` — the Fluent syntax tree as datatypes.
  - Every union carries one extra constructor for a node whose `type` tag is
    unknown, so the "Unknown … type" errors can be reached.
- `compiler.dfy` — the pure lowering of patterns, placeables, expressions,
  variants, call arguments, comments, junk, messages and terms.
  - `Run` is the entry loop as a value.
  - `FluentJSCompiler` is a class with the `withJunk` option and the `exports`
    field. Its `Compile` loop keeps the `HAS_ENTRIES` bit mask and is proved
    equal to `Run`.
- `serializer.js`'s helpers are copies of the compiler's helpers, identical
  apart from their names (`serialize…` for `compile…`).
  `serializer.dfy` therefore reuses the compiler's pure lowering. It adds the
  `FluentSerializer` class and proves that serializing is compiling without
  the two prelude lines.
- `js.dfy` — the JavaScript values the runtime handles, and related helpers.
  - Truthiness, `String(v)` and `isNaN`.
  - Thrown errors as an `Outcome`.
  - `Host`, a record of the platform services the model leaves open: number
    and date to string, string to number, `Intl.PluralRules` and
    `Intl.NumberFormat`.
- `runtime.dfy` — `isol`, `select` and `NUMBER` of `Runtime(lc)`.
  - `src/runtime.js`'s `$select` is the same function and is modelled by the
    same `Select`.
- `bundle.dfy` — `msgString` (shared by both runtimes), the `addResource`
  merge (also shared), and `FluentBundle` as a class over a `map`.
- `messages.dfy` — the `$messages(data)` object of `src/runtime.js`, as a
  class over a `map`.
- `loader.dfy` — `getLocale` of the webpack loader.

## Model

| member | source | states |
|---|---|---|
| Util.FuncName | src/util.js:75-78 | defines `funcname`: trim, replace non-word runs by `_`, then prefix `_` to a reserved word or a leading digit; its properties are `FuncNameIsSafe`, `FuncNameFixesSafeNames`, `FuncNameIdempotent` and the collision lemmas |
| Util.Trim | src/util.js:76 | defines `trim` on the JavaScript white-space set; `TrimKeepsEnds` and `TrimWordOnly` state its properties |
| Js.ToString | src/runtime/bundle.js:27 | defines `String(v)`, with numbers and dates rendered by the platform; `IsNaNWithoutHost` and the `Select` lemmas use it |
| Js.IsNaN | src/runtime/index.js:44 | defines the global `isNaN`, which coerces to a number first; `IsNaNWithoutHost` states which values it decides without the platform |
| Runtime.Select | src/runtime/index.js:18-32 | defines `select`; `SelectReturnsVariant`, `ExactKeyFirst`, `CategorySecond`, `OtherValuesUseDefault` and `SelectHostIndependent` state its behaviour |
| Runtime.NumberFn | src/runtime/index.js:43-51 | defines `NUMBER`; `NumberShape` and `NumberThenSelect` state its behaviour |
| Bundle.MsgPart | src/runtime/bundle.js:12-27 | defines the rendering of one part by its type; `MsgPartValues`, `MsgPartOfArray` and `MsgStringFlattens` state it |
| Bundle.MsgString | src/runtime/bundle.js:10-30 | defines `msgString` as the parts rendered in order and joined; `MsgStringAppend`, `MsgStringOfStrings` and `MsgStringBetween` state it |
| Bundle.Merge | src/runtime/bundle.js:38-49 | defines the `addResource` loop as a value, shared with `src/runtime.js`; the `Merge…` lemmas state its behaviour |
| Bundle.FormatSpec | src/runtime/bundle.js:51-63 | defines `format` as its text and recorded error; `FormatRecovers` states its behaviour |
| Messages.CompoundSpec | src/runtime.js:18-28 | defines `compound`; `CompoundAttributesInOrder` and `CompoundOfUnknownId` state its behaviour |
| Messages.FormatOutcome | src/runtime.js:29-40 | defines `format` of `$messages`, including the throw outside the `try`; `FormatPlainId`, `FormatMissingMessageAttributeThrows` and `FormatOfStrings` state its behaviour |
| Compiler.CompileElement | src/compiler.js:164-173 | defines `compileElement`; `PlaceableUnwraps` and `UnknownElementFails` state it |
| Compiler.CompilePattern | src/compiler.js:151-162 | defines `compilePattern`; `ElementsCompileInOrder` and `Layout` state it |
| Compiler.CompileExpression | src/compiler.js:185-222 | defines `compileExpression`; `SelectNeedsDefault`, `SelectUsesFirstDefault`, `PlaceableUnwraps` and `AnyFunctionNameCompiles` state it |
| Compiler.CompileVariant | src/compiler.js:224-233 | defines `compileVariant`; `VariantShape` and `TextVariantInlined` state it |
| Compiler.CompileCallArguments | src/compiler.js:235-247 | defines `compileCallArguments`; `CallArgumentsLayout` and `CallArgumentsErrorOrder` state it |
| Compiler.CompileAttribute | src/compiler.js:145-149 | defines `compileAttribute`; `AttributesInOrder` and `AttributesErrPersists` state the attribute list |
| Compiler.MessageCode | src/compiler.js:103-124 | defines `compileMessage` as a value; `MessageShape` and `CompileMessage` state it |
| Compiler.TermCode | src/compiler.js:126-143 | defines `compileTerm` as a value; `TermShape` and `CompileTerm` state it |
| Compiler.EntryCode | src/compiler.js:50-79 | defines `compileEntry` as a value; `CommentEntryPadding`, `UnknownEntryIsFatal` and `CompileEntry` state it |
| Compiler.Run | src/compiler.js:32-39 | defines the entry loop as a value; `RunPieces`, `RunExports`, `RunStep`, `RunErrPersists` and `CompileEntries` state it |
| Compiler.ResourceCode | src/compiler.js:16-48 | defines `compile` as a value; `AssembleModule`, `DefaultExportIffMessage`, `SkippedJunkIsInvisible` and the fatal-error lemmas state it |
| Serializer.SerializedCode | src/serializer.js:16-42 | defines `serialize` as a value; `CompileIsPreludePlusSerialize` ties it to `compile` |
| Loader.Roots | packages/loader/src/loader.js:21-24 | defines the root tags, at most one per locale; `RootsAreLocalePrefixes` and `RootsComplete` state which they are |
| Loader.GetLocale | packages/loader/src/loader.js:13-29 | defines `getLocale`; `GetLocaleCandidates`, `SingleLocale`, `LastFullLocaleWins`, `RootWhenNoFullLocale` and `FallbackToFirst` state it |
| Util.PropName | src/util.js:63-70 | with a null object the key is kept exactly when it is an identifier name outside the ES3 table, and is JSON-quoted otherwise; with an object the result is `obj.key` or `obj["key"]` on the same test |
| Util.PropNameNullInjective | src/util.js:63-70 | distinct keys give distinct unqualified property names |
| Util.PropNameKeepsES5Words | src/util.js:64 | every ES5-only reserved word is left unquoted, bare and after `$.`, because only the ES3 table is consulted |
| Util.PropNameQuotesES3Words | src/util.js:64-68 | an ES3 word such as `for` is quoted even though it is an identifier name |
| Util.PropNameQuotesOtherKeys | src/util.js:64-68 | a key that is not an identifier name, such as `a-b`, is written `$["a-b"]` |
| Util.JsonQuote | src/util.js:67 | `JSON.stringify` of a string is at least two characters longer than it and starts and ends with a double quote |
| Util.JsonQuoteRoundTrip | src/util.js:67 | reading the escapes back gives the original string |
| Util.JsonQuoteInjective | src/util.js:67 | distinct strings are quoted differently |
| Util.ReplaceNonWord | src/util.js:76 | `replace(/\W+/g, '_')` leaves only word characters |
| Util.DropNonWord | src/util.js:76 | the rest of a non-word run is dropped, so what follows starts with a word character |
| Util.TableShape | src/util.js:5-55 | every name in either table is at least two characters long and starts with no digit |
| Util.FuncNameIsSafe | src/util.js:75-78 | `funcname` yields only word characters, no leading digit, and no word of either table |
| Util.FuncNameFixesSafeNames | src/util.js:75-78 | `funcname` leaves every safe name unchanged |
| Util.FuncNameIdempotent | src/util.js:75-78 | `funcname(funcname(k)) == funcname(k)` |
| Util.FuncNameMessageCollision | src/util.js:76 | `foo-a` and `foo_a` both become `foo_a` |
| Util.FuncNameTermCollision | src/util.js:76-77 | the term name `-foo` and the message `_foo` both become `_foo` |
| Util.FuncNamePrefixesReserved | src/util.js:77 | a word-only name found in either table gets a `_` prefix |
| Util.FuncNamePrefixesES5Words | src/util.js:77 | every ES5-only word gets the `_` prefix, unlike in `propname` |
| Util.FuncNamePrefixesPrototypeNames | src/util.js:77 | names inherited from `Object.prototype`, such as `constructor`, also count as reserved |
| Compiler.HasEntriesFlag | src/compiler.js:35-37 | the state is 0 or `HAS_ENTRIES`, the flag test is true exactly for the latter, and setting the flag again changes nothing |
| Compiler.PrefixLines | src/compiler.js:93 | the prefixed lines are as many as the lines |
| Compiler.CompileComment | src/compiler.js:90-97 | a compiled comment is non-empty and ends with a line break |
| Compiler.CommentLines | src/compiler.js:90-97 | the comment keeps its lines in order, each as `prefix + " " + line` or the bare prefix, and gains exactly one line break |
| Compiler.CommentStartsWithPrefix | src/compiler.js:90-97 | a comment block starts with its prefix |
| Compiler.CompileJunk | src/compiler.js:99-101 | commented-out junk starts with `// ` and is at least three characters longer than the content |
| Compiler.MarkLinesLength | src/compiler.js:100 | marking lines never shortens the text |
| Compiler.MarkLinesRoundTrip | src/compiler.js:100 | removing the inserted `// ` markers gives the original text back |
| Compiler.JunkRoundTrip | src/compiler.js:99-101 | compiled junk can be decoded back to its content |
| Compiler.MarkLinesComments | src/compiler.js:100 | every line terminator in compiled junk is followed by `// ` |
| Compiler.ExportIsBareIffSafe | src/compiler.js:82-88 | an export is the bare id exactly when `funcname` leaves the id unchanged, and `propname(null, id): varName` otherwise |
| Compiler.Layout | src/compiler.js:151-162 | the multi-line layout is used exactly when the element lengths plus two per separator exceed 60, and either layout ends with `]` |
| Compiler.FirstDefault | src/compiler.js:212 | the result is the index of the first default variant, or none exactly when no variant is default |
| Compiler.VariantKeysVerbatim | src/compiler.js:255-264 | number keys are kept as written, so `007` and `7` differ; a name and a number with the same text give the same key; only an unknown key type fails |
| Compiler.Unwrap | src/compiler.js:175-183 | unwrapping removes every placeable wrapper |
| Compiler.PlaceableUnwraps | src/compiler.js:175-183 | a placeable, however deeply nested, compiles as its innermost expression |
| Compiler.ElementsCompileInOrder | src/compiler.js:152 | the elements compile exactly when each does; the results keep their order; on failure the error is that of the first failing element |
| Compiler.UnknownElementFails | src/compiler.js:164-173 | a pattern with an element of unknown type does not compile |
| Compiler.SelectNeedsDefault | src/compiler.js:210-216 | a select expression without a default variant fails; a failing selector's error comes first |
| Compiler.SelectUsesFirstDefault | src/compiler.js:210-216 | a compiled select passes its selector, the JSON-quoted key of its first default variant, and the compiled variants joined by `, ` to `$select` |
| Compiler.VariantsInOrder | src/compiler.js:214 | the variants compile one to one and in source order |
| Compiler.VariantShape | src/compiler.js:224-233 | a variant is its key, `:` and its indented value; a one-element value is inlined after a space, any other value is laid out as a pattern |
| Compiler.TextVariantInlined | src/compiler.js:227-228 | a one-element text variant becomes `key: "text"`, without brackets |
| Compiler.AnyFunctionNameCompiles | src/compiler.js:208-209 | a function reference compiles to a call of the name as written, whatever the name |
| Compiler.ExpressionsInOrder | src/compiler.js:242 | positional arguments compile one to one and in order |
| Compiler.NamedArgumentsInOrder | src/compiler.js:238 | named arguments compile one to one and in order |
| Compiler.CallArgumentsLayout | src/compiler.js:235-247 | no arguments give `($)`; otherwise the context is `$`, or `{ ...$, k: v }` with named arguments, followed by the positional arguments in order |
| Compiler.CallArgumentsErrorOrder | src/compiler.js:235-247 | an error in a named argument is reported before one in a positional argument |
| Compiler.QuoteAll | src/compiler.js:26 | each locale tag of a list is JSON-quoted, in order |
| Compiler.AttributesErrPersists | src/compiler.js:118-120 | once an attribute fails, the whole attribute list fails with that error |
| Compiler.AttributesInOrder | src/compiler.js:118-120 | compiled attributes correspond one to one, in order, to the source attributes |
| Compiler.DeclarationParts | src/compiler.js:103-124 | a declaration is its comment, `const name = $ =>`, the value, the attributes and a line break, joined in this order |
| Compiler.DeclarePrefix | src/compiler.js:103-143 | a compiled declaration starts with its doc comment and `const name = $ =>` and ends with a line break |
| Compiler.MessageShape | src/compiler.js:103-124 | a compiled message starts with its doc comment and `const varName = $ =>` and ends with a line break |
| Compiler.TermShape | src/compiler.js:126-143 | a compiled term declares `funcname("-" + id)` after its doc comment and ends with a line break |
| Compiler.CommentEntryPadding | src/compiler.js:59-73 | a comment entry always compiles, and starts with a blank line exactly when `HAS_ENTRIES` is set |
| Compiler.EmittedCountPositive | src/compiler.js:33-38 | the emitted count is positive exactly when some entry is emitted |
| Compiler.RunErrPersists | src/compiler.js:32-39 | once an entry fails, later entries change neither the result nor the exports |
| Compiler.RunPieces | src/compiler.js:32-39 | the pieces are the emitted entries in order, each compiled with `HAS_ENTRIES` set exactly when an entry was emitted before it |
| Compiler.EmittedBefore | src/compiler.js:33-37 | `HAS_ENTRIES` is set before entry `k` exactly when some earlier entry was emitted |
| Compiler.CommentPadding | src/compiler.js:59-73 | in a compiled resource, a comment of any of the three kinds is led by a blank line exactly when an earlier entry was emitted |
| Compiler.RunStep | src/compiler.js:32-38 | one loop step: a skipped junk entry changes nothing; an emitted entry appends its code and its export |
| Compiler.RunExports | src/compiler.js:52-58 | one export per message, in source order; terms and other entries export nothing |
| Compiler.MessageCountPositive | src/compiler.js:52-55 | the message count is positive exactly when some entry is a message |
| Compiler.DefaultExportIffMessage | src/compiler.js:41-45 | the default-export line is written exactly when the resource holds a message |
| Compiler.WithoutJunk | src/compiler.js:33 | the filtered entries contain no junk |
| Compiler.EmittedCountWithoutJunk | src/compiler.js:33-38 | without `withJunk`, removing junk does not change how many entries are emitted |
| Compiler.RunIgnoresJunk | src/compiler.js:33-38 | without `withJunk`, junk leaves no trace in the pieces, the padding or the exports |
| Compiler.SkippedJunkIsInvisible | src/compiler.js:33-38 | compiling without junk equals compiling the resource with its junk removed |
| Compiler.FailingEntryIsFatal | src/compiler.js:32-39 | an emitted entry that fails to compile makes the whole loop fail |
| Compiler.RunErrFailsCompile | src/compiler.js:32-39 | `compile` fails whenever its loop fails |
| Compiler.FailingEntryFailsCompile | src/compiler.js:16-48 | an emitted entry that fails to compile makes `compile` fail |
| Compiler.UnknownEntryIsFatal | src/compiler.js:76-77 | an entry of unknown type anywhere in the resource makes `compile` fail, with or without `withJunk` |
| Compiler.BrokenMessageIsFatal | src/compiler.js:52-56 | a message whose value or attributes fail to compile makes `compile` fail |
| Compiler.BrokenTermIsFatal | src/compiler.js:57-58 | a term whose value or attributes fail to compile makes `compile` fail |
| Compiler.UnknownElementIsFatal | src/compiler.js:164-173 | an element of unknown type in a message value makes `compile` fail |
| Compiler.SelectWithoutDefaultIsFatal | src/compiler.js:210-213 | a message value placing a select expression without a default variant makes `compile` fail |
| Compiler.CompiledModuleOpensWithPrelude | src/compiler.js:26-30 | every compiled module starts with the runtime import and the `$Runtime(lc)` line |
| Compiler.CompileAttributes | src/compiler.js:118-120 | the attribute loop computes the attribute list, stopping at the first error |
| Compiler.CompileMessage | src/compiler.js:103-124 | the `parts`-pushing method equals the message's code |
| Compiler.CompileTerm | src/compiler.js:126-143 | the `parts`-pushing method equals the term's code |
| Compiler.ConcatModule | src/compiler.js:47 | joining prelude, pieces and tail equals joining each and concatenating |
| Compiler.AssembleModule | src/compiler.js:24-47 | the module is the prelude, the entries' code and the default export, in this order |
| Compiler.FluentJSCompiler.constructor | src/compiler.js:11-14 | sets `withJunk` and an empty export list |
| Compiler.FluentJSCompiler.Compile | src/compiler.js:16-48 | the result is the resource's module text or its error, and the export list is the one of this call alone |
| Compiler.FluentJSCompiler.CompileEntries | src/compiler.js:32-39 | the loop with its bit-mask state equals `Run`, in pieces and exports |
| Compiler.FluentJSCompiler.CompileEntry | src/compiler.js:50-79 | compiles one entry with the given state and appends a message's export |
| Compiler.CompileTwice | src/compiler.js:16-48 | two calls on one compiler with the same input return the same text and leave the same exports |
| Serializer.CompileIsPreludePlusSerialize | src/serializer.js:16-42 | serializing fails exactly when compiling does, with the same error, and otherwise gives the compiled module minus its prelude |
| Serializer.AssembleSerialized | src/serializer.js:35-41 | the serialized text is the entries' code followed by the default export |
| Serializer.FluentSerializer.constructor | src/serializer.js:11-14 | sets `withJunk` and an empty export list |
| Serializer.FluentSerializer.Serialize | src/serializer.js:16-42 | the result is the serialized text or its error, with this call's exports |
| Serializer.FluentSerializer.SerializeEntries | src/serializer.js:26-33 | the loop equals `Run`, in pieces and exports |
| Serializer.FluentSerializer.SerializeEntry | src/serializer.js:44-73 | serializes one entry with the given state and appends a message's export |
| Serializer.SerializeTwice | src/serializer.js:16-42 | two calls on one serializer with the same input return the same text and leave the same exports |
| Js.IsNaNWithoutHost | src/runtime/index.js:44 | `isNaN` depends on the platform only for strings and arrays: true for `undefined`, objects and NaN, false for `null`, booleans and other numbers |
| Runtime.Isol | src/runtime/index.js:11-16 | an array is spread between FSI and PDI with its items unchanged; any other value becomes `[FSI, expr, PDI]` |
| Runtime.SelectReturnsVariant | src/runtime/index.js:18-32 | `select` returns one of the variants, or `undefined` when the default key is missing |
| Runtime.ExactKeyFirst | src/runtime/index.js:19-25 | an exact match on the formatted text or the string form wins, whatever the plural rules say |
| Runtime.CategorySecond | src/runtime/index.js:21-30 | without an exact match, a tagged or plain number goes to its plural category under the tagged options or none, else to the default; a plural-rules exception propagates |
| Runtime.OtherValuesUseDefault | src/runtime/index.js:25-31 | any other value, dates and arrays included, never reaches the plural rules: it selects the variant named by its string form, else the default variant |
| Runtime.SelectHostIndependent | src/runtime/index.js:25-31 | for a value that is not a number, a date or an array, the variant chosen does not depend on the platform |
| Runtime.NumberShape | src/runtime/index.js:43-51 | the NaN guard comes first; a formatted result keeps the options, the value and the text and is tagged exactly when the options are truthy; a formatter exception gives `String(value)` |
| Runtime.NumberThenSelect | src/runtime/index.js:19-20 | a `NUMBER` result whose formatted text names a variant selects that variant, so `[2]` beats `[two]` |
| Bundle.AndThenAssociative | src/runtime/bundle.js:10-30 | rendering parts in sequence is associative, with the empty text as unit |
| Bundle.MsgStringAppend | src/runtime/bundle.js:10-30 | rendering a concatenation renders each half in order; the first exception wins |
| Bundle.MsgStringFlattens | src/runtime/bundle.js:21-22 | nested arrays flatten in place |
| Bundle.MsgStringOfStrings | src/runtime/bundle.js:14-15 | parts that are all strings are concatenated verbatim on every platform |
| Bundle.MsgPartValues | src/runtime/bundle.js:23-27 | a tagged number renders as its formatted text, `undefined` as `"undefined"` |
| Bundle.MsgStringSingle | src/runtime/bundle.js:11-29 | a one-part list renders as its part |
| Bundle.MsgPartOfArray | src/runtime/bundle.js:21-22 | an array part renders as its items |
| Bundle.MsgStringBetween | src/runtime/bundle.js:10-30 | parts between two strings render between them; an exception passes through |
| Bundle.IsolRendersBetweenMarks | src/runtime/index.js:11-16 | an isolated part renders as FSI, its text and PDI, or throws what the part throws |
| Bundle.MergeKeys | src/runtime/bundle.js:38-49 | after a merge the table holds exactly the old ids and the resource's ids |
| Bundle.MergeKeepsExisting | src/runtime/bundle.js:41-43 | without `allowOverrides`, existing entries are kept and every conflict message names an id of the resource |
| Bundle.MergeCountsConflicts | src/runtime/bundle.js:41-46 | without `allowOverrides`, each incoming entry adds either a new id or one conflict message |
| Bundle.MergeFirstWins | src/runtime/bundle.js:41-46 | without `allowOverrides`, a new id keeps the first entry the resource gives it |
| Bundle.MergeOverrides | src/runtime/bundle.js:39-45 | with `allowOverrides`, there are no conflicts, the last entry for an id wins, and other ids are kept |
| Bundle.SplitIdParts | src/runtime/bundle.js:52 | `split('.', 2)` gives the message id and, after the first dot, the attribute id |
| Bundle.FormatRecovers | src/runtime/bundle.js:51-63 | on any failure `format` returns the id with exactly one error; term ids, unknown ids and missing attributes give a `ReferenceError` |
| Bundle.FluentBundle.constructor | src/runtime/bundle.js:33-36 | stores the table and normalises `lc` to an array |
| Bundle.FluentBundle.AddResource | src/runtime/bundle.js:38-49 | the loop leaves the merged table and returns the conflict messages |
| Bundle.FluentBundle.Format | src/runtime/bundle.js:51-63 | returns the formatted text and appends the error, if any, to a given sink |
| Bundle.FluentBundle.GetMessage | src/runtime/bundle.js:65-67 | a message is returned only for a non-term id in the table |
| Bundle.LookupHidesTerms | src/runtime/bundle.js:65-71 | `hasMessage` and `getMessage` agree and hide term ids |
| Messages.CompoundAttributesInOrder | src/runtime.js:26 | one attribute text per attribute function, with its name and in its order, each rendered from its own parts |
| Messages.CompoundOfUnknownId | src/runtime.js:19-23 | an unknown id gives the id as value, no attributes and one `ReferenceError` |
| Messages.FormatPlainId | src/runtime.js:29-39 | `format` of an id without a dot never throws; an unknown id returns the id with one error; any failure returns the id |
| Messages.AttemptRecovers | src/runtime.js:33-38 | inside the `try`, a missing target is an unknown message, and every failure returns the id |
| Messages.FormatWithoutAttribute | src/runtime.js:30-31 | without an attribute, `format` calls the message's own function |
| Messages.FormatMissingMessageAttributeThrows | src/runtime.js:30-33 | `format("msg.attr")` on a missing message throws a `TypeError` instead of returning the id |
| Messages.FormatAttributeOfMissing | src/runtime.js:31-32 | the attribute lookup on a missing message throws before the `try` |
| Messages.FormatOfStrings | src/runtime.js:35 | a message function returning only strings formats to their concatenation |
| Messages.MessagesBundle.constructor | src/runtime.js:42 | stores the data and normalises `lc` to an array |
| Messages.MessagesBundle.AddResource | src/runtime.js:6-17 | the loop leaves the same merge as the bundle's and returns the conflict messages |
| Messages.MessagesBundle.Compound | src/runtime.js:18-28 | returns the compound result or the exception, and appends an unknown id's error to a given sink |
| Messages.MessagesBundle.Format | src/runtime.js:29-40 | returns the text or the exception, and appends a caught error to a given sink |
| Messages.HasMessageShowsTerms | src/runtime.js:41 | this `hasMessage` reports a term id in the table, where the bundle's does not |
| Loader.RemoveFirst | packages/loader/src/loader.js:16 | `replace` of a string pattern leaves the path unchanged or exactly one pattern length shorter |
| Loader.IndexOf | packages/loader/src/loader.js:16 | the index found holds an occurrence of the pattern |
| Loader.IndexOfFirst | packages/loader/src/loader.js:16 | no occurrence comes before the index found, and -1 means none at all |
| Loader.RemoveFirstOccurrence | packages/loader/src/loader.js:16 | for a non-empty pattern, the path is unchanged exactly when the pattern does not occur; otherwise exactly its first occurrence is cut out |
| Loader.SplitPath | packages/loader/src/loader.js:17 | splitting on `[._/]` gives at least one piece and no piece holds a separator |
| Loader.SplitPathAfter | packages/loader/src/loader.js:17 | a separator-free prefix followed by a separator becomes the first piece |
| Loader.NonEmpty | packages/loader/src/loader.js:18 | `filter(Boolean)` keeps no more pieces than it is given, and a piece is kept exactly when it is a non-empty input piece |
| Loader.NonEmptyAppend | packages/loader/src/loader.js:18 | filtering distributes over concatenation, so order and repetitions are kept |
| Loader.NonEmptySingle | packages/loader/src/loader.js:18 | a single piece is kept exactly when it is non-empty |
| Loader.Reverse | packages/loader/src/loader.js:19 | the reversed list holds the items in opposite order |
| Loader.PathPieces | packages/loader/src/loader.js:15-18 | the path parts are non-empty and free of separators |
| Loader.FirstIn | packages/loader/src/loader.js:20 | the first part that is a candidate, and none exactly when no part is |
| Loader.IndexOfDash | packages/loader/src/loader.js:22 | `IndexOf(lc, "-")`: the index of the first `-`, or -1 exactly when there is none |
| Loader.RootsAreLocalePrefixes | packages/loader/src/loader.js:21-24 | every root is a non-empty prefix of some locale, ending before its first `-` |
| Loader.RootsComplete | packages/loader/src/loader.js:21-24 | every locale whose `-` is not at index 0 contributes its root |
| Loader.GetLocaleCandidates | packages/loader/src/loader.js:13-29 | the result is a locale or a root, and anything but `locales[0]` is a part of the path |
| Loader.SingleLocale | packages/loader/src/loader.js:14 | with one locale the path is not looked at |
| Loader.FirstInReverse | packages/loader/src/loader.js:19-20 | the first match in the reversed parts is the last match in path order |
| Loader.FirstMatchIndex | packages/loader/src/loader.js:20 | the match found is at an index with no candidate before it |
| Loader.LastFullLocaleWins | packages/loader/src/loader.js:15-20 | when a full locale is in the path, the answer is a locale, the last one in path order |
| Loader.RootWhenNoFullLocale | packages/loader/src/loader.js:15-27 | when no full locale is in the path but a root is, the answer is a root, the last root in path order |
| Loader.FallbackToFirst | packages/loader/src/loader.js:28 | with no locale and no root in the path, the answer is `locales[0]` |
| Loader.RootExample | packages/loader/src/loader.js:21-27 | `/app/en.ftl` under `/app` with locales `en-US` and `fr` gives `en`, which is not itself a locale |
| Loader.ExamplePieces | packages/loader/src/loader.js:15-18 | `/app/en.ftl` under `/app` has the parts `en` and `ftl` |

## Left out

- `serializer.js` repeats the compiler's helpers (`serializeComment`,
  `serializePattern`, `serializeExpression`, `serializeVariantKey`, …) under
  other names. The serializer model calls the compiler's functions, so every
  property above about those helpers holds for the serializer's copies too.
- `Intl.NumberFormat`, `Intl.PluralRules` and `Intl.DateTimeFormat` are not
  defined. So are `String(number)`, `String(date)` and `Number(string)`. All of
  them are fields of `Host`, and every property holds for any behaviour they
  may have.
- The lazily created `nf`, `dtf` and `pr` caches and `src/runtime/intl-memo.js`
  are left out. They are not observable apart from the platform calls above.
- `DATETIME` is left out: its date coercion, time zones and `Invalid Date`
  fallback all live in the platform.
- The Fluent parser (`src/index.js`) is left out. The syntax tree is an input
  datatype.
- `src/loader.js` is left out, and so is the default export of the webpack
  loader: option reading and `emitError`. `GetLocale` requires at least one
  locale, which that default export guarantees before calling `getLocale`.
- Aliasing is left out. `FluentBundle` keeps the caller's `Map` by reference,
  and `addResource` writes into that same `Map`. The `$messages` object
  likewise writes into the caller's `data` object. The model holds these
  tables as values (`res`, `data`), so the caller's own `Map` or object does
  not see the writes.
- `Bundle.FluentBundle.GetMessage` returns `None` both for a term id and for an
  unknown id. JavaScript's `getMessage` returns `false` for the first and
  `undefined` for the second; the model does not tell these two apart.
- `rootContext` is a string. An `undefined` `rootContext` (replaced as the
  text `"undefined"`) is not modelled.
- Lookups through the prototype chain are left out: `variants[def]`,
  `msg.attr[attrId]` and `data[id]` for names such as `toString`. A table
  holds only its own entries. The exception is the `reservedES3[k]` and
  `reservedES5[k]` tests, which do hit inherited names; `funcname` is modelled
  with that behaviour (`FuncNamePrefixesPrototypeNames`).
- A compiled message function's own `length` and `name` properties are left
  out. `Object.keys` does not list them, so `compound` is unaffected.
- `Object.keys` lists integer-like attribute names first. The model keeps the
  attribute functions in creation order.
- The `messages` getter of `$messages`, and the `bundle(messages)` factory of
  `Runtime(lc)`, are left out.
- String lengths count Unicode scalar values, not UTF-16 code units. The
  60-character layout threshold can differ for text outside the Basic
  Multilingual Plane.
- Symbols, getters and proxies as message arguments are not among the modelled
  values.
- The compiler's errors are values (`CompileError`). The JavaScript code throws
  them, and a thrown compile error also leaves `_exports` as it was when the
  error happened. The model states that state too (`RunErrPersists`), but it
  does not model the `Error` objects' messages beyond their kind and the tag.
- Where the code and the package's documented behaviour disagree, the model
  follows the code:
  - `format("missing.attr")` on the `$messages` object of `src/runtime.js`
    throws a `TypeError`. The property lookup runs before the `try`, so the id
    is not returned. `FluentBundle.format` does return the id.
  - Neither runtime detects messages whose value failed to compile.
    `hasMessage` reports any id in the table.
  - The `hasMessage` of `src/runtime.js` also reports term ids
    (`HasMessageShowsTerms`). Only the bundle's `hasMessage` hides them.
  - A function reference compiles to a call of whatever name it holds
    (`AnyFunctionNameCompiles`). No list of allowed builtins is checked at
    compile time.
  - A term reference passes the caller's whole `$` to the term, with any named
    arguments spread over it (`CallArgumentsLayout`). Terms are not limited to
    their explicit arguments.
  - The compiler emits no bidi isolation and has no option for it. Only the
    runtime's `isol` adds the isolation marks, when it is called.
