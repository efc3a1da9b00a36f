/**
 * The serializer: the compiler's entry loop without the runtime prelude. Its
 * helper functions are copies of the compiler's, so the pure lowering is the
 * one in `Compiler`; what is separate is the `FluentSerializer` object and its
 * own export list.
 */
module Serializer {
  import opened Base
  import opened Util
  import opened Ast
  import opened Compiler

  /** `serialize(resource)` as a value. */
  function SerializedCode(withJunk: bool, resource: Resource): Code
  {
    if resource.kind != "Resource" then Err(UnknownResourceType(resource.kind))
    else
      var (pieces, exports) := Run(withJunk, resource.body);
      var ps :- pieces;
      Ok(ModuleBody(ps, exports))
  }

  /**
   * Serializing gives the compiled module with its two prelude lines removed,
   * and fails exactly when compiling fails, with the same error.
   */
  lemma CompileIsPreludePlusSerialize(withJunk: bool, locales: Locales, resource: Resource)
    ensures SerializedCode(withJunk, resource).Ok? <==> ResourceCode(withJunk, locales, resource).Ok?
    ensures SerializedCode(withJunk, resource).Ok? ==>
      ResourceCode(withJunk, locales, resource).value == Prelude(locales) + SerializedCode(withJunk, resource).value
    ensures SerializedCode(withJunk, resource).Err? ==>
      ResourceCode(withJunk, locales, resource).error == SerializedCode(withJunk, resource).error
  {
  }

  /** The serialized text is the entries' code followed by the default export. */
  lemma AssembleSerialized(withJunk: bool, resource: Resource, tail: seq<string>)
    requires resource.kind == "Resource" && Run(withJunk, resource.body).0.Ok?
    requires Concat(tail) == DefaultExport(Run(withJunk, resource.body).1)
    ensures SerializedCode(withJunk, resource) == Ok(Concat(Run(withJunk, resource.body).0.value + tail))
  {
    ConcatAppend(Run(withJunk, resource.body).0.value, tail);
  }

  /** The serializer object; like the compiler, it rebuilds its export list on every call. */
  class FluentSerializer {
    const withJunk: bool
    var exports: seq<string>

    constructor(withJunk: bool)
      ensures this.withJunk == withJunk && exports == []
    {
      this.withJunk := withJunk;
      exports := [];
    }

    /** `serialize(resource)` */
    method Serialize(resource: Resource) returns (r: Code)
      modifies this
      ensures r == SerializedCode(withJunk, resource)
      ensures exports == ResourceExports(withJunk, resource)
    {
      exports := [];
      if resource.kind != "Resource" {
        return Err(UnknownResourceType(resource.kind));
      }
      var parts := SerializeEntries(resource.body);
      if parts.Err? {
        return Err(parts.error);
      }
      var tail: seq<string> := [];
      if |exports| > 0 {
        tail := [DefaultExportLine(exports)];
        assert Concat(tail) == tail[0] + Concat([]);
      }
      assert Concat(tail) == DefaultExport(exports);
      AssembleSerialized(withJunk, resource, tail);
      r := Ok(Concat(parts.value + tail));
    }

    /** The loop of `serialize` over the resource body, as in the compiler. */
    method SerializeEntries(body: seq<Entry>) returns (r: Result<seq<string>, CompileError>)
      requires exports == []
      modifies this
      ensures (r, exports) == Run(withJunk, body)
    {
      var state: bv8 := 0;
      var parts: seq<string> := [];
      var i := 0;
      while i < |body|
        invariant 0 <= i <= |body|
        invariant Run(withJunk, body[..i]) == (Ok(parts), exports)
        invariant state == 0 || state == HAS_ENTRIES
        invariant state == HAS_ENTRIES <==> EmittedCount(withJunk, body[..i]) > 0
      {
        var entry := body[i];
        RunStep(withJunk, body, i);
        HasEntriesFlag(state);
        if !entry.Junk? || withJunk {
          var code := SerializeEntry(entry, state);
          if code.Err? {
            RunErrPersists(withJunk, body, i + 1);
            assert body[..|body|] == body;
            return Err(code.error);
          }
          parts := parts + [code.value];
          if state & HAS_ENTRIES == 0 {
            state := state | HAS_ENTRIES;
          }
        }
        i := i + 1;
      }
      assert body[..i] == body;
      r := Ok(parts);
    }

    /** `serializeEntry(entry, state)`: records a message's export before serializing its body. */
    method SerializeEntry(entry: Entry, state: bv8) returns (r: Code)
      modifies this
      ensures r == EntryCode(entry, state & HAS_ENTRIES != 0)
      ensures exports == old(exports) + ExportOf(entry)
    {
      match entry {
        case Message(id, _, _, _) =>
          var varName := FuncName(id);
          exports := exports + [CompileExport(id, varName)];
          r := CompileMessage(entry, varName);
        case Term(_, _, _, _) =>
          r := CompileTerm(entry);
        case Comment(content) =>
          if state & HAS_ENTRIES != 0 {
            return Ok("\n" + CompileComment(content, "//") + "\n");
          }
          return Ok(CompileComment(content, "//") + "\n");
        case GroupComment(content) =>
          if state & HAS_ENTRIES != 0 {
            return Ok("\n" + CompileComment(content, "// ##") + "\n");
          }
          return Ok(CompileComment(content, "// ##") + "\n");
        case ResourceComment(content) =>
          if state & HAS_ENTRIES != 0 {
            return Ok("\n" + CompileComment(content, "// ###") + "\n");
          }
          return Ok(CompileComment(content, "// ###") + "\n");
        case Junk(content) =>
          r := Ok(CompileJunk(content));
        case UnknownEntry(kind) =>
          r := Err(UnknownEntryType(kind));
      }
    }
  }

  /** Serializing the same resource twice with one serializer gives the same text and the same exports. */
  method SerializeTwice(serializer: FluentSerializer, resource: Resource)
    returns (first: Code, second: Code, firstExports: seq<string>, secondExports: seq<string>)
    modifies serializer
    ensures first == second && firstExports == secondExports
    ensures first == SerializedCode(serializer.withJunk, resource)
    ensures firstExports == ResourceExports(serializer.withJunk, resource)
  {
    first := serializer.Serialize(resource);
    firstExports := serializer.exports;
    second := serializer.Serialize(resource);
    secondExports := serializer.exports;
  }
}
