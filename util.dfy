/**
 * Identifier helpers of src/util.js: `propname` turns a key into a safe
 * property access, `funcname` turns an arbitrary Fluent identifier into a
 * JavaScript variable name. Also the `JSON.stringify` quoting of a string,
 * which `propname` and the compiler use.
 */
module Util {
  import opened Base

  /** Keys of the `reservedES3` table. */
  const ReservedES3: set<string> := {
    "break", "continue", "delete", "else", "for", "function", "if", "in", "new",
    "return", "this", "typeof", "var", "void", "while", "with", "case", "catch",
    "default", "do", "finally", "instanceof", "switch", "throw", "try"
  }

  /** Keys of the `reservedES5` table (the words ES5 adds to ES3). */
  const ReservedES5: set<string> := {
    "debugger", "class", "enum", "extends", "super", "const", "export", "import",
    "null", "true", "false", "implements", "let", "private", "public", "yield",
    "interface", "package", "protected", "static"
  }

  /**
   * Names every plain object inherits from `Object.prototype`. Both tables are
   * object literals, so `reservedES3[k]` is truthy for these names as well.
   */
  const ObjectPrototypeNames: set<string> := {
    "constructor", "hasOwnProperty", "isPrototypeOf", "propertyIsEnumerable",
    "toLocaleString", "toString", "valueOf", "__proto__", "__defineGetter__",
    "__defineSetter__", "__lookupGetter__", "__lookupSetter__"
  }

  /** `reservedES3[k]` is truthy. */
  predicate InES3Table(k: string)
  {
    k in ReservedES3 || k in ObjectPrototypeNames
  }

  /** `reservedES5[k]` is truthy. */
  predicate InES5Table(k: string)
  {
    k in ReservedES5 || k in ObjectPrototypeNames
  }

  predicate IsAsciiLetter(c: char)
  {
    'a' <= c <= 'z' || 'A' <= c <= 'Z'
  }

  predicate IsDigit(c: char)
  {
    '0' <= c <= '9'
  }

  /** Matched by the regular-expression class `\w`. */
  predicate IsWordChar(c: char)
  {
    IsAsciiLetter(c) || IsDigit(c) || c == '_'
  }

  /** `/^[A-Z_$][0-9A-Z_$]*$/i.test(key)` */
  predicate IsIdentifierName(key: string)
  {
    && |key| > 0
    && (IsAsciiLetter(key[0]) || key[0] == '_' || key[0] == '$')
    && forall i :: 1 <= i < |key| ==> IsAsciiLetter(key[i]) || IsDigit(key[i]) || key[i] == '_' || key[i] == '$'
  }

  /** A key that `propname` leaves unquoted. */
  predicate IsPlainKey(key: string)
  {
    IsIdentifierName(key) && !InES3Table(key)
  }

  /** Whether an optional object expression is truthy: `null` and `""` are not. */
  predicate IsTruthy(obj: Option<string>)
  {
    obj.Some? && obj.value != ""
  }

  // ---------------------------------------------------------------------------
  // JSON.stringify of a string

  const HexDigits: string := "0123456789abcdef"

  /** How `JSON.stringify` writes one character inside the quotes. */
  function EscapeChar(c: char): string
  {
    if c == '"' then "\\\""
    else if c == '\\' then "\\\\"
    else if c == '\U{0008}' then "\\b"
    else if c == '\U{000C}' then "\\f"
    else if c == '\n' then "\\n"
    else if c == '\r' then "\\r"
    else if c == '\t' then "\\t"
    else if c < ' ' then "\\u00" + [HexDigits[c as int / 16], HexDigits[c as int % 16]]
    else [c]
  }

  function JsonEscape(s: string): string
  {
    if s == [] then "" else EscapeChar(s[0]) + JsonEscape(s[1..])
  }

  /** `JSON.stringify(s)` for a string `s`. */
  function JsonQuote(s: string): (r: string)
    ensures |r| >= |s| + 2 && r[0] == '"' && r[|r| - 1] == '"'
  {
    EscapeLength(s);
    "\"" + JsonEscape(s) + "\""
  }

  lemma {:induction false} EscapeLength(s: string)
    ensures |JsonEscape(s)| >= |s|
  {
    if s != [] {
      EscapeLength(s[1..]);
    }
  }

  function HexValue(d: char): nat
  {
    if '0' <= d <= '9' then d as int - '0' as int
    else if 'a' <= d <= 'f' then d as int - 'a' as int + 10
    else 0
  }

  predicate IsLowerHex(d: char)
  {
    '0' <= d <= '9' || 'a' <= d <= 'f'
  }

  /** The character a one-letter escape `\d` stands for. */
  function SimpleUnescape(d: char): Option<char>
  {
    if d == '"' || d == '\\' then Some(d)
    else if d == 'b' then Some('\U{0008}')
    else if d == 'f' then Some('\U{000C}')
    else if d == 'n' then Some('\n')
    else if d == 'r' then Some('\r')
    else if d == 't' then Some('\t')
    else None
  }

  /** Reads back the text between the quotes that `JsonQuote` writes. */
  function JsonUnescape(r: string): Option<string>
    decreases |r|
  {
    if r == [] then Some("")
    else if r[0] == '\\' then
      if |r| >= 2 && SimpleUnescape(r[1]).Some? then
        match JsonUnescape(r[2..])
        case Some(rest) => Some([SimpleUnescape(r[1]).value] + rest)
        case None => None
      else if |r| >= 6 && r[1] == 'u' && r[2] == '0' && r[3] == '0' && IsLowerHex(r[4]) && IsLowerHex(r[5]) then
        match JsonUnescape(r[6..])
        case Some(rest) => Some([(16 * HexValue(r[4]) + HexValue(r[5])) as char] + rest)
        case None => None
      else None
    else if r[0] == '"' || r[0] < ' ' then None
    else
      match JsonUnescape(r[1..])
      case Some(rest) => Some([r[0]] + rest)
      case None => None
  }

  /** Strips the quotes of a `JSON.stringify` result and reads the escapes back. */
  function JsonUnquote(r: string): Option<string>
  {
    if |r| >= 2 && r[0] == '"' && r[|r| - 1] == '"' then JsonUnescape(r[1..|r| - 1]) else None
  }

  lemma EscapeCharRoundTrip(c: char, rest: string, s: string)
    requires JsonUnescape(rest) == Some(s)
    ensures JsonUnescape(EscapeChar(c) + rest) == Some([c] + s)
  {
    if c == '"' || c == '\\' || c == '\U{0008}' || c == '\U{000C}' || c == '\n' || c == '\r' || c == '\t' {
      SimpleEscapeRoundTrip(c, rest, s);
    } else if c < ' ' {
      ControlEscapeRoundTrip(c, rest, s);
    } else {
      var e := EscapeChar(c) + rest;
      assert e == [c] + rest;
      assert e[1..] == rest;
    }
  }

  lemma SimpleEscapeRoundTrip(c: char, rest: string, s: string)
    requires c == '"' || c == '\\' || c == '\U{0008}' || c == '\U{000C}' || c == '\n' || c == '\r' || c == '\t'
    requires JsonUnescape(rest) == Some(s)
    ensures JsonUnescape(EscapeChar(c) + rest) == Some([c] + s)
  {
    var e := EscapeChar(c) + rest;
    assert |EscapeChar(c)| == 2 && EscapeChar(c)[0] == '\\';
    assert SimpleUnescape(EscapeChar(c)[1]) == Some(c);
    assert e[0] == '\\' && e[1] == EscapeChar(c)[1];
    assert e[2..] == rest;
  }

  lemma ControlEscapeRoundTrip(c: char, rest: string, s: string)
    requires c < ' ' && c != '\U{0008}' && c != '\U{000C}' && c != '\n' && c != '\r' && c != '\t'
    requires JsonUnescape(rest) == Some(s)
    ensures JsonUnescape(EscapeChar(c) + rest) == Some([c] + s)
  {
    var hi, lo := c as int / 16, c as int % 16;
    var esc := "\\u00" + [HexDigits[hi], HexDigits[lo]];
    assert EscapeChar(c) == esc;
    var e := esc + rest;
    assert hi == 0 || hi == 1;
    assert HexValue(HexDigits[hi]) == hi;
    assert HexValue(HexDigits[lo]) == lo && IsLowerHex(HexDigits[lo]) by {
      if lo < 10 {
        assert HexDigits[lo] as int == '0' as int + lo;
      } else {
        assert HexDigits[lo] as int == 'a' as int + lo - 10;
      }
    }
    assert e[0] == '\\' && e[1] == 'u' && e[2] == '0' && e[3] == '0';
    assert e[4] == HexDigits[hi] && e[5] == HexDigits[lo];
    assert SimpleUnescape('u').None?;
    assert e[6..] == rest;
  }

  /** `JSON.stringify` on strings can be undone, hence it is injective. */
  lemma {:induction false} JsonQuoteRoundTrip(s: string)
    ensures JsonUnquote(JsonQuote(s)) == Some(s)
  {
    var q := JsonQuote(s);
    assert q[1..|q| - 1] == JsonEscape(s);
    EscapeRoundTrip(s);
  }

  lemma {:induction false} EscapeRoundTrip(s: string)
    ensures JsonUnescape(JsonEscape(s)) == Some(s)
  {
    if s != [] {
      EscapeRoundTrip(s[1..]);
      EscapeCharRoundTrip(s[0], JsonEscape(s[1..]), s[1..]);
      assert [s[0]] + s[1..] == s;
    }
  }

  lemma JsonQuoteInjective(a: string, b: string)
    requires JsonQuote(a) == JsonQuote(b)
    ensures a == b
  {
    JsonQuoteRoundTrip(a);
    JsonQuoteRoundTrip(b);
  }

  // ---------------------------------------------------------------------------
  // propname

  /** `propname(obj, key)`, with `None` standing for `null`. */
  function PropName(obj: Option<string>, key: string): (r: string)
    ensures !IsTruthy(obj) ==> (r == key <==> IsPlainKey(key))
    ensures !IsTruthy(obj) && r != key ==> r == JsonQuote(key)
    ensures IsTruthy(obj) ==>
      (IsPlainKey(key) ==> r == obj.value + "." + key) &&
      (!IsPlainKey(key) ==> r == obj.value + "[" + JsonQuote(key) + "]")
  {
    if IsPlainKey(key) then
      if IsTruthy(obj) then obj.value + "." + key else key
    else
      var jkey := JsonQuote(key);
      if IsTruthy(obj) then obj.value + "[" + jkey + "]" else jkey
  }

  /**
   * Distinct keys give distinct unqualified property names: a bare key never
   * starts with a quote, and quoting is injective.
   */
  lemma PropNameNullInjective(a: string, b: string)
    requires PropName(None, a) == PropName(None, b)
    ensures a == b
  {
    if !IsPlainKey(a) && !IsPlainKey(b) {
      JsonQuoteInjective(a, b);
    }
  }

  /** Only the ES3 table is consulted: ES5-only words such as `class` stay unquoted. */
  lemma PropNameKeepsES5Words(k: string)
    requires k in ReservedES5
    ensures PropName(None, k) == k
    ensures PropName(Some("$"), k) == "$." + k
  {
    ES5WordsAreIdentifiers(k);
    ES5WordsOutsideES3Table(k);
  }

  lemma ES5WordsAreIdentifiers(k: string)
    requires k in ReservedES5
    ensures IsIdentifierName(k)
  {
  }

  lemma ES5WordsOutsideES3Table(k: string)
    requires k in ReservedES5
    ensures !InES3Table(k)
  {
    ES5WordsNotES3(k);
    ES5WordsNotInherited(k);
  }

  lemma ES5WordsNotES3(k: string)
    requires k in ReservedES5
    ensures k !in ReservedES3
  {
  }

  lemma ES5WordsNotInherited(k: string)
    requires k in ReservedES5
    ensures k !in ObjectPrototypeNames
  {
  }

  /** ES3 words are quoted even though they are identifier names. */
  lemma PropNameQuotesES3Words()
    ensures PropName(None, "for") == "\"for\""
  {
    assert "for" in ReservedES3;
    assert JsonEscape("for") == "for" by {
      assert JsonEscape("r") == "r";
      assert JsonEscape("or") == "or";
    }
  }

  /** Keys that are not identifier names are quoted. */
  lemma PropNameQuotesOtherKeys()
    ensures PropName(Some("$"), "a-b") == "$[\"a-b\"]"
  {
    assert !IsIdentifierName("a-b") by { assert "a-b"[1] == '-'; }
    assert JsonEscape("a-b") == "a-b" by {
      assert JsonEscape("b") == "b";
      assert JsonEscape("-b") == "-b";
    }
    assert JsonQuote("a-b") == "\"a-b\"";
  }

  // ---------------------------------------------------------------------------
  // funcname

  /** Characters `String.prototype.trim` removes: white space and line terminators. */
  predicate IsJsWhitespace(c: char)
  {
    c == '\t' || c == '\U{000B}' || c == '\U{000C}' || c == ' ' || c == '\U{00A0}' || c == '\U{FEFF}'
    || c == '\n' || c == '\r' || c == '\U{2028}' || c == '\U{2029}'
    || c == '\U{1680}' || ('\U{2000}' <= c <= '\U{200A}') || c == '\U{202F}' || c == '\U{205F}' || c == '\U{3000}'
  }

  function TrimStart(s: string): (r: string)
    ensures |r| <= |s|
  {
    if s != [] && IsJsWhitespace(s[0]) then TrimStart(s[1..]) else s
  }

  function TrimEnd(s: string): (r: string)
    ensures |r| <= |s|
  {
    if s != [] && IsJsWhitespace(s[|s| - 1]) then TrimEnd(s[..|s| - 1]) else s
  }

  /** `s.trim()` */
  function Trim(s: string): string
  {
    TrimEnd(TrimStart(s))
  }

  /** Drops the rest of a run of non-word characters. */
  function DropNonWord(s: string): (r: string)
    ensures |r| <= |s|
    ensures r == [] || IsWordChar(r[0])
  {
    if s != [] && !IsWordChar(s[0]) then DropNonWord(s[1..]) else s
  }

  /** `s.replace(/\W+/g, '_')`: every maximal run of non-word characters becomes one `_`. */
  function ReplaceNonWord(s: string): (r: string)
    ensures forall i :: 0 <= i < |r| ==> IsWordChar(r[i])
    decreases |s|
  {
    if s == [] then ""
    else if IsWordChar(s[0]) then [s[0]] + ReplaceNonWord(s[1..])
    else "_" + ReplaceNonWord(DropNonWord(s[1..]))
  }

  /** A name that `funcname` leaves as it is. */
  predicate IsSafeName(name: string)
  {
    && (forall i :: 0 <= i < |name| ==> IsWordChar(name[i]))
    && !(|name| > 0 && IsDigit(name[0]))
    && !InES3Table(name)
    && !InES5Table(name)
  }

  /** `funcname(key)` */
  function FuncName(key: string): string
  {
    var fn := ReplaceNonWord(Trim(key));
    if InES3Table(fn) || InES5Table(fn) || (|fn| > 0 && IsDigit(fn[0])) then "_" + fn else fn
  }

  /**
   * `funcname` always yields a safe variable name: only word characters, no
   * leading digit, and no word of either reserved table.
   */
  lemma FuncNameIsSafe(key: string)
    ensures IsSafeName(FuncName(key))
    ensures forall i :: 0 <= i < |FuncName(key)| ==> IsWordChar(FuncName(key)[i])
    ensures FuncName(key) != [] ==> !IsDigit(FuncName(key)[0])
    ensures FuncName(key) !in ReservedES3 && FuncName(key) !in ReservedES5
  {
    var fn := ReplaceNonWord(Trim(key));
    if InES3Table(fn) || InES5Table(fn) || (|fn| > 0 && IsDigit(fn[0])) {
      PrefixedIsSafe(fn);
    }
  }

  /** What every name in the two tables looks like. */
  lemma TableShape(w: string)
    requires InES3Table(w) || InES5Table(w)
    ensures |w| >= 2 && !IsDigit(w[0])
    ensures w[0] == '_' ==> w[1] == '_' && |w| >= 3 && w[2] != '_'
  {
  }

  lemma PrefixedIsSafe(fn: string)
    requires forall i :: 0 <= i < |fn| ==> IsWordChar(fn[i])
    requires InES3Table(fn) || InES5Table(fn) || (|fn| > 0 && IsDigit(fn[0]))
    ensures IsSafeName("_" + fn)
  {
    var p := "_" + fn;
    if InES3Table(p) || InES5Table(p) {
      TableShape(p);
      assert fn[0] == p[1] && fn[1] == p[2];
      if InES3Table(fn) || InES5Table(fn) {
        TableShape(fn);
      }
    }
  }

  lemma TrimWordOnly(s: string)
    requires forall i :: 0 <= i < |s| ==> IsWordChar(s[i])
    ensures Trim(s) == s
  {
    if s != [] {
      TrimKeepsEnds(s);
    }
  }

  /** A string that neither starts nor ends with white space is left alone by `trim`. */
  lemma TrimKeepsEnds(s: string)
    requires s != [] && !IsJsWhitespace(s[0]) && !IsJsWhitespace(s[|s| - 1])
    ensures Trim(s) == s
  {
  }

  lemma {:induction false} ReplaceWordOnly(s: string)
    requires forall i :: 0 <= i < |s| ==> IsWordChar(s[i])
    ensures ReplaceNonWord(s) == s
  {
    if s != [] {
      ReplaceWordOnly(s[1..]);
      assert [s[0]] + s[1..] == s;
    }
  }

  /** `funcname` is the identity on the names it produces. */
  lemma FuncNameFixesSafeNames(name: string)
    requires IsSafeName(name)
    ensures FuncName(name) == name
  {
    TrimWordOnly(name);
    ReplaceWordOnly(name);
  }

  /** `funcname(funcname(k)) == funcname(k)` */
  lemma FuncNameIdempotent(key: string)
    ensures FuncName(FuncName(key)) == FuncName(key)
  {
    FuncNameIsSafe(key);
    FuncNameFixesSafeNames(FuncName(key));
  }

  /**
   * `funcname` is not injective: messages `foo-a` and `foo_a` share a variable
   * name.
   */
  lemma FuncNameMessageCollision()
    ensures FuncName("foo-a") == FuncName("foo_a") == "foo_a"
  {
    TrimKeepsEnds("foo-a");
    assert ReplaceNonWord("foo-a") == "foo_a" by {
      assert ReplaceNonWord("a") == "a";
      assert DropNonWord("a") == "a";
      assert ReplaceNonWord("-a") == "_a";
    }
    assert IsSafeName("foo_a") by {
      FooANotReserved();
    }
    FuncNameFixesSafeNames("foo_a");
  }

  /** Term `-foo`, compiled as `funcname("-foo")`, collides with message `_foo`. */
  lemma FuncNameTermCollision()
    ensures FuncName("-foo") == FuncName("_foo") == "_foo"
  {
    TrimKeepsEnds("-foo");
    assert ReplaceNonWord("-foo") == "_foo" by {
      assert DropNonWord("foo") == "foo";
      assert ReplaceNonWord("foo") == "foo";
    }
    assert IsSafeName("_foo") by {
      if InES3Table("_foo") || InES5Table("_foo") {
        TableShape("_foo");
      }
    }
    FuncNameFixesSafeNames("_foo");
  }

  lemma FooANotReserved()
    ensures !InES3Table("foo_a") && !InES5Table("foo_a")
  {
  }

  /** A word-only name found in a reserved table gets the `_` prefix. */
  lemma FuncNamePrefixesReserved(k: string)
    requires forall i :: 0 <= i < |k| ==> IsWordChar(k[i])
    requires InES3Table(k) || InES5Table(k)
    ensures FuncName(k) == "_" + k
  {
    TrimWordOnly(k);
    ReplaceWordOnly(k);
  }

  /** Every inherited `Object.prototype` name counts as reserved. */
  lemma FuncNamePrefixesPrototypeNames(k: string)
    requires k in ObjectPrototypeNames
    ensures FuncName(k) == "_" + k
  {
    PrototypeNamesAreWords(k);
    FuncNamePrefixesReserved(k);
  }

  lemma PrototypeNamesAreWords(k: string)
    requires k in ObjectPrototypeNames
    ensures forall i :: 0 <= i < |k| ==> IsWordChar(k[i])
  {
  }

  /** Every ES5-only word is reserved for `funcname`, unlike for `propname`. */
  lemma FuncNamePrefixesES5Words(k: string)
    requires k in ReservedES5
    ensures FuncName(k) == "_" + k
  {
    assert forall i :: 0 <= i < |k| ==> IsWordChar(k[i]);
    FuncNamePrefixesReserved(k);
  }
}
