/**
 * Locale detection of the webpack loader: the parts of a resource path are
 * matched, last part first, against the configured locales and then against
 * their root tags (`en` for `en-US`).
 */
module Loader {
  import opened Base

  /** `s.replace(pattern, '')` for a string pattern: the first occurrence is removed. */
  function RemoveFirst(s: string, pattern: string): (r: string)
    ensures |r| == |s| || |r| + |pattern| == |s|
    ensures |r| == |s| ==> r == s
  {
    var i := IndexOf(s, pattern);
    if i < 0 then s else s[..i] + s[i + |pattern|..]
  }

  /** `pattern` occurs in `s` at index `i`. */
  predicate OccursAt(s: string, pattern: string, i: int)
  {
    0 <= i && i + |pattern| <= |s| && s[i..i + |pattern|] == pattern
  }

  /** Occurrences in `s` after its first character are the occurrences in `s[1..]`, shifted by one. */
  lemma OccursShift(s: string, pattern: string, j: int)
    requires |s| > 0 && j >= 1
    ensures OccursAt(s, pattern, j) <==> OccursAt(s[1..], pattern, j - 1)
  {
    var n := |pattern|;
    if j + n <= |s| {
      var a, b := s[j..j + n], s[1..][j - 1..j - 1 + n];
      assert |a| == |b|;
      forall k | 0 <= k < n
        ensures a[k] == b[k]
      {
        assert a[k] == s[j + k];
        assert b[k] == s[1..][j - 1 + k];
      }
      assert a == b;
    }
  }

  /** `s.indexOf(pattern)`: the index of the first occurrence, or -1. */
  function IndexOf(s: string, pattern: string): (r: int)
    ensures r >= -1
    ensures r >= 0 ==> OccursAt(s, pattern, r)
  {
    if |s| < |pattern| then -1
    else if s[..|pattern|] == pattern then 0
    else
      var r := IndexOf(s[1..], pattern);
      if r < 0 then -1
      else
        OccursShift(s, pattern, r + 1);
        r + 1
  }

  /** `IndexOf` finds the first occurrence, and -1 exactly when there is none. */
  lemma {:induction false} IndexOfFirst(s: string, pattern: string)
    ensures IndexOf(s, pattern) < 0 ==> forall i :: !OccursAt(s, pattern, i)
    ensures forall j :: 0 <= j < IndexOf(s, pattern) ==> !OccursAt(s, pattern, j)
  {
    if |s| >= |pattern| && s[..|pattern|] != pattern {
      IndexOfFirst(s[1..], pattern);
      assert !OccursAt(s, pattern, 0);
      forall j | j >= 1
        ensures OccursAt(s, pattern, j) <==> OccursAt(s[1..], pattern, j - 1)
      {
        OccursShift(s, pattern, j);
      }
    }
  }

  /**
   * For a non-empty pattern, `replace` removes exactly the first occurrence,
   * and leaves the path unchanged exactly when the pattern does not occur.
   */
  lemma RemoveFirstOccurrence(s: string, pattern: string)
    requires |pattern| > 0
    ensures RemoveFirst(s, pattern) == s <==> forall i :: !OccursAt(s, pattern, i)
    ensures RemoveFirst(s, pattern) != s ==> exists i ::
      && OccursAt(s, pattern, i)
      && (forall j :: 0 <= j < i ==> !OccursAt(s, pattern, j))
      && RemoveFirst(s, pattern) == s[..i] + s[i + |pattern|..]
  {
    IndexOfFirst(s, pattern);
  }

  /** The separators of the regular expression `[._/]`. */
  predicate IsPathSeparator(c: char)
  {
    c == '.' || c == '_' || c == '/'
  }

  /** `s.split(/[._/]/)`: never empty, no piece holds a separator. */
  function SplitPath(s: string): (r: seq<string>)
    ensures |r| >= 1
    ensures forall i, j :: 0 <= i < |r| && 0 <= j < |r[i]| ==> !IsPathSeparator(r[i][j])
  {
    if s == [] then [""]
    else
      var rest := SplitPath(s[1..]);
      if IsPathSeparator(s[0]) then [""] + rest
      else
        assert forall j :: 1 <= j < |[s[0]] + rest[0]| ==> ([s[0]] + rest[0])[j] == rest[0][j - 1];
        [[s[0]] + rest[0]] + rest[1..]
  }

  /** A path without separators is a single piece. */
  lemma {:induction false} SplitPathWord(s: string)
    requires forall j :: 0 <= j < |s| ==> !IsPathSeparator(s[j])
    ensures SplitPath(s) == [s]
  {
    if s != [] {
      SplitPathWord(s[1..]);
      assert [s[0]] + s[1..] == s;
    }
  }

  /** Splitting `a + [c] + b` at a separator `c`, where `a` has none, puts `a` first. */
  lemma {:induction false} SplitPathAfter(a: string, c: char, b: string)
    requires IsPathSeparator(c)
    requires forall j :: 0 <= j < |a| ==> !IsPathSeparator(a[j])
    ensures SplitPath(a + [c] + b) == [a] + SplitPath(b)
  {
    if a == [] {
      assert a + [c] + b == [c] + b;
      assert ([c] + b)[1..] == b;
    } else {
      SplitPathAfter(a[1..], c, b);
      assert (a + [c] + b)[1..] == a[1..] + [c] + b;
      assert [a[0]] + a[1..] == a;
    }
  }

  /** `.filter(Boolean)` on strings: the empty pieces are dropped, the others kept in order. */
  function NonEmpty(parts: seq<string>): (r: seq<string>)
    ensures |r| <= |parts|
    ensures forall p :: p in r <==> p in parts && p != ""
  {
    if parts == [] then []
    else if parts[0] == "" then NonEmpty(parts[1..])
    else [parts[0]] + NonEmpty(parts[1..])
  }

  /**
   * `filter(Boolean)` keeps the order and the repetitions of the non-empty
   * pieces: filtering distributes over concatenation and keeps a single
   * piece exactly when it is non-empty.
   */
  lemma {:induction false} NonEmptyAppend(a: seq<string>, b: seq<string>)
    ensures NonEmpty(a + b) == NonEmpty(a) + NonEmpty(b)
  {
    if a == [] {
      assert a + b == b;
    } else {
      assert (a + b)[0] == a[0] && (a + b)[1..] == a[1..] + b;
      NonEmptyAppend(a[1..], b);
    }
  }

  /** A single piece survives `filter(Boolean)` exactly when it is non-empty. */
  lemma NonEmptySingle(p: string)
    ensures NonEmpty([p]) == (if p == "" then [] else [p])
  {
    assert [p][1..] == [];
  }

  /** `.reverse()` */
  function Reverse<T>(s: seq<T>): (r: seq<T>)
    ensures |r| == |s|
    ensures forall i :: 0 <= i < |s| ==> r[i] == s[|s| - 1 - i]
  {
    if s == [] then [] else Reverse(s[1..]) + [s[0]]
  }

  /** The non-empty parts of the path, in path order, after `rootContext` is removed. */
  function PathPieces(resourcePath: string, rootContext: string): (r: seq<string>)
    ensures forall i :: 0 <= i < |r| ==> r[i] != ""
    ensures forall i, j :: 0 <= i < |r| && 0 <= j < |r[i]| ==> !IsPathSeparator(r[i][j])
  {
    var pieces := SplitPath(RemoveFirst(resourcePath, rootContext));
    var r := NonEmpty(pieces);
    assert forall i :: 0 <= i < |r| ==> r[i] in pieces;
    r
  }

  /** The path parts searched for a locale, last path part first. */
  function PathParts(resourcePath: string, rootContext: string): (r: seq<string>)
  {
    Reverse(PathPieces(resourcePath, rootContext))
  }

  /** `for (const part of parts) if (candidates.includes(part)) return part` */
  function FirstIn(parts: seq<string>, candidates: seq<string>): (r: Option<string>)
    ensures r.Some? ==> r.value in parts && r.value in candidates
    ensures r.None? <==> forall i :: 0 <= i < |parts| ==> parts[i] !in candidates
  {
    if parts == [] then None
    else if parts[0] in candidates then Some(parts[0])
    else FirstIn(parts[1..], candidates)
  }

  /** `lc.indexOf('-')`, with -1 when there is none. */
  function IndexOfDash(lc: string): (r: int)
    ensures -1 <= r < |lc|
    ensures r >= 0 ==> lc[r] == '-' && '-' !in lc[..r]
    ensures r == -1 <==> '-' !in lc
  {
    IndexOfFirst(lc, "-");
    var r := IndexOf(lc, "-");
    assert forall j :: 0 <= j < |lc| ==> (OccursAt(lc, "-", j) <==> lc[j] == '-') by {
      forall j | 0 <= j < |lc|
        ensures OccursAt(lc, "-", j) <==> lc[j] == '-'
      {
        assert lc[j..j + 1] == [lc[j]];
      }
    }
    r
  }

  /** The root locales: the prefix before the first `-` of each locale whose `-` is not its first character. */
  function Roots(locales: seq<string>): (r: seq<string>)
    ensures |r| <= |locales|
  {
    if locales == [] then []
    else
      var i := IndexOfDash(locales[0]);
      (if i > 0 then [locales[0][..i]] else []) + Roots(locales[1..])
  }

  /** `getLocale({ resourcePath, rootContext }, locales)` */
  function GetLocale(resourcePath: string, rootContext: string, locales: seq<string>): (r: string)
    requires |locales| > 0
  {
    if |locales| == 1 then locales[0]
    else
      var parts := PathParts(resourcePath, rootContext);
      match FirstIn(parts, locales)
      case Some(part) => part
      case None =>
        var roots := Roots(locales);
        if |roots| > 0 then
          match FirstIn(parts, roots)
          case Some(part) => part
          case None => locales[0]
        else locales[0]
  }

  /** `root` is a non-empty, dash-free prefix of `lc` that `lc` continues with a `-`. */
  predicate IsRootOf(root: string, lc: string)
  {
    0 < |root| < |lc| && lc[..|root|] == root && lc[|root|] == '-' && '-' !in root
  }

  /** Every root is the root of some locale. */
  lemma {:induction false} RootsAreLocalePrefixes(locales: seq<string>)
    ensures forall root :: root in Roots(locales) ==> exists k :: 0 <= k < |locales| && IsRootOf(root, locales[k])
  {
    if locales != [] {
      RootsAreLocalePrefixes(locales[1..]);
      var i := IndexOfDash(locales[0]);
      forall root | root in Roots(locales)
        ensures exists k :: 0 <= k < |locales| && IsRootOf(root, locales[k])
      {
        if i > 0 && root == locales[0][..i] {
          assert IsRootOf(root, locales[0]);
        } else {
          assert root in Roots(locales[1..]);
          var k :| 0 <= k < |locales[1..]| && IsRootOf(root, locales[1..][k]);
          assert locales[k + 1] == locales[1..][k];
        }
      }
    }
  }

  /** Every locale with a `-` after its first character contributes its root. */
  lemma {:induction false} RootsComplete(locales: seq<string>, k: nat)
    requires k < |locales| && IndexOfDash(locales[k]) > 0
    ensures locales[k][..IndexOfDash(locales[k])] in Roots(locales)
  {
    if k > 0 {
      RootsComplete(locales[1..], k - 1);
      assert locales[1..][k - 1] == locales[k];
    }
  }

  /** `getLocale` picks a locale or a root of one, and only a part of the path. */
  lemma GetLocaleCandidates(resourcePath: string, rootContext: string, locales: seq<string>)
    requires |locales| > 0
    ensures var r := GetLocale(resourcePath, rootContext, locales);
      r in locales || r in Roots(locales)
    ensures var r := GetLocale(resourcePath, rootContext, locales);
      |locales| > 1 && r != locales[0] ==> r in PathParts(resourcePath, rootContext)
  {
  }

  /** With a single locale the path is not looked at. */
  lemma SingleLocale(resourcePath: string, rootContext: string, lc: string)
    ensures GetLocale(resourcePath, rootContext, [lc]) == lc
  {
  }

  /** `parts[i]` is `p`, and no later part is a candidate. */
  predicate LastMatchAt(parts: seq<string>, i: int, p: string, candidates: seq<string>)
  {
    0 <= i < |parts| && parts[i] == p && forall j :: i < j < |parts| ==> parts[j] !in candidates
  }

  /** The first match of a reversed list is the last match of the list. */
  lemma {:induction false} FirstInReverse(parts: seq<string>, candidates: seq<string>) returns (i: int)
    requires FirstIn(Reverse(parts), candidates).Some?
    ensures LastMatchAt(parts, i, FirstIn(Reverse(parts), candidates).value, candidates)
  {
    var rev := Reverse(parts);
    var n := FirstMatchIndex(rev, candidates);
    i := |parts| - 1 - n;
    forall j | i < j < |parts|
      ensures parts[j] !in candidates
    {
      assert rev[|parts| - 1 - j] == parts[j];
    }
    assert LastMatchAt(parts, i, rev[n], candidates);
  }

  /** Where `FirstIn` found its match. */
  lemma {:induction false} FirstMatchIndex(parts: seq<string>, candidates: seq<string>) returns (n: nat)
    requires FirstIn(parts, candidates).Some?
    ensures n < |parts| && parts[n] == FirstIn(parts, candidates).value
    ensures forall j :: 0 <= j < n ==> parts[j] !in candidates
  {
    if parts[0] in candidates {
      n := 0;
    } else {
      var m := FirstMatchIndex(parts[1..], candidates);
      n := m + 1;
    }
  }

  /**
   * A full locale in the path wins over any root, and among full locales the
   * one nearest the end of the path wins.
   */
  lemma LastFullLocaleWins(resourcePath: string, rootContext: string, locales: seq<string>, part: string)
    requires |locales| > 1
    requires part in locales && part in PathParts(resourcePath, rootContext)
    ensures GetLocale(resourcePath, rootContext, locales) in locales
    ensures exists i :: LastMatchAt(PathPieces(resourcePath, rootContext), i, GetLocale(resourcePath, rootContext, locales), locales)
  {
    var kept := PathPieces(resourcePath, rootContext);
    var parts := PathParts(resourcePath, rootContext);
    var k :| 0 <= k < |parts| && parts[k] == part;
    assert FirstIn(parts, locales).Some?;
    assert GetLocale(resourcePath, rootContext, locales) == FirstIn(parts, locales).value;
    var i := FirstInReverse(kept, locales);
    assert LastMatchAt(kept, i, GetLocale(resourcePath, rootContext, locales), locales);
  }

  /**
   * With no full locale in the path but some root in it, a root is the
   * answer, and among roots the one nearest the end of the path wins.
   */
  lemma RootWhenNoFullLocale(resourcePath: string, rootContext: string, locales: seq<string>, part: string)
    requires |locales| > 1
    requires forall p :: p in PathParts(resourcePath, rootContext) ==> p !in locales
    requires part in Roots(locales) && part in PathParts(resourcePath, rootContext)
    ensures GetLocale(resourcePath, rootContext, locales) in Roots(locales)
    ensures exists i :: LastMatchAt(PathPieces(resourcePath, rootContext), i, GetLocale(resourcePath, rootContext, locales), Roots(locales))
  {
    var kept := PathPieces(resourcePath, rootContext);
    var parts := PathParts(resourcePath, rootContext);
    var roots := Roots(locales);
    assert FirstIn(parts, locales).None?;
    assert FirstIn(parts, roots).Some?;
    assert GetLocale(resourcePath, rootContext, locales) == FirstIn(parts, roots).value;
    var i := FirstInReverse(kept, roots);
    assert LastMatchAt(kept, i, GetLocale(resourcePath, rootContext, locales), roots);
  }

  /** With no locale and no root in the path, the first locale is the answer. */
  lemma FallbackToFirst(resourcePath: string, rootContext: string, locales: seq<string>)
    requires |locales| > 0
    requires forall p :: p in PathParts(resourcePath, rootContext) ==> p !in locales && p !in Roots(locales)
    ensures GetLocale(resourcePath, rootContext, locales) == locales[0]
  {
  }

  /** A root such as `en` is found even though only `en-US` is configured. */
  lemma RootExample()
    ensures GetLocale("/app/en.ftl", "/app", ["en-US", "fr"]) == "en"
    ensures "en" !in ["en-US", "fr"]
  {
    ExampleParts();
    ExampleRoots();
    ExampleNoFullMatch();
    ExampleRootMatch();
  }

  lemma ExampleParts()
    ensures PathParts("/app/en.ftl", "/app") == ["ftl", "en"]
  {
    ExamplePieces();
    assert Reverse(["en", "ftl"]) == ["ftl", "en"];
  }

  lemma ExampleNoFullMatch()
    ensures FirstIn(["ftl", "en"], ["en-US", "fr"]) == None
  {
    assert "ftl" !in ["en-US", "fr"] && "en" !in ["en-US", "fr"];
  }

  lemma ExampleRootMatch()
    ensures FirstIn(["ftl", "en"], ["en"]) == Some("en")
  {
    assert "ftl" !in ["en"];
    assert ["ftl", "en"][1..] == ["en"];
  }

  lemma ExamplePieces()
    ensures PathPieces("/app/en.ftl", "/app") == ["en", "ftl"]
  {
    ExampleRemoveRoot();
    ExampleSplit();
    assert NonEmpty(["", "en", "ftl"]) == ["en", "ftl"];
  }

  lemma ExampleRemoveRoot()
    ensures RemoveFirst("/app/en.ftl", "/app") == "/en.ftl"
  {
    assert "/app/en.ftl"[..4] == "/app";
    assert "/app/en.ftl"[4..] == "/en.ftl";
  }

  lemma ExampleSplit()
    ensures SplitPath("/en.ftl") == ["", "en", "ftl"]
  {
    ExampleSplitName();
    SplitPathAfter("", '/', "en.ftl");
    assert "" + ['/'] + "en.ftl" == "/en.ftl";
  }

  lemma ExampleSplitName()
    ensures SplitPath("en.ftl") == ["en", "ftl"]
  {
    SplitPathWord("ftl");
    SplitPathAfter("en", '.', "ftl");
    assert "en" + ['.'] + "ftl" == "en.ftl";
  }

  lemma ExampleRoots()
    ensures Roots(["en-US", "fr"]) == ["en"]
  {
    assert IndexOfDash("en-US") == 2;
    assert IndexOfDash("fr") == -1;
    assert "en-US"[..2] == "en";
  }
}
