/**
 * The string operations of the .NET base library that the core relies on.
 * Culture-sensitive comparisons are modelled by ASCII case folding and by
 * ordinal (code point) order.
 */
module Text {
  import opened Wrappers

  /** `s.StartsWith(prefix)`. */
  predicate StartsWith(s: string, prefix: string)
  {
    |prefix| <= |s| && s[..|prefix|] == prefix
  }

  /** ASCII lower-casing of one character; every other character is left alone. */
  function Lower(c: char): (r: char)
    ensures 'A' <= c <= 'Z' ==> r as int == c as int + 32
    ensures !('A' <= c <= 'Z') ==> r == c
  {
    if 'A' <= c <= 'Z' then (c as int + 32) as char else c
  }

  function FoldCase(s: string): (r: string)
    ensures |r| == |s|
    ensures forall i :: 0 <= i < |s| ==> r[i] == Lower(s[i])
  {
    seq(|s|, i requires 0 <= i < |s| => Lower(s[i]))
  }

  /** `string.Equals(a, b, StringComparison.CurrentCultureIgnoreCase)` on non-null strings. */
  predicate EqualsIgnoreCase(a: string, b: string)
  {
    FoldCase(a) == FoldCase(b)
  }

  /** `s.EndsWith(suffix, StringComparison.CurrentCultureIgnoreCase)`. */
  predicate EndsWithIgnoreCase(s: string, suffix: string)
  {
    |suffix| <= |s| && EqualsIgnoreCase(s[|s| - |suffix|..], suffix)
  }

  /** The characters `char.IsWhiteSpace` accepts. */
  predicate IsWhiteSpace(c: char)
  {
    || c == ' ' || '\t' <= c <= '\r' || c == '\U{0085}' || c == '\U{00A0}'
    || c == '\U{1680}' || '\U{2000}' <= c <= '\U{200A}' || c == '\U{2028}' || c == '\U{2029}'
    || c == '\U{202F}' || c == '\U{205F}' || c == '\U{3000}'
  }

  /** `string.IsNullOrWhiteSpace(s)`. */
  predicate IsNullOrWhiteSpace(s: Option<string>)
  {
    s.None? || forall i :: 0 <= i < |s.value| ==> IsWhiteSpace(s.value[i])
  }

  /** `string.IsNullOrEmpty(s)`. */
  predicate IsNullOrEmpty(s: Option<string>)
  {
    s.None? || s.value == ""
  }

  /** `s.IndexOf(c)` with ordinal comparison; `None` stands for -1. */
  function IndexOf(s: string, c: char): (r: Option<nat>)
    ensures r.Some? ==> r.value < |s| && s[r.value] == c && c !in s[..r.value]
    ensures r.None? <==> c !in s
  {
    if s == [] then None
    else if s[0] == c then Some(0)
    else match IndexOf(s[1..], c)
      case None => None
      case Some(i) => assert s[1..][..i] == s[1..i + 1]; Some(i + 1)
  }

  /** `s.LastIndexOfAny(cs)`; `None` stands for -1. */
  function LastIndexOfAny(s: string, cs: set<char>): (r: Option<nat>)
    ensures r.Some? ==> r.value < |s| && s[r.value] in cs
                        && forall j :: r.value < j < |s| ==> s[j] !in cs
    ensures r.None? <==> forall j :: 0 <= j < |s| ==> s[j] !in cs
  {
    if s == [] then None
    else if s[|s| - 1] in cs then Some(|s| - 1)
    else LastIndexOfAny(s[..|s| - 1], cs)
  }

  /** The separators `System.IO.Path.GetFileName` looks for on Windows. */
  const PathSeparators: set<char> := {'\\', '/', ':'}

  /**
   * `System.IO.Path.GetFileNameWithoutExtension(path)` on a non-null path: the part
   * `path[k..]` after the last separator (all of it when there is none), cut at its
   * last '.' (kept whole when it has none).
   */
  function FileNameWithoutExtension(path: string): (r: string)
    ensures forall j :: 0 <= j < |r| ==> r[j] !in PathSeparators
    ensures exists k, m :: 0 <= k <= m <= |path| && r == path[k..m] && FileNameCut(path, k, m)
  {
    var k := NameStart(path);
    var m := ExtensionStart(path, k);
    assert FileNameCut(path, k, m);
    path[k..m]
  }

  /** Where the file name starts: just after the last separator, or 0 when there is none. */
  function NameStart(path: string): (k: nat)
    ensures k <= |path| && (k == 0 || path[k - 1] in PathSeparators)
    ensures forall j :: k <= j < |path| ==> path[j] !in PathSeparators
  {
    match LastIndexOfAny(path, PathSeparators)
    case None => 0
    case Some(i) => i + 1
  }

  /** Where the extension of `path[k..]` starts: its last '.', or the end when there is none. */
  function ExtensionStart(path: string, k: nat): (m: nat)
    requires k <= |path|
    ensures k <= m <= |path|
    ensures (m == |path| && forall j :: k <= j < |path| ==> path[j] != '.')
            || (m < |path| && path[m] == '.' && forall j :: m < j < |path| ==> path[j] != '.')
  {
    var name := path[k..];
    match LastIndexOfAny(name, {'.'})
    case None =>
      assert forall j :: k <= j < |path| ==> path[j] == name[j - k];
      |path|
    case Some(i) =>
      assert forall j :: k + i <= j < |path| ==> path[j] == name[j - k];
      k + i
  }

  /**
   * `path[k..m]` is the file name without extension: `k` follows the last separator
   * (or is 0 when there is none) and `m` is the last '.' after `k` (or the end when
   * there is none).
   */
  predicate FileNameCut(path: string, k: nat, m: nat)
    requires k <= m <= |path|
  {
    && (k == 0 || path[k - 1] in PathSeparators)
    && (forall j :: k <= j < |path| ==> path[j] !in PathSeparators)
    && ((m == |path| && forall j :: k <= j < |path| ==> path[j] != '.')
        || (m < |path| && path[m] == '.' && forall j :: m < j < |path| ==> path[j] != '.'))
  }

  /** A plain file name (no separator, no dot) followed by an extension comes back unchanged. */
  lemma StripExtension(name: string, ext: string)
    requires forall j :: 0 <= j < |name| ==> name[j] !in PathSeparators && name[j] != '.'
    requires forall j :: 0 <= j < |ext| ==> ext[j] !in PathSeparators && ext[j] != '.'
    ensures FileNameWithoutExtension(name + "." + ext) == name
    ensures FileNameWithoutExtension(name) == name
  {
    var path := name + "." + ext;
    assert forall j :: 0 <= j < |path| ==> path[j] !in PathSeparators by {
      forall j | 0 <= j < |path| ensures path[j] !in PathSeparators {
        if j < |name| { assert path[j] == name[j]; }
        else if j > |name| { assert path[j] == ext[j - |name| - 1]; }
      }
    }
    assert path[..|name|] == name;
    assert path[|name|] == '.';
    forall j | |name| < j < |path| ensures path[j] != '.' {
      assert path[j] == ext[j - |name| - 1];
    }
  }

  /** The cut `FileNameCut` describes is unique, so the ensures of `FileNameWithoutExtension` fix its result. */
  lemma FileNameCutUnique(path: string, k: nat, m: nat, k': nat, m': nat)
    requires k <= m <= |path| && FileNameCut(path, k, m)
    requires k' <= m' <= |path| && FileNameCut(path, k', m')
    ensures k == k' && m == m'
  {
  }

  /**
   * A file name after a directory part: whatever `dir` holds, the result is the
   * name after the separator `sep`, without its extension.
   */
  lemma PathFileName(dir: string, sep: char, name: string, ext: string)
    requires sep in PathSeparators
    requires forall j :: 0 <= j < |name| ==> name[j] !in PathSeparators && name[j] != '.'
    requires forall j :: 0 <= j < |ext| ==> ext[j] !in PathSeparators && ext[j] != '.'
    ensures FileNameWithoutExtension(dir + [sep] + name + "." + ext) == name
  {
    var path := dir + [sep] + name + "." + ext;
    var k, m := |dir| + 1, |dir| + 1 + |name|;
    assert path[k - 1] == sep;
    forall j | k <= j < |path| ensures path[j] !in PathSeparators {
      if j < m { assert path[j] == name[j - k]; }
      else if j > m { assert path[j] == ext[j - m - 1]; }
    }
    forall j | m < j < |path| ensures path[j] != '.' {
      assert path[j] == ext[j - m - 1];
    }
    assert path[m] == '.';
    assert path[k..m] == name;
    var r := FileNameWithoutExtension(path);
    var k', m' :| 0 <= k' <= m' <= |path| && r == path[k'..m'] && FileNameCut(path, k', m');
    FileNameCutUnique(path, k, m, k', m');
  }

  /** Ordinal order on strings: lexicographic on character codes. */
  predicate LessEq(a: string, b: string)
  {
    a == [] || (b != [] && (a[0] < b[0] || (a[0] == b[0] && LessEq(a[1..], b[1..]))))
  }

  lemma {:induction false} LessEqTotal(a: string, b: string)
    ensures LessEq(a, b) || LessEq(b, a)
  {
    if a != [] && b != [] && a[0] == b[0] {
      LessEqTotal(a[1..], b[1..]);
    }
  }

  lemma {:induction false} LessEqTransitive(a: string, b: string, c: string)
    requires LessEq(a, b) && LessEq(b, c)
    ensures LessEq(a, c)
  {
    if a != [] && b != [] && c != [] && a[0] == b[0] && b[0] == c[0] {
      LessEqTransitive(a[1..], b[1..], c[1..]);
    }
  }

  lemma {:induction false} LessEqAntisymmetric(a: string, b: string)
    requires LessEq(a, b) && LessEq(b, a)
    ensures a == b
  {
    if a != [] && b != [] {
      LessEqAntisymmetric(a[1..], b[1..]);
      assert a == [a[0]] + a[1..] && b == [b[0]] + b[1..];
    }
  }
}
