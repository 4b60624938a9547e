/**
 * `fileBase` (page/base.go): the last element of a file path without its
 * extension, for both `/` and `\` separated paths.
 */
module PageBase {
  import opened Strings

  /** The trailing characters `fileBase` strips: `/` and the apostrophe. */
  predicate Trailing(c: char)
  {
    c == '/' || c == '\''
  }

  /** `s` without its trailing run of `/` and `'` characters. */
  function TrimEnd(s: string): (t: string)
    ensures |t| <= |s| && t == s[..|t|]
    ensures |t| == 0 || !Trailing(t[|t| - 1])
    ensures forall k | |t| <= k < |s| :: Trailing(s[k])
  {
    if |s| > 0 && Trailing(s[|s| - 1]) then TrimEnd(s[..|s| - 1]) else s
  }

  /** The part of `s` after its last `c` (all of `s` when there is none). */
  function AfterLast(s: string, c: char): (t: string)
    ensures c !in t
    ensures |t| <= |s| && t == s[|s| - |t|..]
  {
    var i := LastIndex(s, c);
    if i >= 0 then s[i + 1..] else s
  }

  /** The part of `s` before its first `c` (all of `s` when there is none). */
  function BeforeFirst(s: string, c: char): (t: string)
    ensures c !in t
    ensures |t| <= |s| && t == s[..|t|]
  {
    var i := IndexByte(s, c);
    if i >= 0 then s[..i] else s
  }

  /** What `fileBase` computes, step by step as the Go function does it. */
  function Base(path: string): string
  {
    if path == "" then ""
    else
      var last := AfterLast(AfterLast(TrimEnd(path), '/'), '\\');
      if last == "" then "" else BeforeFirst(last, '.')
  }

  /** `fileBase`: trims the trailing separators in a loop, then keeps what follows the last `/` and the last `\`, then cuts at the first `.`. */
  method FileBase(path: string) returns (base: string)
    ensures base == Base(path)
  {
    if path == "" {
      return "";
    }
    var p := path;
    while |p| > 0 && (p[|p| - 1] == '/' || p[|p| - 1] == '\'')
      invariant TrimEnd(p) == TrimEnd(path)
    {
      p := p[0..|p| - 1];
    }
    p := AfterLast(p, '/');
    p := AfterLast(p, '\\');
    if p == "" {
      return "";
    }
    return BeforeFirst(p, '.');
  }

  /** A character absent from `s` is absent from every slice of `s`. */
  lemma NotInSlice(s: string, c: char, i: int, j: int)
    requires 0 <= i <= j <= |s| && c !in s
    ensures c !in s[i..j]
  {
  }

  /** The base holds no `/`, no `\` and no `.`. */
  lemma BaseHasNoSeparators(path: string)
    ensures '/' !in Base(path) && '\\' !in Base(path) && '.' !in Base(path)
  {
    if path != "" {
      var t := AfterLast(TrimEnd(path), '/');
      var last := AfterLast(t, '\\');
      NotInSlice(t, '/', |t| - |last|, |t|);
      assert '/' !in last;
      if last != "" {
        var b := BeforeFirst(last, '.');
        NotInSlice(last, '/', 0, |b|);
        NotInSlice(last, '\\', 0, |b|);
      }
    }
  }

  /** A trailing `/` or `'` does not change the base. */
  lemma TrailingIgnored(path: string, c: char)
    requires Trailing(c)
    ensures Base(path + [c]) == Base(path)
  {
    var q := path + [c];
    assert q[..|q| - 1] == path;
    if path == "" {
      assert TrimEnd(q) == "";
    }
  }

  /** A path made only of slashes has the empty base. */
  lemma {:induction false} OnlySlashesBase(path: string)
    requires forall k | 0 <= k < |path| :: path[k] == '/'
    ensures Base(path) == ""
  {
    if path != "" {
      assert |TrimEnd(path)| == 0;
    }
  }

  /** `BeforeFirst` keeps everything when `c` is absent and stops just short of the first `c` otherwise. */
  lemma BeforeFirstCut(s: string, c: char)
    ensures s == BeforeFirst(s, c) + s[|BeforeFirst(s, c)|..]
    ensures c in s <==> |BeforeFirst(s, c)| < |s|
    ensures c in s ==> s[|BeforeFirst(s, c)|] == c
  {
    var t := BeforeFirst(s, c);
    if c in s {
      assert IndexByte(s, c) == |t|;
    }
  }

  /** The extension is cut at the first `.` of the last element. */
  lemma ExtensionCutAtFirstDot(path: string)
    requires path != ""
    ensures var last := AfterLast(AfterLast(TrimEnd(path), '/'), '\\');
      last != "" ==> last == Base(path) + last[|Base(path)|..] && ('.' in last <==> |Base(path)| < |last|)
  {
    var last := AfterLast(AfterLast(TrimEnd(path), '/'), '\\');
    if last != "" {
      assert Base(path) == BeforeFirst(last, '.');
      BeforeFirstCut(last, '.');
    }
  }

  /** `AfterLast` when `c` does not occur. */
  lemma AfterLastAbsent(s: string, c: char)
    requires c !in s
    ensures AfterLast(s, c) == s
  {
  }

  /** `AfterLast` when the last `c` is at index `i`. */
  lemma AfterLastAt(s: string, c: char, i: nat)
    requires i < |s| && s[i] == c && c !in s[i + 1..]
    ensures AfterLast(s, c) == s[i + 1..]
  {
  }

  /** `BeforeFirst` when the first `c` is at index `i`. */
  lemma BeforeFirstAt(s: string, c: char, i: nat)
    requires i < |s| && s[i] == c && c !in s[..i]
    ensures BeforeFirst(s, c) == s[..i]
  {
  }

  /** The stem of `stem.ext` is `stem` when the stem holds no `.`. */
  lemma BeforeFirstDot(stem: string, ext: string)
    requires '.' !in stem
    ensures BeforeFirst(stem + "." + ext, '.') == stem
  {
    var name := stem + "." + ext;
    assert name[|stem|] == '.' && name[..|stem|] == stem;
    BeforeFirstAt(name, '.', |stem|);
  }

  /** The last element of `dir + "/" + name` is `name`. */
  lemma LastElementSlash(dir: string, name: string)
    requires '/' !in name && '\\' !in name
    ensures AfterLast(AfterLast(dir + ['/'] + name, '/'), '\\') == name
  {
    var p := dir + ['/'] + name;
    assert p[|dir|] == '/' && p[|dir| + 1..] == name;
    AfterLastAt(p, '/', |dir|);
    AfterLastAbsent(name, '\\');
  }

  /** The last element of `dir + "\\" + name` is `name` when `dir` holds no `/`. */
  lemma LastElementBackslash(dir: string, name: string)
    requires '/' !in dir && '/' !in name && '\\' !in name
    ensures AfterLast(AfterLast(dir + ['\\'] + name, '/'), '\\') == name
  {
    var p := dir + ['\\'] + name;
    assert '/' !in dir + ['\\'];
    AfterLastAbsent(p, '/');
    assert p[|dir|] == '\\' && p[|dir| + 1..] == name;
    AfterLastAt(p, '\\', |dir|);
  }

  /** A path with no trailing separator whose last element is `name` has `name` up to its first `.` as base. */
  lemma BaseOfLastElement(p: string, name: string)
    requires p != "" && !Trailing(p[|p| - 1])
    requires name != "" && AfterLast(AfterLast(p, '/'), '\\') == name
    ensures Base(p) == BeforeFirst(name, '.')
  {
    assert TrimEnd(p) == p;
  }

  /** The base of `dir` joined with `name` by a separator is `name` up to its first `.`. */
  lemma BaseOfJoin(dir: string, sep: char, name: string)
    requires sep == '/' || sep == '\\'
    requires sep == '\\' ==> '/' !in dir
    requires name != "" && '/' !in name && '\\' !in name && !Trailing(name[|name| - 1])
    ensures Base(dir + [sep] + name) == BeforeFirst(name, '.')
  {
    var p := dir + [sep] + name;
    if sep == '/' {
      LastElementSlash(dir, name);
    } else {
      LastElementBackslash(dir, name);
    }
    assert p[|p| - 1] == name[|name| - 1];
    BaseOfLastElement(p, name);
  }

  /** The base of a file `stem.ext` under `dir` is its stem. */
  lemma BaseOfFile(dir: string, sep: char, stem: string, ext: string)
    requires sep == '/' || sep == '\\'
    requires sep == '\\' ==> '/' !in dir
    requires '/' !in stem && '\\' !in stem && '.' !in stem
    requires ext != "" && '/' !in ext && '\\' !in ext && !Trailing(ext[|ext| - 1])
    ensures Base(dir + [sep] + (stem + "." + ext)) == stem
  {
    var name := stem + "." + ext;
    assert name[|name| - 1] == ext[|ext| - 1];
    BaseOfJoin(dir, sep, name);
    BeforeFirstDot(stem, ext);
  }
}
