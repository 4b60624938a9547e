/** The few functions of Go's `strings` package that the server relies on. */
module Strings {

  /** `strings.IndexByte`: the index of the first `c` in `s`, or -1. */
  function IndexByte(s: string, c: char): (i: int)
    ensures -1 <= i < |s|
    ensures i == -1 <==> c !in s
    ensures 0 <= i ==> s[i] == c && c !in s[..i]
  {
    if |s| == 0 then -1
    else if s[0] == c then 0
    else
      var j := IndexByte(s[1..], c);
      IndexAfterHead(s, c, j);
      if j == -1 then -1 else j + 1
  }

  /** A first `c` found at `j` in the tail of `s` is at `j + 1` in `s`, when the head is not `c`. */
  lemma IndexAfterHead(s: string, c: char, j: int)
    requires |s| > 0 && s[0] != c
    requires -1 <= j < |s| - 1
    requires j == -1 <==> c !in s[1..]
    requires 0 <= j ==> s[1..][j] == c && c !in s[1..][..j]
    ensures j == -1 <==> c !in s
    ensures 0 <= j ==> s[j + 1] == c && c !in s[..j + 1]
  {
    assert s == [s[0]] + s[1..];
    if j >= 0 {
      assert s[..j + 1] == [s[0]] + s[1..][..j];
    }
  }

  /** `strings.LastIndex` with a one-character separator: the index of the last `c` in `s`, or -1. */
  function LastIndex(s: string, c: char): (i: int)
    ensures -1 <= i < |s|
    ensures i == -1 <==> c !in s
    ensures 0 <= i ==> s[i] == c && c !in s[i + 1..]
  {
    if |s| == 0 then -1
    else if s[|s| - 1] == c then |s| - 1
    else
      var j := LastIndex(s[..|s| - 1], c);
      LastIndexBeforeEnd(s, c, j);
      j
  }

  /** A last `c` found at `j` in `s` without its final character is the last `c` of `s`, when that character is not `c`. */
  lemma LastIndexBeforeEnd(s: string, c: char, j: int)
    requires |s| > 0 && s[|s| - 1] != c
    requires -1 <= j < |s| - 1
    requires j == -1 <==> c !in s[..|s| - 1]
    requires 0 <= j ==> s[j] == c && c !in s[..|s| - 1][j + 1..]
    ensures j == -1 <==> c !in s
    ensures 0 <= j ==> s[j] == c && c !in s[j + 1..]
  {
    var init := s[..|s| - 1];
    if c in s {
      var k :| 0 <= k < |s| && s[k] == c;
      assert init[k] == c;
    }
  }

  /** Joins the parts with the separator between them (the inverse of `Split`). */
  function Join(parts: seq<string>, sep: char): string
    requires |parts| >= 1
  {
    if |parts| == 1 then parts[0] else parts[0] + [sep] + Join(parts[1..], sep)
  }

  /** `strings.Split` with a one-character separator. */
  function Split(s: string, sep: char): (parts: seq<string>)
    ensures |parts| >= 1
    ensures forall k | 0 <= k < |parts| :: sep !in parts[k]
    ensures Join(parts, sep) == s
    decreases |s|
  {
    var i := IndexByte(s, sep);
    if i == -1 then [s]
    else
      var rest := Split(s[i + 1..], sep);
      SplitAtFirst(s, i, sep, rest);
      [s[..i]] + rest
  }

  /** The part before the first separator followed by the parts of what comes after it. */
  lemma SplitAtFirst(s: string, i: int, sep: char, rest: seq<string>)
    requires 0 <= i < |s| && s[i] == sep && sep !in s[..i]
    requires |rest| >= 1 && Join(rest, sep) == s[i + 1..]
    requires forall k | 0 <= k < |rest| :: sep !in rest[k]
    ensures var parts := [s[..i]] + rest;
      && Join(parts, sep) == s
      && forall k | 0 <= k < |parts| :: sep !in parts[k]
  {
    var parts := [s[..i]] + rest;
    assert parts[1..] == rest;
    assert s == s[..i] + [sep] + s[i + 1..];
    forall k | 0 <= k < |parts|
      ensures sep !in parts[k]
    {
      if k > 0 {
        assert parts[k] == rest[k - 1];
      }
    }
  }
}
