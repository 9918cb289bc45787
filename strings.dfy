/**
 The string operations of Foundation that the line classifier relies on:
 splitting on newline characters, trimming whitespace, prefix and substring
 tests. Text is a sequence of characters.
 */
module Strings {

  /** A member of Foundation's `CharacterSet.newlines`: U+000A to U+000D, U+0085, U+2028, U+2029. */
  predicate IsNewline(c: char) {
    '\n' <= c <= '\r' || c == '\U{85}' || c == '\U{2028}' || c == '\U{2029}'
  }

  /**
   A member of Foundation's `CharacterSet.whitespacesAndNewlines`: the tab, the
   newlines above and the space separators of Unicode category Zs.
   */
  predicate IsWs(c: char) {
    || c == '\t' || IsNewline(c)
    || c == ' ' || c == '\U{a0}' || c == '\U{1680}'
    || '\U{2000}' <= c <= '\U{200a}' || c == '\U{202f}' || c == '\U{205f}' || c == '\U{3000}'
  }

  lemma NewlineIsWs(c: char)
    requires IsNewline(c)
    ensures IsWs(c)
  {
  }

  /** Number of newline characters in `s`. */
  function NewlineCount(s: string): nat {
    if s == [] then 0 else (if IsNewline(s[0]) then 1 else 0) + NewlineCount(s[1..])
  }

  predicate NoNewline(s: string) {
    forall k :: 0 <= k < |s| ==> !IsNewline(s[k])
  }

  lemma NoNewlineAppend(a: string, b: string)
    requires NoNewline(a) && NoNewline(b)
    ensures NoNewline(a + b)
  {
  }

  /**
   `components(separatedBy: .newlines)`: the pieces of `s` between newline
   characters, one more piece than there are newline characters.
   */
  function Split(s: string): (r: seq<string>)
    ensures |r| == NewlineCount(s) + 1
    ensures forall i :: 0 <= i < |r| ==> NoNewline(r[i])
    decreases |s|
  {
    if s == [] then [[]]
    else
      var rest := Split(s[1..]);
      if IsNewline(s[0]) then [[]] + rest
      else [[s[0]] + rest[0]] + rest[1..]
  }

  /** The pieces joined back with a line feed between consecutive ones. */
  function JoinLines(lines: seq<string>): string
    requires lines != []
  {
    if |lines| == 1 then lines[0] else lines[0] + "\n" + JoinLines(lines[1..])
  }

  /** Splitting at one newline character splits the text into the pieces on either side. */
  lemma {:induction false} SplitAtNewline(a: string, c: char, b: string)
    requires IsNewline(c)
    ensures Split(a + [c] + b) == Split(a) + Split(b)
    decreases |a|
  {
    if a == [] {
      assert (a + [c] + b)[1..] == b;
    } else {
      assert (a + [c] + b)[1..] == a[1..] + [c] + b;
      SplitAtNewline(a[1..], c, b);
    }
  }

  /** A text without newline characters is a single piece. */
  lemma {:induction false} SplitNoNewline(s: string)
    requires NoNewline(s)
    ensures Split(s) == [s]
    decreases |s|
  {
    if s != [] {
      SplitNoNewline(s[1..]);
      assert [s[0]] + s[1..] == s;
    }
  }

  /** Joining newline-free lines and splitting the result gives the lines back. */
  lemma {:induction false} SplitJoinLines(lines: seq<string>)
    requires lines != []
    requires forall i :: 0 <= i < |lines| ==> NoNewline(lines[i])
    ensures Split(JoinLines(lines)) == lines
    decreases |lines|
  {
    SplitNoNewline(lines[0]);
    if |lines| > 1 {
      SplitJoinLines(lines[1..]);
      SplitAtNewline(lines[0], '\n', JoinLines(lines[1..]));
      assert lines[0] + "\n" + JoinLines(lines[1..]) == lines[0] + ['\n'] + JoinLines(lines[1..]);
    }
  }

  /** When every newline character is a line feed, joining the pieces gives the text back. */
  lemma {:induction false} JoinSplit(s: string)
    requires forall k :: 0 <= k < |s| && IsNewline(s[k]) ==> s[k] == '\n'
    ensures JoinLines(Split(s)) == s
    decreases |s|
  {
    if s != [] {
      var rest := Split(s[1..]);
      JoinSplit(s[1..]);
      if IsNewline(s[0]) {
        assert Split(s) == [[]] + rest;
        JoinLinesAfterEmpty(rest);
      } else {
        assert Split(s) == [[s[0]] + rest[0]] + rest[1..];
        JoinLinesPrepend(s[0], rest);
      }
      assert s == [s[0]] + s[1..];
    }
  }

  /** An empty first piece contributes only the line feed after it. */
  lemma JoinLinesAfterEmpty(lines: seq<string>)
    requires lines != []
    ensures JoinLines([[]] + lines) == "\n" + JoinLines(lines)
  {
    assert ([[]] + lines)[1..] == lines;
  }

  /** A character put in front of the first piece comes first in the joined text. */
  lemma JoinLinesPrepend(c: char, lines: seq<string>)
    requires lines != []
    ensures JoinLines([[c] + lines[0]] + lines[1..]) == [c] + JoinLines(lines)
  {
    var front := [[c] + lines[0]] + lines[1..];
    assert front[1..] == lines[1..];
  }

  /** `starts(with:)`. */
  predicate StartsWith(s: string, prefix: string) {
    |prefix| <= |s| && s[..|prefix|] == prefix
  }

  /** `pattern` occurs in `s` starting at index `i`. */
  predicate OccursAt(s: string, pattern: string, i: int) {
    0 <= i <= |s| - |pattern| && s[i..i + |pattern|] == pattern
  }

  /** `contains(_:)` on a string argument: `pattern` occurs somewhere in `s`. */
  predicate Contains(s: string, pattern: string) {
    exists i :: 0 <= i <= |s| - |pattern| && OccursAt(s, pattern, i)
  }

  /** A text without the first character of `pattern` does not contain it. */
  lemma NotContainsWithoutHead(s: string, pattern: string)
    requires pattern != []
    requires forall k :: 0 <= k < |s| ==> s[k] != pattern[0]
    ensures !Contains(s, pattern)
  {
    forall i | 0 <= i <= |s| - |pattern|
      ensures !OccursAt(s, pattern, i)
    {
      assert s[i..i + |pattern|][0] == s[i];
    }
  }

  /** The number of whitespace characters at the start of `s`. */
  function Leading(s: string): (n: nat)
    ensures n <= |s|
    ensures forall k :: 0 <= k < n ==> IsWs(s[k])
    ensures n == |s| || !IsWs(s[n])
    decreases |s|
  {
    if s != [] && IsWs(s[0]) then 1 + Leading(s[1..]) else 0
  }

  /** The length of `s` without its trailing whitespace. */
  function Trailing(s: string): (n: nat)
    ensures n <= |s|
    ensures forall k :: n <= k < |s| ==> IsWs(s[k])
    ensures n == 0 || !IsWs(s[n - 1])
    decreases |s|
  {
    if s != [] && IsWs(s[|s| - 1]) then Trailing(s[..|s| - 1]) else |s|
  }

  /** `r` is `s[i..j]`, and only whitespace lies outside it. */
  predicate StrippedBetween(s: string, r: string, i: int, j: int) {
    && 0 <= i <= j <= |s|
    && r == s[i..j]
    && (forall k :: 0 <= k < i ==> IsWs(s[k]))
    && (forall k :: j <= k < |s| ==> IsWs(s[k]))
  }

  /**
   `trimmingCharacters(in: .whitespacesAndNewlines)`: the text between its
   leading and its trailing whitespace.
   */
  function Trim(s: string): string {
    var i, j := Leading(s), Trailing(s);
    if i < j then s[i..j] else []
  }

  /**
   Trimming removes whitespace only, from both ends, and leaves a text that
   starts and ends with non-whitespace; it leaves nothing exactly when the
   text is all whitespace.
   */
  lemma TrimSpec(s: string)
    ensures Trim(s) != [] ==> StrippedBetween(s, Trim(s), Leading(s), Trailing(s))
    ensures Trim(s) != [] ==> !IsWs(Trim(s)[0]) && !IsWs(Trim(s)[|Trim(s)| - 1])
    ensures Trim(s) == [] <==> forall k :: 0 <= k < |s| ==> IsWs(s[k])
  {
    if Leading(s) < Trailing(s) {
      TrimNonBlank(s);
      TrimEnds(s);
    } else {
      TrimBlank(s);
    }
  }

  lemma TrimNonBlank(s: string)
    requires Leading(s) < Trailing(s)
    ensures StrippedBetween(s, Trim(s), Leading(s), Trailing(s))
  {
  }

  lemma TrimEnds(s: string)
    requires Leading(s) < Trailing(s)
    ensures Trim(s) != [] && !IsWs(Trim(s)[0]) && !IsWs(Trim(s)[|Trim(s)| - 1])
  {
    TrimBounds(s);
    SliceEnds(s, Leading(s), Trailing(s));
  }

  /** Between its leading and trailing whitespace, a text starts and ends with non-whitespace. */
  lemma TrimBounds(s: string)
    requires Leading(s) < Trailing(s)
    ensures Trim(s) == s[Leading(s)..Trailing(s)]
    ensures !IsWs(s[Leading(s)]) && !IsWs(s[Trailing(s) - 1])
  {
  }

  lemma SliceEnds(s: string, i: int, j: int)
    requires 0 <= i < j <= |s| && !IsWs(s[i]) && !IsWs(s[j - 1])
    ensures s[i..j] != [] && !IsWs(s[i..j][0]) && !IsWs(s[i..j][|s[i..j]| - 1])
  {
    assert s[i..j][0] == s[i] && s[i..j][j - i - 1] == s[j - 1];
  }

  lemma TrimBlank(s: string)
    requires Trailing(s) <= Leading(s)
    ensures Trim(s) == []
    ensures forall k :: 0 <= k < |s| ==> IsWs(s[k])
  {
    assert Leading(s) == |s|;
  }

  /**
   Trimming removes exactly the whitespace before index `i` and from index `j`
   on, when `s[i]` and `s[j - 1]` are not whitespace.
   */
  lemma TrimExact(s: string, i: int, j: int)
    requires 0 <= i < j <= |s|
    requires forall k :: 0 <= k < i ==> IsWs(s[k])
    requires forall k :: j <= k < |s| ==> IsWs(s[k])
    requires !IsWs(s[i]) && !IsWs(s[j - 1])
    ensures Trim(s) == s[i..j]
  {
    assert Leading(s) == i;
    assert Trailing(s) == j;
  }

  /**
   When `s[a..b]` starts and ends with non-whitespace and only whitespace comes
   before it, the trimmed text starts with `s[a..b]`.
   */
  lemma TrimKeeps(s: string, a: int, b: int)
    requires 0 <= a < b <= |s|
    requires forall k :: 0 <= k < a ==> IsWs(s[k])
    requires !IsWs(s[a]) && !IsWs(s[b - 1])
    ensures b - a <= |Trim(s)| && Trim(s)[..b - a] == s[a..b]
    ensures forall k :: a <= k < b ==> Trim(s)[k - a] == s[k]
  {
    var i, j := Leading(s), Trailing(s);
    assert i <= a;
    assert i == a by {
      assert i < |s|;
    }
    assert b <= j;
    assert Trim(s) == s[a..j];
    SlicePrefix(s, a, b, j);
  }

  lemma SlicePrefix(s: string, a: int, b: int, j: int)
    requires 0 <= a < b <= j <= |s|
    ensures b - a <= |s[a..j]| && s[a..j][..b - a] == s[a..b]
    ensures forall k :: a <= k < b ==> s[a..j][k - a] == s[k]
  {
  }

  /** Trimming leaves a text that starts and ends with non-whitespace unchanged. */
  lemma TrimUnchanged(s: string)
    requires s != [] && !IsWs(s[0]) && !IsWs(s[|s| - 1])
    ensures Trim(s) == s
  {
    TrimExact(s, 0, |s|);
  }
}
