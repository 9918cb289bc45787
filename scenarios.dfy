/**
 The two texts of the repository's test suite, with the metrics that the
 classifier as written computes for them. The test suite expects other
 numbers (it counts the closing line and the trailing-comment line
 differently); these lemmas state what the classifier itself yields. The words
 of each trailing comment are a parameter: any newline-free text gives the
 same counts.
 */
module Scenarios {
  import opened Strings
  import opened LinesInfo
  import Utils

  /** The first eight lines, common to both test texts. */
  function Prelude(): seq<string> {
    [ "// here is inline comment",
      "/*",
      "and this is",
      "multiline comment",
      "*/",
      "",
      "let a = b",
      "" ]
  }

  /** The first test text, line by line, after the literal's indentation is removed. */
  function FirstLines(note: string): seq<string> {
    Prelude() + ["if a > 5 {", "    print(a) // " + note, "}"]
  }

  /** The second test text, line by line. */
  function SecondLines(note: string): seq<string> {
    Prelude() + ["if a > 5 { print(a) } // " + note]
  }

  /** The first line of the prelude holds no newline. */
  lemma HeadNoNewline()
    ensures NoNewline(Prelude()[0])
  {
  }

  /** No line of the prelude holds a newline. */
  lemma PreludeNoNewline(i: nat)
    requires i < 8
    ensures NoNewline(Prelude()[i])
  {
    var p := Prelude();
    if i == 0 { HeadNoNewline(); }
    else if i == 2 { assert NoNewline(p[2]); }
    else if i == 3 { assert NoNewline(p[3]); }
    else if i == 6 { assert NoNewline(p[6]); }
  }

  /** The lines of the prelude are already trimmed. */
  lemma PreludeTrimmed(i: nat)
    requires i < 8
    ensures Trim(Prelude()[i]) == Prelude()[i]
  {
    var p := Prelude();
    if i == 0 { TrimUnchanged(p[0]); }
    else if i == 1 { TrimUnchanged(p[1]); }
    else if i == 2 { TrimUnchanged(p[2]); }
    else if i == 3 { TrimUnchanged(p[3]); }
    else if i == 4 { TrimUnchanged(p[4]); }
    else if i == 6 { TrimUnchanged(p[6]); }
  }

  /** How the guard chain classifies the lines of the prelude, given the flag each one meets. */
  lemma PreludeKinds()
    ensures var p := Prelude();
      && Kind(p[0], false) == Comment && Kind(p[1], false) == BlockOpen
      && Kind(p[2], true) == Comment && Kind(p[3], true) == Comment
      && Kind(p[4], true) == BlockClose && Kind(p[5], false) == Blank
      && Kind(p[6], false) == Logical && Kind(p[7], false) == Blank
  {
    var p := Prelude();
    assert OccursAt(p[0], "//", 0);
    PlainCode(p[6]);
  }

  /** Scanning the first four lines of the prelude: a block comment is open. */
  lemma PreludeScanOpen(p: seq<string>)
    requires p == Prelude()
    ensures Scan(p[..4]) == ScanState(LinesInformation(0, 4, 0), true)
  {
    PreludeKinds();
    assert Scan(p[..1]) == ScanState(LinesInformation(0, 1, 0), false) by {
      assert p[..1][..0] == [];
    }
    ScanSnoc(p, 1);
    ScanSnoc(p, 2);
    ScanSnoc(p, 3);
  }

  /** Scanning the whole prelude: one logical, four comment and two blank lines, flag clear. */
  lemma PreludeScanClosed(p: seq<string>)
    requires p == Prelude()
    ensures Scan(p) == ScanState(LinesInformation(1, 4, 2), false)
  {
    PreludeScanOpen(p);
    PreludeKinds();
    ScanSnoc(p, 4);
    ScanSnoc(p, 5);
    ScanSnoc(p, 6);
    ScanSnoc(p, 7);
    assert p[..8] == p;
  }

  /** Any lines that start with the prelude reach the same state after it. */
  lemma PreludeScan(lines: seq<string>)
    requires |lines| >= 8
    requires lines[..8] == Prelude()
    ensures Scan(lines[..8]) == ScanState(LinesInformation(1, 4, 2), false)
  {
    PreludeScanClosed(lines[..8]);
  }

  /** The trimmed lines of newline-free lines that start with the prelude start with the prelude. */
  lemma TrimmedPrelude(lines: seq<string>)
    requires |lines| >= 8 && lines[..8] == Prelude()
    requires forall i :: 0 <= i < |lines| ==> NoNewline(lines[i])
    ensures |TrimmedLines(JoinLines(lines))| == |lines|
    ensures TrimmedLines(JoinLines(lines))[..8] == Prelude()
  {
    TrimmedLinesOfJoin(lines);
    var t := TrimmedLines(JoinLines(lines));
    forall i | 0 <= i < 8
      ensures t[i] == Prelude()[i]
    {
      PreludeTrimmed(i);
      assert lines[i] == Prelude()[i];
    }
  }

  /** Line `i` of the trimmed lines of newline-free lines is line `i`, trimmed. */
  lemma TrimmedLineAt(lines: seq<string>, i: nat)
    requires i < |lines|
    requires forall i :: 0 <= i < |lines| ==> NoNewline(lines[i])
    ensures |TrimmedLines(JoinLines(lines))| == |lines|
    ensures TrimmedLines(JoinLines(lines))[i] == Trim(lines[i])
  {
    TrimmedLinesOfJoin(lines);
  }

  /**
   A line of code followed by a `//` comment, once trimmed, keeps its first
   character and the `//`.
   */
  lemma TrimmedCodeWithNote(s: string, a: int, b: int)
    requires 0 <= a && a + 2 <= b <= |s|
    requires forall k :: 0 <= k < a ==> IsWs(s[k])
    requires !IsWs(s[a])
    requires s[b - 2] == '/' && s[b - 1] == '/'
    ensures Trim(s) != [] && Trim(s)[0] == s[a] && OccursAt(Trim(s), "//", b - 2 - a)
  {
    TrimKeeps(s, a, b);
    var t := Trim(s);
    assert t[b - 2 - a] == '/' && t[b - 1 - a] == '/';
  }

  /** A trimmed line that starts with neither `/` nor `*` and holds `//` is a comment line. */
  lemma CommentAfterCode(t: string, i: int, isComment: bool)
    requires t != [] && t[0] != '/' && t[0] != '*'
    requires OccursAt(t, "//", i)
    ensures Kind(t, isComment) == Comment
  {
  }

  /** A trimmed line without `/` or `*` is a logical line outside a block. */
  lemma PlainCode(t: string)
    requires t != []
    requires forall k :: 0 <= k < |t| ==> t[k] != '/' && t[k] != '*'
    ensures Kind(t, false) == Logical
  {
    NotContainsWithoutHead(t, "//");
  }

  /** An untrimmed line of code without `/`, `*` or whitespace at its ends is a logical line. */
  lemma CodeLine(s: string)
    requires s != [] && !IsWs(s[0]) && !IsWs(s[|s| - 1])
    requires forall k :: 0 <= k < |s| ==> s[k] != '/' && s[k] != '*'
    ensures Kind(Trim(s), false) == Logical
  {
    TrimUnchanged(s);
    PlainCode(s);
  }

  /** The line opening the `if` is a logical line. */
  lemma IfLine()
    ensures Kind(Trim("if a > 5 {"), false) == Logical
  {
    CodeLine("if a > 5 {");
  }

  /** The closing brace is a logical line. */
  lemma BraceLine()
    ensures Kind(Trim("}"), false) == Logical
  {
    CodeLine("}");
  }

  /** `print(a)` indented and followed by a comment is a comment line. */
  lemma PrintWithNote(note: string)
    ensures Kind(Trim("    print(a) // " + note), false) == Comment
  {
    var s := "    print(a) // " + note;
    assert s[..15] == "    print(a) //";
    TrimmedCodeWithNote(s, 4, 15);
    CommentAfterCode(Trim(s), 9, false);
  }

  /** A whole `if` statement followed by a comment is a comment line. */
  lemma StatementWithNote(note: string)
    ensures Kind(Trim("if a > 5 { print(a) } // " + note), false) == Comment
  {
    var s := "if a > 5 { print(a) } // " + note;
    assert s[..24] == "if a > 5 { print(a) } //";
    TrimmedCodeWithNote(s, 0, 24);
    CommentAfterCode(Trim(s), 22, false);
  }

  /** No line of the first text holds a newline. */
  lemma FirstNoNewline(note: string)
    requires NoNewline(note)
    ensures forall i :: 0 <= i < |FirstLines(note)| ==> NoNewline(FirstLines(note)[i])
  {
    var lines := FirstLines(note);
    var code := "    print(a) // ";
    assert lines[9] == code + note;
    assert NoNewline(code);
    NoNewlineAppend(code, note);
    assert NoNewline(lines[8]) && NoNewline(lines[10]);
    forall i | 0 <= i < 8
      ensures NoNewline(lines[i])
    {
      PreludeNoNewline(i);
    }
  }

  /** The kinds of the last three trimmed lines of the first text, outside a block. */
  lemma FirstTail(note: string)
    requires NoNewline(note)
    ensures var t := TrimmedLines(JoinLines(FirstLines(note)));
      && |t| == 11
      && Kind(t[8], false) == Logical && Kind(t[9], false) == Comment && Kind(t[10], false) == Logical
  {
    var lines := FirstLines(note);
    FirstNoNewline(note);
    TrimmedLineAt(lines, 8);
    TrimmedLineAt(lines, 9);
    TrimmedLineAt(lines, 10);
    IfLine();
    PrintWithNote(note);
    BraceLine();
  }

  /** Any eleven trimmed lines of this shape yield the counts of the first text. */
  lemma FirstScan(t: seq<string>)
    requires |t| == 11 && t[..8] == Prelude()
    requires Kind(t[8], false) == Logical && Kind(t[9], false) == Comment && Kind(t[10], false) == Logical
    ensures Scan(t).info == LinesInformation(3, 5, 2)
  {
    PreludeScan(t);
    ScanSnoc(t, 8);
    ScanSnoc(t, 9);
    ScanSnoc(t, 10);
    assert t[..11] == t;
  }

  /**
   The first text: 3 logical, 5 comment and 2 blank lines, 10 physical lines
   out of 11. The closing line is counted nowhere and the line with code and a
   trailing `//` comment counts as a comment only.
   */
  lemma FirstScenario(note: string)
    requires NoNewline(note)
    ensures Classified(JoinLines(FirstLines(note))) == LinesInformation(3, 5, 2)
    ensures Classified(JoinLines(FirstLines(note))).PhysicalLines() == 10
  {
    var lines := FirstLines(note);
    FirstNoNewline(note);
    assert lines[..8] == Prelude();
    TrimmedPrelude(lines);
    FirstTail(note);
    FirstScan(TrimmedLines(JoinLines(lines)));
  }

  /** No line of the second text holds a newline. */
  lemma SecondNoNewline(note: string)
    requires NoNewline(note)
    ensures forall i :: 0 <= i < |SecondLines(note)| ==> NoNewline(SecondLines(note)[i])
  {
    var lines := SecondLines(note);
    var code := "if a > 5 { print(a) } // ";
    assert lines[8] == code + note;
    assert NoNewline(code);
    NoNewlineAppend(code, note);
    forall i | 0 <= i < 8
      ensures NoNewline(lines[i])
    {
      PreludeNoNewline(i);
    }
  }

  /** Any nine trimmed lines of this shape yield the counts of the second text. */
  lemma SecondScan(t: seq<string>)
    requires |t| == 9 && t[..8] == Prelude() && Kind(t[8], false) == Comment
    ensures Scan(t).info == LinesInformation(1, 5, 2)
  {
    PreludeScan(t);
    ScanSnoc(t, 8);
    assert t[..9] == t;
  }

  /**
   The second text: 1 logical, 5 comment and 2 blank lines, 8 physical lines
   out of 9; the last line holds code and a trailing comment and counts as a
   comment only.
   */
  lemma SecondScenario(note: string)
    requires NoNewline(note)
    ensures Classified(JoinLines(SecondLines(note))) == LinesInformation(1, 5, 2)
    ensures Classified(JoinLines(SecondLines(note))).PhysicalLines() == 8
  {
    var lines := SecondLines(note);
    SecondNoNewline(note);
    assert lines[..8] == Prelude();
    TrimmedPrelude(lines);
    TrimmedLineAt(lines, 8);
    StatementWithNote(note);
    SecondScan(TrimmedLines(JoinLines(lines)));
  }

  /**
   A CR LF line break holds two newline characters, so it splits into two
   pieces: an empty line appears between the two lines around it.
   */
  lemma CrLfSplit()
    ensures Split("a\r\nb") == ["a", "", "b"]
  {
    assert "a\r\nb" == "a" + ['\r'] + ("" + ['\n'] + "b");
    SplitAtNewline("", '\n', "b");
    SplitAtNewline("a", '\r', "" + ['\n'] + "b");
    SplitNoNewline("a");
    SplitNoNewline("b");
  }

  lemma CrLfTrimmed()
    ensures TrimmedLines("a\r\nb") == ["a", "", "b"]
  {
    CrLfSplit();
    TrimUnchanged("a");
    TrimUnchanged("b");
  }

  lemma CrLfScan(t: seq<string>)
    requires t == ["a", "", "b"]
    ensures Scan(t).info == LinesInformation(2, 0, 1)
  {
    assert Kind("a", false) == Logical by {
      NotContainsWithoutHead("a", "//");
    }
    assert Kind("b", false) == Logical by {
      NotContainsWithoutHead("b", "//");
    }
    ScanSnoc(t, 0);
    ScanSnoc(t, 1);
    ScanSnoc(t, 2);
    assert t[..0] == [] && t[..3] == t;
  }

  /** A text with one CR LF line break between two code lines counts two logical lines and one blank line. */
  lemma CrLfBreak()
    ensures Classified("a\r\nb") == LinesInformation(2, 0, 1)
  {
    CrLfTrimmed();
    CrLfScan(TrimmedLines("a\r\nb"));
  }

  /** The sequential total of two files is the sum of their metrics. */
  lemma TwoFiles(a: string, b: string)
    ensures Utils.CountSequentially([a, b]) == Add(Classified(a), Classified(b))
  {
    Utils.CountSequentiallyAppend([a], [b]);
    assert [a] + [b] == [a, b];
    Utils.CountSequentiallySingle(a);
    Utils.CountSequentiallySingle(b);
  }

  /** Both texts together, as the sequential fold combines them. */
  lemma BothScenarios(note1: string, note2: string)
    requires NoNewline(note1) && NoNewline(note2)
    ensures Utils.CountSequentially([JoinLines(FirstLines(note1)), JoinLines(SecondLines(note2))])
      == LinesInformation(4, 10, 4)
  {
    TwoFiles(JoinLines(FirstLines(note1)), JoinLines(SecondLines(note2)));
    FirstScenario(note1);
    SecondScenario(note2);
  }
}
