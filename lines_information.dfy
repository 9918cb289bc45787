/**
 Per-file line metrics: the `LinesInformation` value and the classifier
 `init(contents:)`, which walks the trimmed lines of a text once with a
 comment flag and counts each line as blank, comment or logical.
 */
module LinesInfo {
  import opened Strings

  /** The three counters; Swift's `Int` is modelled as `int`. */
  datatype LinesInformation = LinesInformation(logicalLines: int, commentLines: int, blankLines: int)
  {
    /** `physicalLines`: derived from the three counters. */
    function PhysicalLines(): int {
      logicalLines + commentLines + blankLines
    }

    predicate NonNegative() {
      logicalLines >= 0 && commentLines >= 0 && blankLines >= 0
    }
  }

  /** `init()`: the empty value. */
  function Empty(): LinesInformation {
    LinesInformation(0, 0, 0)
  }

  /** `init()` has no lines of any kind. */
  lemma EmptyIsZero()
    ensures Empty().NonNegative() && Empty().PhysicalLines() == 0
  {
  }

  /**
   Elementwise sum: the assumed meaning of `combined`, which neither
   ModuleMetrics/LinesInformation.swift nor ModuleMetrics/Utils.swift defines.
   */
  function Add(a: LinesInformation, b: LinesInformation): LinesInformation {
    LinesInformation(a.logicalLines + b.logicalLines, a.commentLines + b.commentLines, a.blankLines + b.blankLines)
  }

  /** The sum is associative. */
  lemma AddAssociative(a: LinesInformation, b: LinesInformation, c: LinesInformation)
    ensures Add(Add(a, b), c) == Add(a, Add(b, c))
  {
  }

  /** The sum is commutative. */
  lemma AddCommutative(a: LinesInformation, b: LinesInformation)
    ensures Add(a, b) == Add(b, a)
  {
  }

  /** `init()` is the identity of the sum. */
  lemma AddEmpty(a: LinesInformation)
    ensures Add(a, Empty()) == a && Add(Empty(), a) == a
  {
  }

  /** Physical lines and non-negativity carry over to the sum. */
  lemma AddPhysical(a: LinesInformation, b: LinesInformation)
    ensures Add(a, b).PhysicalLines() == a.PhysicalLines() + b.PhysicalLines()
    ensures a.NonNegative() && b.NonNegative() ==> Add(a, b).NonNegative()
  {
  }

  /** `combined` on an array of values: the sum of all of them, starting from `init()`. */
  function Combined(infos: seq<LinesInformation>): LinesInformation {
    if infos == [] then Empty() else Add(infos[0], Combined(infos[1..]))
  }

  /** A trimmed line that opens a block comment. */
  predicate Opens(line: string) {
    StartsWith(line, "/*")
  }

  /** A closing line: a trimmed line that starts with the marker that ends a block comment. */
  predicate Closes(line: string) {
    StartsWith(line, "*/")
  }

  predicate IsBlank(line: string) {
    line == []
  }

  /** The five outcomes of the guard chain in the classification loop. */
  datatype LineKind = Blank | BlockOpen | BlockClose | Comment | Logical

  /**
   The guard chain for one trimmed line, given whether a block comment is open.
   The chain is ordered, yet each outcome has an order-free description.
   */
  function Kind(line: string, isComment: bool): (k: LineKind)
    ensures k == Blank <==> IsBlank(line)
    ensures k == BlockOpen <==> Opens(line)
    ensures k == BlockClose <==> Closes(line)
    ensures k == Comment <==>
      !IsBlank(line) && !Opens(line) && !Closes(line) && (isComment || Contains(line, "//"))
    ensures k == Logical <==>
      !IsBlank(line) && !Opens(line) && !Closes(line) && !isComment && !Contains(line, "//")
  {
    if line == [] then Blank
    else if StartsWith(line, "/*") then BlockOpen
    else if StartsWith(line, "*/") then BlockClose
    else if isComment || Contains(line, "//") then Comment
    else Logical
  }

  /** The loop's variables: the three counters and the `isComment` flag. */
  datatype ScanState = ScanState(info: LinesInformation, isComment: bool)

  /** One iteration of the loop. */
  function Step(st: ScanState, line: string): ScanState {
    var info := st.info;
    match Kind(line, st.isComment)
    case Blank => ScanState(info.(blankLines := info.blankLines + 1), st.isComment)
    case BlockOpen => ScanState(info.(commentLines := info.commentLines + 1), true)
    case BlockClose => ScanState(info, false)
    case Comment => ScanState(info.(commentLines := info.commentLines + 1), st.isComment)
    case Logical => ScanState(info.(logicalLines := info.logicalLines + 1), st.isComment)
  }

  /** The state after the loop has visited `lines`, in order, from all-zero counters and a clear flag. */
  function Scan(lines: seq<string>): ScanState {
    if lines == [] then ScanState(Empty(), false)
    else Step(Scan(lines[..|lines| - 1]), lines[|lines| - 1])
  }

  /** The split, trimmed lines of a text. */
  function TrimmedLines(contents: string): (lines: seq<string>)
    ensures |lines| == NewlineCount(contents) + 1
  {
    var parts := Split(contents);
    seq(|parts|, i requires 0 <= i < |parts| => Trim(parts[i]))
  }

  /** The trimmed lines of newline-free lines joined by line feeds are those lines, trimmed. */
  lemma TrimmedLinesOfJoin(lines: seq<string>)
    requires lines != []
    requires forall i :: 0 <= i < |lines| ==> NoNewline(lines[i])
    ensures |TrimmedLines(JoinLines(lines))| == |lines|
    ensures forall i :: 0 <= i < |lines| ==> TrimmedLines(JoinLines(lines))[i] == Trim(lines[i])
  {
    SplitJoinLines(lines);
  }

  /** What `init(contents:)` computes. */
  function Classified(contents: string): LinesInformation {
    Scan(TrimmedLines(contents)).info
  }

  /** The scan of one more line is one more step. */
  lemma ScanSnoc(lines: seq<string>, i: nat)
    requires i < |lines|
    ensures Scan(lines[..i + 1]) == Step(Scan(lines[..i]), lines[i])
  {
    assert lines[..i + 1][..i] == lines[..i];
  }

  /** `init(contents:)`: one pass over the trimmed lines with early exits. */
  method FromContents(contents: string) returns (info: LinesInformation)
    ensures info == Classified(contents)
  {
    var lines := TrimmedLines(contents);
    var logicalLines := 0;
    var blankLines := 0;
    var commentLines := 0;
    var isComment := false;
    for i := 0 to |lines|
      invariant Scan(lines[..i]) == ScanState(LinesInformation(logicalLines, commentLines, blankLines), isComment)
    {
      var line := lines[i];
      ScanSnoc(lines, i);
      if line == [] {
        assert Kind(line, isComment) == Blank;
        blankLines := blankLines + 1;
        continue;
      }
      if StartsWith(line, "/*") {
        assert Kind(line, isComment) == BlockOpen;
        isComment := true;
        commentLines := commentLines + 1;
        continue;
      }
      if StartsWith(line, "*/") {
        assert Kind(line, isComment) == BlockClose;
        isComment := false;
        continue;
      }
      if isComment || Contains(line, "//") {
        assert Kind(line, isComment) == Comment;
        commentLines := commentLines + 1;
        continue;
      }
      assert Kind(line, isComment) == Logical;
      logicalLines := logicalLines + 1;
    }
    assert lines[..|lines|] == lines;
    info := LinesInformation(logicalLines, commentLines, blankLines);
  }

  // ---------------------------------------------------------------------------
  // Properties of the scan

  /** Number of lines satisfying `p`. */
  function CountIf(lines: seq<string>, p: string -> bool): nat {
    if lines == [] then 0
    else CountIf(lines[..|lines| - 1], p) + (if p(lines[|lines| - 1]) then 1 else 0)
  }

  /** All counters stay non-negative: they start at zero and only grow. */
  lemma {:induction false} ScanNonNegative(lines: seq<string>)
    ensures Scan(lines).info.NonNegative()
    decreases |lines|
  {
    if lines != [] {
      ScanNonNegative(lines[..|lines| - 1]);
    }
  }

  /** Every line adds one to exactly one counter, except a closing line (`Closes`), which adds to none. */
  lemma {:induction false} ScanPhysical(lines: seq<string>)
    ensures Scan(lines).info.PhysicalLines() == |lines| - CountIf(lines, Closes)
    decreases |lines|
  {
    if lines != [] {
      ScanPhysical(lines[..|lines| - 1]);
    }
  }

  /** The blank counter is the number of empty lines, whatever the comment state. */
  lemma {:induction false} ScanBlank(lines: seq<string>)
    ensures Scan(lines).info.blankLines == CountIf(lines, IsBlank)
    decreases |lines|
  {
    if lines != [] {
      ScanBlank(lines[..|lines| - 1]);
    }
  }

  /** After `lines`, a block comment is open: some line opened one and no later line is a closing line. */
  ghost predicate InBlock(lines: seq<string>) {
    exists j :: 0 <= j < |lines| && Opens(lines[j]) && forall k :: j < k < |lines| ==> !Closes(lines[k])
  }

  /**
   The flag is set exactly when an opening line was seen and no closing line
   came after it: a closing marker anywhere but at the start of a line,
   including at the end of the opening line, never clears it.
   */
  lemma {:induction false} ScanInBlock(lines: seq<string>)
    ensures Scan(lines).isComment <==> InBlock(lines)
    decreases |lines|
  {
    if lines != [] {
      var n := |lines| - 1;
      ScanInBlock(lines[..n]);
      if Opens(lines[n]) {
        assert InBlock(lines);
      } else if Closes(lines[n]) {
        InBlockAfterClose(lines);
      } else {
        InBlockAfterOther(lines);
      }
    }
  }

  /** A closing last line leaves no block open. */
  lemma InBlockAfterClose(lines: seq<string>)
    requires lines != [] && Closes(lines[|lines| - 1])
    ensures !InBlock(lines)
  {
    var n := |lines| - 1;
    forall j | 0 <= j < |lines| && Opens(lines[j])
      ensures exists k :: j < k < |lines| && Closes(lines[k])
    {
      assert j != n;
      assert Closes(lines[n]);
    }
  }

  /** A last line that neither opens nor closes a block leaves the open block as it was. */
  lemma InBlockAfterOther(lines: seq<string>)
    requires lines != [] && !Opens(lines[|lines| - 1]) && !Closes(lines[|lines| - 1])
    ensures InBlock(lines) <==> InBlock(lines[..|lines| - 1])
  {
    var n := |lines| - 1;
    var prefix := lines[..n];
    if InBlock(lines) {
      var j :| 0 <= j < |lines| && Opens(lines[j]) && forall k :: j < k < |lines| ==> !Closes(lines[k]);
      assert j < n;
      assert Opens(prefix[j]) && forall k :: j < k < n ==> !Closes(prefix[k]);
    }
    if InBlock(prefix) {
      var j :| 0 <= j < n && Opens(prefix[j]) && forall k :: j < k < n ==> !Closes(prefix[k]);
      assert Opens(lines[j]) && forall k :: j < k < |lines| ==> !Closes(lines[k]);
    }
  }

  /** The outcome of line `i`, decided from the lines before it alone. */
  ghost function KindAt(lines: seq<string>, i: nat): LineKind
    requires i < |lines|
  {
    Kind(lines[i], InBlock(lines[..i]))
  }

  /** Number of lines whose outcome is `k`. */
  ghost function CountKind(lines: seq<string>, k: LineKind): nat {
    if lines == [] then 0
    else CountKind(lines[..|lines| - 1], k) + (if KindAt(lines, |lines| - 1) == k then 1 else 0)
  }

  /**
   Each counter is the number of lines with the matching outcome: logical lines,
   comment lines (openers included) and blank lines; closing lines count nowhere.
   */
  lemma {:induction false} ScanCounts(lines: seq<string>)
    ensures Scan(lines).info == LinesInformation(
      CountKind(lines, Logical),
      CountKind(lines, Comment) + CountKind(lines, BlockOpen),
      CountKind(lines, Blank))
    decreases |lines|
  {
    if lines != [] {
      var n := |lines| - 1;
      ScanCounts(lines[..n]);
      ScanInBlock(lines[..n]);
      assert KindAt(lines, n) == Kind(lines[n], Scan(lines[..n]).isComment);
    }
  }

  // ---------------------------------------------------------------------------
  // Properties of `init(contents:)` and `combined`

  /**
   The physical count of a text is its number of split lines less its closing
   lines, so never more than newlines plus one.
   */
  lemma ClassifiedPhysical(contents: string)
    ensures Classified(contents).PhysicalLines()
      == NewlineCount(contents) + 1 - CountIf(TrimmedLines(contents), Closes)
    ensures 0 <= Classified(contents).PhysicalLines() <= NewlineCount(contents) + 1
  {
    ScanPhysical(TrimmedLines(contents));
    ScanNonNegative(TrimmedLines(contents));
  }

  /** Empty contents are one blank line, not the all-zero value. */
  lemma ClassifiedEmptyText()
    ensures Classified("") == LinesInformation(0, 0, 1)
    ensures Classified("").PhysicalLines() == 1
  {
    assert Split("") == [[]];
    assert TrimmedLines("") == [[]];
    assert Scan([[]]) == Step(Scan([]), []);
  }

  /** `combined` of a concatenation is the sum of the two parts. */
  lemma {:induction false} CombinedAppend(xs: seq<LinesInformation>, ys: seq<LinesInformation>)
    ensures Combined(xs + ys) == Add(Combined(xs), Combined(ys))
    decreases |xs|
  {
    if xs == [] {
      assert xs + ys == ys;
      AddEmpty(Combined(ys));
    } else {
      assert (xs + ys)[1..] == xs[1..] + ys;
      CombinedAppend(xs[1..], ys);
      AddAssociative(xs[0], Combined(xs[1..]), Combined(ys));
    }
  }

  /** Taking out the element at index `j` leaves the multiset without that element. */
  lemma RemoveAt(ys: seq<LinesInformation>, j: nat)
    requires j < |ys|
    ensures multiset(ys[..j] + ys[j + 1..]) == multiset(ys) - multiset{ys[j]}
  {
    assert ys == ys[..j] + [ys[j]] + ys[j + 1..];
  }

  lemma RemoveFirst(xs: seq<LinesInformation>)
    requires xs != []
    ensures multiset(xs[1..]) == multiset(xs) - multiset{xs[0]}
  {
    assert xs == [xs[0]] + xs[1..];
  }

  lemma AddSwap(a: LinesInformation, b: LinesInformation, c: LinesInformation)
    ensures Add(a, Add(b, c)) == Add(b, Add(a, c))
  {
  }

  /** The element at index `j` can be added first. */
  lemma CombinedAt(ys: seq<LinesInformation>, j: nat)
    requires j < |ys|
    ensures Combined(ys) == Add(ys[j], Combined(ys[..j] + ys[j + 1..]))
  {
    var x, pre, post := ys[j], ys[..j], ys[j + 1..];
    assert Combined(ys) == Add(Combined(pre), Add(x, Combined(post))) by {
      assert ys == pre + ([x] + post);
      CombinedAppend(pre, [x] + post);
      assert ([x] + post)[1..] == post;
    }
    CombinedAppend(pre, post);
    AddSwap(Combined(pre), x, Combined(post));
  }

  /** `combined` does not depend on the order of its elements. */
  lemma {:induction false} CombinedPermutation(xs: seq<LinesInformation>, ys: seq<LinesInformation>)
    requires multiset(xs) == multiset(ys)
    ensures Combined(xs) == Combined(ys)
    decreases |xs|
  {
    if xs == [] {
      assert |ys| == |multiset(ys)| == 0;
    } else {
      var x := xs[0];
      assert x in multiset(ys);
      var j :| 0 <= j < |ys| && ys[j] == x;
      var rest := ys[..j] + ys[j + 1..];
      RemoveAt(ys, j);
      RemoveFirst(xs);
      CombinedPermutation(xs[1..], rest);
      CombinedAt(ys, j);
    }
  }

  /** Summing non-negative values gives a non-negative value. */
  lemma {:induction false} CombinedNonNegative(xs: seq<LinesInformation>)
    requires forall i :: 0 <= i < |xs| ==> xs[i].NonNegative()
    ensures Combined(xs).NonNegative()
    decreases |xs|
  {
    if xs != [] {
      CombinedNonNegative(xs[1..]);
    }
  }
}
