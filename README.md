# ModuleMetrics line counting, modelled in Dafny

ModuleMetrics counts source-line metrics for the Swift files of a directory.
For each file it splits the contents on newline characters and trims every
line of whitespace. It then walks the lines once, with an `isComment` flag for
an open block comment, and counts each line into at most one of three
counters:

- `logicalLines`;
- `commentLines`;
- `blankLines`.

A line that starts with `*/` closes the block and is counted in none.
`physicalLines` is the sum of the three counters.

The per-file values are merged by `combined`. Its definition is not among
the files modelled here; the model assumes it is elementwise addition
starting from `init()`. A directory with more files than `batchSize` is cut
into stride batches of `batchSize` files. Each batch is totalled on its own,
and the batch totals are combined in whatever order the tasks finish.
Otherwise the files are totalled sequentially.

The project has four modules:

- `Strings` (`strings.dfy`): the Foundation string operations the classifier
  relies on, namely splitting on newlines, trimming, `starts(with:)` and
  `contains(_:)`. The module also proves their laws.
- `LinesInfo` (`lines_information.dfy`): the `LinesInformation` value and the
  classifier as an imperative method, `FromContents`. The method is proved
  equal to a specification fold, `Scan`, over the trimmed lines. The
  module proves what that fold counts.
- `Utils` (`utils.dfy`): the sequential fold, the stride partition, the
  batched path as an imperative loop, and the size dispatch. For a positive
  batch size, and for the sequential path at any non-negative one, each is
  proved to give the sequential total. A negative batch size gives the value
  of `init()`.
- `Scenarios` (`scenarios.dfy`): the two texts of the repository's tests,
  with the metrics the classifier as written gives for them.

## Model

| member | source | states |
|---|---|---|
| LinesInfo.EmptyIsZero | ModuleMetrics/LinesInformation.swift:33-37 | `init()` has all counters zero, so its physical count is zero |
| LinesInfo.AddPhysical | ModuleMetrics/LinesInformation.swift:23-25 | physical lines are the sum of the three counters, and that sum adds up across combined values; non-negativity carries over to a sum |
| LinesInfo.Kind | ModuleMetrics/LinesInformation.swift:52-80 | the ordered guard chain gives five outcomes, and each outcome has an order-free iff description: blank iff empty; opener iff it starts with `/*`; closer iff it starts with `*/`; comment iff neither of these and (a block is open or the line contains `//`); logical iff neither of these, no block is open and there is no `//` |
| LinesInfo.FromContents | ModuleMetrics/LinesInformation.swift:40-86 | the loop with early exits computes the specification fold `Scan` over the split, trimmed lines |
| LinesInfo.TrimmedLinesOfJoin | ModuleMetrics/LinesInformation.swift:41-43 | for newline-free lines joined by line feeds, the classifier sees exactly those lines, each trimmed |
| LinesInfo.ScanNonNegative | ModuleMetrics/LinesInformation.swift:45-81 | every counter is non-negative after any number of lines |
| LinesInfo.ScanPhysical | ModuleMetrics/LinesInformation.swift:51-81 | the physical count equals the number of lines less the number of lines that start with `*/` |
| LinesInfo.ScanBlank | ModuleMetrics/LinesInformation.swift:52-56 | the blank counter equals the number of lines that are empty after trimming, whatever the comment state |
| LinesInfo.ScanInBlock | ModuleMetrics/LinesInformation.swift:58-69 | the flag is set iff some line started with `/*` and no later line started with `*/` |
| LinesInfo.ScanCounts | ModuleMetrics/LinesInformation.swift:51-81 | each counter is the number of lines whose outcome (decided by the lines before it) matches: logical lines; comment lines plus openers; blank lines |
| LinesInfo.ClassifiedPhysical | ModuleMetrics/LinesInformation.swift:40-86 | a text's physical count is its number of newlines plus one, less its `*/` lines, and lies between 0 and newlines + 1 |
| LinesInfo.ClassifiedEmptyText | ModuleMetrics/LinesInformation.swift:41-56 | the empty text is one blank line: counters (0, 0, 1), physical 1 |
| LinesInfo.CombinedAppend | ModuleMetrics/Utils.swift:92-94 | combining a concatenation is the sum of combining the parts |
| LinesInfo.CombinedPermutation | ModuleMetrics/Utils.swift:79-89 | combining does not depend on the order of the values: any permutation gives the same total |
| LinesInfo.CombinedNonNegative | ModuleMetrics/Utils.swift:89 | combining non-negative values gives a non-negative value |
| LinesInfo.LinesInformation.PhysicalLines | ModuleMetrics/LinesInformation.swift:23-25 | definition: the sum of the three counters (its laws are stated by `LinesInfo.AddPhysical` and `LinesInfo.ScanPhysical`) |
| LinesInfo.Empty | ModuleMetrics/LinesInformation.swift:33-37 | definition: `init()`, all three counters zero (stated by `LinesInfo.EmptyIsZero`) |
| LinesInfo.Add | ModuleMetrics/Utils.swift:93 | definition: the elementwise sum taken as the meaning of `combined` for two values |
| LinesInfo.Combined | ModuleMetrics/Utils.swift:89-93 | definition: `combined` on an array, the sum of all values starting from `init()` (stated by `LinesInfo.CombinedAppend` and `LinesInfo.CombinedPermutation`) |
| LinesInfo.AddAssociative | ModuleMetrics/Utils.swift:89-93 | the sum is associative |
| LinesInfo.AddCommutative | ModuleMetrics/Utils.swift:89-93 | the sum is commutative |
| LinesInfo.AddEmpty | ModuleMetrics/Utils.swift:89-93 | `init()` is the identity of the sum on both sides |
| LinesInfo.IsBlank | ModuleMetrics/LinesInformation.swift:52 | definition: the trimmed line is empty |
| LinesInfo.Opens | ModuleMetrics/LinesInformation.swift:58 | definition: the trimmed line starts with `/*` |
| LinesInfo.Closes | ModuleMetrics/LinesInformation.swift:65 | definition: the trimmed line starts with the block-comment closing marker |
| LinesInfo.Step | ModuleMetrics/LinesInformation.swift:52-80 | definition: one iteration of the loop, dispatching on `Kind` (its effect over many lines is stated by `LinesInfo.ScanCounts` and `LinesInfo.ScanInBlock`) |
| LinesInfo.Scan | ModuleMetrics/LinesInformation.swift:45-81 | definition: the loop's counters and flag after the given lines, from zero and a clear flag (stated by `LinesInfo.FromContents` and the `Scan*` lemmas) |
| LinesInfo.TrimmedLines | ModuleMetrics/LinesInformation.swift:41-43 | the split, trimmed lines number one more than the text's newline characters |
| LinesInfo.Classified | ModuleMetrics/LinesInformation.swift:40-86 | definition: the counters `init(contents:)` produces (stated by `LinesInfo.FromContents` and `LinesInfo.ClassifiedPhysical`) |
| Strings.Split | ModuleMetrics/LinesInformation.swift:41-42 | splitting on newlines gives one more piece than there are newline characters, and no piece holds a newline |
| Strings.SplitJoinLines | ModuleMetrics/LinesInformation.swift:41-42 | splitting newline-free lines joined by line feeds gives the lines back |
| Strings.JoinSplit | ModuleMetrics/LinesInformation.swift:41-42 | when every newline character is a line feed, joining the pieces gives the text back |
| Strings.TrimSpec | ModuleMetrics/LinesInformation.swift:43 | trimming removes only whitespace, and only from both ends; the result starts and ends with non-whitespace; it is empty iff the line is all whitespace |
| Strings.TrimExact | ModuleMetrics/LinesInformation.swift:43 | trimming a line whose non-whitespace lies between `i` and `j` gives exactly `s[i..j]` |
| Strings.TrimUnchanged | ModuleMetrics/LinesInformation.swift:43 | trimming is the identity on a text that starts and ends with non-whitespace |
| Strings.NotContainsWithoutHead | ModuleMetrics/LinesInformation.swift:73 | a line that lacks the first character of a pattern does not contain the pattern |
| Strings.IsNewline | ModuleMetrics/LinesInformation.swift:42 | definition: Foundation's `CharacterSet.newlines`, U+000A to U+000D, U+0085, U+2028 and U+2029 |
| Strings.IsWs | ModuleMetrics/LinesInformation.swift:43 | definition: Foundation's `CharacterSet.whitespacesAndNewlines`, the newlines plus tab and the Zs space separators; every newline is whitespace (`Strings.NewlineIsWs`) |
| Strings.SplitAtNewline | ModuleMetrics/LinesInformation.swift:41-42 | splitting at one newline character gives the pieces of the text before it followed by the pieces of the text after it |
| Strings.SplitNoNewline | ModuleMetrics/LinesInformation.swift:41-42 | a text without newline characters is one piece, itself |
| Strings.Trim | ModuleMetrics/LinesInformation.swift:43 | definition: the text between its leading and trailing whitespace (stated by `Strings.TrimSpec`, `Strings.TrimExact` and `Strings.TrimUnchanged`) |
| Strings.StartsWith | ModuleMetrics/LinesInformation.swift:58-65 | definition: `starts(with:)`, the prefix of the pattern's length equals the pattern |
| Strings.Contains | ModuleMetrics/LinesInformation.swift:73 | definition: `contains(_:)`, the pattern occurs at some index (stated by `Strings.NotContainsWithoutHead`) |
| Utils.CountSequentiallyAppend | ModuleMetrics/Utils.swift:92-94 | the sequential total of two file lists is the sum of their totals |
| Utils.CountSequentiallyNonNegative | ModuleMetrics/Utils.swift:92-94 | the sequential total has non-negative counters, and no files give `init()` |
| Utils.CountSequentiallySingle | ModuleMetrics/Utils.swift:92-94 | one file's sequential total is its own metrics |
| Utils.PartitionInvariance | ModuleMetrics/Utils.swift:77-94 | cutting the files into any consecutive batches and combining the batch totals gives the sequential total |
| Utils.AnyOrderInvariance | ModuleMetrics/Utils.swift:76-89 | batch totals collected in any order combine to the sequential total |
| Utils.BatchesFlatten | ModuleMetrics/Utils.swift:69-72 | the stride batches concatenate back to the files, in order |
| Utils.BatchesShape | ModuleMetrics/Utils.swift:69-72 | there are ceil(n / batchSize) batches (stated without division); none is empty; each holds at most `batchSize` files; all but the last hold exactly `batchSize` |
| Utils.BatchAt | ModuleMetrics/Utils.swift:69-72 | batch `k` is the slice from `k * batchSize` to `min(k * batchSize + batchSize, n)` |
| Utils.CountInParallel | ModuleMetrics/Utils.swift:60-90 | the stride loop, with totals inserted at arbitrary positions, returns the sequential total for a positive `batchSize` and `init()` for a negative one; a zero stride is excluded, because it traps |
| Utils.CountForFiles | ModuleMetrics/Utils.swift:38-42 | the dispatch on `files.count > batchSize` returns the sequential total for any non-negative `batchSize`; with a negative one it returns `init()`; zero with files present is excluded (trap) |
| Utils.PerFile | ModuleMetrics/Utils.swift:93 | definition: the `map` of every file to its metrics |
| Utils.CountSequentially | ModuleMetrics/Utils.swift:92-94 | definition: `countMetricsSequentially`, the combined per-file metrics (stated by the `CountSequentially*` lemmas) |
| Utils.StrideContinues | ModuleMetrics/Utils.swift:69 | definition: the stride continues while below the end for a positive stride and while above it for a negative one |
| Utils.Batches | ModuleMetrics/Utils.swift:69-72 | definition: consecutive slices of `batchSize` files, the last possibly shorter (stated by `Utils.BatchAt`, `Utils.BatchesFlatten` and `Utils.BatchesShape`) |
| Scenarios.FirstScenario | Tests/Tests.swift:12-32 | the first test text gives 3 logical, 5 comment and 2 blank lines (physical 10) |
| Scenarios.SecondScenario | Tests/Tests.swift:36-54 | the second test text gives 1 logical, 5 comment and 2 blank lines (physical 8) |
| Scenarios.BothScenarios | Tests/Tests.swift:12-54 | the two texts combined by the sequential fold give (4, 10, 4) |
| Scenarios.CrLfSplit | ModuleMetrics/LinesInformation.swift:41-42 | a CR LF line break is two separators: `"a\r\nb"` splits into `"a"`, `""` and `"b"` |
| Scenarios.CrLfBreak | ModuleMetrics/LinesInformation.swift:40-86 | a CR LF line break adds a blank line: `"a\r\nb"` gives 2 logical, 0 comment and 1 blank line |

## Differences between the tests and the code

The model follows the classifier as written.

`Tests/Tests.swift` expects different counts:

- For the first text it expects physical 11, logical 3, comment 6 and blank 2.
  The code counts the `*/` line nowhere. It also counts the line holding
  code and a trailing `//` comment as a comment only. That gives 3/5/2,
  physical 10.
- For the second text it expects 9/3/6/2. The code gives 1/5/2, physical 8.

Those tests also call `LinesInformation(code:)`, while the type declares
`init(contents:)`. The model treats the two as the same initialiser.

## Left out

- Directory enumeration, `.swift` filtering and file reading (`ModuleMetrics/Utils.swift:17-36`) are I/O. The model starts from the list of file contents.
- `DispatchQueue`, `DispatchGroup` and the `queue.sync` append are concurrency. Batches run one after another. The arbitrary completion order is modelled by inserting each batch total at an arbitrary position.
- `Utils.CountInParallel` assumes each append to `batchInfos` is atomic. The source does not guarantee this: it appends through `sync` on a queue created with `.concurrent` and no barrier (ModuleMetrics/Utils.swift:64, 79-80), so two appends can race and lose or corrupt a total. The model's promise of the sequential total holds only under that assumption.
- `runProfiled` is a clock and `print`, so it is not modelled.
- `commentingLevel` is floating point, and `description` is formatting only. Neither is modelled.
- `ModuleMetrics/main.swift` is argument handling and I/O, so it is not modelled.
- `combined` and `LinesInformation(code:)` are not defined in ModuleMetrics/LinesInformation.swift or ModuleMetrics/Utils.swift. `combined` is modelled as the elementwise sum starting from `init()` (`LinesInfo.Add`, `LinesInfo.Combined`). `init(code:)` is taken to be `init(contents:)`.
- Unicode is not modelled beyond listed characters:
  - newlines are U+000A to U+000D, U+0085, U+2028 and U+2029;
  - whitespace is those, plus tab, space and the Zs space separators.
  - `components(separatedBy: .newlines)` splits on UTF-16 code units (Unicode scalars), not on Swift `Character`s, for which CR LF is a single grapheme cluster. The model's `Strings.Split` also splits on single scalars, so in both a CR LF line break is two separators and adds an empty line (`Scenarios.CrLfBreak`). `Strings.JoinSplit` is stated only for texts whose newlines are line feeds.
- `Strings.StartsWith` compares Unicode scalars one by one, while Swift's `starts(with:)` compares grapheme clusters. A trimmed line made of `/*` followed by a combining mark such as U+0301 is an opening line in the model. Swift sees no `/*` prefix there and counts the line as logical.
- `Strings.Contains` looks for `//` scalar by scalar, while Swift's `contains(_:)` compares grapheme clusters. A line holding `//` whose second `/` carries a combining mark is a comment line in the model. Swift finds no `//` there and counts the line as logical.
- The model counts with unbounded `int`s, so Swift `Int` overflow (a trap after 2^63 − 1 lines) is not modelled.
- `Utils.CountInParallel`: a zero `batchSize` traps in `stride(from:to:by:)`. That case is excluded by a precondition rather than modelled as an error value.
- `Utils.BatchesShape`: the batch count ceil(n / batchSize) is stated as two bounds on multiples of `batchSize` rather than with division.
- `Scenarios.FirstScenario` and `Scenarios.SecondScenario` take the words of the trailing comment as a parameter. Any newline-free text is allowed, so the exact wording in the tests is one instance.
