/**
 Aggregation of per-file metrics over a list of file contents: the sequential
 fold, the stride partition into batches, the batched path with batch results
 collected in any order, and the size dispatch between the two paths.
 Directory walking, file reading and the dispatch queues are not modelled;
 the batches are processed one after the other.
 */
module Utils {
  import opened LinesInfo

  function Min(a: int, b: int): int {
    if a <= b then a else b
  }

  /** `files.map { LinesInformation(code: $0) }`. */
  function PerFile(files: seq<string>): seq<LinesInformation> {
    seq(|files|, i requires 0 <= i < |files| => Classified(files[i]))
  }

  /** `countMetricsSequentially(files:)`: the metrics of every file, combined. */
  function CountSequentially(files: seq<string>): LinesInformation {
    Combined(PerFile(files))
  }

  /** The files of consecutive batches, in order. */
  function Flatten(batches: seq<seq<string>>): seq<string> {
    if batches == [] then [] else batches[0] + Flatten(batches[1..])
  }

  /** `countMetricsSequentially` applied to every batch, in order. */
  function BatchTotals(batches: seq<seq<string>>): seq<LinesInformation> {
    if batches == [] then [] else [CountSequentially(batches[0])] + BatchTotals(batches[1..])
  }

  /**
   The batches the stride loop cuts: consecutive slices of `batchSize` files,
   the last one possibly shorter.
   */
  function Batches(files: seq<string>, batchSize: int): seq<seq<string>>
    requires batchSize >= 1
    decreases |files|
  {
    if files == [] then []
    else
      var end := Min(batchSize, |files|);
      [files[..end]] + Batches(files[end..], batchSize)
  }

  // ---------------------------------------------------------------------------
  // The sequential fold

  /** The sequential total of two lists of files is the sum of their totals. */
  lemma CountSequentiallyAppend(xs: seq<string>, ys: seq<string>)
    ensures CountSequentially(xs + ys) == Add(CountSequentially(xs), CountSequentially(ys))
  {
    assert PerFile(xs + ys) == PerFile(xs) + PerFile(ys);
    CombinedAppend(PerFile(xs), PerFile(ys));
  }

  /**
   The sequential total has non-negative counters, and no files give the
   value of `init()`.
   */
  lemma CountSequentiallyNonNegative(files: seq<string>)
    ensures CountSequentially(files).NonNegative()
    ensures files == [] ==> CountSequentially(files) == Empty()
  {
    forall i | 0 <= i < |files|
      ensures PerFile(files)[i].NonNegative()
    {
      ScanNonNegative(TrimmedLines(files[i]));
    }
    CombinedNonNegative(PerFile(files));
  }

  /** One file on its own: its own metrics. */
  lemma CountSequentiallySingle(file: string)
    ensures CountSequentially([file]) == Classified(file)
  {
    assert PerFile([file]) == [Classified(file)];
    assert PerFile([file])[1..] == [];
    AddEmpty(Classified(file));
  }

  /**
   Partition invariance: cutting the files into any consecutive batches, taking
   each batch's sequential total and combining those gives the sequential total.
   */
  lemma {:induction false} PartitionInvariance(batches: seq<seq<string>>)
    ensures Combined(BatchTotals(batches)) == CountSequentially(Flatten(batches))
    decreases |batches|
  {
    if batches == [] {
      assert PerFile([]) == [];
    } else {
      var first, rest := batches[0], batches[1..];
      PartitionInvariance(rest);
      assert Flatten(batches) == first + Flatten(rest);
      CountSequentiallyAppend(first, Flatten(rest));
    }
  }

  /** Combining the batch totals in any order gives the sequential total. */
  lemma AnyOrderInvariance(batches: seq<seq<string>>, collected: seq<LinesInformation>)
    requires multiset(collected) == multiset(BatchTotals(batches))
    ensures Combined(collected) == CountSequentially(Flatten(batches))
  {
    CombinedPermutation(collected, BatchTotals(batches));
    PartitionInvariance(batches);
  }

  // ---------------------------------------------------------------------------
  // The stride partition

  /** Every file is in exactly one batch, in the original order. */
  lemma {:induction false} BatchesFlatten(files: seq<string>, batchSize: int)
    requires batchSize >= 1
    ensures Flatten(Batches(files, batchSize)) == files
    decreases |files|
  {
    if files != [] {
      var end := Min(batchSize, |files|);
      BatchesFlatten(files[end..], batchSize);
      assert Batches(files, batchSize)[1..] == Batches(files[end..], batchSize);
      assert files[..end] + files[end..] == files;
    }
  }

  /**
   There are ceil(n / batchSize) batches, stated without division: the batches
   hold more than `batchSize` times one less than their number and at most
   `batchSize` times their number. None is empty, and all have `batchSize`
   files except possibly the last.
   */
  lemma {:induction false} BatchesShape(files: seq<string>, batchSize: int)
    requires batchSize >= 1
    ensures (|Batches(files, batchSize)| - 1) * batchSize < |files| <= |Batches(files, batchSize)| * batchSize
    ensures forall k :: 0 <= k < |Batches(files, batchSize)| ==>
      1 <= |Batches(files, batchSize)[k]| <= batchSize
    ensures forall k :: 0 <= k < |Batches(files, batchSize)| - 1 ==>
      |Batches(files, batchSize)[k]| == batchSize
    decreases |files|
  {
    if files != [] {
      var end := Min(batchSize, |files|);
      var rest := Batches(files[end..], batchSize);
      BatchesShape(files[end..], batchSize);
      assert Batches(files, batchSize) == [files[..end]] + rest;
      var m := |rest|;
      assert (m + 1) * batchSize == m * batchSize + batchSize;
      assert m * batchSize == (m - 1) * batchSize + batchSize;
    }
  }

  /** Where batch `k` starts: `k` strides from the first file, counted without multiplication. */
  function StrideStart(k: nat, batchSize: nat): nat {
    if k == 0 then 0 else StrideStart(k - 1, batchSize) + batchSize
  }

  lemma {:induction false} StrideStartProduct(k: nat, batchSize: nat)
    ensures StrideStart(k, batchSize) == k * batchSize
  {
    if k > 0 {
      StrideStartProduct(k - 1, batchSize);
      assert k * batchSize == (k - 1) * batchSize + batchSize;
    }
  }

  /** Batches after the first are the batches of the files after the first stride. */
  lemma BatchesTail(files: seq<string>, batchSize: int, k: nat)
    requires batchSize >= 1
    requires 0 < k < |Batches(files, batchSize)|
    ensures batchSize < |files|
    ensures k - 1 < |Batches(files[batchSize..], batchSize)|
    ensures Batches(files, batchSize)[k] == Batches(files[batchSize..], batchSize)[k - 1]
  {
    var end := Min(batchSize, |files|);
    assert Batches(files, batchSize) == [files[..end]] + Batches(files[end..], batchSize);
    assert files[end..] != [];
  }

  lemma SliceOfDrop(s: seq<string>, d: int, lo: int, hi: int)
    requires 0 <= d <= |s| && 0 <= lo <= hi <= |s| - d
    ensures s[d..][lo..hi] == s[d + lo..d + hi]
  {
  }

  lemma {:induction false} BatchAtStride(files: seq<string>, batchSize: int, k: nat)
    requires batchSize >= 1
    requires k < |Batches(files, batchSize)|
    ensures StrideStart(k, batchSize) < |files|
    ensures Batches(files, batchSize)[k]
      == files[StrideStart(k, batchSize)..Min(StrideStart(k, batchSize) + batchSize, |files|)]
    decreases |files|
  {
    if k == 0 {
      assert files != [];
    } else {
      BatchesTail(files, batchSize, k);
      BatchAtStride(files[batchSize..], batchSize, k - 1);
      var lo := StrideStart(k - 1, batchSize);
      SliceOfDrop(files, batchSize, lo, Min(lo + batchSize, |files| - batchSize));
    }
  }

  /** Batch `k` is the slice from `k * batchSize` up to the next stride or the end. */
  lemma BatchAt(files: seq<string>, batchSize: int, k: nat)
    requires batchSize >= 1
    requires k < |Batches(files, batchSize)|
    ensures k * batchSize < |files|
    ensures Batches(files, batchSize)[k] == files[k * batchSize..Min(k * batchSize + batchSize, |files|)]
  {
    BatchAtStride(files, batchSize, k);
    StrideStartProduct(k, batchSize);
  }

  // ---------------------------------------------------------------------------
  // The batched path and the dispatch

  /** The batches from a stride position on: the slice there, then the batches after it. */
  lemma BatchesFrom(files: seq<string>, batchSize: int, index: int)
    requires batchSize >= 1 && 0 <= index < |files|
    ensures Batches(files[index..], batchSize)
      == [files[index..Min(index + batchSize, |files|)]] + Batches(files[Min(index + batchSize, |files|)..], batchSize)
  {
    var rest := files[index..];
    assert rest[..Min(batchSize, |rest|)] == files[index..Min(index + batchSize, |files|)];
    assert rest[Min(batchSize, |rest|)..] == files[Min(index + batchSize, |files|)..];
  }

  lemma {:induction false} BatchTotalsSnoc(batches: seq<seq<string>>, batch: seq<string>)
    ensures BatchTotals(batches + [batch]) == BatchTotals(batches) + [CountSequentially(batch)]
    decreases |batches|
  {
    if batches != [] {
      assert (batches + [batch])[1..] == batches[1..] + [batch];
      BatchTotalsSnoc(batches[1..], batch);
    }
  }

  /**
   Inserting the total of one more batch anywhere among the collected totals
   keeps them a permutation of the dispatched batches' totals.
   */
  lemma InsertTotal(collected: seq<LinesInformation>, position: nat, dispatched: seq<seq<string>>, batch: seq<string>)
    requires position <= |collected|
    requires multiset(collected) == multiset(BatchTotals(dispatched))
    ensures multiset(collected[..position] + [CountSequentially(batch)] + collected[position..])
      == multiset(BatchTotals(dispatched + [batch]))
  {
    assert collected == collected[..position] + collected[position..];
    BatchTotalsSnoc(dispatched, batch);
  }

  /** One step of the stride: the next batch moves from the remaining batches to the dispatched ones. */
  lemma StrideStep(files: seq<string>, batchSize: int, index: int, dispatched: seq<seq<string>>)
    requires batchSize >= 1 && 0 <= index < |files|
    requires dispatched + Batches(files[index..], batchSize) == Batches(files, batchSize)
    ensures var batchEnd := Min(index + batchSize, |files|);
      (dispatched + [files[index..batchEnd]]) + Batches(files[batchEnd..], batchSize) == Batches(files, batchSize)
  {
    BatchesFrom(files, batchSize, index);
  }

  /** `stride(from:to:by:)` goes on: upwards below `end`, or downwards above it. */
  predicate StrideContinues(index: int, end: int, stride: int) {
    if stride > 0 then index < end else index > end
  }

  /**
   `countMetricsInParallel(files:batchSize:)`. The stride loop cuts the batches;
   each batch's sequential total is appended to `batchInfos` when its task
   finishes, so the totals land in an arbitrary order, modelled by inserting
   each one at an arbitrary position. Each append is taken to be atomic: the
   source appends through `sync` on a concurrent queue without a barrier,
   which does not exclude two appends racing, so a lost or corrupted total is
   not modelled. A zero stride traps; a negative one yields no batch.
   */
  method CountInParallel(files: seq<string>, batchSize: int) returns (info: LinesInformation)
    requires batchSize != 0
    ensures batchSize > 0 ==> info == CountSequentially(files)
    ensures batchSize < 0 ==> info == Empty()
  {
    var batchInfos: seq<LinesInformation> := [];
    ghost var dispatched: seq<seq<string>> := [];
    var index := 0;
    while StrideContinues(index, |files|, batchSize)
      invariant batchSize < 0 ==> index == 0 && batchInfos == []
      invariant batchSize > 0 ==> 0 <= index
      invariant batchSize > 0 ==>
        dispatched + Batches(files[Min(index, |files|)..], batchSize) == Batches(files, batchSize)
      invariant multiset(batchInfos) == multiset(BatchTotals(dispatched))
      decreases if batchSize > 0 then |files| - index else 0
    {
      var batchStart := index;
      var batchEnd := Min(index + batchSize, |files|);
      var batchFiles := files[batchStart..batchEnd];
      assert Min(index, |files|) == index;
      StrideStep(files, batchSize, index, dispatched);

      var batchInfo := CountSequentially(batchFiles);
      var position :| 0 <= position <= |batchInfos|;
      InsertTotal(batchInfos, position, dispatched, batchFiles);
      batchInfos := batchInfos[..position] + [batchInfo] + batchInfos[position..];
      dispatched := dispatched + [batchFiles];
      index := index + batchSize;
      assert Min(index, |files|) == batchEnd;
    }
    if batchSize > 0 {
      assert files[|files|..] == [];
      assert dispatched == Batches(files, batchSize);
      AnyOrderInvariance(dispatched, batchInfos);
      BatchesFlatten(files, batchSize);
    }
    info := Combined(batchInfos);
  }

  /**
   The size dispatch of `countMetricsForDirectory`: more files than
   `batchSize` take the batched path, otherwise the sequential one. Every
   positive batch size gives the sequential total; a negative one gives the
   value of `init()`.
   */
  method CountForFiles(files: seq<string>, batchSize: int) returns (info: LinesInformation)
    requires |files| > batchSize ==> batchSize != 0
    ensures batchSize >= 0 ==> info == CountSequentially(files)
    ensures batchSize < 0 ==> info == Empty()
  {
    if |files| > batchSize {
      info := CountInParallel(files, batchSize);
    } else {
      info := CountSequentially(files);
    }
  }
}
