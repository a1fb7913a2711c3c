/** The whole external sort: the partition phase writes the sorted runs of the input
    into the output file, and the merge phase merges them, using the input file as the
    second file. */
module ExternalSort {
  import opened SortSpec
  import opened Arith
  import opened Files
  import opened Runs
  import opened Partition
  import opened MergeSchedule
  import opened Passes

  /** Sorts the first `n` records of `inp` in runs of `m` records through blocks of `b`
      records: `out` is emptied, receives the sorted runs, and the merge phase merges them
      with `inp` as its second file. Returns the file that holds the result. */
  method SortFileExternal(inp: File, out: File, n: nat, m: nat, b: nat) returns (result: File)
    requires inp != out
    requires b > 0 && m > 0 && m % b == 0
    requires 0 < n <= |inp.data| && n % m == 0 && (n > m ==> m >= 2 * b)
    modifies inp, out
    ensures result == inp || result == out
    ensures n / m >= 1
    ensures result.data == MergeResult(SortEachRun(old(inp.data)[..n], m), m, b, n / m)
  {
    ghost var runs := SortEachRun(inp.data[..n], m);
    out.Clear();
    var partitions := DoPartition(inp, n, out, m, b);
    assert out.data == runs;
    RunCount(n, m, partitions);
    result := ExternalMerge(out, inp, m, b, n, partitions);
  }

  /** The number of runs the partition reports is `n / m`, and there is at least one. */
  lemma RunCount(n: nat, m: nat, partitions: nat)
    requires m > 0 && n > 0 && partitions * m == n
    ensures partitions >= 1 && n / m == partitions
  {
    MulDivCancel(partitions, m);
  }

  /** When the run count has at most two set bits, the external sort leaves the records in
      sorted order, and so exactly the top-down merge sort of the input. */
  lemma ExternalSortSorts(s: seq<Number>, m: nat, b: nat, r: nat)
    requires m > 0 && r >= 1 && |s| == r * m && PopCount(r) <= 2
    ensures MergeResult(SortEachRun(s, m), m, b, r) == TopDownSort(s)
  {
    var runs := SortEachRun(s, m);
    SortEachRunSorted(s, m);
    SortEachRunPermutes(s, m);
    MergeResultSorted(runs, m, b, r);
    SortedPermutationIsSort(s, MergeResult(runs, m, b, r));
  }

  /** Sorting an already sorted file gives it back unchanged, for every run count: each
      run is sorted already and every block merge joins neighbouring slices in order. */
  lemma ExternalSortIdempotent(s: seq<Number>, m: nat, b: nat, r: nat)
    requires m > 0 && r >= 1 && Sorted(s)
    ensures MergeResult(SortEachRun(s, m), m, b, r) == s
  {
    SortEachRunKeepsSorted(s, m);
    MergeResultIdempotent(s, m, b, r);
  }
}
