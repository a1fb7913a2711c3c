/** The partition phase: the input file is cut into runs of `m` records (the memory
    budget); each run is read into memory `b` records (one block) at a time, sorted by the
    in-memory merge sort and appended to the output file. */
module Partition {
  import opened SortSpec
  import opened Arith
  import opened Files
  import opened Runs
  import InMemorySort

  /** Reads the run of `m` records that starts at record `cur` of `inp` (whole blocks while
      more than a block remains before `maxElem`, then the rest), sorts it and appends it to
      `out` in blocks; returns the position after the run. */
  method SortInternal(inp: File, out: File, m: nat, b: nat, cur: nat, maxElem: nat) returns (next: nat)
    requires inp != out
    requires b > 0 && m > 0 && m % b == 0
    requires maxElem <= |inp.data|
    requires cur + m == maxElem || cur + m + b < maxElem
    modifies out
    ensures next == cur + m
    ensures out.data == old(out.data) + TopDownSort(inp.data[cur..cur + m])
  {
    var nums := new Number[m](_ => 0);
    next := ReadRun(inp, nums, b, cur, maxElem);
    ghost var run := nums[..];
    assert run == inp.data[cur..cur + m];
    InMemorySort.MergeSort(nums, 0, m - 1);
    InMemorySort.SortedWhole(run, nums[..]);
    ghost var sorted := nums[..];
    assert sorted == TopDownSort(run);
    WriteRun(out, nums, b);
    assert out.data == old(out.data) + sorted;
  }

  /** The read half of the partition step: fills `nums` with the `nums.Length` records
      that start at `cur`, whole blocks while more than a block remains before `maxElem`,
      then the rest. */
  method ReadRun(inp: File, nums: array<Number>, b: nat, cur: nat, maxElem: nat) returns (next: nat)
    requires b > 0 && nums.Length > 0 && nums.Length % b == 0
    requires maxElem <= |inp.data|
    requires cur + nums.Length == maxElem || cur + nums.Length + b < maxElem
    modifies nums
    ensures next == cur + nums.Length
    ensures nums[..] == inp.data[cur..next]
  {
    var m := nums.Length;
    AlignedFromMod(m, b);
    var currentBlock := 0;
    next := cur;
    while currentBlock < m && next + b < maxElem
      invariant Aligned(currentBlock, b) && currentBlock <= m && next == cur + currentBlock
      invariant nums[..currentBlock] == inp.data[cur..next]
    {
      AlignedRoom(currentBlock, m, b);
      ReadMore(inp, nums, cur, currentBlock, b);
      assert Aligned(currentBlock + b, b);
      next := next + b;
      currentBlock := currentBlock + b;
    }
    if next + b >= maxElem {
      if currentBlock < m {
        AlignedRoom(currentBlock, m, b);
      }
      var rest := maxElem - next;
      ReadMore(inp, nums, cur, currentBlock, rest);
      next := next + rest;
      currentBlock := currentBlock + rest;
    }
    // The buffer is full: shrinking it to `currentBlock` records changes nothing.
    assert currentBlock == m;
    assert nums[..] == nums[..currentBlock];
  }

  /** Reads the next `count` records of the run at `cur` into `nums[k..]`, behind the `k`
      records of the run already read. */
  method ReadMore(inp: File, nums: array<Number>, cur: nat, k: nat, count: nat)
    requires k + count <= nums.Length && cur + k + count <= |inp.data|
    requires nums[..k] == inp.data[cur..cur + k]
    modifies nums
    ensures nums[..k + count] == inp.data[cur..cur + k + count]
  {
    ReadData(inp, nums, cur + k, k, count);
    ReadExtends(nums[..], inp.data, k, cur, count);
  }

  /** After a read of `count` records at buffer position `k`, the buffer prefix that held
      `data[cur..cur + k]` holds `data[cur..cur + k + count]`. */
  lemma ReadExtends(buf: seq<Number>, data: seq<Number>, k: nat, cur: nat, count: nat)
    requires k + count <= |buf| && cur + k + count <= |data|
    requires buf[..k] == data[cur..cur + k]
    requires buf[k..k + count] == data[cur + k..cur + k + count]
    ensures buf[..k + count] == data[cur..cur + k + count]
  {
    assert buf[..k + count] == buf[..k] + buf[k..k + count];
    assert data[cur..cur + k + count] == data[cur..cur + k] + data[cur + k..cur + k + count];
  }

  /** The write half of the partition step: appends all of `nums` to `out`, one block at a
      time. */
  method WriteRun(out: File, nums: array<Number>, b: nat)
    requires b > 0 && nums.Length % b == 0
    modifies out
    ensures out.data == old(out.data) + nums[..]
  {
    var m := nums.Length;
    AlignedFromMod(m, b);
    var currentElem := 0;
    while currentElem < m
      invariant Aligned(currentElem, b) && currentElem <= m
      invariant out.data == old(out.data) + nums[..currentElem]
    {
      AlignedRoom(currentElem, m, b);
      out.Write(nums, currentElem, b);
      assert nums[..currentElem + b] == nums[..currentElem] + nums[currentElem..currentElem + b];
      assert Aligned(currentElem + b, b);
      currentElem := currentElem + b;
    }
    // Every run is a whole number of blocks, so no partial block is left to write.
    assert m - currentElem == 0;
    assert nums[..currentElem] == nums[..];
  }

  /** Sorting the runs of `s[cur..n]` is sorting the first run and then the runs after it. */
  lemma SortEachRunStep(s: seq<Number>, cur: nat, n: nat, m: nat)
    requires m > 0 && cur + m <= n <= |s|
    ensures SortEachRun(s[cur..n], m) == TopDownSort(s[cur..cur + m]) + SortEachRun(s[cur + m..n], m)
  {
    var t := s[cur..n];
    assert t[..m] == s[cur..cur + m] && t[m..] == s[cur + m..n];
    if n == cur + m {
      assert s[cur + m..n] == [];
    }
  }

  /** Appending the sorted next run to the output moves it from the runs still to sort to
      the runs written. */
  lemma PartitionStep(input: seq<Number>, before: seq<Number>, after: seq<Number>, cur: nat, n: nat, m: nat, total: seq<Number>)
    requires m > 0 && cur + m <= n <= |input|
    requires before + SortEachRun(input[cur..n], m) == total
    requires after == before + TopDownSort(input[cur..cur + m])
    ensures after + SortEachRun(input[cur + m..n], m) == total
  {
    SortEachRunStep(input, cur, n, m);
    var t, x := TopDownSort(input[cur..cur + m]), SortEachRun(input[cur + m..n], m);
    assert (before + t) + x == before + (t + x);
  }

  /** The next run fits, and the position after it is a legal start for the run after it. */
  lemma RunFits(n: nat, cur: nat, m: nat, b: nat)
    requires b > 0 && m > 0 && cur < n && (n - cur) % m == 0 && (n > m ==> m >= 2 * b)
    ensures cur + m <= n && (n - cur - m) % m == 0
    ensures cur + m == n || cur + m + b < n
  {
    MultipleGap(n - cur, m);
    if cur + m < n {
      MultipleGap(n - cur - m, m);
    }
  }

  /** Cuts the first `n` records of `inp` into runs of `m` records, sorts each and appends
      them to `out` in order; returns the number of runs. */
  method DoPartition(inp: File, n: nat, out: File, m: nat, b: nat) returns (partitions: nat)
    requires inp != out
    requires b > 0 && m > 0 && m % b == 0
    requires n <= |inp.data| && n % m == 0
    requires n > m ==> m >= 2 * b
    modifies out
    ensures partitions * m == n
    ensures out.data == old(out.data) + SortEachRun(inp.data[..n], m)
  {
    var cur := 0;
    partitions := 0;
    ghost var input := inp.data;
    ghost var runs := SortEachRun(input[..n], m);
    assert input[..n] == input[0..n];
    while cur < n
      invariant inp.data == input
      invariant cur <= n && (n - cur) % m == 0 && partitions * m == cur
      invariant out.data + SortEachRun(input[cur..n], m) == old(out.data) + runs
    {
      RunFits(n, cur, m, b);
      MulSucc(partitions, m);
      ghost var before := out.data;
      var next := SortInternal(inp, out, m, b, cur, n);
      PartitionStep(input, before, out.data, cur, n, m, old(out.data) + runs);
      assert input[next..n] == input[cur + m..n];
      cur := next;
      partitions := partitions + 1;
    }
  }
}
