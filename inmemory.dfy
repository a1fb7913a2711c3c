/** The in-memory sorter: a top-down merge sort on an inclusive index range of a buffer,
    merging through copies of the two halves. */
module InMemorySort {
  import opened SortSpec
  import MergeCursor

  /** Merges `nums[left..mid]` and `nums[mid+1..right]` (both inclusive) back into
      `nums[left..right]`; on ties the left half's record is written first. The two
      halves are copied out first, as the source does. */
  method Merge(nums: array<Number>, left: nat, mid: nat, right: nat)
    requires left <= mid <= right < nums.Length
    modifies nums
    ensures MergedInPlace(old(nums[..]), nums[..], left, mid, right)
  {
    var leftPart := nums[left..mid + 1];
    var rightPart := nums[mid + 1..right + 1];
    MergeCopies(nums, left, leftPart, rightPart);
    FilledRange(old(nums[..]), nums[..], Merged(leftPart, rightPart), left, right);
  }

  /** Buffer `b` is buffer `a` with positions `lo..k-1` overwritten by the first `k - lo`
      records of `src`. */
  ghost predicate Filled(a: seq<Number>, b: seq<Number>, src: seq<Number>, lo: nat, k: nat) {
    |a| == |b| && lo <= k <= |a| && k - lo <= |src| &&
    (forall t :: 0 <= t < |a| && !(lo <= t < k) ==> b[t] == a[t]) &&
    (forall t :: lo <= t < k ==> b[t] == src[t - lo])
  }

  /** The merge loops' state: `i` records of `x` and `j` of `y` have been taken, and
      exactly the first `i + j` merged records have been written from `left` on. */
  ghost predicate CopyState(a: seq<Number>, cur: seq<Number>, x: seq<Number>, y: seq<Number>,
                            left: nat, i: nat, j: nat)
  {
    MergeCursor.Remaining(Merged(x, y), x, y, i, j) &&
    Filled(a, cur, Merged(x, y), left, left + i + j)
  }

  /** Writing the head of `x` (not larger than the head of `y`, or `y` is used up) keeps
      the state with one more record of `x` taken. */
  lemma CopyLeft(a: seq<Number>, cur: seq<Number>, cur': seq<Number>, x: seq<Number>, y: seq<Number>, left: nat, i: nat, j: nat)
    requires CopyState(a, cur, x, y, left, i, j) && i < |x| && left + |x| + |y| <= |a|
    requires j == |y| || x[i] <= y[j]
    requires left + i + j < |cur| && cur' == cur[left + i + j := x[i]]
    ensures CopyState(a, cur', x, y, left, i + 1, j)
  {
    MergeCursor.TakeLeft(Merged(x, y), x, y, i, j);
  }

  /** Writing the head of `y` (smaller than the head of `x`, or `x` is used up) keeps the
      state with one more record of `y` taken. */
  lemma CopyRight(a: seq<Number>, cur: seq<Number>, cur': seq<Number>, x: seq<Number>, y: seq<Number>, left: nat, i: nat, j: nat)
    requires CopyState(a, cur, x, y, left, i, j) && j < |y| && left + |x| + |y| <= |a|
    requires i == |x| || y[j] < x[i]
    requires left + i + j < |cur| && cur' == cur[left + i + j := y[j]]
    ensures CopyState(a, cur', x, y, left, i, j + 1)
  {
    MergeCursor.TakeRight(Merged(x, y), x, y, i, j);
  }

  /** Stores the head of `x` at `nums[k]`, the next position of the merge. */
  method PutLeft(nums: array<Number>, k: nat, ghost a: seq<Number>, x: seq<Number>, y: seq<Number>,
                 left: nat, i: nat, j: nat)
    requires k == left + i + j && left + |x| + |y| <= nums.Length && i < |x|
    requires CopyState(a, nums[..], x, y, left, i, j)
    requires j == |y| || x[i] <= y[j]
    modifies nums
    ensures CopyState(a, nums[..], x, y, left, i + 1, j)
  {
    ghost var before := nums[..];
    nums[k] := x[i];
    assert nums[..] == before[k := x[i]];
    CopyLeft(a, before, nums[..], x, y, left, i, j);
  }

  /** Stores the head of `y` at `nums[k]`, the next position of the merge. */
  method PutRight(nums: array<Number>, k: nat, ghost a: seq<Number>, x: seq<Number>, y: seq<Number>,
                  left: nat, i: nat, j: nat)
    requires k == left + i + j && left + |x| + |y| <= nums.Length && j < |y|
    requires CopyState(a, nums[..], x, y, left, i, j)
    requires i == |x| || y[j] < x[i]
    modifies nums
    ensures CopyState(a, nums[..], x, y, left, i, j + 1)
  {
    ghost var before := nums[..];
    nums[k] := y[j];
    assert nums[..] == before[k := y[j]];
    CopyRight(a, before, nums[..], x, y, left, i, j);
  }

  /** The three loops of the merge: while both copies have records, write the smaller
      head (the left one on ties); then write what is left of the left copy; then what is
      left of the right copy. The records go to `nums[left..]`. */
  method MergeCopies(nums: array<Number>, left: nat, leftPart: seq<Number>, rightPart: seq<Number>)
    requires left + |leftPart| + |rightPart| <= nums.Length
    modifies nums
    ensures Filled(old(nums[..]), nums[..], Merged(leftPart, rightPart), left, left + |leftPart| + |rightPart|)
  {
    var leftSize := |leftPart|;
    var rightSize := |rightPart|;
    ghost var a := nums[..];
    MergeCursor.Start(leftPart, rightPart);

    var i, j, k := 0, 0, left;
    while i < leftSize && j < rightSize
      invariant k == left + i + j
      invariant CopyState(a, nums[..], leftPart, rightPart, left, i, j)
    {
      if leftPart[i] <= rightPart[j] {
        PutLeft(nums, k, a, leftPart, rightPart, left, i, j);
        i := i + 1;
      } else {
        PutRight(nums, k, a, leftPart, rightPart, left, i, j);
        j := j + 1;
      }
      k := k + 1;
    }

    while i < leftSize
      invariant k == left + i + j && (i < leftSize ==> j == rightSize)
      invariant CopyState(a, nums[..], leftPart, rightPart, left, i, j)
    {
      PutLeft(nums, k, a, leftPart, rightPart, left, i, j);
      i := i + 1;
      k := k + 1;
    }

    while j < rightSize
      invariant k == left + i + j && i == leftSize
      invariant CopyState(a, nums[..], leftPart, rightPart, left, i, j)
    {
      PutRight(nums, k, a, leftPart, rightPart, left, i, j);
      j := j + 1;
      k := k + 1;
    }
  }

  /** `b` agrees with `a` everywhere outside the inclusive range `lo..hi`. */
  ghost predicate SameOutside(a: seq<Number>, b: seq<Number>, lo: int, hi: int) {
    |a| == |b| && forall t :: 0 <= t < |a| && !(lo <= t <= hi) ==> b[t] == a[t]
  }

  /** Buffer `b` is buffer `a` with the inclusive range `left..right` replaced by the
      top-down merge sort of its contents. */
  ghost predicate SortedInPlace(a: seq<Number>, b: seq<Number>, left: nat, right: nat)
    requires left <= right < |a|
  {
    SameOutside(a, b, left, right) && b[left..right + 1] == TopDownSort(a[left..right + 1])
  }

  /** Buffer `b` is buffer `a` with the inclusive range `left..right` replaced by the merge
      of its two halves `left..mid` and `mid+1..right`. */
  ghost predicate MergedInPlace(a: seq<Number>, b: seq<Number>, left: nat, mid: nat, right: nat)
    requires left <= mid <= right < |a|
  {
    SameOutside(a, b, left, right) && b[left..right + 1] == Merged(a[left..mid + 1], a[mid + 1..right + 1])
  }

  /** A range filled completely from `src` holds `src`. */
  lemma FilledRange(a: seq<Number>, b: seq<Number>, src: seq<Number>, left: nat, right: nat)
    requires right < |a| && |src| == right + 1 - left && Filled(a, b, src, left, right + 1)
    ensures SameOutside(a, b, left, right) && b[left..right + 1] == src
  {
  }

  /** Sorting the two halves in place and then merging them sorts the whole range as the
      top-down merge sort does, and touches nothing outside it. */
  lemma SortSteps(a0: seq<Number>, a1: seq<Number>, a2: seq<Number>, a3: seq<Number>, left: nat, mid: nat, right: nat)
    requires left <= mid < right < |a0| && mid == left + (right - left) / 2
    requires SortedInPlace(a0, a1, left, mid)
    requires SortedInPlace(a1, a2, mid + 1, right)
    requires MergedInPlace(a2, a3, left, mid, right)
    ensures SortedInPlace(a0, a3, left, right)
  {
    var s := a0[left..right + 1];
    var h := mid - left + 1;
    assert h == LeftHalf(|s|);
    assert s[..h] == a0[left..mid + 1];
    assert s[h..] == a1[mid + 1..right + 1] by {
      forall t | mid + 1 <= t <= right ensures a1[t] == a0[t] { }
    }
    assert a2[left..mid + 1] == a1[left..mid + 1] by {
      forall t | left <= t <= mid ensures a2[t] == a1[t] { }
    }
  }

  /** Sorting the whole buffer in place leaves its top-down merge sort. */
  lemma SortedWhole(a: seq<Number>, b: seq<Number>)
    requires |a| > 0 && SortedInPlace(a, b, 0, |a| - 1)
    ensures b == TopDownSort(a)
  {
    assert a[0..|a|] == a && b[0..|b|] == b;
  }

  /** Sorts `nums[left..right]` (inclusive) in place, exactly as the top-down merge sort of
      its old contents; a range with `left >= right` is left untouched. */
  method MergeSort(nums: array<Number>, left: nat, right: nat)
    requires left <= right ==> right < nums.Length
    modifies nums
    ensures left <= right ==> SortedInPlace(old(nums[..]), nums[..], left, right)
    ensures left >= right ==> nums[..] == old(nums[..])
    decreases if left <= right then right - left else 0
  {
    if left >= right {
      return;
    }
    var mid := left + (right - left) / 2;
    ghost var a0 := nums[..];
    MergeSort(nums, left, mid);
    ghost var a1 := nums[..];
    MergeSort(nums, mid + 1, right);
    ghost var a2 := nums[..];
    Merge(nums, left, mid, right);
    SortSteps(a0, a1, a2, nums[..], left, mid, right);
  }
}
