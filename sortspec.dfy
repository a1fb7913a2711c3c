/** Records, ordering and the reference definitions every phase of the sort is proved against. */
module SortSpec {

  const INT64_MIN: int := -0x8000_0000_0000_0000
  /** The largest record value; the block merger also uses it as its "run exhausted" sentinel. */
  const INT64_MAX: int := 0x7fff_ffff_ffff_ffff

  /** A record: a signed 64-bit integer. */
  type Number = x: int | INT64_MIN <= x <= INT64_MAX

  ghost predicate Sorted(s: seq<Number>) {
    forall i, j :: 0 <= i < j < |s| ==> s[i] <= s[j]
  }

  /** `n` copies of the sentinel value. */
  ghost function Sentinels(n: nat): seq<Number> {
    seq(n, _ => INT64_MAX)
  }

  /** The merge of `x[i..]` and `y[j..]` by repeated comparison of their first records;
      on ties the record of `x` is taken first. */
  ghost function MergedFrom(x: seq<Number>, y: seq<Number>, i: nat, j: nat): (r: seq<Number>)
    requires i <= |x| && j <= |y|
    ensures |r| == |x| - i + |y| - j
    decreases |x| - i + |y| - j
  {
    if i == |x| then y[j..]
    else if j == |y| then x[i..]
    else if x[i] <= y[j] then [x[i]] + MergedFrom(x, y, i + 1, j)
    else [y[j]] + MergedFrom(x, y, i, j + 1)
  }

  /** Two-way merge of `x` and `y`, the left run winning ties. */
  ghost function Merged(x: seq<Number>, y: seq<Number>): (r: seq<Number>)
    ensures |r| == |x| + |y|
  {
    MergedFrom(x, y, 0, 0)
  }

  /** Size of the left half when a range of `n` records is split at its midpoint
      (`i_mid = i_left + (i_right - i_left) / 2`, both halves inclusive). */
  function LeftHalf(n: nat): (h: nat)
    requires n >= 2
    ensures 1 <= h < n
  {
    (n - 1) / 2 + 1
  }

  /** Top-down merge sort: sort both halves, then merge them. */
  ghost function TopDownSort(s: seq<Number>): (r: seq<Number>)
    ensures |r| == |s|
    decreases |s|
  {
    if |s| <= 1 then s
    else
      var h := LeftHalf(|s|);
      Merged(TopDownSort(s[..h]), TopDownSort(s[h..]))
  }

  /** Every element of `s` is at least `v`. */
  ghost predicate AllAtLeast(s: seq<Number>, v: Number) {
    forall t :: 0 <= t < |s| ==> v <= s[t]
  }

  /** Taking the first remaining record off `x[i..]`, as a multiset. */
  lemma DropFirst(x: seq<Number>, i: nat)
    requires i < |x|
    ensures multiset(x[i..]) == multiset{x[i]} + multiset(x[i + 1..])
  {
    assert x[i..] == [x[i]] + x[i + 1..];
  }

  /** The merge takes every record of both inputs exactly once. */
  lemma {:induction false} MergedFromPermutes(x: seq<Number>, y: seq<Number>, i: nat, j: nat)
    requires i <= |x| && j <= |y|
    ensures multiset(MergedFrom(x, y, i, j)) == multiset(x[i..]) + multiset(y[j..])
    decreases |x| - i + |y| - j
  {
    if i == |x| {
      assert x[i..] == [];
    } else if j == |y| {
      assert y[j..] == [];
    } else if x[i] <= y[j] {
      MergedFromPermutes(x, y, i + 1, j);
      DropFirst(x, i);
      assert MergedFrom(x, y, i, j) == [x[i]] + MergedFrom(x, y, i + 1, j);
    } else {
      MergedFromPermutes(x, y, i, j + 1);
      DropFirst(y, j);
      assert MergedFrom(x, y, i, j) == [y[j]] + MergedFrom(x, y, i, j + 1);
    }
  }

  /** `Merged(x, y)` is a permutation of `x + y`. */
  lemma MergedPermutes(x: seq<Number>, y: seq<Number>)
    ensures multiset(Merged(x, y)) == multiset(x) + multiset(y)
  {
    MergedFromPermutes(x, y, 0, 0);
    assert x[0..] == x && y[0..] == y;
  }

  lemma PrependSorted(v: Number, s: seq<Number>)
    requires Sorted(s) && AllAtLeast(s, v)
    ensures Sorted([v] + s)
  {
    var r := [v] + s;
    forall i, j | 0 <= i < j < |r| ensures r[i] <= r[j] {
      if i > 0 {
        assert r[i] == s[i - 1] && r[j] == s[j - 1];
      } else {
        assert r[j] == s[j - 1];
      }
    }
  }

  /** A lower bound of every remaining record of `x` and of `y` bounds every record of
      their merge. */
  lemma MergedFromLowerBound(x: seq<Number>, y: seq<Number>, i: nat, j: nat, v: Number)
    requires i <= |x| && j <= |y|
    requires AllAtLeast(x[i..], v) && AllAtLeast(y[j..], v)
    ensures AllAtLeast(MergedFrom(x, y, i, j), v)
  {
    var r := MergedFrom(x, y, i, j);
    MergedFromPermutes(x, y, i, j);
    forall t | 0 <= t < |r| ensures v <= r[t] {
      assert r[t] in multiset(r);
      assert r[t] in multiset(x[i..]) || r[t] in multiset(y[j..]);
    }
  }

  /** Merging the remainders of two sorted sequences yields a sorted sequence. */
  lemma {:induction false} MergedFromSorted(x: seq<Number>, y: seq<Number>, i: nat, j: nat)
    requires i <= |x| && j <= |y|
    requires Sorted(x) && Sorted(y)
    ensures Sorted(MergedFrom(x, y, i, j))
    decreases |x| - i + |y| - j
  {
    if i < |x| && j < |y| {
      if x[i] <= y[j] {
        MergedFromSorted(x, y, i + 1, j);
        assert AllAtLeast(y[j..], x[i]) by {
          forall t | 0 <= t < |y[j..]| ensures x[i] <= y[j..][t] {
            assert y[j] <= y[j + t];
          }
        }
        MergedFromLowerBound(x, y, i + 1, j, x[i]);
        PrependSorted(x[i], MergedFrom(x, y, i + 1, j));
      } else {
        MergedFromSorted(x, y, i, j + 1);
        assert AllAtLeast(x[i..], y[j]) by {
          forall t | 0 <= t < |x[i..]| ensures y[j] <= x[i..][t] {
            assert x[i] <= x[i + t];
          }
        }
        MergedFromLowerBound(x, y, i, j + 1, y[j]);
        PrependSorted(y[j], MergedFrom(x, y, i, j + 1));
      }
    }
  }

  /** Merging two sorted sequences yields a sorted sequence. */
  lemma MergedIsSorted(x: seq<Number>, y: seq<Number>)
    requires Sorted(x) && Sorted(y)
    ensures Sorted(Merged(x, y))
  {
    MergedFromSorted(x, y, 0, 0);
  }

  /** The first element of a sorted sequence is a lower bound of its records. */
  lemma HeadIsLeast(x: seq<Number>, v: Number)
    requires Sorted(x) && v in multiset(x)
    ensures x[0] <= v
  {
    assert v in x;
    var a :| 0 <= a < |x| && x[a] == v;
  }

  lemma SortedTail(x: seq<Number>)
    requires Sorted(x) && x != []
    ensures Sorted(x[1..])
  {
  }

  /** Removing equal first elements from two permutations of each other leaves permutations. */
  lemma MultisetTail(x: seq<Number>, y: seq<Number>)
    requires x != [] && y != [] && x[0] == y[0] && multiset(x) == multiset(y)
    ensures multiset(x[1..]) == multiset(y[1..])
  {
    assert x == [x[0]] + x[1..];
    assert y == [y[0]] + y[1..];
    assert multiset(x[1..]) == multiset(x) - multiset{x[0]};
    assert multiset(y[1..]) == multiset(y) - multiset{y[0]};
  }

  /** A sorted sequence is determined by its multiset: any two sorted permutations of
      the same records are equal. */
  lemma {:induction false} SortedUnique(x: seq<Number>, y: seq<Number>)
    requires Sorted(x) && Sorted(y)
    requires multiset(x) == multiset(y)
    ensures x == y
    decreases |x|
  {
    assert |x| == |multiset(x)| == |multiset(y)| == |y|;
    if x != [] {
      assert x[0] in multiset(x) && y[0] in multiset(y);
      HeadIsLeast(y, x[0]);
      HeadIsLeast(x, y[0]);
      MultisetTail(x, y);
      SortedTail(x);
      SortedTail(y);
      SortedUnique(x[1..], y[1..]);
      assert x == [x[0]] + x[1..] && y == [y[0]] + y[1..];
    }
  }

  /** The top-down merge sort returns a permutation of its input. */
  lemma {:induction false} TopDownSortPermutes(s: seq<Number>)
    ensures multiset(TopDownSort(s)) == multiset(s)
    decreases |s|
  {
    if |s| > 1 {
      var h := LeftHalf(|s|);
      TopDownSortPermutes(s[..h]);
      TopDownSortPermutes(s[h..]);
      MergedPermutes(TopDownSort(s[..h]), TopDownSort(s[h..]));
      assert s == s[..h] + s[h..];
    }
  }

  /** The top-down merge sort returns a sorted sequence. */
  lemma {:induction false} TopDownSortIsSorted(s: seq<Number>)
    ensures Sorted(TopDownSort(s))
    decreases |s|
  {
    if |s| > 1 {
      var h := LeftHalf(|s|);
      TopDownSortIsSorted(s[..h]);
      TopDownSortIsSorted(s[h..]);
      MergedIsSorted(TopDownSort(s[..h]), TopDownSort(s[h..]));
    }
  }

  /** Any sorted permutation of `s` is exactly `TopDownSort(s)`: the reference sort and
      any other correct sort (such as `std::sort`) agree record for record. */
  lemma SortedPermutationIsSort(s: seq<Number>, t: seq<Number>)
    requires Sorted(t) && multiset(t) == multiset(s)
    ensures t == TopDownSort(s)
  {
    TopDownSortIsSorted(s);
    TopDownSortPermutes(s);
    SortedUnique(t, TopDownSort(s));
  }

  /** Sorting already sorted records reproduces them. */
  lemma SortIdempotent(s: seq<Number>)
    requires Sorted(s)
    ensures TopDownSort(s) == s
  {
    SortedPermutationIsSort(s, s);
  }

  /** Appending sentinels keeps a sorted sequence sorted. */
  lemma SentinelsExtendSorted(a: seq<Number>, n: nat)
    requires Sorted(a)
    ensures Sorted(a + Sentinels(n))
  {
  }

  lemma SentinelsSplit(m: nat, n: nat)
    ensures Sentinels(m) + Sentinels(n) == Sentinels(m + n)
    ensures multiset(Sentinels(m + n)) == multiset(Sentinels(m)) + multiset(Sentinels(n))
  {
    assert Sentinels(m) + Sentinels(n) == Sentinels(m + n);
  }

  /** Padding two runs with sentinels pads their merge with all the sentinels, as a
      multiset. */
  lemma SentinelMergePermutes(a: seq<Number>, b: seq<Number>, m: nat, n: nat)
    ensures multiset(Merged(a + Sentinels(m), b + Sentinels(n)))
         == multiset(Merged(a, b) + Sentinels(m + n))
  {
    MergedPermutes(a + Sentinels(m), b + Sentinels(n));
    MergedPermutes(a, b);
    SentinelsSplit(m, n);
  }

  /** The sentinel stand-in for an exhausted run is harmless even when INT64_MAX occurs as
      data: merging two sorted runs each padded with sentinels gives the merge of the runs
      followed by all the sentinels. */
  lemma SentinelMerge(a: seq<Number>, b: seq<Number>, m: nat, n: nat)
    requires Sorted(a) && Sorted(b)
    ensures Merged(a + Sentinels(m), b + Sentinels(n)) == Merged(a, b) + Sentinels(m + n)
  {
    SentinelsExtendSorted(a, m);
    SentinelsExtendSorted(b, n);
    MergedIsSorted(a + Sentinels(m), b + Sentinels(n));
    MergedIsSorted(a, b);
    SentinelsExtendSorted(Merged(a, b), m + n);
    SentinelMergePermutes(a, b, m, n);
    SortedUnique(Merged(a + Sentinels(m), b + Sentinels(n)), Merged(a, b) + Sentinels(m + n));
  }

  /** The first `|a| + |b|` records of the padded merge are the merge of the runs. */
  lemma SentinelMergePrefix(a: seq<Number>, b: seq<Number>, m: nat, n: nat)
    requires Sorted(a) && Sorted(b)
    ensures Merged(a + Sentinels(m), b + Sentinels(n))[..|a| + |b|] == Merged(a, b)
  {
    SentinelMerge(a, b, m, n);
  }

  /** Every slice of a sorted sequence is sorted. */
  lemma SortedSlice(s: seq<Number>, i: nat, j: nat)
    requires Sorted(s) && i <= j <= |s|
    ensures Sorted(s[i..j])
  {
    forall p, q | 0 <= p < q < j - i ensures s[i..j][p] <= s[i..j][q] {
      assert s[i..j][p] == s[i + p] && s[i..j][q] == s[i + q];
    }
  }

  /** Merging the two halves of a sorted sequence gives the sequence back. */
  lemma MergedSortedHalves(x: seq<Number>, y: seq<Number>)
    requires Sorted(x + y)
    ensures Merged(x, y) == x + y
  {
    SortedSlice(x + y, 0, |x|);
    SortedSlice(x + y, |x|, |x| + |y|);
    assert (x + y)[..|x|] == x && (x + y)[|x|..|x| + |y|] == y;
    MergedIsSorted(x, y);
    MergedPermutes(x, y);
    SortedUnique(Merged(x, y), x + y);
  }

  /** Records of `x` from `i` up to `k` that are no larger than the head of `y[j..]` come
      out of the merge first, in their order. */
  lemma {:induction false} MergedFromLeftRun(x: seq<Number>, y: seq<Number>, i: nat, j: nat, k: nat)
    requires i <= k <= |x| && j < |y|
    requires forall t :: i <= t < k ==> x[t] <= y[j]
    ensures MergedFrom(x, y, i, j) == x[i..k] + MergedFrom(x, y, k, j)
    decreases k - i
  {
    if i < k {
      assert x[i] <= y[j];
      assert MergedFrom(x, y, i, j) == [x[i]] + MergedFrom(x, y, i + 1, j);
      MergedFromLeftRun(x, y, i + 1, j, k);
      var rest := MergedFrom(x, y, k, j);
      assert x[i..k] + rest == [x[i]] + (x[i + 1..k] + rest);
    }
  }

  /** Records of `y` from `j` up to `k` that are smaller than the head of `x[i..]` come out
      of the merge first, in their order. */
  lemma {:induction false} MergedFromRightRun(x: seq<Number>, y: seq<Number>, i: nat, j: nat, k: nat)
    requires j <= k <= |y| && i < |x|
    requires forall t :: j <= t < k ==> y[t] < x[i]
    ensures MergedFrom(x, y, i, j) == y[j..k] + MergedFrom(x, y, i, k)
    decreases k - j
  {
    if j < k {
      assert y[j] < x[i];
      assert MergedFrom(x, y, i, j) == [y[j]] + MergedFrom(x, y, i, j + 1);
      MergedFromRightRun(x, y, i, j + 1, k);
      var rest := MergedFrom(x, y, i, k);
      assert y[j..k] + rest == [y[j]] + (y[j + 1..k] + rest);
    }
  }
}
