/** Files of consecutive runs: what the partition phase writes, what one merge pass makes of
    it, and what the block merger computes for one pair of runs. */
module Runs {
  import opened SortSpec
  import opened Arith

  /** Cutting `s` into consecutive slices of `c` records (the last one possibly shorter),
      every slice is sorted. */
  ghost predicate RunsSorted(s: seq<Number>, c: nat)
    requires c > 0
    decreases |s|
  {
    if |s| <= c then Sorted(s) else Sorted(s[..c]) && RunsSorted(s[c..], c)
  }

  /** The partition phase's output for input `s`: each consecutive slice of `m` records
      sorted on its own. */
  ghost function SortEachRun(s: seq<Number>, m: nat): (r: seq<Number>)
    requires m > 0
    ensures |r| == |s|
    decreases |s|
  {
    if |s| <= m then TopDownSort(s) else TopDownSort(s[..m]) + SortEachRun(s[m..], m)
  }

  /** What the block merger writes for runs `x` and `y` read `b` records at a time: a
      two-way merge in which each run, once used up, is followed by sentinel records, cut
      after `|x| + |y|` records. */
  ghost function BlockMerge(x: seq<Number>, y: seq<Number>, b: nat): (r: seq<Number>)
    ensures |r| == |x| + |y|
  {
    Merged(x + Sentinels(|y| + b), y + Sentinels(|x| + b))[..|x| + |y|]
  }

  /** One pass of the merge phase over `s`: consecutive pairs of runs of `c` records are
      block-merged into runs of `2 * c`; what is left when fewer than `2 * c` records
      remain is kept as it is. */
  ghost function MergePairs(s: seq<Number>, c: nat, b: nat): (r: seq<Number>)
    requires c > 0
    ensures |r| == |s|
    decreases |s|
  {
    if |s| < 2 * c then s
    else BlockMerge(s[..c], s[c..2 * c], b) + MergePairs(s[2 * c..], c, b)
  }

  /** On sorted runs the sentinels never reach the output: the block merge is the merge. */
  lemma BlockMergeSorted(x: seq<Number>, y: seq<Number>, b: nat)
    requires Sorted(x) && Sorted(y)
    ensures BlockMerge(x, y, b) == Merged(x, y)
  {
    SentinelMergePrefix(x, y, |y| + b, |x| + b);
  }

  /** Sorting each run keeps the records. */
  lemma {:induction false} SortEachRunPermutes(s: seq<Number>, m: nat)
    requires m > 0
    ensures multiset(SortEachRun(s, m)) == multiset(s)
    decreases |s|
  {
    if |s| <= m {
      TopDownSortPermutes(s);
    } else {
      SortEachRunPermutes(s[m..], m);
      TopDownSortPermutes(s[..m]);
      assert s == s[..m] + s[m..];
    }
  }

  /** A sorted run of `c` records in front of sorted runs gives sorted runs. */
  lemma RunsSortedPrepend(x: seq<Number>, rest: seq<Number>, c: nat)
    requires c > 0 && |x| == c && Sorted(x) && RunsSorted(rest, c)
    ensures RunsSorted(x + rest, c)
  {
    if rest == [] {
      assert x + rest == x;
    } else {
      assert (x + rest)[..c] == x && (x + rest)[c..] == rest;
    }
  }

  /** Sorting each run leaves every run sorted. */
  lemma {:induction false} SortEachRunSorted(s: seq<Number>, m: nat)
    requires m > 0
    ensures RunsSorted(SortEachRun(s, m), m)
    decreases |s|
  {
    if |s| <= m {
      TopDownSortIsSorted(s);
    } else {
      SortEachRunSorted(s[m..], m);
      TopDownSortIsSorted(s[..m]);
      RunsSortedPrepend(TopDownSort(s[..m]), SortEachRun(s[m..], m), m);
    }
  }

  /** The first two runs of a sequence of at least two whole sorted runs are sorted, and
      so are the runs after them. */
  lemma RunsSortedFirstTwo(s: seq<Number>, c: nat)
    requires c > 0 && |s| >= 2 * c && RunsSorted(s, c)
    ensures Sorted(s[..c]) && Sorted(s[c..2 * c]) && RunsSorted(s[2 * c..], c)
  {
    var t := s[c..];
    if |t| <= c {
      assert t == s[c..2 * c] && s[2 * c..] == [];
    } else {
      assert t[..c] == s[c..2 * c] && t[c..] == s[2 * c..];
    }
  }

  /** A merge pass over `h` whole sorted runs of `c` records keeps the records and yields
      sorted runs of `2 * c` records. */
  lemma {:induction false} MergePairsSorted(s: seq<Number>, h: nat, c: nat, b: nat)
    requires c > 0 && |s| == Product(h, c) && RunsSorted(s, c)
    ensures RunsSorted(MergePairs(s, c, b), 2 * c)
    ensures multiset(MergePairs(s, c, b)) == multiset(s)
    decreases h
  {
    if h >= 2 {
      assert |s| == Product(h - 2, c) + c + c;
    } else if h == 1 {
      assert |s| == c;
    }
    if |s| >= 2 * c {
      var u, v, rest := s[..c], s[c..2 * c], s[2 * c..];
      RunsSortedFirstTwo(s, c);
      MergePairsSorted(rest, h - 2, c, b);
      BlockMergeSorted(u, v, b);
      MergedIsSorted(u, v);
      MergedPermutes(u, v);
      RunsSortedPrepend(Merged(u, v), MergePairs(rest, c, b), 2 * c);
      assert s == u + v + rest;
    }
  }

  /** A merge pass leaves a sorted sequence as it is: neighbouring slices of a sorted
      sequence merge back into themselves. */
  lemma {:induction false} MergePairsKeepsSorted(s: seq<Number>, c: nat, b: nat)
    requires c > 0 && Sorted(s)
    ensures MergePairs(s, c, b) == s
    decreases |s|
  {
    if |s| >= 2 * c {
      var u, v, rest := s[..c], s[c..2 * c], s[2 * c..];
      SortedSlice(s, 0, c);
      SortedSlice(s, c, 2 * c);
      SortedSlice(s, 0, 2 * c);
      SortedSlice(s, 2 * c, |s|);
      assert u + v == s[..2 * c] && s[2 * c..|s|] == rest;
      BlockMergeSorted(u, v, b);
      MergedSortedHalves(u, v);
      MergePairsKeepsSorted(rest, c, b);
      assert s == u + v + rest;
    }
  }

  /** A merge pass over whole pairs of runs followed by more records treats the two parts
      separately. */
  lemma {:induction false} MergePairsAppend(t: seq<Number>, u: seq<Number>, k: nat, c: nat, b: nat)
    requires c > 0 && |t| == Product(k, 2 * c)
    ensures MergePairs(t + u, c, b) == MergePairs(t, c, b) + MergePairs(u, c, b)
    decreases k
  {
    if k == 0 {
      assert t + u == u;
    } else {
      assert |t| == Product(k - 1, 2 * c) + 2 * c;
      var t2 := t[2 * c..];
      MergePairsAppend(t2, u, k - 1, c, b);
      MergePairsFront(t, u, c, b);
      ConcatAssoc(BlockMerge(t[..c], t[c..2 * c], b), MergePairs(t2, c, b), MergePairs(u, c, b));
    }
  }

  /** Concatenation is associative. */
  lemma ConcatAssoc(x: seq<Number>, y: seq<Number>, z: seq<Number>)
    ensures x + (y + z) == (x + y) + z
  {
  }

  /** The first pair of runs of `t` is merged first, also when more records follow `t`. */
  lemma MergePairsFront(t: seq<Number>, u: seq<Number>, c: nat, b: nat)
    requires c > 0 && |t| >= 2 * c
    ensures MergePairs(t + u, c, b) == BlockMerge(t[..c], t[c..2 * c], b) + MergePairs(t[2 * c..] + u, c, b)
    ensures MergePairs(t, c, b) == BlockMerge(t[..c], t[c..2 * c], b) + MergePairs(t[2 * c..], c, b)
  {
    var w := t + u;
    assert w[..c] == t[..c] && w[c..2 * c] == t[c..2 * c] && w[2 * c..] == t[2 * c..] + u;
  }

  /** Sorting each run of a sorted sequence gives the sequence back. */
  lemma {:induction false} SortEachRunKeepsSorted(s: seq<Number>, m: nat)
    requires m > 0 && Sorted(s)
    ensures SortEachRun(s, m) == s
    decreases |s|
  {
    if |s| <= m {
      SortIdempotent(s);
    } else {
      SortedSlice(s, 0, m);
      SortedSlice(s, m, |s|);
      assert s[m..|s|] == s[m..];
      SortIdempotent(s[..m]);
      SortEachRunKeepsSorted(s[m..], m);
      assert s == s[..m] + s[m..];
    }
  }

  /** Sorting the runs of whole runs followed by more records treats the two parts
      separately. */
  lemma {:induction false} SortEachRunAppend(t: seq<Number>, u: seq<Number>, k: nat, m: nat)
    requires m > 0 && |t| == Product(k, m)
    ensures SortEachRun(t + u, m) == SortEachRun(t, m) + SortEachRun(u, m)
    decreases k
  {
    if k == 0 {
      assert t + u == u;
    } else if u == [] {
      assert t + u == t;
    } else {
      assert |t| == Product(k - 1, m) + m;
      var t2 := t[m..];
      SortEachRunAppend(t2, u, k - 1, m);
      SortEachRunFront(t, u, m);
      ConcatAssoc(TopDownSort(t[..m]), SortEachRun(t2, m), SortEachRun(u, m));
    }
  }

  /** The first run of `t` is sorted first, also when more records follow `t`. */
  lemma SortEachRunFront(t: seq<Number>, u: seq<Number>, m: nat)
    requires m > 0 && |t| >= m && u != []
    ensures SortEachRun(t + u, m) == TopDownSort(t[..m]) + SortEachRun(t[m..] + u, m)
    ensures SortEachRun(t, m) == TopDownSort(t[..m]) + SortEachRun(t[m..], m)
  {
    var w := t + u;
    assert w[..m] == t[..m] && w[m..] == t[m..] + u;
    if |t| == m {
      assert t[..m] == t && t[m..] == [];
    }
  }
}
