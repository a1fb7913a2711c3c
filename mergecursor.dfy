/** The merge seen through its two read cursors: after `i` records of `x` and `j` of `y`
    have been taken, the records still to be produced are the merge of what is left. Both
    the in-memory merge and the block merger advance their cursors by these steps. */
module MergeCursor {
  import opened SortSpec

  /** `merged[i + j..]` is the merge of `x[i..]` and `y[j..]`. */
  ghost predicate Remaining(merged: seq<Number>, x: seq<Number>, y: seq<Number>, i: nat, j: nat) {
    i <= |x| && j <= |y| && |merged| == |x| + |y| && merged[i + j..] == MergedFrom(x, y, i, j)
  }

  /** Before anything is taken, everything remains. */
  lemma Start(x: seq<Number>, y: seq<Number>)
    ensures Remaining(Merged(x, y), x, y, 0, 0)
  {
  }

  /** Taking the head of `x` (it is the smaller one, or `y` is used up) produces it as the
      next merged record. */
  lemma TakeLeft(merged: seq<Number>, x: seq<Number>, y: seq<Number>, i: nat, j: nat)
    requires Remaining(merged, x, y, i, j) && i < |x|
    requires j == |y| || x[i] <= y[j]
    ensures merged[i + j] == x[i] && Remaining(merged, x, y, i + 1, j)
  {
    assert x[i..] == [x[i]] + x[i + 1..];
    assert merged[i + j..] == [merged[i + j]] + merged[i + j + 1..];
  }

  /** Taking the head of `y` (it is strictly smaller, or `x` is used up) produces it as the
      next merged record. */
  lemma TakeRight(merged: seq<Number>, x: seq<Number>, y: seq<Number>, i: nat, j: nat)
    requires Remaining(merged, x, y, i, j) && j < |y|
    requires i == |x| || y[j] < x[i]
    ensures merged[i + j] == y[j] && Remaining(merged, x, y, i, j + 1)
  {
    assert y[j..] == [y[j]] + y[j + 1..];
    assert merged[i + j..] == [merged[i + j]] + merged[i + j + 1..];
  }

  /** A prefix of `m` extended by records that match `m` position by position is a
      longer prefix of `m`. */
  lemma ExtendPrefix(m: seq<Number>, w: nat, buf: seq<Number>)
    requires w + |buf| <= |m|
    requires forall t :: 0 <= t < |buf| ==> buf[t] == m[w + t]
    ensures m[..w] + buf == m[..w + |buf|]
  {
  }
}
