/** The block merger's state between two rounds of its main loop, and the steps that keep
    it: which blocks of the two sentinel-padded runs the read buffers hold, how far the
    merge has got, and which merged records wait in the write buffer. */
module BlockMergeState {
  import opened SortSpec
  import opened Arith
  import MergeCursor

  /** Block `blk` holds the records `stream[g..g + |blk|]`. */
  ghost predicate Holds(blk: seq<Number>, stream: seq<Number>, g: nat) {
    g + |blk| <= |stream| && forall t :: 0 <= t < |blk| ==> blk[t] == stream[g + t]
  }

  /** The first `k` records of the write buffer `buf` are the merged records that follow the
      first `written` ones. */
  ghost predicate Pending(buf: seq<Number>, merged: seq<Number>, written: nat, k: nat) {
    k <= |buf| && written + k <= |merged| && forall t :: 0 <= t < k ==> buf[t] == merged[written + t]
  }

  /** Storing the next merged record extends the pending records by one. */
  lemma PendingNext(buf: seq<Number>, merged: seq<Number>, written: nat, k: nat, v: Number)
    requires Pending(buf, merged, written, k) && k < |buf| && written + k < |merged|
    requires v == merged[written + k]
    ensures Pending(buf[k := v], merged, written, k + 1)
  {
  }

  /** A block read from the file at offset `g` of the run `data[start..start + size]`
      holds that part of the run's sentinel-padded stream. */
  lemma HoldsRead(blk: seq<Number>, data: seq<Number>, start: nat, size: nat, pad: nat, g: nat)
    requires start + size <= |data| && g + |blk| <= size
    requires blk == data[start + g..start + g + |blk|]
    ensures Holds(blk, data[start..start + size] + Sentinels(pad), g)
  {
  }

  /** A block of sentinels past the end of run `x` holds that part of the run's padded
      stream. */
  lemma HoldsSentinels(blk: seq<Number>, x: seq<Number>, pad: nat, g: nat)
    requires |x| <= g && g + |blk| <= |x| + pad
    requires forall t :: 0 <= t < |blk| ==> blk[t] == INT64_MAX
    ensures Holds(blk, x + Sentinels(pad), g)
  {
  }

  /** The state of the block merger between two rounds of its main loop, over the
      contents of its three buffers: each read buffer holds the block of its padded stream
      that starts at a block boundary `g1` or `g2`, the read cursors `i` and `j` have taken
      exactly the records the merge has produced so far, and the write buffer holds the
      `k` of them that follow the `written` ones already in the file. */
  // Contracts write `MergeState(...) == true`: a bare call is split into its conjuncts at every
  // use, which makes the proofs that use it several times more expensive to verify.
  ghost predicate MergeState(b: nat, total: nat, xs: seq<Number>, ys: seq<Number>, merged: seq<Number>,
                             blk1: seq<Number>, blk2: seq<Number>, buf: seq<Number>,
                             g1: nat, i: nat, g2: nat, j: nat, k: nat, written: nat)
  {
    b > 0 && |blk1| == b && |blk2| == b && |buf| == b &&
    |xs| == total + b && |ys| == total + b &&
    Aligned(g1, b) && Aligned(g2, b) && i <= b && j <= b && k <= b &&
    Holds(blk1, xs, g1) && Holds(blk2, ys, g2) &&
    MergeCursor.Remaining(merged, xs, ys, g1 + i, g2 + j) &&
    written + k == g1 + i + g2 + j &&
    Pending(buf, merged, written, k) &&
    written <= total && Aligned(total - written, b) && (written < total || k == 0)
  }

  /** Moving the head of the first read buffer, when it is not larger than the head of
      the second, to the write buffer keeps the state with one more record taken. */
  lemma StepLeft(b: nat, total: nat, xs: seq<Number>, ys: seq<Number>, merged: seq<Number>,
                 blk1: seq<Number>, blk2: seq<Number>, buf: seq<Number>,
                 g1: nat, i: nat, g2: nat, j: nat, k: nat, written: nat)
    requires MergeState(b, total, xs, ys, merged, blk1, blk2, buf, g1, i, g2, j, k, written)
    requires i < b && j < b && k < b && written < total && blk1[i] <= blk2[j]
    ensures MergeState(b, total, xs, ys, merged, blk1, blk2, buf[k := blk1[i]], g1, i + 1, g2, j, k + 1, written)
  {
    assert blk1[i] == xs[g1 + i] && blk2[j] == ys[g2 + j];
    MergeCursor.TakeLeft(merged, xs, ys, g1 + i, g2 + j);
    assert written + k == (g1 + i) + (g2 + j);
    PendingNext(buf, merged, written, k, blk1[i]);
  }

  /** Moving the head of the second read buffer, when it is smaller than the head of the
      first, to the write buffer keeps the state with one more record taken. */
  lemma StepRight(b: nat, total: nat, xs: seq<Number>, ys: seq<Number>, merged: seq<Number>,
                  blk1: seq<Number>, blk2: seq<Number>, buf: seq<Number>,
                  g1: nat, i: nat, g2: nat, j: nat, k: nat, written: nat)
    requires MergeState(b, total, xs, ys, merged, blk1, blk2, buf, g1, i, g2, j, k, written)
    requires i < b && j < b && k < b && written < total && blk2[j] < blk1[i]
    ensures MergeState(b, total, xs, ys, merged, blk1, blk2, buf[k := blk2[j]], g1, i, g2, j + 1, k + 1, written)
  {
    assert blk1[i] == xs[g1 + i] && blk2[j] == ys[g2 + j];
    MergeCursor.TakeRight(merged, xs, ys, g1 + i, g2 + j);
    assert written + k == (g1 + i) + (g2 + j);
    PendingNext(buf, merged, written, k, blk2[j]);
  }

  /** Once both read buffers hold the first block of their streams, nothing is merged yet
      and the state holds. */
  lemma StartState(b: nat, total: nat, xs: seq<Number>, ys: seq<Number>,
                   blk1: seq<Number>, blk2: seq<Number>, buf: seq<Number>)
    requires b > 0 && |blk1| == b && |blk2| == b && |buf| == b && Aligned(total, b)
    requires |xs| == total + b && |ys| == total + b
    requires Holds(blk1, xs, 0) && Holds(blk2, ys, 0)
    ensures MergeState(b, total, xs, ys, Merged(xs, ys), blk1, blk2, buf, 0, 0, 0, 0, 0, 0)
  {
    MergeCursor.Start(xs, ys);
  }

  /** After the inner loop, while output remains, a used-up read buffer's stream still
      has a whole block after the current one. */
  lemma RoomForNext(b: nat, total: nat, xs: seq<Number>, ys: seq<Number>, merged: seq<Number>,
                    blk1: seq<Number>, blk2: seq<Number>, buf: seq<Number>,
                    g1: nat, i: nat, g2: nat, j: nat, k: nat, written: nat)
    requires MergeState(b, total, xs, ys, merged, blk1, blk2, buf, g1, i, g2, j, k, written)
    requires written < total
    ensures i == b ==> g1 + 2 * b <= |xs|
    ensures j == b ==> g2 + 2 * b <= |ys|
  {
  }

  /** Replacing a used-up first read buffer by the next block of its stream keeps the
      state. */
  lemma RefillFirst(b: nat, total: nat, xs: seq<Number>, ys: seq<Number>, merged: seq<Number>,
                    blk1: seq<Number>, blk1': seq<Number>, blk2: seq<Number>, buf: seq<Number>,
                    g1: nat, g2: nat, j: nat, k: nat, written: nat)
    requires MergeState(b, total, xs, ys, merged, blk1, blk2, buf, g1, b, g2, j, k, written)
    requires |blk1'| == b && Holds(blk1', xs, g1 + b)
    ensures MergeState(b, total, xs, ys, merged, blk1', blk2, buf, g1 + b, 0, g2, j, k, written)
  {
  }

  /** Replacing a used-up second read buffer by the next block of its stream keeps the
      state. */
  lemma RefillSecond(b: nat, total: nat, xs: seq<Number>, ys: seq<Number>, merged: seq<Number>,
                     blk1: seq<Number>, blk2: seq<Number>, blk2': seq<Number>, buf: seq<Number>,
                     g1: nat, i: nat, g2: nat, k: nat, written: nat)
    requires MergeState(b, total, xs, ys, merged, blk1, blk2, buf, g1, i, g2, b, k, written)
    requires |blk2'| == b && Holds(blk2', ys, g2 + b)
    ensures MergeState(b, total, xs, ys, merged, blk1, blk2', buf, g1, i, g2 + b, 0, k, written)
  {
  }

  /** Flushing the full write buffer while output remains keeps the state, and what the
      file holds grows from the first `written` merged records to the first
      `written + b`. */
  lemma Flush(b: nat, total: nat, xs: seq<Number>, ys: seq<Number>, merged: seq<Number>,
              blk1: seq<Number>, blk2: seq<Number>, buf: seq<Number>,
              g1: nat, i: nat, g2: nat, j: nat, written: nat)
    requires MergeState(b, total, xs, ys, merged, blk1, blk2, buf, g1, i, g2, j, b, written)
    requires written < total
    ensures MergeState(b, total, xs, ys, merged, blk1, blk2, buf, g1, i, g2, j, 0, written + b)
    ensures merged[..written] + buf == merged[..written + b]
  {
    MergeCursor.ExtendPrefix(merged, written, buf);
  }

  /** How many of the two read buffers are used up. */
  function UsedUp(i: nat, j: nat, b: nat): nat {
    (if i == b then 1 else 0) + (if j == b then 1 else 0)
  }

  /** The block merger's progress between two rounds: more records written, or as many
      written and more pending, or as many pending and fewer read buffers used up. */
  predicate Advanced(written: nat, k: nat, used: nat, written': nat, k': nat, used': nat) {
    written' > written || (written' == written && (k' > k || (k' == k && used' < used)))
  }
}
