/** The block merger: two sorted runs of the input file are merged into the output file
    through three buffers of one block each, two read buffers and one write buffer. A read
    buffer whose run is used up is filled with sentinel records (INT64_MAX) instead. */
module ChunkMerge {
  import opened SortSpec
  import opened Arith
  import opened Files
  import opened Runs
  import MergeCursor
  import opened BlockMergeState

  function Min(a: nat, b: nat): nat {
    if a <= b then a else b
  }

  /** Fills the whole buffer with `v`. */
  method Fill(buf: array<Number>, v: Number)
    modifies buf
    ensures forall t :: 0 <= t < buf.Length ==> buf[t] == v
  {
    forall t | 0 <= t < buf.Length {
      buf[t] := v;
    }
  }

  /** Gets the next block of the run `inp.data[start..start + size]` into `blk`, whose
      current block starts at offset `g` of the run: the next `b` records from the file
      while the run has unread records, sentinels once it has none. `chunk` is the file
      position of the next unread record of the run. */
  method NextBlock(inp: File, blk: array<Number>, chunk: nat, start: nat, size: nat, ghost pad: nat, ghost g: nat)
    returns (next: nat)
    requires blk.Length > 0 && Aligned(size, blk.Length) && Aligned(g, blk.Length)
    requires start + size <= |inp.data|
    requires chunk == start + Min(g + blk.Length, size)
    requires g + 2 * blk.Length <= size + pad
    modifies blk
    ensures next == start + Min(g + 2 * blk.Length, size)
    ensures Holds(blk[..], inp.data[start..start + size] + Sentinels(pad), g + blk.Length)
  {
    var b := blk.Length;
    if chunk < start + size {
      AlignedRoom(g + b, size, b);
      ReadData(inp, blk, chunk, 0, b);
      HoldsRead(blk[..], inp.data, start, size, pad, g + b);
      next := chunk + b;
    } else {
      Fill(blk, INT64_MAX);
      HoldsSentinels(blk[..], inp.data[start..start + size], pad, g + b);
      next := chunk;
    }
  }

  /** One step of the inner loop: moves the smaller head record of the two read buffers
      (the first buffer's on ties) to the write buffer. */
  method MoveSmaller(block1: array<Number>, block2: array<Number>, outBuf: array<Number>,
                     b: nat, total: nat, i: nat, j: nat, k: nat, written: nat,
                     ghost xs: seq<Number>, ghost ys: seq<Number>, ghost merged: seq<Number>,
                     ghost g1: nat, ghost g2: nat)
    returns (i': nat, j': nat)
    requires outBuf != block1 && outBuf != block2
    requires MergeState(b, total, xs, ys, merged, block1[..], block2[..], outBuf[..], g1, i, g2, j, k, written) == true
    requires i < b && j < b && k < b && written < total
    modifies outBuf
    ensures MergeState(b, total, xs, ys, merged, block1[..], block2[..], outBuf[..], g1, i', g2, j', k + 1, written) == true
    ensures (i' == i + 1 && j' == j) || (i' == i && j' == j + 1)
  {
    ghost var blk1, blk2, buf := block1[..], block2[..], outBuf[..];
    if block1[i] <= block2[j] {
      StepLeft(b, total, xs, ys, merged, blk1, blk2, buf, g1, i, g2, j, k, written);
      outBuf[k] := block1[i];
      i', j' := i + 1, j;
    } else {
      StepRight(b, total, xs, ys, merged, blk1, blk2, buf, g1, i, g2, j, k, written);
      outBuf[k] := block2[j];
      i', j' := i, j + 1;
    }
    assert block1[..] == blk1 && block2[..] == blk2;
  }

  /** The inner loop of the block merger: while neither read buffer is used up and the
      write buffer is not full, moves the smaller head record to the write buffer. */
  method MergeBlocks(block1: array<Number>, block2: array<Number>, outBuf: array<Number>,
                     b: nat, total: nat, i0: nat, j0: nat, k0: nat, written: nat,
                     ghost xs: seq<Number>, ghost ys: seq<Number>, ghost merged: seq<Number>,
                     ghost g1: nat, ghost g2: nat)
    returns (i: nat, j: nat, k: nat)
    requires outBuf != block1 && outBuf != block2
    requires MergeState(b, total, xs, ys, merged, block1[..], block2[..], outBuf[..], g1, i0, g2, j0, k0, written) == true
    requires written < total
    modifies outBuf
    ensures MergeState(b, total, xs, ys, merged, block1[..], block2[..], outBuf[..], g1, i, g2, j, k, written) == true
    ensures i == b || j == b || k == b
    ensures k > k0 || (i == i0 && j == j0 && k == k0)
  {
    i, j, k := i0, j0, k0;
    while i < b && j < b && k < b
      invariant MergeState(b, total, xs, ys, merged, block1[..], block2[..], outBuf[..], g1, i, g2, j, k, written) == true
      invariant k > k0 || (i == i0 && j == j0 && k == k0)
      decreases b - k
    {
      i, j := MoveSmaller(block1, block2, outBuf, b, total, i, j, k, written, xs, ys, merged, g1, g2);
      k := k + 1;
    }
  }

  /** Replaces the used-up first read buffer by the next block of the first run's padded
      stream, reading it from `inp` or filling it with sentinels. */
  method RefillBlock1(inp: File, block1: array<Number>, block2: array<Number>, outBuf: array<Number>,
                      b: nat, s1: nat, c1: nat, c2: nat, chunk1: nat, j: nat, k: nat, written: nat,
                      ghost xs: seq<Number>, ghost ys: seq<Number>, ghost merged: seq<Number>,
                      ghost g1: nat, ghost g2: nat)
    returns (chunk1': nat)
    requires block1 != block2 && block1 != outBuf
    requires b > 0 && Aligned(c1, b) && s1 + c1 <= |inp.data|
    requires xs == inp.data[s1..s1 + c1] + Sentinels(c2 + b)
    requires MergeState(b, c1 + c2, xs, ys, merged, block1[..], block2[..], outBuf[..], g1, b, g2, j, k, written) == true
    requires chunk1 == s1 + Min(g1 + b, c1) && written < c1 + c2
    modifies block1
    ensures MergeState(b, c1 + c2, xs, ys, merged, block1[..], block2[..], outBuf[..], g1 + b, 0, g2, j, k, written) == true
    ensures chunk1' == s1 + Min(g1 + 2 * b, c1)
  {
    ghost var blk1, blk2, buf := block1[..], block2[..], outBuf[..];
    RoomForNext(b, c1 + c2, xs, ys, merged, blk1, blk2, buf, g1, b, g2, j, k, written);
    chunk1' := NextBlock(inp, block1, chunk1, s1, c1, c2 + b, g1);
    assert block2[..] == blk2 && outBuf[..] == buf;
    RefillFirst(b, c1 + c2, xs, ys, merged, blk1, block1[..], blk2, buf, g1, g2, j, k, written);
  }

  /** Replaces the used-up second read buffer by the next block of the second run's padded
      stream, reading it from `inp` or filling it with sentinels. */
  method RefillBlock2(inp: File, block1: array<Number>, block2: array<Number>, outBuf: array<Number>,
                      b: nat, s2: nat, c1: nat, c2: nat, chunk2: nat, i: nat, k: nat, written: nat,
                      ghost xs: seq<Number>, ghost ys: seq<Number>, ghost merged: seq<Number>,
                      ghost g1: nat, ghost g2: nat)
    returns (chunk2': nat)
    requires block2 != block1 && block2 != outBuf
    requires b > 0 && Aligned(c2, b) && s2 + c2 <= |inp.data|
    requires ys == inp.data[s2..s2 + c2] + Sentinels(c1 + b)
    requires MergeState(b, c1 + c2, xs, ys, merged, block1[..], block2[..], outBuf[..], g1, i, g2, b, k, written) == true
    requires chunk2 == s2 + Min(g2 + b, c2) && written < c1 + c2
    modifies block2
    ensures MergeState(b, c1 + c2, xs, ys, merged, block1[..], block2[..], outBuf[..], g1, i, g2 + b, 0, k, written) == true
    ensures chunk2' == s2 + Min(g2 + 2 * b, c2)
  {
    ghost var blk1, blk2, buf := block1[..], block2[..], outBuf[..];
    RoomForNext(b, c1 + c2, xs, ys, merged, blk1, blk2, buf, g1, i, g2, b, k, written);
    chunk2' := NextBlock(inp, block2, chunk2, s2, c2, c1 + b, g2);
    assert block1[..] == blk1 && outBuf[..] == buf;
    RefillSecond(b, c1 + c2, xs, ys, merged, blk1, blk2, block2[..], buf, g1, i, g2, k, written);
  }

  /** Writes the full write buffer to `out`. */
  method FlushBlock(out: File, block1: array<Number>, block2: array<Number>, outBuf: array<Number>,
                    b: nat, total: nat, i: nat, j: nat, written: nat,
                    ghost xs: seq<Number>, ghost ys: seq<Number>, ghost merged: seq<Number>,
                    ghost g1: nat, ghost g2: nat, ghost out0: seq<Number>)
    requires MergeState(b, total, xs, ys, merged, block1[..], block2[..], outBuf[..], g1, i, g2, j, b, written) == true
    requires out.data == out0 + merged[..written] && written < total
    modifies out
    ensures MergeState(b, total, xs, ys, merged, block1[..], block2[..], outBuf[..], g1, i, g2, j, 0, written + b) == true
    ensures out.data == out0 + merged[..written + b]
  {
    ghost var blk1, blk2, buf := block1[..], block2[..], outBuf[..];
    Flush(b, total, xs, ys, merged, blk1, blk2, buf, g1, i, g2, j, written);
    out.Write(outBuf, 0, b);
    assert outBuf[0..b] == buf;
    assert out.data == out0 + (merged[..written] + buf);
    assert block1[..] == blk1 && block2[..] == blk2 && outBuf[..] == buf;
  }

  /** Replaces a used-up read buffer, the first one if both are used up, by the next
      block of its run's padded stream. */
  method Refill(inp: File, block1: array<Number>, block2: array<Number>, outBuf: array<Number>,
                b: nat, s1: nat, c1: nat, s2: nat, c2: nat,
                chunk1: nat, chunk2: nat, i: nat, j: nat, k: nat, written: nat,
                ghost xs: seq<Number>, ghost ys: seq<Number>, ghost merged: seq<Number>,
                ghost g1: nat, ghost g2: nat)
    returns (chunk1': nat, chunk2': nat, i': nat, j': nat, ghost g1': nat, ghost g2': nat)
    requires block1 != block2 && block1 != outBuf && block2 != outBuf
    requires b > 0 && Aligned(c1, b) && Aligned(c2, b) && s1 + c1 <= |inp.data| && s2 + c2 <= |inp.data|
    requires xs == inp.data[s1..s1 + c1] + Sentinels(c2 + b)
    requires ys == inp.data[s2..s2 + c2] + Sentinels(c1 + b)
    requires MergeState(b, c1 + c2, xs, ys, merged, block1[..], block2[..], outBuf[..], g1, i, g2, j, k, written) == true
    requires i == b || j == b
    requires chunk1 == s1 + Min(g1 + b, c1) && chunk2 == s2 + Min(g2 + b, c2)
    requires written < c1 + c2
    modifies block1, block2
    ensures MergeState(b, c1 + c2, xs, ys, merged, block1[..], block2[..], outBuf[..], g1', i', g2', j', k, written) == true
    ensures chunk1' == s1 + Min(g1' + b, c1) && chunk2' == s2 + Min(g2' + b, c2)
    ensures UsedUp(i', j', b) < UsedUp(i, j, b)
  {
    if i == b {
      chunk1' := RefillBlock1(inp, block1, block2, outBuf, b, s1, c1, c2, chunk1, j, k, written, xs, ys, merged, g1, g2);
      chunk2', i', j', g1', g2' := chunk2, 0, j, g1 + b, g2;
    } else {
      chunk2' := RefillBlock2(inp, block1, block2, outBuf, b, s2, c1, c2, chunk2, i, k, written, xs, ys, merged, g1, g2);
      chunk1', i', j', g1', g2' := chunk1, i, 0, g1, g2 + b;
    }
  }

  /** What follows the inner loop: the refill of a used-up read buffer (the first one
      first), or else the flush of the full write buffer. */
  method RefillOrFlush(inp: File, out: File, block1: array<Number>, block2: array<Number>, outBuf: array<Number>,
                       b: nat, s1: nat, c1: nat, s2: nat, c2: nat,
                       chunk1: nat, chunk2: nat, i: nat, j: nat, k: nat, written: nat,
                       ghost xs: seq<Number>, ghost ys: seq<Number>, ghost merged: seq<Number>,
                       ghost g1: nat, ghost g2: nat, ghost out0: seq<Number>)
    returns (chunk1': nat, chunk2': nat, i': nat, j': nat, k': nat, written': nat, ghost g1': nat, ghost g2': nat)
    requires inp != out && block1 != block2 && block1 != outBuf && block2 != outBuf
    requires b > 0 && Aligned(c1, b) && Aligned(c2, b) && s1 + c1 <= |inp.data| && s2 + c2 <= |inp.data|
    requires xs == inp.data[s1..s1 + c1] + Sentinels(c2 + b)
    requires ys == inp.data[s2..s2 + c2] + Sentinels(c1 + b)
    requires MergeState(b, c1 + c2, xs, ys, merged, block1[..], block2[..], outBuf[..], g1, i, g2, j, k, written) == true
    requires i == b || j == b || k == b
    requires chunk1 == s1 + Min(g1 + b, c1) && chunk2 == s2 + Min(g2 + b, c2)
    requires out.data == out0 + merged[..written]
    requires written < c1 + c2
    modifies out, block1, block2, outBuf
    ensures MergeState(b, c1 + c2, xs, ys, merged, block1[..], block2[..], outBuf[..], g1', i', g2', j', k', written') == true
    ensures chunk1' == s1 + Min(g1' + b, c1) && chunk2' == s2 + Min(g2' + b, c2)
    ensures out.data == out0 + merged[..written']
    ensures written' > written || (written' == written && k' == k && UsedUp(i', j', b) < UsedUp(i, j, b))
  {
    if i == b || j == b {
      chunk1', chunk2', i', j', g1', g2' :=
        Refill(inp, block1, block2, outBuf, b, s1, c1, s2, c2, chunk1, chunk2, i, j, k, written, xs, ys, merged, g1, g2);
      k', written' := k, written;
    } else {
      FlushBlock(out, block1, block2, outBuf, b, c1 + c2, i, j, written, xs, ys, merged, g1, g2, out0);
      chunk1', chunk2', i', j', k', written', g1', g2' := chunk1, chunk2, i, j, 0, written + b, g1, g2;
    }
  }

  /** One round of the block merger's main loop, while output remains: the inner loop,
      then a refill or a flush. `xs` and `ys` are the two runs followed by sentinels,
      `merged` is their merge and `out0` is what the output file held before the merge. */
  method MergeRound(inp: File, out: File, block1: array<Number>, block2: array<Number>, outBuf: array<Number>,
                    b: nat, s1: nat, c1: nat, s2: nat, c2: nat,
                    chunk1: nat, chunk2: nat, i: nat, j: nat, k: nat, written: nat,
                    ghost xs: seq<Number>, ghost ys: seq<Number>, ghost merged: seq<Number>,
                    ghost g1: nat, ghost g2: nat, ghost out0: seq<Number>)
    returns (chunk1': nat, chunk2': nat, i': nat, j': nat, k': nat, written': nat, ghost g1': nat, ghost g2': nat)
    requires inp != out && block1 != block2 && block1 != outBuf && block2 != outBuf
    requires b > 0 && Aligned(c1, b) && Aligned(c2, b) && s1 + c1 <= |inp.data| && s2 + c2 <= |inp.data|
    requires xs == inp.data[s1..s1 + c1] + Sentinels(c2 + b)
    requires ys == inp.data[s2..s2 + c2] + Sentinels(c1 + b)
    requires MergeState(b, c1 + c2, xs, ys, merged, block1[..], block2[..], outBuf[..], g1, i, g2, j, k, written) == true
    requires chunk1 == s1 + Min(g1 + b, c1) && chunk2 == s2 + Min(g2 + b, c2)
    requires out.data == out0 + merged[..written]
    requires written < c1 + c2
    modifies out, block1, block2, outBuf
    ensures MergeState(b, c1 + c2, xs, ys, merged, block1[..], block2[..], outBuf[..], g1', i', g2', j', k', written') == true
    ensures chunk1' == s1 + Min(g1' + b, c1) && chunk2' == s2 + Min(g2' + b, c2)
    ensures out.data == out0 + merged[..written']
    ensures Advanced(written, k, UsedUp(i, j, b), written', k', UsedUp(i', j', b))
  {
    var i1, j1, k1 := MergeBlocks(block1, block2, outBuf, b, c1 + c2, i, j, k, written, xs, ys, merged, g1, g2);
    chunk1', chunk2', i', j', k', written', g1', g2' :=
      RefillOrFlush(inp, out, block1, block2, outBuf, b, s1, c1, s2, c2, chunk1, chunk2, i1, j1, k1, written,
                    xs, ys, merged, g1, g2, out0);
  }

  /** The main loop of the block merger: rounds until `c1 + c2` records are written. */
  method MergeLoop(inp: File, out: File, block1: array<Number>, block2: array<Number>, outBuf: array<Number>,
                   b: nat, s1: nat, c1: nat, s2: nat, c2: nat, chunk1: nat, chunk2: nat,
                   ghost xs: seq<Number>, ghost ys: seq<Number>, ghost merged: seq<Number>)
    requires inp != out && block1 != block2 && block1 != outBuf && block2 != outBuf
    requires b > 0 && Aligned(c1, b) && Aligned(c2, b) && s1 + c1 <= |inp.data| && s2 + c2 <= |inp.data|
    requires xs == inp.data[s1..s1 + c1] + Sentinels(c2 + b)
    requires ys == inp.data[s2..s2 + c2] + Sentinels(c1 + b)
    requires MergeState(b, c1 + c2, xs, ys, merged, block1[..], block2[..], outBuf[..], 0, 0, 0, 0, 0, 0) == true
    requires chunk1 == s1 + Min(b, c1) && chunk2 == s2 + Min(b, c2)
    modifies out, block1, block2, outBuf
    ensures out.data == old(out.data) + merged[..c1 + c2]
  {
    ghost var out0 := out.data;
    var chunk1, chunk2 := chunk1, chunk2;
    var i, j, k := 0, 0, 0;
    var written := 0;
    ghost var g1: nat, g2: nat := 0, 0;
    while written < c1 + c2
      invariant MergeState(b, c1 + c2, xs, ys, merged, block1[..], block2[..], outBuf[..], g1, i, g2, j, k, written) == true
      invariant chunk1 == s1 + Min(g1 + b, c1) && chunk2 == s2 + Min(g2 + b, c2)
      invariant out.data == out0 + merged[..written]
      decreases c1 + c2 - written, b - k, UsedUp(i, j, b)
    {
      chunk1, chunk2, i, j, k, written, g1, g2 :=
        MergeRound(inp, out, block1, block2, outBuf, b, s1, c1, s2, c2, chunk1, chunk2, i, j, k, written,
                   xs, ys, merged, g1, g2, out0);
    }
    // The runs are whole blocks, so the write buffer is empty here and the final partial
    // flush has nothing to write.
    assert k == 0;
  }

  /** Merges the run of `c1` records at `s1` with the run of `c2` records at `s2` into
      `out`, block by block: the refill of a used-up read buffer comes first, then the
      flush of a full write buffer; the loop ends when `c1 + c2` records are written. */
  method ExternalMergeChunksNeq(inp: File, out: File, b: nat, s1: nat, c1: nat, s2: nat, c2: nat)
    requires inp != out
    requires b > 0 && c1 > 0 && c2 > 0 && c1 % b == 0 && c2 % b == 0
    requires s1 + c1 <= |inp.data| && s2 + c2 <= |inp.data|
    modifies out
    ensures out.data == old(out.data) + BlockMerge(inp.data[s1..s1 + c1], inp.data[s2..s2 + c2], b)
  {
    var block1 := new Number[b](_ => 0);
    var block2 := new Number[b](_ => 0);
    var outBuf := new Number[b](_ => 0);
    ghost var xs := inp.data[s1..s1 + c1] + Sentinels(c2 + b);
    ghost var ys := inp.data[s2..s2 + c2] + Sentinels(c1 + b);
    AlignedFromMod(c1, b);
    AlignedFromMod(c2, b);
    AlignedAdd(c1, c2, b);

    var chunk1, chunk2 := s1, s2;
    ReadData(inp, block1, chunk1, 0, b);
    HoldsRead(block1[..], inp.data, s1, c1, c2 + b, 0);
    chunk1 := chunk1 + b;
    ReadData(inp, block2, chunk2, 0, b);
    HoldsRead(block2[..], inp.data, s2, c2, c1 + b, 0);
    chunk2 := chunk2 + b;
    StartState(b, c1 + c2, xs, ys, block1[..], block2[..], outBuf[..]);
    MergeLoop(inp, out, block1, block2, outBuf, b, s1, c1, s2, c2, chunk1, chunk2, xs, ys, Merged(xs, ys));
  }

  /** Merges the two runs of `c` records at `s1` and `s2 == s1 + c`: the refill test
      "before the second run starts" is the end of the first run. */
  method ExternalMergeChunks(inp: File, out: File, b: nat, s1: nat, s2: nat, c: nat)
    requires inp != out
    requires b > 0 && c > 0 && c % b == 0 && s2 == s1 + c && s2 + c <= |inp.data|
    modifies out
    ensures out.data == old(out.data) + BlockMerge(inp.data[s1..s2], inp.data[s2..s2 + c], b)
  {
    ExternalMergeChunksNeq(inp, out, b, s1, c, s2, c);
  }
}
