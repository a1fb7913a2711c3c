/** The merge phase on files: one pass merges neighbouring chunks of the active part of a
    file into the other file, the carried records are copied behind them, the two files
    swap roles, and after the last pass a carried part is merged with the rest. */
module Passes {
  import opened SortSpec
  import opened Arith
  import opened Files
  import opened Runs
  import opened ChunkMerge
  import opened MergeSchedule

  /** How many of the first `fse` records the pair loop of a pass merges: whole pairs of
      chunks of `c` records, as long as a whole pair fits. */
  ghost function PairedLength(fse: nat, c: nat): (r: nat)
    requires c > 0
    ensures r <= fse && fse - r < c + c
    decreases fse
  {
    if fse < c + c then 0 else c + c + PairedLength(fse - c - c, c)
  }

  /** Over a whole number `h` of chunks the pair loop merges every chunk but the odd last
      one, and the pass leaves exactly those records active. */
  lemma {:induction false} PairedWhole(h: nat, c: nat)
    requires c > 0
    ensures PairedLength(Product(h, c), c) == Product(h / 2, 2 * c)
    ensures PairedLength(Product(h, c), c) == NextActive(Product(h, c), c)
  {
    if h >= 2 {
      assert Product(h, c) == Product(h - 2, c) + c + c;
      PairedWhole(h - 2, c);
      assert (h - 2) / 2 == h / 2 - 1;
    } else if h == 1 {
      assert Product(h, c) == c;
    }
    ActiveNext(h, c, Product(h, c));
  }

  /** The pair loop's state over the active records `x`: the pairs before position `s1`
      are merged, and `written` followed by the merge of the pairs from `s1` on is what
      the whole pass writes after `out0`. */
  // Contracts write `PairLoop(...) == true`: a bare call is split into its conjuncts at every
  // use, which makes the proofs that use it several times more expensive to verify.
  ghost predicate PairLoop(x: seq<Number>, c: nat, b: nat, s1: nat, written: seq<Number>, out0: seq<Number>)
    requires c > 0
  {
    s1 <= |x| && s1 + PairedLength(|x| - s1, c) == PairedLength(|x|, c) &&
    written + MergePairs(x[s1..], c, b) == out0 + MergePairs(x, c, b)
  }

  /** The two chunks at `s1` and what follows them, read in the active records `x` of
      `d` or in `d` itself. */
  lemma PairSlices(d: seq<Number>, fse: nat, x: seq<Number>, c: nat, s1: nat, s2: nat, s1': nat)
    requires s2 == s1 + c && s1' == s2 + c && s1' <= fse <= |d| && x == d[..fse]
    ensures x[s1..][..c] == d[s1..s2]
    ensures x[s1..][c..c + c] == d[s2..s2 + c]
    ensures x[s1..][c + c..] == x[s1'..]
  {
    var y := x[s1..];
    assert y[c..c + c] == x[s2..s2 + c];
  }

  /** The pairs from `s1` on are the block merge of the two chunks at `s1` followed by the
      pairs after them. */
  lemma PairsFront(d: seq<Number>, fse: nat, x: seq<Number>, c: nat, b: nat, s1: nat, s2: nat, s1': nat)
    requires c > 0 && s2 == s1 + c && s1' == s2 + c && s1' <= fse <= |d| && x == d[..fse]
    ensures MergePairs(x[s1..], c, b) == BlockMerge(d[s1..s2], d[s2..s2 + c], b) + MergePairs(x[s1'..], c, b)
  {
    PairSlices(d, fse, x, c, s1, s2, s1');
    assert 2 * c == c + c;
  }

  /** A whole pair more is merged from `s1` on than from `s1 + c + c` on. */
  lemma PairedNext(n: nat, c: nat, s1: nat, s1': nat)
    requires c > 0 && s1' == s1 + c + c && s1' <= n
    ensures PairedLength(n - s1, c) == c + c + PairedLength(n - s1', c)
  {
    assert n - s1 - c - c == n - s1';
  }

  /** Writing the block merge of the two chunks at `s1` moves the pair loop on by a pair. */
  lemma PairLoopStep(d: seq<Number>, fse: nat, x: seq<Number>, c: nat, b: nat, s1: nat, s2: nat, s1': nat,
                     written: seq<Number>, written': seq<Number>, out0: seq<Number>)
    requires c > 0 && s2 == s1 + c && s1' == s2 + c && s1' <= fse <= |d| && x == d[..fse]
    requires PairLoop(x, c, b, s1, written, out0) == true
    requires written' == written + BlockMerge(d[s1..s2], d[s2..s2 + c], b)
    ensures PairLoop(x, c, b, s1', written', out0) == true
  {
    PairsFront(d, fse, x, c, b, s1, s2, s1');
    PairedNext(|x|, c, s1, s1');
    ShiftWritten(written, written', BlockMerge(d[s1..s2], d[s2..s2 + c], b),
                 MergePairs(x[s1..], c, b), MergePairs(x[s1'..], c, b), out0 + MergePairs(x, c, b));
  }

  /** Moving the next merged piece from what is still to be written to what is written
      keeps the total. */
  lemma ShiftWritten(written: seq<Number>, written': seq<Number>, piece: seq<Number>,
                     rest: seq<Number>, rest': seq<Number>, total: seq<Number>)
    requires written + rest == total && rest == piece + rest' && written' == written + piece
    ensures written' + rest' == total
  {
    assert written' + rest' == written + (piece + rest');
  }

  /** When no whole pair is left, the pair loop has written the merged pairs and the records
      from `PairedLength` on are the ones the pass does not merge. */
  lemma PairLoopEnd(d: seq<Number>, fse: nat, x: seq<Number>, c: nat, b: nat, s1: nat, written: seq<Number>, out0: seq<Number>)
    requires c > 0 && fse <= |d| && x == d[..fse]
    requires PairLoop(x, c, b, s1, written, out0) == true && fse < s1 + c + c
    ensures written + d[PairedLength(fse, c)..fse] == out0 + MergePairs(d[..fse], c, b)
  {
    assert x[s1..] == d[s1..fse];
  }

  /** Before the first pair nothing is merged. */
  lemma PairLoopStart(x: seq<Number>, c: nat, b: nat, out0: seq<Number>)
    requires c > 0
    ensures PairLoop(x, c, b, 0, out0, out0) == true
  {
    assert x[0..] == x;
  }

  /** Chunk lengths grown from a whole number of blocks stay whole numbers of blocks. */
  lemma {:induction false} ChunkAligned(m: nat, t: nat, b: nat)
    requires b > 0 && Aligned(m, b)
    ensures Aligned(ChunkLength(m, t), b)
  {
    if t > 0 {
      ChunkAligned(m, t - 1, b);
      AlignedAdd(ChunkLength(m, t - 1), ChunkLength(m, t - 1), b);
    }
  }

  /** Chunk lengths grown from a multiple of the block size stay multiples of it. */
  lemma ChunkMod(m: nat, t: nat, b: nat)
    requires b > 0 && m % b == 0
    ensures ChunkLength(m, t) % b == 0
  {
    AlignedFromMod(m, b);
    ChunkAligned(m, t, b);
    AlignedMod(ChunkLength(m, t), b);
  }

  /** Merges neighbouring chunks of `c = m * 2^iteration` records among the first `fse`
      records of `inp`, appending each merged pair to `out`; a last chunk without a partner
      is not written. Returns the new active length: `fse` less that last chunk when the
      number of chunks is odd. */
  method ExternalMergeFile(inp: File, out: File, m: nat, b: nat, iteration: nat, fse: nat) returns (fse': nat)
    requires inp != out
    requires b > 0 && m > 0 && m % b == 0 && fse <= |inp.data|
    modifies out
    ensures fse' == NextActive(fse, ChunkLength(m, iteration))
    ensures out.data + inp.data[PairedLength(fse, ChunkLength(m, iteration))..fse]
         == old(out.data) + MergePairs(inp.data[..fse], ChunkLength(m, iteration), b)
  {
    var c := ChunkLength(m, iteration);
    ChunkMod(m, iteration, b);
    ghost var x := inp.data[..fse];
    PairLoopStart(x, c, b, out.data);
    var s1 := 0;
    var s2 := s1 + c;
    while s2 + c <= fse
      invariant s2 == s1 + c
      invariant PairLoop(x, c, b, s1, out.data, old(out.data)) == true
      decreases fse - s1
    {
      ghost var before := out.data;
      ExternalMergeChunks(inp, out, b, s1, s2, c);
      PairLoopStep(inp.data, fse, x, c, b, s1, s2, s2 + c, before, out.data, old(out.data));
      s1 := s2 + c;
      s2 := s1 + c;
    }
    PairLoopEnd(inp.data, fse, x, c, b, s1, out.data, old(out.data));
    if OddChunkCount(fse, c) {
      fse' := fse - c;
    } else {
      fse' := fse;
    }
  }

  /** Whether the first `fse` records hold an odd number of whole chunks of `c` records,
      tested as the source tests it, on the parity of the quotient. */
  function OddChunkCount(fse: nat, c: nat): (odd: bool)
    requires c > 0
    ensures odd == OddChunks(fse, c)
  {
    OddChunksDiv(fse, c);
    (fse / c) % 2 != 0
  }

  /** Appending the next `count` records of `d` after `d[start..i]` gives
      `d[start..i + count]`. */
  lemma AppendNext(a: seq<Number>, d: seq<Number>, start: nat, i: nat, count: nat)
    requires start <= i && i + count <= |d|
    ensures (a + d[start..i]) + d[i..i + count] == a + d[start..i + count]
  {
    assert d[start..i + count] == d[start..i] + d[i..i + count];
  }

  /** Appends `inp.data[start..end]` to `out`, one block of `b` records at a time through
      a fresh buffer. */
  method CopyChunk(inp: File, out: File, start: nat, end: nat, b: nat)
    requires inp != out
    requires b > 0 && start <= end <= |inp.data| && Aligned(end - start, b)
    modifies out
    ensures out.data == old(out.data) + inp.data[start..end]
  {
    var i := start;
    while i < end
      invariant start <= i <= end && Aligned(end - i, b)
      invariant out.data == old(out.data) + inp.data[start..i]
      decreases end - i
    {
      var buffer := new Number[b];
      ReadData(inp, buffer, i, 0, b);
      out.Write(buffer, 0, b);
      AppendNext(old(out.data), inp.data, start, i, b);
      i := i + b;
    }
  }

  /** The active length after `t` passes over a file of `n` records. */
  ghost function ActiveAfter(n: nat, m: nat, t: nat): (r: nat)
    requires m > 0
    ensures r <= n
  {
    if t == 0 then n else NextActive(ActiveAfter(n, m, t - 1), ChunkLength(m, t - 1))
  }

  /** The stage after `t` passes has the active length `ActiveAfter` counts. */
  lemma {:induction false} AfterPassesActive(s: seq<Number>, m: nat, b: nat, t: nat)
    requires m > 0
    ensures AfterPasses(s, m, b, t).active == ActiveAfter(|s|, m, t)
  {
    if t > 0 {
      AfterPassesActive(s, m, b, t - 1);
    }
  }

  /** After `t` passes over `r` runs of `m` records, the active part is `Halve(r, t)`
      chunks of the current chunk length. */
  lemma {:induction false} ActiveShape(n: nat, m: nat, r: nat, t: nat)
    requires m > 0 && n == Product(r, m)
    ensures ActiveAfter(n, m, t) == Product(Halve(r, t), ChunkLength(m, t))
  {
    if t > 0 {
      ActiveShape(n, m, r, t - 1);
      ActiveNext(Halve(r, t - 1), ChunkLength(m, t - 1), ActiveAfter(n, m, t - 1));
    }
  }

  /** A pass over a whole number `h` of chunks of `c` records, `c` a whole number of
      blocks, leaves a whole number of blocks active and carries a whole number of blocks
      out of the `r` runs of `m` records. */
  lemma CarriedAligned(r: nat, m: nat, b: nat, h: nat, c: nat, n: nat, next: nat)
    requires b > 0 && c > 0 && Aligned(m, b) && Aligned(c, b)
    requires n == Product(r, m) && next == Product(h / 2, 2 * c) && next <= n
    ensures Aligned(next, b) && Aligned(n - next, b)
  {
    AlignedAdd(c, c, b);
    ProductAligned(h / 2, 2 * c, b);
    ProductAligned(r, m, b);
    AlignedSub(n, next, b);
  }

  /** The merged pairs followed by the records from the new active length on are the
      file a pass produces. */
  lemma PassFromPieces(x: seq<Number>, fse: nat, c: nat, b: nat, w: seq<Number>, next: nat)
    requires c > 0 && next <= fse <= |x|
    requires w + x[next..fse] == MergePairs(x[..fse], c, b)
    ensures Pass(x, fse, c, b) == w + x[next..]
  {
    assert x[next..] == x[next..fse] + x[fse..];
    assert (w + x[next..fse]) + x[fse..] == w + (x[next..fse] + x[fse..]);
  }

  /** What one round of the merge loop writes is the next stage: the merged pairs, then
      everything from the new active length on copied behind them; and what is copied is
      a whole number of blocks. */
  lemma PassByFiles(s: seq<Number>, m: nat, b: nat, r: nat, n: nat, t: nat, x: seq<Number>, fse: nat,
                    w0: seq<Number>, w: seq<Number>, next: nat)
    requires m > 0 && b > 0 && Aligned(m, b) && |s| == n && n == Product(r, m)
    requires StageIs(s, m, b, t, x, fse) == true
    requires next == NextActive(fse, ChunkLength(m, t))
    requires w0 == [] && w + x[PairedLength(fse, ChunkLength(m, t))..fse] == w0 + MergePairs(x[..fse], ChunkLength(m, t), b)
    ensures next <= n && Aligned(n - next, b)
    ensures next != n ==> StageIs(s, m, b, t + 1, w + x[next..n], next) == true
    ensures next == n ==> StageIs(s, m, b, t + 1, w, next) == true
  {
    var c := ChunkLength(m, t);
    PassShape(s, m, b, r, n, t, fse, next);
    assert w + x[next..fse] == MergePairs(x[..fse], c, b) by {
      assert w0 + MergePairs(x[..fse], c, b) == MergePairs(x[..fse], c, b);
    }
    StageFromPieces(s, m, b, t, x, fse, n, w, next);
    if next == n {
      assert w + x[next..n] == w;
    }
  }

  /** A pass over the active records of the stage after `t` passes merges exactly the
      records up to the new active length, and leaves a whole number of blocks behind it. */
  lemma PassShape(s: seq<Number>, m: nat, b: nat, r: nat, n: nat, t: nat, fse: nat, next: nat)
    requires m > 0 && b > 0 && Aligned(m, b) && |s| == n && n == Product(r, m)
    requires AfterPasses(s, m, b, t).active == fse
    requires next == NextActive(fse, ChunkLength(m, t))
    ensures PairedLength(fse, ChunkLength(m, t)) == next && next <= n && Aligned(n - next, b)
  {
    var c := ChunkLength(m, t);
    var h := Halve(r, t);
    assert next == Product(h / 2, 2 * c) && PairedLength(fse, c) == next by {
      AfterPassesActive(s, m, b, t);
      ActiveShape(|s|, m, r, t);
      PairedWhole(h, c);
    }
    ChunkAligned(m, t, b);
    CarriedAligned(r, m, b, h, c, n, next);
  }

  /** The merged pairs followed by the records from the new active length on are the
      stage after one more pass. */
  lemma StageFromPieces(s: seq<Number>, m: nat, b: nat, t: nat, x: seq<Number>, fse: nat, n: nat,
                        w: seq<Number>, next: nat)
    requires StageIs(s, m, b, t, x, fse) == true && |x| == n
    requires next <= fse && next == NextActive(fse, ChunkLength(m, t))
    requires w + x[next..fse] == MergePairs(x[..fse], ChunkLength(m, t), b)
    ensures StageIs(s, m, b, t + 1, w + x[next..n], next) == true
  {
    PassFromPieces(x, fse, ChunkLength(m, t), b, w, next);
    assert x[next..] == x[next..n];
    StageNext(s, m, b, t, x, fse, w + x[next..n], next);
  }

  /** The stage after one more pass. */
  lemma StageNext(s: seq<Number>, m: nat, b: nat, t: nat, x: seq<Number>, fse: nat, y: seq<Number>, next: nat)
    requires StageIs(s, m, b, t, x, fse) == true
    requires fse <= |x| && y == Pass(x, fse, ChunkLength(m, t), b) && next == NextActive(fse, ChunkLength(m, t))
    ensures StageIs(s, m, b, t + 1, y, next) == true
  {
  }

  /** When the passes over `r` runs of `m` records are over, a single chunk is active: it
      is not empty, and it and the carried rest are whole numbers of blocks. */
  lemma LastStage(n: nat, m: nat, b: nat, r: nat)
    requires m > 0 && b > 0 && Aligned(m, b) && r >= 1 && n == Product(r, m)
    ensures 0 < ActiveAfter(n, m, Log2(r)) <= n
    ensures ActiveAfter(n, m, Log2(r)) % b == 0
    ensures (n - ActiveAfter(n, m, Log2(r))) % b == 0
  {
    var t := Log2(r);
    var c := ChunkLength(m, t);
    ActiveShape(n, m, r, t);
    HalveUntilLog(r, t);
    assert Product(1, c) == Product(0, c) + c;
    ChunkAligned(m, t, b);
    ProductAligned(r, m, b);
    AlignedSub(n, c, b);
    AlignedMod(c, b);
    AlignedMod(n - c, b);
  }

  /** After the last pass the active chunk is not empty, and it and the carried records
      are whole numbers of blocks. */
  lemma LastStageFiles(s: seq<Number>, m: nat, b: nat, r: nat, x: seq<Number>, fse: nat, n: nat)
    requires m > 0 && b > 0 && Aligned(m, b) && r >= 1 && n == Product(r, m) && |s| == n
    requires StageIs(s, m, b, Log2(r), x, fse) == true
    ensures 0 < fse <= n == |x| && fse % b == 0 && (n - fse) % b == 0
  {
    LastStage(n, m, b, r);
    AfterPassesActive(s, m, b, Log2(r));
  }

  /** What the merge phase returns, in the terms of its last step on files: the block
      merge of the chunk at the front with the carried records behind it, or the file
      itself when nothing was carried. */
  lemma FinishFromFiles(s: seq<Number>, m: nat, b: nat, r: nat, x: seq<Number>, fse: nat, n: nat, w: seq<Number>)
    requires m > 0 && r >= 1 && |s| == n
    requires StageIs(s, m, b, Log2(r), x, fse) == true
    requires fse != n ==> w == [] + BlockMerge(x[0..0 + fse], x[fse..fse + (n - fse)], b)
    requires fse == n ==> w == x
    ensures w == MergeResult(s, m, b, r)
  {
    if fse != n {
      assert x[0..0 + fse] == x[..fse] && x[fse..fse + (n - fse)] == x[fse..];
    }
  }

  /** The file `x` with active length `fse` is the stage after `t` passes over `s`. */
  // Contracts write `StageIs(...) == true`: a bare call is split into its conjuncts at every
  // use, which makes the proofs that use it several times more expensive to verify.
  ghost predicate StageIs(s: seq<Number>, m: nat, b: nat, t: nat, x: seq<Number>, fse: nat) {
    m > 0 && |x| == |s| && AfterPasses(s, m, b, t) == Stage(x, fse)
  }

  /** The work of one round of the merge loop: a pass over the active records of `inp`
      into the empty file `out`, then the records from the new active length on copied
      behind the merged pairs. `out` then holds the next stage. */
  method MergeRound(inp: File, out: File, m: nat, b: nat, n: nat, iteration: nat, fse: nat,
                    ghost s: seq<Number>, ghost r: nat) returns (fse': nat)
    requires inp != out
    requires b > 0 && m > 0 && m % b == 0 && |s| == n && n == Product(r, m)
    requires StageIs(s, m, b, iteration, inp.data, fse) == true
    requires out.data == []
    modifies out
    ensures StageIs(s, m, b, iteration + 1, out.data, fse') == true
  {
    fse' := PassInto(inp, out, m, b, n, iteration, fse, s, r);
    if n != fse' {
      CopyChunk(inp, out, fse', n, b);
    }
  }

  /** The pass of one round of the merge loop: the merged pairs written to `out` are the
      next stage up to the carried records, which are a whole number of blocks. */
  method PassInto(inp: File, out: File, m: nat, b: nat, n: nat, iteration: nat, fse: nat,
                  ghost s: seq<Number>, ghost r: nat) returns (fse': nat)
    requires inp != out
    requires b > 0 && m > 0 && m % b == 0 && |s| == n && n == Product(r, m)
    requires StageIs(s, m, b, iteration, inp.data, fse) == true
    requires out.data == []
    modifies out
    ensures fse' <= n == |inp.data| && Aligned(n - fse', b)
    ensures fse' != n ==> StageIs(s, m, b, iteration + 1, out.data + inp.data[fse'..n], fse') == true
    ensures fse' == n ==> StageIs(s, m, b, iteration + 1, out.data, fse') == true
  {
    AlignedFromMod(m, b);
    ghost var w0 := out.data;
    fse' := ExternalMergeFile(inp, out, m, b, iteration, fse);
    PassByFiles(s, m, b, r, n, iteration, inp.data, fse, w0, out.data, fse');
  }

  /** The merge phase over `r` sorted runs of `m` records in `p`, with `o` as the second
      file: `Log2(r)` passes, each followed by copying the carried records and swapping the
      files, then the final merge of a carried part. Returns the file holding the result. */
  method ExternalMerge(p: File, o: File, m: nat, b: nat, n: nat, r: nat) returns (result: File)
    requires p != o
    requires b > 0 && m > 0 && m % b == 0
    requires r >= 1 && r * m == n && |p.data| == n
    modifies p, o
    ensures result == p || result == o
    ensures result.data == MergeResult(old(p.data), m, b, r)
  {
    ghost var s := p.data;
    var maxIterations := Log2(r);
    var iteration := 0;
    var fse := n;
    var cin, cout := p, o;
    cout.Clear();
    ProductIsMul(r, m);
    AlignedFromMod(m, b);
    while iteration < maxIterations
      invariant iteration <= maxIterations
      invariant (cin == p && cout == o) || (cin == o && cout == p)
      invariant StageIs(s, m, b, iteration, cin.data, fse) == true
      invariant cout.data == []
      decreases maxIterations - iteration
    {
      fse := MergeRound(cin, cout, m, b, n, iteration, fse, s, r);
      cin, cout := cout, cin;
      cout.Clear();
      iteration := iteration + 1;
    }
    result := FinalMerge(cin, cout, m, b, n, fse, s, r);
  }

  /** The end of the merge phase, after the last pass: when records were carried, the
      active chunk at the front of `inp` is merged with the carried records behind it into
      the empty file `out`, which is returned; otherwise `inp` is returned as it is. */
  method FinalMerge(inp: File, out: File, m: nat, b: nat, n: nat, fse: nat, ghost s: seq<Number>, ghost r: nat)
    returns (result: File)
    requires inp != out
    requires b > 0 && m > 0 && m % b == 0 && r >= 1 && n == Product(r, m) && |s| == n
    requires StageIs(s, m, b, Log2(r), inp.data, fse) == true
    requires out.data == []
    modifies out
    ensures result == inp || result == out
    ensures result.data == MergeResult(s, m, b, r)
  {
    ghost var x := inp.data;
    AlignedFromMod(m, b);
    LastStageFiles(s, m, b, r, x, fse, n);
    if n != fse {
      ExternalMergeChunksNeq(inp, out, b, 0, fse, fse, n - fse);
      FinishFromFiles(s, m, b, r, x, fse, n, out.data);
      result := out;
    } else {
      FinishFromFiles(s, m, b, r, x, fse, n, inp.data);
      result := inp;
    }
  }
}
