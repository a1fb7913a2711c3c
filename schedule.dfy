/** What the merge phase computes, pass by pass: the chunk length of each pass, the active
    length that shrinks by one chunk when a pass has an odd number of chunks, the file the
    pass leaves behind, and the file the whole merge phase returns. The lemmas say when
    that file is sorted. */
module MergeSchedule {
  import opened SortSpec
  import opened Arith
  import opened Runs

  /** The chunk length of pass `t`: the memory budget, doubled once per pass before it. */
  function ChunkLength(m: nat, t: nat): (r: nat)
    ensures r >= m
  {
    if t == 0 then m else 2 * ChunkLength(m, t - 1)
  }

  /** Whether `fse` records hold an odd number of whole chunks of `c` records, counted
      off one chunk at a time. */
  function OddChunks(fse: nat, c: nat): bool
    requires c > 0
    decreases fse
  {
    if fse < c then false else !OddChunks(fse - c, c)
  }

  /** Counting chunks one at a time agrees with the quotient's parity, `(fse / c) % 2`, the
      test the pass orchestrator makes. */
  lemma OddChunksDiv(fse: nat, c: nat)
    requires c > 0
    ensures OddChunks(fse, c) == ((fse / c) % 2 != 0)
  {
    DivProduct(fse, c);
    OddChunksOffset(fse / c, c, fse % c);
  }

  /** `fse` is `fse / c` whole chunks of `c` records and a remainder shorter than a chunk. */
  lemma DivProduct(fse: nat, c: nat)
    requires c > 0
    ensures fse == Product(fse / c, c) + fse % c && fse % c < c
  {
    ProductIsMul(fse / c, c);
  }

  /** The active length after a pass over chunks of `c` records: one chunk less when the
      active length holds an odd number of chunks. */
  function NextActive(fse: nat, c: nat): (r: nat)
    requires c > 0
    ensures r == fse || r + c == fse
  {
    if OddChunks(fse, c) then fse - c else fse
  }

  /** The file after one pass over the active length `fse` of `s`: adjacent chunks of the
      active part block-merged in pairs (an odd last chunk kept), the rest kept as it is. */
  ghost function Pass(s: seq<Number>, fse: nat, c: nat, b: nat): (r: seq<Number>)
    requires c > 0 && fse <= |s|
    ensures |r| == |s|
  {
    MergePairs(s[..fse], c, b) + s[fse..]
  }

  /** The file between two passes and its active length. */
  datatype Stage = Stage(data: seq<Number>, active: nat)

  /** The file and active length after `t` passes over `s`. */
  ghost function AfterPasses(s: seq<Number>, m: nat, b: nat, t: nat): (r: Stage)
    requires m > 0
    ensures |r.data| == |s| && r.active <= |s|
  {
    if t == 0 then Stage(s, |s|)
    else
      var p := AfterPasses(s, m, b, t - 1);
      var c := ChunkLength(m, t - 1);
      Stage(Pass(p.data, p.active, c, b), NextActive(p.active, c))
  }

  /** What the merge phase returns from the stage its passes left: the block merge of the
      active part with the carried part when anything was carried, the file as it is
      otherwise. */
  ghost function Finish(p: Stage, b: nat): seq<Number>
    requires p.active <= |p.data|
  {
    if p.active != |p.data| then BlockMerge(p.data[..p.active], p.data[p.active..], b) else p.data
  }

  /** The file the merge phase returns for the partitioned file `s` of `r` runs of `m`
      records: `Log2(r)` passes, then, if anything was carried past the active length, the
      block merge of the active part with the carried part. */
  ghost function MergeResult(s: seq<Number>, m: nat, b: nat, r: nat): seq<Number>
    requires m > 0 && r >= 1
  {
    Finish(AfterPasses(s, m, b, Log2(r)), b)
  }

  /** How many of the first `t` passes over `n` chunks see an odd chunk count. */
  ghost function OddPasses(n: nat, t: nat): nat {
    if t == 0 then 0 else OddPasses(n, t - 1) + Halve(n, t - 1) % 2
  }

  /** `h` whole chunks of `c` records followed by fewer than `c` more records hold an odd
      number of chunks exactly when `h` is odd. */
  lemma {:induction false} OddChunksOffset(h: nat, c: nat, rest: nat)
    requires c > 0 && rest < c
    ensures OddChunks(Product(h, c) + rest, c) == (h % 2 != 0)
  {
    if h > 0 {
      OddChunksOffset(h - 1, c, rest);
    }
  }

  /** The chunk length of pass `t` is the memory budget times `2^t`. */
  lemma {:induction false} ChunkLengthPow2(m: nat, t: nat)
    ensures ChunkLength(m, t) == m * Pow2(t)
  {
    if t > 0 {
      ChunkLengthPow2(m, t - 1);
      assert m * Pow2(t) == 2 * (m * Pow2(t - 1));
    }
  }

  /** A pass counts an odd chunk once per set bit of the run count below its highest: the
      passes of the merge phase see `PopCount(n) - 1` odd chunk counts. */
  lemma {:induction false} OddPassesShift(n: nat, t: nat)
    ensures OddPasses(n, t + 1) == n % 2 + OddPasses(n / 2, t)
  {
    if t > 0 {
      OddPassesShift(n, t - 1);
      HalveShift(n, t - 1);
    }
  }

  /** Over all `Log2(n)` passes, the odd chunk counts are the set bits of `n` but its
      highest. */
  lemma {:induction false} OddPassesPopCount(n: nat)
    requires n >= 1
    ensures OddPasses(n, Log2(n)) + 1 == PopCount(n)
    decreases n
  {
    if n > 1 {
      OddPassesShift(n, Log2(n / 2));
      OddPassesPopCount(n / 2);
    }
  }

  /** The first `q` whole runs of sorted runs of `c` records are sorted runs. */
  lemma {:induction false} RunsSortedPrefix(s: seq<Number>, q: nat, c: nat)
    requires c > 0 && Product(q, c) <= |s| && RunsSorted(s, c)
    ensures RunsSorted(s[..Product(q, c)], c)
    decreases q
  {
    var k := Product(q, c);
    if q == 1 {
      assert k == c && s[..k] == s[..c];
      if |s| <= c {
        assert s[..c] == s;
      }
    } else if q > 1 {
      assert k == Product(q - 1, c) + c && k > c;
      var t := s[c..];
      RunsSortedPrefix(t, q - 1, c);
      assert s[..k][..c] == s[..c];
      assert s[..k][c..] == t[..k - c];
    }
  }

  /** What follows the first `q` whole runs of sorted runs of `c` records is sorted
      runs. */
  lemma {:induction false} RunsSortedSuffix(s: seq<Number>, q: nat, c: nat)
    requires c > 0 && Product(q, c) <= |s| && RunsSorted(s, c)
    ensures RunsSorted(s[Product(q, c)..], c)
    decreases q
  {
    var k := Product(q, c);
    if q == 0 {
      assert s[k..] == s;
    } else {
      assert k == Product(q - 1, c) + c;
      if |s| <= c {
        assert s[k..] == [];
      } else {
        var t := s[c..];
        RunsSortedSuffix(t, q - 1, c);
        assert t[k - c..] == s[k..];
      }
    }
  }

  /** Sorted runs of `c` records no longer than one run are one sorted run. */
  lemma ShortRunsSorted(s: seq<Number>, c: nat)
    requires c > 0 && |s| <= c && RunsSorted(s, c)
    ensures Sorted(s)
  {
  }

  /** One pass over `h` whole sorted runs keeps the records. */
  lemma PassPermutes(s: seq<Number>, fse: nat, h: nat, c: nat, b: nat)
    requires c > 0 && fse <= |s| && fse == Product(h, c) && RunsSorted(s[..fse], c)
    ensures multiset(Pass(s, fse, c, b)) == multiset(s)
  {
    MergePairsSorted(s[..fse], h, c, b);
    assert s == s[..fse] + s[fse..];
  }

  /** What holds between passes of the merge phase over the partitioned file `s`, for a
      stage `p` whose active part is `h` chunks of `c` records after `odd` passes that saw
      an odd chunk count: the active part is `h` whole sorted chunks, nothing is carried
      while no pass was odd, and the carried part is sorted while at most one pass was. */
  // Contracts write `Between(...) == true`: a bare call is split into its conjuncts at every
  // use, which makes the proofs that use it several times more expensive to verify.
  ghost predicate Between(s: seq<Number>, p: Stage, h: nat, c: nat, odd: nat) {
    c > 0 && |p.data| == |s| && p.active <= |s| && p.active == Product(h, c) &&
    RunsSorted(p.data[..p.active], c) &&
    (odd == 0 ==> p.active == |s|) &&
    (odd <= 1 ==> Sorted(p.data[p.active..]))
  }

  /** What a pass makes of whole sorted runs of `c` records in the active part `x[..f]`:
      sorted runs of `2 * c` records up to the next active length `f'`, the same records,
      the carried part kept when the chunk count was even, and a sorted carried part when
      the chunk count was odd and nothing was carried before. */
  lemma PassKeeps(x: seq<Number>, f: nat, h: nat, c: nat, b: nat, f': nat)
    requires c > 0 && f <= |x| && f == Product(h, c) && RunsSorted(x[..f], c)
    requires f' == Product(h / 2, 2 * c) && (f' == f || f' + c == f)
    ensures RunsSorted(Pass(x, f, c, b)[..f'], 2 * c)
    ensures f' == f ==> Pass(x, f, c, b)[f'..] == x[f..]
    ensures f' + c == f && f == |x| ==> Sorted(Pass(x, f, c, b)[f'..])
  {
    var y := MergePairs(x[..f], c, b);
    MergePairsSorted(x[..f], h, c, b);
    assert Pass(x, f, c, b)[..f'] == y[..f'];
    RunsSortedPrefix(y, h / 2, 2 * c);
    if f' + c == f && f == |x| {
      assert Pass(x, f, c, b)[f'..] == y[f'..];
      RunsSortedSuffix(y, h / 2, 2 * c);
      ShortRunsSorted(y[f'..], 2 * c);
    }
  }

  /** The active length of the next pass, counted in the next pass's chunks. */
  lemma ActiveNext(h: nat, c: nat, f: nat)
    requires c > 0 && f == Product(h, c)
    ensures h % 2 != 0 ==> NextActive(f, c) + c == f
    ensures h % 2 == 0 ==> NextActive(f, c) == f
    ensures NextActive(f, c) == Product(h / 2, 2 * c)
  {
    OddChunksOffset(h, c, 0);
    ProductPairs(h / 2, c);
    assert h == h / 2 + h / 2 + h % 2;
  }

  /** The partitioned file, before any pass, is in the between-passes state with its `r`
      runs as the chunks. */
  lemma BetweenStart(s: seq<Number>, m: nat, r: nat, p: Stage, h: nat, c: nat, odd: nat)
    requires m > 0 && |s| == r * m && RunsSorted(s, m)
    requires p == Stage(s, |s|) && h == r && c == m && odd == 0
    ensures Between(s, p, h, c, odd) == true
  {
    ProductIsMul(r, m);
    assert s[..|s|] == s;
  }

  /** A pass keeps the between-passes state: half as many chunks of twice the length, and
      one more odd pass when the chunk count was odd. */
  lemma PassStep(s: seq<Number>, p: Stage, h: nat, c: nat, odd: nat, b: nat,
                  q: Stage, h': nat, c': nat, odd': nat)
    requires Between(s, p, h, c, odd) == true
    requires c > 0 && p.active <= |p.data|
    requires q == Stage(Pass(p.data, p.active, c, b), NextActive(p.active, c))
    requires h' == h / 2 && c' == 2 * c && odd' == odd + h % 2
    ensures Between(s, q, h', c', odd') == true
  {
    var x, f := p.data, p.active;
    var f' := NextActive(f, c);
    ActiveNext(h, c, f);
    PassKeeps(x, f, h, c, b, f');
  }

  /** The between-passes state after `t` passes over `r` runs of `m` records: `Halve(r, t)`
      chunks of the pass's chunk length after `OddPasses(r, t)` odd passes. */
  // Contracts write `BetweenAt(...) == true`: a bare call is split into its conjuncts at every
  // use, which makes the proofs that use it several times more expensive to verify.
  ghost predicate BetweenAt(s: seq<Number>, m: nat, b: nat, r: nat, t: nat)
    requires m > 0
  {
    Between(s, AfterPasses(s, m, b, t), Halve(r, t), ChunkLength(m, t), OddPasses(r, t))
  }

  /** After `t` passes over the partitioned file of `r` sorted runs of `m` records, the
      between-passes state holds with `Halve(r, t)` chunks of the pass's chunk length. */
  lemma {:induction false} BetweenAll(s: seq<Number>, m: nat, b: nat, r: nat, t: nat)
    requires m > 0 && |s| == r * m && RunsSorted(s, m)
    ensures BetweenAt(s, m, b, r, t) == true
  {
    if t == 0 {
      BetweenStart(s, m, r, AfterPasses(s, m, b, 0), Halve(r, 0), ChunkLength(m, 0), OddPasses(r, 0));
    } else {
      BetweenAll(s, m, b, r, t - 1);
      PassStepAt(s, m, b, r, t);
    }
  }

  /** Pass `t` keeps the between-passes state left by the passes before it. */
  lemma PassStepAt(s: seq<Number>, m: nat, b: nat, r: nat, t: nat)
    requires m > 0 && t > 0
    requires BetweenAt(s, m, b, r, t - 1) == true
    ensures BetweenAt(s, m, b, r, t) == true
  {
    PassStep(s, AfterPasses(s, m, b, t - 1), Halve(r, t - 1), ChunkLength(m, t - 1), OddPasses(r, t - 1), b,
             AfterPasses(s, m, b, t), Halve(r, t), ChunkLength(m, t), OddPasses(r, t));
  }

  /** The file after `t` passes holds the records of the partitioned file `s`. */
  // Contracts write `KeepsRecords(...) == true`: a bare call is split into its conjuncts at every
  // use, which makes the proofs that use it several times more expensive to verify.
  ghost predicate KeepsRecords(s: seq<Number>, m: nat, b: nat, t: nat)
    requires m > 0
  {
    multiset(AfterPasses(s, m, b, t).data) == multiset(s)
  }

  /** Pass `t` keeps the records of the file the passes before it left. */
  lemma PassPermutesAt(s: seq<Number>, m: nat, b: nat, r: nat, t: nat)
    requires m > 0 && t > 0 && |s| == r * m && RunsSorted(s, m)
    requires KeepsRecords(s, m, b, t - 1) == true
    ensures KeepsRecords(s, m, b, t) == true
  {
    BetweenAll(s, m, b, r, t - 1);
    var p := AfterPasses(s, m, b, t - 1);
    var c := ChunkLength(m, t - 1);
    PassPermutes(p.data, p.active, Halve(r, t - 1), c, b);
  }

  /** The passes keep the records of the partitioned file. */
  lemma {:induction false} PermutesAll(s: seq<Number>, m: nat, b: nat, r: nat, t: nat)
    requires m > 0 && |s| == r * m && RunsSorted(s, m)
    ensures KeepsRecords(s, m, b, t) == true
  {
    if t > 0 {
      PermutesAll(s, m, b, r, t - 1);
      PassPermutesAt(s, m, b, r, t);
    }
  }

  /** A stage with a single active chunk after at most one odd pass: both parts are
      sorted, and nothing is carried when no pass was odd. */
  lemma FinalStage(s: seq<Number>, p: Stage, h: nat, c: nat, odd: nat)
    requires Between(s, p, h, c, odd) && h == 1 && odd <= 1
    ensures Sorted(p.data[..p.active]) && Sorted(p.data[p.active..])
    ensures odd == 0 ==> p.active == |s|
  {
    assert Product(1, c) == Product(0, c) + c;
    ShortRunsSorted(p.data[..p.active], c);
  }

  /** After the last pass over a run count with at most two set bits, the active part and
      the carried part are each sorted and together hold the partitioned file's records;
      with a single set bit nothing is carried. */
  lemma LastPass(s: seq<Number>, m: nat, b: nat, r: nat)
    requires m > 0 && r >= 1 && |s| == r * m && RunsSorted(s, m)
    requires PopCount(r) <= 2
    ensures var p := AfterPasses(s, m, b, Log2(r));
      Sorted(p.data[..p.active]) && Sorted(p.data[p.active..]) && multiset(p.data) == multiset(s)
    ensures PopCount(r) == 1 ==> AfterPasses(s, m, b, Log2(r)).active == |s|
  {
    var L := Log2(r);
    BetweenAll(s, m, b, r, L);
    PermutesAll(s, m, b, r, L);
    assert KeepsRecords(s, m, b, L);
    OddPassesPopCount(r);
    HalveUntilLog(r, L);
    FinalStage(s, AfterPasses(s, m, b, L), Halve(r, L), ChunkLength(m, L), OddPasses(r, L));
  }

  /** When the active part and the carried part are each sorted, the final merge leaves
      them sorted as one, with the same records. */
  lemma FinishSorted(p: Stage, b: nat)
    requires p.active <= |p.data| && Sorted(p.data[..p.active]) && Sorted(p.data[p.active..])
    ensures Sorted(Finish(p, b)) && multiset(Finish(p, b)) == multiset(p.data)
  {
    var x, y := p.data[..p.active], p.data[p.active..];
    assert p.data == x + y;
    if p.active != |p.data| {
      BlockMergeSorted(x, y, b);
      MergedIsSorted(x, y);
      MergedPermutes(x, y);
    }
  }

  /** With at most one odd pass, that is a run count with at most two set bits, the merge
      phase returns the sorted permutation of the partitioned file. */
  lemma MergeResultSorted(s: seq<Number>, m: nat, b: nat, r: nat)
    requires m > 0 && r >= 1 && |s| == r * m && RunsSorted(s, m)
    requires PopCount(r) <= 2
    ensures Sorted(MergeResult(s, m, b, r)) && multiset(MergeResult(s, m, b, r)) == multiset(s)
  {
    LastPass(s, m, b, r);
    FinishSorted(AfterPasses(s, m, b, Log2(r)), b);
  }

  /** A single run needs no pass: the merge phase returns the partitioned file. */
  lemma MergeResultOneRun(s: seq<Number>, m: nat, b: nat)
    requires m > 0
    ensures MergeResult(s, m, b, 1) == s
  {
  }

  /** With a power-of-two run count no pass is odd, nothing is carried, and no final
      merge is needed: the file after the last pass is the result, and it is sorted. */
  lemma MergeResultPowerOfTwo(s: seq<Number>, m: nat, b: nat, k: nat)
    requires m > 0 && |s| == Pow2(k) * m && RunsSorted(s, m)
    ensures AfterPasses(s, m, b, Log2(Pow2(k))).active == |s|
    ensures Sorted(MergeResult(s, m, b, Pow2(k))) && multiset(MergeResult(s, m, b, Pow2(k))) == multiset(s)
  {
    var r := Pow2(k);
    PopCountPow2(k);
    LastPass(s, m, b, r);
    MergeResultSorted(s, m, b, r);
  }

  /** The passes leave a sorted file as it is. */
  lemma {:induction false} AfterPassesKeepsSorted(s: seq<Number>, m: nat, b: nat, t: nat)
    requires m > 0 && Sorted(s)
    ensures AfterPasses(s, m, b, t).data == s
  {
    if t > 0 {
      AfterPassesKeepsSorted(s, m, b, t - 1);
      var a := AfterPasses(s, m, b, t - 1).active;
      SortedSlice(s, 0, a);
      PassKeepsSorted(s, m, b, t, a);
    }
  }

  /** Pass `t` leaves the file as it is when the passes before it did and its active
      part is sorted. */
  lemma PassKeepsSorted(s: seq<Number>, m: nat, b: nat, t: nat, a: nat)
    requires m > 0 && t > 0 && AfterPasses(s, m, b, t - 1).data == s
    requires a == AfterPasses(s, m, b, t - 1).active && Sorted(s[..a])
    ensures AfterPasses(s, m, b, t).data == s
  {
    var c := ChunkLength(m, t - 1);
    MergePairsKeepsSorted(s[..a], c, b);
    PassFixed(s, a, c, b);
  }

  /** A pass whose merges give back the active part leaves the file as it is. */
  lemma PassFixed(x: seq<Number>, a: nat, c: nat, b: nat)
    requires c > 0 && a <= |x| && MergePairs(x[..a], c, b) == x[..a]
    ensures Pass(x, a, c, b) == x
  {
    assert x[..a] + x[a..] == x;
  }

  /** The merge phase returns an already sorted file unchanged, for every run count. */
  lemma MergeResultIdempotent(s: seq<Number>, m: nat, b: nat, r: nat)
    requires m > 0 && r >= 1 && Sorted(s)
    ensures MergeResult(s, m, b, r) == s
  {
    var p := AfterPasses(s, m, b, Log2(r));
    AfterPassesKeepsSorted(s, m, b, Log2(r));
    if p.active != |s| {
      var x, y := s[..p.active], s[p.active..];
      assert x + y == s;
      SortedSlice(s, 0, p.active);
      SortedSlice(s, p.active, |s|);
      assert s[p.active..|s|] == y;
      BlockMergeSorted(x, y, b);
      MergedSortedHalves(x, y);
    }
  }

  /** Seven runs of two records merged through one-record blocks, whose first twelve
      records are sorted and whose last two are: both passes leave the file as it is, the
      first pass carries the last run and the second pass the two runs before it, so the
      result is the block merge of the first eight records with the six carried ones. */
  lemma SevenRunsResult(s: seq<Number>)
    requires |s| == 14 && Sorted(s[..12]) && Sorted(s[12..])
    ensures AfterPasses(s, 2, 1, Log2(7)) == Stage(s, 8)
    ensures MergeResult(s, 2, 1, 7) == BlockMerge(s[..8], s[8..], 1)
  {
    assert Log2(7) == 2 by {
      assert Log2(3) == 1;
    }
    SevenRunsFirstPass(s);
    SevenRunsSecondPass(s);
  }

  /** The first of the seven-run passes merges six runs in pairs, each pair already in
      order, and carries the seventh. */
  lemma SevenRunsFirstPass(s: seq<Number>)
    requires |s| == 14 && Sorted(s[..12]) && Sorted(s[12..])
    ensures AfterPasses(s, 2, 1, 1) == Stage(s, 12)
  {
    assert Product(3, 4) == 12;
    MergePairsAppend(s[..12], s[12..], 3, 2, 1);
    MergePairsKeepsSorted(s[..12], 2, 1);
    MergePairsKeepsSorted(s[12..], 2, 1);
    assert s[..12] + s[12..] == s && s[..14] == s;
    OddChunksDiv(14, 2);
  }

  /** The second of the seven-run passes merges the first two chunks of four records, in
      order already, and carries the third. */
  lemma SevenRunsSecondPass(s: seq<Number>)
    requires |s| == 14 && Sorted(s[..12]) && AfterPasses(s, 2, 1, 1) == Stage(s, 12)
    ensures AfterPasses(s, 2, 1, 2) == Stage(s, 8)
  {
    MergePairsKeepsSorted(s[..12], 4, 1);
    assert s[..12] + s[12..] == s;
    OddChunksDiv(12, 4);
  }

  /** With seven runs the carried part holds two runs that are not in order with each
      other, and the final merge passes them on as they are: this partitioned file of
      sorted runs comes back as a permutation that is not sorted. */
  lemma SevenRunsUnsorted(s: seq<Number>)
    requires s == [0, 1, 2, 3, 4, 5, 6, 7, 20, 21, 22, 23, -5, -4]
    ensures SortEachRun(s, 2) == s
    ensures MergeResult(s, 2, 1, 7) == s
    ensures !Sorted(MergeResult(s, 2, 1, 7))
  {
    UnsortedShape(s);
    SevenRunsPartitioned(s);
    SevenRunsResult(s);
    UnsortedFinalMerge(s[..8], s[8..]);
  }

  /** The first seven-run file: its first twelve records are sorted, its last two are,
      and records 11 and 12 are out of order. */
  lemma UnsortedShape(s: seq<Number>)
    requires s == [0, 1, 2, 3, 4, 5, 6, 7, 20, 21, 22, 23, -5, -4]
    ensures |s| == 14 && Sorted(s[..12]) && Sorted(s[12..]) && !Sorted(s)
    ensures s[..8] == [0, 1, 2, 3, 4, 5, 6, 7] && s[8..] == [20, 21, 22, 23, -5, -4] && s[..8] + s[8..] == s
  {
    assert s[12] < s[11];
  }

  /** The final merge of the first seven-run file, one comparison at a time: the active
      part, then the whole carried part, whose records are all below the sentinel. */
  lemma UnsortedFinalMerge(a: seq<Number>, c: seq<Number>)
    requires a == [0, 1, 2, 3, 4, 5, 6, 7] && c == [20, 21, 22, 23, -5, -4]
    ensures BlockMerge(a, c, 1) == a + c
  {
    var x, y := a + Sentinels(7), c + Sentinels(9);
    SevenRunsPadding(a, c, x, y);
    MergedFromLeftRun(x, y, 0, 0, 8);
    MergedFromRightRun(x, y, 8, 0, 6);
  }

  /** With seven runs the carried part may hold `INT64_MAX` as a record; once the active
      part is used up its sentinels tie with that record and win the tie, so sentinels fill
      the rest of the output and the carried records behind it are lost. */
  lemma SevenRunsLoseRecords(s: seq<Number>)
    requires s == [0, 1, 2, 3, 4, 5, 6, 7, 20, 21, 22, INT64_MAX, -5, -4]
    ensures SortEachRun(s, 2) == s
    ensures MergeResult(s, 2, 1, 7) == [0, 1, 2, 3, 4, 5, 6, 7, 20, 21, 22, INT64_MAX, INT64_MAX, INT64_MAX]
    ensures -5 in s && -5 !in MergeResult(s, 2, 1, 7)
  {
    LossyShape(s);
    SevenRunsPartitioned(s);
    SevenRunsResult(s);
    LossyFinalMerge(s[..8], s[8..]);
    LossyResult(MergeResult(s, 2, 1, 7));
  }

  /** The result of the second seven-run file lacks `-5`. */
  lemma LossyResult(r: seq<Number>)
    requires r == [0, 1, 2, 3, 4, 5, 6, 7, 20, 21, 22, INT64_MAX, INT64_MAX, INT64_MAX]
    ensures -5 !in r
  {
  }

  /** The second seven-run file: its first twelve records are sorted, its last two are,
      and it holds `-5`. */
  lemma LossyShape(s: seq<Number>)
    requires s == [0, 1, 2, 3, 4, 5, 6, 7, 20, 21, 22, INT64_MAX, -5, -4]
    ensures |s| == 14 && Sorted(s[..12]) && Sorted(s[12..]) && -5 in s
    ensures s[..8] == [0, 1, 2, 3, 4, 5, 6, 7] && s[8..] == [20, 21, 22, INT64_MAX, -5, -4]
  {
  }

  /** The final merge of the second seven-run file, one comparison at a time: the active
      part, the carried records below `INT64_MAX`, then the active part's sentinels, which
      win their ties with the carried `INT64_MAX`. */
  lemma LossyFinalMerge(a: seq<Number>, c: seq<Number>)
    requires a == [0, 1, 2, 3, 4, 5, 6, 7] && c == [20, 21, 22, INT64_MAX, -5, -4]
    ensures BlockMerge(a, c, 1) == [0, 1, 2, 3, 4, 5, 6, 7, 20, 21, 22, INT64_MAX, INT64_MAX, INT64_MAX]
  {
    var x, y := a + Sentinels(7), c + Sentinels(9);
    SevenRunsPadding(a, c, x, y);
    MergedFromLeftRun(x, y, 0, 0, 8);
    MergedFromRightRun(x, y, 8, 0, 3);
    MergedFromLeftRun(x, y, 8, 3, 15);
  }

  /** A file of fourteen records whose first twelve are sorted and whose last two are is
      already partitioned into sorted runs of two. */
  lemma SevenRunsPartitioned(s: seq<Number>)
    requires |s| == 14 && Sorted(s[..12]) && Sorted(s[12..])
    ensures SortEachRun(s, 2) == s
  {
    assert Product(6, 2) == 12;
    SortEachRunAppend(s[..12], s[12..], 6, 2);
    assert s[..12] + s[12..] == s;
    SortEachRunKeepsSorted(s[..12], 2);
    SortEachRunKeepsSorted(s[12..], 2);
  }

  /** The two runs of the final seven-run merge padded with sentinels, written out. */
  lemma SevenRunsPadding(a: seq<Number>, c: seq<Number>, x: seq<Number>, y: seq<Number>)
    requires |a| == 8 && |c| == 6 && x == a + Sentinels(7) && y == c + Sentinels(9)
    ensures x == a + [INT64_MAX, INT64_MAX, INT64_MAX, INT64_MAX, INT64_MAX, INT64_MAX, INT64_MAX]
    ensures y == c + [INT64_MAX, INT64_MAX, INT64_MAX, INT64_MAX, INT64_MAX, INT64_MAX, INT64_MAX, INT64_MAX, INT64_MAX]
  {
  }
}
