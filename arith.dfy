/** Integer stand-ins for the floating-point `pow(2, iteration)` and `floor(log2(partitions))`
    of the pass orchestrator, bit counting for the odd-run analysis, and the divisibility
    facts the block-aligned loops rely on. */
module Arith {

  /** 2 to the power `t`. */
  function Pow2(t: nat): (r: nat)
    ensures r >= 1
  {
    if t == 0 then 1 else 2 * Pow2(t - 1)
  }

  /** Floor of the base-2 logarithm of `n`. */
  function Log2(n: nat): (r: nat)
    requires n >= 1
    ensures Pow2(r) <= n < Pow2(r + 1)
  {
    if n == 1 then 0 else 1 + Log2(n / 2)
  }

  /** `n` halved (rounding down) `t` times: the number of chunks still active at pass `t`. */
  ghost function Halve(n: nat, t: nat): nat {
    if t == 0 then n else Halve(n, t - 1) / 2
  }

  /** Number of set bits of `n`. */
  ghost function PopCount(n: nat): nat {
    if n == 0 then 0 else n % 2 + PopCount(n / 2)
  }

  /** Halving `t + 1` times is halving once and then `t` times. */
  lemma {:induction false} HalveShift(n: nat, t: nat)
    ensures Halve(n, t + 1) == Halve(n / 2, t)
  {
    if t > 0 {
      HalveShift(n, t - 1);
    }
  }

  /** Up to the pass count `Log2(n)` at least one chunk remains active, and after exactly
      `Log2(n)` halvings a single chunk remains. */
  lemma {:induction false} HalveUntilLog(n: nat, t: nat)
    requires n >= 1 && t <= Log2(n)
    ensures Halve(n, t) >= 1
    ensures t == Log2(n) ==> Halve(n, t) == 1
  {
    if t > 0 {
      HalveShift(n, t - 1);
      HalveUntilLog(n / 2, t - 1);
    }
  }

  /** A power of two has a single set bit. */
  lemma {:induction false} PopCountPow2(k: nat)
    ensures PopCount(Pow2(k)) == 1
  {
    if k > 0 {
      assert Pow2(k) % 2 == 0 && Pow2(k) / 2 == Pow2(k - 1);
      PopCountPow2(k - 1);
    }
  }

  /** Dividing `h * c` by `c` gives back `h`. */
  lemma MulDivCancel(h: nat, c: nat)
    requires c > 0
    ensures (h * c) / c == h
  {
    var q, r := (h * c) / c, (h * c) % c;
    assert h * c == q * c + r;
    assert (h - q) * c == r;
    if h - q >= 1 {
      assert false;
    } else if h - q <= -1 {
      assert false;
    }
  }

  /** A positive multiple of `m` is at least `m`, and removing one `m` leaves a multiple. */
  lemma MultipleGap(x: int, m: int)
    requires m > 0 && x > 0 && x % m == 0
    ensures x >= m && (x - m) % m == 0
  {
    var q := x / m;
    assert x == q * m;
    assert x - m == (q - 1) * m;
    MultipleMod(q - 1, m);
  }

  /** `q * m` is a multiple of `m`. */
  lemma MultipleMod(q: int, m: int)
    requires m > 0
    ensures (q * m) % m == 0
  {
    var d, r := (q * m) / m, (q * m) % m;
    assert q * m == d * m + r;
    assert (q - d) * m == r;
    if q - d >= 1 {
      assert false;
    } else if q - d <= -1 {
      assert false;
    }
  }

  /** The difference of two multiples of `m` is a multiple of `m`. */
  lemma MultipleDiff(x: int, y: int, m: int)
    requires m > 0 && x % m == 0 && y % m == 0
    ensures (x - y) % m == 0
  {
    assert x == (x / m) * m && y == (y / m) * m;
    assert x - y == (x / m - y / m) * m;
    MultipleMod(x / m - y / m, m);
  }

  /** Between two multiples of `m` there is room for a whole `m`. */
  lemma NextMultiple(a: int, b: int, m: int)
    requires m > 0 && a % m == 0 && b % m == 0 && a < b
    ensures a + m <= b
  {
    MultipleDiff(b, a, m);
    MultipleGap(b - a, m);
  }

  /** The next multiple of `m` after a multiple of `m`. */
  lemma MultipleNext(x: int, m: int)
    requires m > 0 && x % m == 0
    ensures (x + m) % m == 0
  {
    assert x == (x / m) * m;
    assert x + m == (x / m + 1) * m;
    MultipleMod(x / m + 1, m);
  }

  /** One more copy of `m`. */
  lemma MulSucc(p: int, m: int)
    ensures (p + 1) * m == p * m + m
  {
  }

  /** `x` is a whole number of blocks of `b` records, counted off one block at a time. */
  ghost predicate Aligned(x: nat, b: nat)
    decreases x
  {
    x == 0 || (b > 0 && x >= b && Aligned(x - b, b))
  }

  /** A multiple of the block size is a whole number of blocks. */
  lemma {:induction false} AlignedFromMod(x: nat, b: nat)
    requires b > 0 && x % b == 0
    ensures Aligned(x, b)
    decreases x
  {
    if x > 0 {
      MultipleGap(x, b);
      AlignedFromMod(x - b, b);
    }
  }

  /** After a whole number of blocks below another one there is room for a whole block. */
  lemma {:induction false} AlignedRoom(a: nat, s: nat, b: nat)
    requires b > 0 && Aligned(a, b) && Aligned(s, b) && a < s
    ensures a + b <= s
    decreases a
  {
    if a > 0 {
      AlignedRoom(a - b, s - b, b);
    }
  }

  /** Whole numbers of blocks add up to a whole number of blocks. */
  lemma {:induction false} AlignedAdd(x: nat, y: nat, b: nat)
    requires b > 0 && Aligned(x, b) && Aligned(y, b)
    ensures Aligned(x + y, b)
    decreases x
  {
    if x > 0 {
      AlignedAdd(x - b, y, b);
      assert x + y - b == x - b + y;
    }
  }

  /** Taking a whole number of blocks from a larger one leaves a whole number of blocks. */
  lemma {:induction false} AlignedSub(x: nat, y: nat, b: nat)
    requires b > 0 && Aligned(x, b) && Aligned(y, b) && y <= x
    ensures Aligned(x - y, b)
    decreases y
  {
    if y > 0 {
      AlignedSub(x - b, y - b, b);
      assert x - y == x - b - (y - b);
    }
  }

  /** A whole number of blocks is a multiple of the block size. */
  lemma {:induction false} AlignedMod(x: nat, b: nat)
    requires b > 0 && Aligned(x, b)
    ensures x % b == 0
    decreases x
  {
    if x > 0 {
      AlignedMod(x - b, b);
      MultipleNext(x - b, b);
    }
  }

  /** `h` chunks of `c` records, counted one chunk at a time. */
  ghost function Product(h: nat, c: nat): nat {
    if h == 0 then 0 else Product(h - 1, c) + c
  }

  /** Counting chunks one at a time is multiplying. */
  lemma {:induction false} ProductIsMul(h: nat, c: nat)
    ensures Product(h, c) == h * c
  {
    if h > 0 {
      ProductIsMul(h - 1, c);
      assert h * c == (h - 1) * c + c;
    }
  }

  /** Twice `k` chunks of `c` records are `k` chunks of `2 * c` records. */
  lemma {:induction false} ProductPairs(k: nat, c: nat)
    ensures Product(k + k, c) == Product(k, 2 * c)
  {
    if k > 0 {
      ProductPairs(k - 1, c);
      assert Product(k + k, c) == Product(k - 1 + k - 1, c) + c + c;
    }
  }

  /** Whole chunks of a whole number of blocks are a whole number of blocks. */
  lemma {:induction false} ProductAligned(h: nat, c: nat, b: nat)
    requires b > 0 && Aligned(c, b)
    ensures Aligned(Product(h, c), b)
  {
    if h > 0 {
      ProductAligned(h - 1, c, b);
      AlignedAdd(Product(h - 1, c), c, b);
    }
  }
}
