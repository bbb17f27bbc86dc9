/**
  Exact integer replacements for the floating-point `math.log2` and
  `math.ceil` calls that the register-file generator uses to size its
  address space.  `Pow2` is 2^k, `IsPowerOfTwo` is the test that
  `int(log2(n)) == log2(n)` is meant to be, `Log2Exact` is `log2` on a power
  of two and `CeilLog2` is `ceil(log2(n))`.
 */
module Pow2Math {

  /** 2 raised to the power k. */
  function Pow2(k: nat): (r: nat)
    ensures r >= 1
    ensures k > 0 ==> r % 2 == 0
  {
    if k == 0 then 1 else 2 * Pow2(k - 1)
  }

  /** n is an exact power of two (1, 2, 4, 8, ...). */
  predicate IsPowerOfTwo(n: int)
    decreases if n > 0 then n else 0
  {
    n >= 1 && (n == 1 || (n % 2 == 0 && IsPowerOfTwo(n / 2)))
  }

  /** The exponent of a power of two: log2 where it is an integer. */
  function Log2Exact(n: int): (k: nat)
    requires IsPowerOfTwo(n)
    ensures Pow2(k) == n
    decreases n
  {
    if n == 1 then 0 else 1 + Log2Exact(n / 2)
  }

  /** ceil(log2(n)): the least k with 2^k >= n. */
  function CeilLog2(n: int): (k: nat)
    requires n >= 1
    ensures Pow2(k) >= n
    ensures k == 0 || Pow2(k - 1) < n
    decreases n
  {
    if n == 1 then 0 else 1 + CeilLog2((n + 1) / 2)
  }

  lemma {:induction false} Pow2Monotone(a: nat, b: nat)
    requires a <= b
    ensures Pow2(a) <= Pow2(b)
    decreases b - a
  {
    if a < b {
      Pow2Monotone(a, b - 1);
    }
  }

  /** 2^(a+b) == 2^a * 2^b. */
  lemma {:induction false} Pow2Add(a: nat, b: nat)
    ensures Pow2(a + b) == Pow2(a) * Pow2(b)
    decreases a
  {
    if a > 0 {
      Pow2Add(a - 1, b);
      assert a + b - 1 == a - 1 + b;
      MulDouble(Pow2(a - 1), Pow2(b));
    }
  }

  /** Every 2^k passes the power-of-two test. */
  lemma {:induction false} Pow2IsPowerOfTwo(k: nat)
    ensures IsPowerOfTwo(Pow2(k))
  {
    if k > 0 {
      Pow2IsPowerOfTwo(k - 1);
      assert Pow2(k) / 2 == Pow2(k - 1);
    }
  }

  /** The power-of-two test accepts exactly the values 2^k. */
  lemma PowerOfTwoIff(n: int)
    ensures IsPowerOfTwo(n) <==> exists k: nat :: Pow2(k) == n
  {
    if IsPowerOfTwo(n) {
      var k := Log2Exact(n);
      assert Pow2(k) == n;
    }
    if exists k: nat :: Pow2(k) == n {
      var k: nat :| Pow2(k) == n;
      Pow2IsPowerOfTwo(k);
    }
  }

  /** 2^k determines k, so the exact log2 is the only exponent. */
  lemma {:induction false} Pow2Injective(a: nat, b: nat)
    requires Pow2(a) == Pow2(b)
    ensures a == b
  {
    if a < b {
      Pow2Monotone(a + 1, b);
    } else if b < a {
      Pow2Monotone(b + 1, a);
    }
  }

  /** Halving a power of two that is at least 2 gives a power of two. */
  lemma HalfOfPowerOfTwo(n: int)
    requires IsPowerOfTwo(n) && n >= 2
    ensures IsPowerOfTwo(n / 2) && (n / 2) * 2 == n
  {
  }

  /** A power of two that is at least 8 is 8 times a power of two. */
  lemma EighthOfPowerOfTwo(n: int)
    requires IsPowerOfTwo(n) && n >= 8
    ensures IsPowerOfTwo(n / 8) && (n / 8) * 8 == n
  {
    HalfOfPowerOfTwo(n);
    HalfOfPowerOfTwo(n / 2);
    HalfOfPowerOfTwo(n / 2 / 2);
    assert n / 2 / 2 / 2 == n / 8;
  }

  /** CeilLog2 is the least exponent whose power reaches n. */
  lemma {:induction false} CeilLog2Least(n: int, j: nat)
    requires n >= 1 && Pow2(j) >= n
    ensures CeilLog2(n) <= j
  {
    var k := CeilLog2(n);
    if j < k {
      Pow2Monotone(j, k - 1);
    }
  }

  /** On a power of two, ceil(log2) and the exact log2 agree. */
  lemma {:induction false} CeilLog2OfPowerOfTwo(n: int)
    requires IsPowerOfTwo(n)
    ensures CeilLog2(n) == Log2Exact(n)
  {
    var k := Log2Exact(n);
    CeilLog2Least(n, k);
    var c := CeilLog2(n);
    if c < k {
      Pow2Monotone(c, k - 1);
    }
  }

  /** ceil(log2(n)) is 0 exactly when n is 1. */
  lemma CeilLog2ZeroIff(n: int)
    requires n >= 1
    ensures CeilLog2(n) == 0 <==> n == 1
  {
  }

  /** The two facts in CeilLog2's contract determine it. */
  lemma {:induction false} CeilLog2Unique(n: int, k: nat)
    requires n >= 1 && Pow2(k) >= n && (k == 0 || Pow2(k - 1) < n)
    ensures CeilLog2(n) == k
  {
    CeilLog2Least(n, k);
    var c := CeilLog2(n);
    if c < k {
      Pow2Monotone(c, k - 1);
    }
  }

  /** Multiplying by 2^b adds b to ceil(log2). */
  lemma {:induction false} CeilLog2Scale(n: int, b: nat)
    requires n >= 1
    ensures n * Pow2(b) >= 1
    ensures CeilLog2(n * Pow2(b)) == CeilLog2(n) + b
  {
    var k := CeilLog2(n);
    MulMonotone(1, n, Pow2(b));
    Pow2Add(k, b);
    MulMonotone(n, Pow2(k), Pow2(b));
    if k > 0 {
      Pow2Add(k - 1, b);
      MulStrict(Pow2(k - 1), n, Pow2(b));
      assert k + b - 1 == k - 1 + b;
    } else {
      assert n == 1;
      if b > 0 {
        Pow2Monotone(k + b - 1 + 1, b);
        assert Pow2(b - 1) < Pow2(b);
      }
    }
    CeilLog2Unique(n * Pow2(b), k + b);
  }

  /** ceil(log2(n)) + b is the least j with n * 2^b <= 2^j. */
  lemma CeilLog2ScaledLeast(n: int, b: nat, j: nat)
    requires n >= 1 && n * Pow2(b) <= Pow2(j)
    ensures CeilLog2(n) + b <= j
  {
    CeilLog2Scale(n, b);
    CeilLog2Least(n * Pow2(b), j);
  }

  lemma MulDouble(x: int, y: int)
    ensures (2 * x) * y == 2 * (x * y)
  {
  }

  lemma MulMonotone(x: int, y: int, c: nat)
    requires x <= y
    ensures x * c <= y * c
  {
  }

  lemma MulStrict(x: int, y: int, c: nat)
    requires x < y && c > 0
    ensures x * c < y * c
  {
  }
}
