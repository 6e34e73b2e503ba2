/** Powers of two, rounding up to one, and remainders by one. */
module Powers {
  const WORD_SPAN: nat := 0x1_0000_0000_0000_0000  // the number of values of a 64-bit word
  const HALF_SPAN: nat := 0x8000_0000_0000_0000

  predicate IsPow2(n: nat) {
    n == 1 || (n > 1 && n % 2 == 0 && IsPow2(n / 2))
  }

  function RoundFrom(p: nat, n: nat): (r: nat)
    requires p > 0
    ensures r >= n && r >= p
    decreases n - p
  {
    if p >= n then p else RoundFrom(2 * p, n)
  }

  /** The least power of two that is at least n; 1 for n = 0. */
  function NextPow2(n: nat): (r: nat)
    ensures r >= n && r >= 1
  {
    RoundFrom(1, n)
  }

  lemma {:induction false} RoundFromIsPow2(p: nat, n: nat)
    requires IsPow2(p)
    ensures IsPow2(RoundFrom(p, n))
    decreases n - p
  {
    if p < n {
      assert (2 * p) / 2 == p;
      RoundFromIsPow2(2 * p, n);
    }
  }

  lemma {:induction false} RoundFromLeast(p: nat, n: nat, q: nat)
    requires IsPow2(p) && IsPow2(q) && q >= n && q >= p
    ensures RoundFrom(p, n) <= q
    decreases n - p
  {
    if p < n {
      assert (2 * p) / 2 == p;
      Pow2Gap(p, q);
      RoundFromLeast(2 * p, n, q);
    }
  }

  /** Two different powers of two are at least a factor of two apart. */
  lemma {:induction false} Pow2Gap(p: nat, q: nat)
    requires IsPow2(p) && IsPow2(q) && p < q
    ensures 2 * p <= q
  {
    if p > 1 {
      Pow2Gap(p / 2, q / 2);
    }
  }

  /** NextPow2 is a power of two, and no smaller one is large enough. */
  lemma NextPow2Least(n: nat, q: nat)
    requires IsPow2(q) && q >= n
    ensures IsPow2(NextPow2(n)) && NextPow2(n) <= q
  {
    RoundFromIsPow2(1, n);
    Pow2Positive(q);
    RoundFromLeast(1, n, q);
  }

  lemma NextPow2IsPow2(n: nat)
    ensures IsPow2(NextPow2(n))
  {
    RoundFromIsPow2(1, n);
  }

  lemma Pow2Positive(q: nat)
    requires IsPow2(q)
    ensures q >= 1
  {}

  /** A smaller power of two divides a larger one. */
  lemma {:induction false} Pow2Divides(p: nat, q: nat)
    requires IsPow2(p) && IsPow2(q) && p <= q
    ensures p > 0 && q % p == 0
  {
    if p > 1 {
      if q == 1 { assert false; }
      Pow2Divides(p / 2, q / 2);
      var k := (q / 2) / (p / 2);
      assert q / 2 == k * (p / 2);
      assert q == k * p;
      MulMod(k, p);
    }
  }

  lemma {:induction false} MulMod(k: nat, p: nat)
    requires p > 0
    ensures (k * p) % p == 0
  {
    if k > 0 {
      MulMod(k - 1, p);
      ModShift((k - 1) * p, p);
      assert (k - 1) * p + p == k * p;
    }
  }

  lemma SmallMultiple(k: int, m: int)
    requires m > 0 && -m < k * m < m
    ensures k == 0
  {
    if k >= 1 { assert false; }
    if k <= -1 { assert false; }
  }

  /** Quotient and remainder are unique. */
  lemma RemainderUnique(x: nat, q: int, m: nat, r: nat)
    requires m > 0 && x == q * m + r && r < m
    ensures x / m == q && x % m == r
  {
    var q', r' := x / m, x % m;
    assert x == m * q' + r';
    assert (q' - q) * m == r - r';
    SmallMultiple(q' - q, m);
  }

  lemma ModShift(x: nat, m: nat)
    requires m > 0
    ensures (x + m) % m == x % m
  {
    var q := x / m;
    assert x == m * q + x % m;
    assert x + m == (q + 1) * m + x % m;
    RemainderUnique(x + m, q + 1, m, x % m);
  }

  lemma Times256(n: nat)
    requires IsPow2(n)
    ensures IsPow2(256 * n)
  {
    assert IsPow2(2 * n) by { assert (2 * n) / 2 == n; }
    assert IsPow2(4 * n) by { assert (4 * n) / 2 == 2 * n; }
    assert IsPow2(8 * n) by { assert (8 * n) / 2 == 4 * n; }
    assert IsPow2(16 * n) by { assert (16 * n) / 2 == 8 * n; }
    assert IsPow2(32 * n) by { assert (32 * n) / 2 == 16 * n; }
    assert IsPow2(64 * n) by { assert (64 * n) / 2 == 32 * n; }
    assert IsPow2(128 * n) by { assert (128 * n) / 2 == 64 * n; }
    assert (256 * n) / 2 == 128 * n;
  }

  lemma SpanIsPow2()
    ensures IsPow2(WORD_SPAN)
  {
    Times256(1);
    Times256(0x100);
    Times256(0x1_0000);
    Times256(0x100_0000);
    Times256(0x1_0000_0000);
    Times256(0x100_0000_0000);
    Times256(0x1_0000_0000_0000);
    Times256(0x100_0000_0000_0000);
  }
}
