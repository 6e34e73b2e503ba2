/** Size classes of the general heap: linear bins, then a fixed number of divisions per power of two. */
module TalcGeometry {
  const WORD_BITS: nat := 64
  const MIN_CHUNK_BYTES: nat := 32
  const MIN_METADATA: nat := 512
  const MAX_DIVISIONS_LOG: nat := 3

  function Pow(k: nat): (r: nat)
    ensures r >= 1
  {
    if k == 0 then 1 else 2 * Pow(k - 1)
  }

  /** The largest k with Pow(k) <= n. */
  function Log(n: nat): (k: nat)
    requires n >= 1
  {
    if n == 1 then 0 else 1 + Log(n / 2)
  }

  lemma {:induction false} LogBounds(n: nat)
    requires n >= 1
    ensures Pow(Log(n)) <= n < 2 * Pow(Log(n))
  {
    if n > 1 { LogBounds(n / 2); }
  }

  lemma {:induction false} PowMonotone(a: nat, b: nat)
    requires a <= b
    ensures Pow(a) <= Pow(b)
    decreases b
  {
    if a < b { PowMonotone(a, b - 1); }
  }

  lemma LogMonotone(a: nat, b: nat)
    requires 1 <= a <= b
    ensures Log(a) <= Log(b)
  {
    LogBounds(a);
    LogBounds(b);
    if Log(b) < Log(a) { PowMonotone(Log(b) + 1, Log(a)); }
  }

  function Times(a: nat, b: nat): nat { a * b }

  /** `(x << log d) >> log p`, for powers of two d and p. */
  function Scaled(x: nat, d: nat, p: nat): nat
    requires p > 0
  {
    Times(x, d) / p
  }

  lemma ScaledBelow(x: nat, d: nat, p: nat)
    requires x < p && d > 0
    ensures Scaled(x, d, p) < d
  {
    MulBelow(x, p, d);
    DivBelow(Times(x, d), p, d);
  }

  lemma ScaledMonotone(x: nat, y: nat, d: nat, p: nat)
    requires x <= y && p > 0
    ensures Scaled(x, d, p) <= Scaled(y, d, p)
  {
    MulMonotone(x, y, d);
    DivMonotone(Times(x, d), Times(y, d), p);
  }

  lemma TimesMonotone(a: nat, b: nat, d: nat)
    requires a <= b
    ensures Times(a, d) <= Times(b, d)
  {
    MulMonotone(a, b, d);
  }

  lemma TimesNext(a: nat, d: nat)
    ensures Times(a + 1, d) == Times(a, d) + d
  {}

  datatype Geometry = Geometry(bins: nat, linear: nat, linearShift: nat, exponentialLog: nat, divisionsLog: nat) {
    function Divisions(): (d: nat)
      ensures d >= 1
    {
      Pow(divisionsLog)
    }

    /** The bin before clamping. */
    function RawBin(bytes: nat): nat {
      var size := if bytes >= 1 then bytes else 1;
      if size < Pow(exponentialLog) then (size - 1) / Pow(linearShift)
      else
        var octave := Log(size);
        var over := if octave >= exponentialLog then octave - exponentialLog else 0;
        LogBounds(size);
        linear + Times(over, Divisions()) + Scaled(size - Pow(octave), Divisions(), Pow(octave))
    }

    function Bin(bytes: nat): (b: nat)
      requires bins > 0
      ensures b < bins
    {
      if RawBin(bytes) < bins then RawBin(bytes) else bins - 1
    }

    function AvailabilityWords(): nat { (bins + WORD_BITS - 1) / WORD_BITS }

    // A nullable bin head takes two words.
    function MetadataBytes(): nat { bins * 16 + AvailabilityWords() * 8 }

    /** `validate` answers Ok for this extent. */
    predicate ValidFor(extent: nat) {
      && extent >= MIN_CHUNK_BYTES && bins > 0 && linear > 0
      && linearShift <= exponentialLog < WORD_BITS && divisionsLog <= MAX_DIVISIONS_LOG
      && AvailabilityWords() <= WORD_BITS
      && MetadataBytes() + MIN_METADATA <= extent
      && linear == Pow(exponentialLog - linearShift) && bins >= linear
      && exponentialLog <= Log(extent)
      && (bins - linear) % Divisions() == 0
      && exponentialLog + (bins - linear) / Divisions() >= Log(extent) + 1
      && Bin(extent) < bins
    }

    lemma LinearBelow(bytes: nat)
      requires linearShift <= exponentialLog && linear == Pow(exponentialLog - linearShift)
      requires 1 <= bytes < Pow(exponentialLog)
      ensures RawBin(bytes) < linear
    {
      PowSum(linearShift, exponentialLog - linearShift);
      DivBelow(bytes - 1, Pow(linearShift), linear);
    }

    lemma ExponentialRange(bytes: nat)
      requires bytes >= Pow(exponentialLog)
      ensures Log(bytes) >= exponentialLog
      ensures linear + Times(Log(bytes) - exponentialLog, Divisions()) <= RawBin(bytes)
              < linear + Times(Log(bytes) - exponentialLog + 1, Divisions())
    {
      LogBounds(bytes);
      LogOfPow(exponentialLog);
      LogMonotone(Pow(exponentialLog), bytes);
      ScaledBelow(bytes - Pow(Log(bytes)), Divisions(), Pow(Log(bytes)));
      TimesNext(Log(bytes) - exponentialLog, Divisions());
    }

    /** A larger chunk never goes to a smaller bin. */
    lemma RawBinMonotone(a: nat, b: nat)
      requires linearShift <= exponentialLog && linear == Pow(exponentialLog - linearShift)
      requires 1 <= a <= b
      ensures RawBin(a) <= RawBin(b)
    {
      var start := Pow(exponentialLog);
      if b < start {
        DivMonotone(a - 1, b - 1, Pow(linearShift));
      } else if a < start {
        LinearBelow(a);
        ExponentialRange(b);
      } else if Log(a) == Log(b) {
        ExponentialRange(a);
        LogBounds(a);
        ScaledMonotone(a - Pow(Log(a)), b - Pow(Log(a)), Divisions(), Pow(Log(a)));
      } else {
        LogMonotone(a, b);
        ExponentialRange(a);
        ExponentialRange(b);
        TimesMonotone(Log(a) - exponentialLog + 1, Log(b) - exponentialLog, Divisions());
      }
    }

    /** Up to a validated extent no size is clamped. */
    lemma Unclamped(extent: nat, bytes: nat)
      requires ValidFor(extent) && bytes <= extent
      ensures RawBin(bytes) < bins && Bin(bytes) == RawBin(bytes)
    {
      var size := if bytes >= 1 then bytes else 1;
      assert RawBin(bytes) == RawBin(size);
      if size < Pow(exponentialLog) {
        LinearBelow(size);
      } else {
        ExponentialRange(size);
        LogMonotone(size, extent);
        var d := Divisions();
        var octaves := (bins - linear) / d;
        ExactDivision(bins - linear, d);
        TimesMonotone(Log(size) - exponentialLog + 1, octaves, d);
      }
    }

    lemma BinMonotone(extent: nat, a: nat, b: nat)
      requires ValidFor(extent) && 1 <= a <= b <= extent
      ensures Bin(a) <= Bin(b)
    {
      Unclamped(extent, a);
      Unclamped(extent, b);
      RawBinMonotone(a, b);
    }
  }

  lemma {:induction false} PowSum(a: nat, b: nat)
    ensures Pow(a) * Pow(b) == Pow(a + b)
    decreases a
  {
    if a > 0 {
      PowSum(a - 1, b);
      assert Pow(a) * Pow(b) == 2 * (Pow(a - 1) * Pow(b));
    }
  }

  lemma {:induction false} LogOfPow(k: nat)
    ensures Log(Pow(k)) == k
  {
    if k > 0 {
      LogOfPow(k - 1);
      assert Pow(k) / 2 == Pow(k - 1);
    }
  }

  lemma MulMonotone(a: int, b: int, d: nat)
    requires a <= b
    ensures a * d <= b * d
  {
    assert (b - a) * d >= 0;
    assert (b - a) * d == b * d - a * d;
  }

  lemma MulBelow(a: int, b: int, d: nat)
    requires a < b && d > 0
    ensures a * d < b * d
  {
    MulMonotone(a + 1, b, d);
    assert (a + 1) * d == a * d + d;
  }

  lemma ExactDivision(x: nat, d: nat)
    requires d > 0 && x % d == 0
    ensures Times(x / d, d) == x
  {}

  lemma DivMonotone(a: nat, b: nat, m: nat)
    requires a <= b && m > 0
    ensures a / m <= b / m
  {
    var p, q := a / m, b / m;
    assert a == m * p + a % m && b == m * q + b % m;
    if q < p {
      MulMonotone(q + 1, p, m);
      assert false;
    }
  }

  lemma DivBelow(a: nat, m: nat, k: nat)
    requires m > 0 && a < m * k
    ensures a / m < k
  {
    var q := a / m;
    assert a == m * q + a % m;
    if k <= q {
      MulMonotone(k, q, m);
      assert false;
    }
  }
}
