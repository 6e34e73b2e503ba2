/** Where a pool keeps its control words and blocks: power-of-two classes laid out one after another. */
module PoolGeometry {
  import opened Common
  import opened Powers
  import TalcGeometry

  const SIZE_MAX: nat := HALF_SPAN - 1
  const CONTROL_BYTES: nat := 4
  const MIN_BLOCK: nat := 64
  const DEFAULT_MAX: nat := 65536

  datatype Layout = Layout(size: nat, align: nat)

  // Offsets are from the header's address.
  datatype Class = Class(bytes: nat, slots: nat, controls: nat, payload: nat)

  datatype Built = Invalid | Built(layout: Layout, classes: seq<Class>)

  datatype Info = Info(min: nat, base: nat, classes: nat)

  // Rounding up.

  function RoundUp(x: nat, a: nat): nat
    requires a >= 1
  {
    if x % a == 0 then x else x + (a - x % a)
  }

  /** RoundUp gives the least multiple that is not below. */
  lemma RoundUpLeast(x: nat, a: nat, k: nat)
    requires a >= 1
    ensures RoundUp(x, a) % a == 0 && x <= RoundUp(x, a) < x + a
    ensures x <= k * a ==> RoundUp(x, a) <= k * a
  {
    var q := x / a;
    assert x == q * a + x % a;
    if x % a != 0 {
      assert RoundUp(x, a) == (q + 1) * a;
      MulMod(q + 1, a);
      if x <= k * a { LeastMultiple(q, k, a); }
    }
  }

  lemma LeastMultiple(q: nat, k: nat, a: nat)
    ensures q * a < k * a ==> (q + 1) * a <= k * a
  {
    if q < k {
      ProductMonotone(a, q + 1, k);
    } else {
      ProductMonotone(a, k, q);
    }
  }

  lemma ProductMonotone(a: nat, x: nat, y: nat)
    requires x <= y
    ensures a * x <= a * y
  {}

  lemma RoundUpMonotone(x: nat, y: nat, a: nat)
    requires a >= 1 && x <= y
    ensures RoundUp(x, a) <= RoundUp(y, a)
  {
    RoundUpLeast(y, a, 0);
    var k := RoundUp(y, a) / a;
    assert RoundUp(y, a) == k * a;
    RoundUpLeast(x, a, k);
  }

  // Building.

  predicate Fits(size: nat, align: nat) { align >= 1 && size + (align - 1) <= SIZE_MAX }

  lemma RoundedBelow(x: nat, a: nat, k: nat)
    requires a >= 1 && k >= 1
    ensures RoundUp(x, a) < k * a <==> x + a <= k * a
  {
    RoundUpLeast(x, a, k - 1);
    var q := RoundUp(x, a) / a;
    assert RoundUp(x, a) == q * a;
    LeastMultiple(q, k, a);
    assert (k - 1) * a == k * a - a && (q + 1) * a == q * a + a;
  }

  /** A layout is allowed exactly if its size, rounded up to its alignment, is at most the largest size. */
  lemma FitsRounded(size: nat, align: nat)
    requires IsPow2(align) && align <= HALF_SPAN
    ensures align >= 1 && (Fits(size, align) <==> RoundUp(size, align) <= SIZE_MAX)
  {
    Pow2Positive(align);
    HalfMultiple(align, HALF_SPAN);
    RoundedBelow(size, align, HALF_SPAN / align);
  }

  lemma HalfMultiple(a: nat, m: nat)
    requires IsPow2(a) && a <= m == HALF_SPAN
    ensures a >= 1 && m / a >= 1 && (m / a) * a == m
  {
    assert IsPow2(m) by { SpanIsPow2(); }
    Pow2Divides(a, m);
  }

  /** `Layout::extend`: the layout with the part added, and the part's offset. */
  function Extend(l: Layout, part: Layout): (r: Option<(Layout, nat)>)
    requires part.align >= 1
  {
    var offset := RoundUp(l.size, part.align);
    var next := Layout(offset + part.size, Max(l.align, part.align));
    if Fits(next.size, next.align) then Some((next, offset)) else None
  }

  /** `min << index`, bits past the word lost. */
  function BytesOf(min: nat, index: nat): nat {
    if index == 0 then min else (2 * BytesOf(min, index - 1)) % WORD_SPAN
  }

  /** `base >> k`. */
  function Halved(base: nat, k: nat): nat {
    if k == 0 then base else Halved(base, k - 1) / 2
  }

  lemma {:induction false} HalvedMonotone(a: nat, b: nat, k: nat)
    requires a <= b
    ensures Halved(a, k) <= Halved(b, k)
  {
    if k > 0 { HalvedMonotone(a, b, k - 1); }
  }

  function SlotsOf(base: nat, index: nat): nat { Halved(base, index / 2) }

  /** Adds the control words and then the blocks of one class; `area` is what the blocks take. */
  function AddArea(g: Built, bytes: nat, slots: nat, area: nat): Built
    requires g.Built?
  {
    if !Fits(CONTROL_BYTES * slots, CONTROL_BYTES) then Invalid
    else
      match Extend(g.layout, Layout(CONTROL_BYTES * slots, CONTROL_BYTES))
      case None => Invalid
      case Some(c) =>
        if !IsPow2(bytes) || !Fits(area, bytes) then Invalid
        else
          match Extend(c.0, Layout(area, bytes))
          case None => Invalid
          case Some(p) => Built(p.0, g.classes + [Class(bytes, slots, c.1, p.1)])
  }

  /** The product, by repeated addition. */
  function Times(b: nat, n: nat): nat {
    if n == 0 then 0 else b + Times(b, n - 1)
  }

  lemma {:induction false} TimesIsProduct(b: nat, n: nat)
    ensures Times(b, n) == n * b
  {
    if n > 0 { TimesIsProduct(b, n - 1); }
  }

  lemma {:induction false} TimesMonotone(b: nat, x: nat, y: nat)
    requires x <= y
    ensures Times(b, x) <= Times(b, y)
    decreases y
  {
    if x < y { TimesMonotone(b, x, y - 1); }
  }

  function Area(min: nat, base: nat, index: nat): nat { Times(BytesOf(min, index), SlotsOf(base, index)) }

  lemma SizesMonotone(min: nat, a: nat, b: nat, index: nat)
    requires a <= b
    ensures SlotsOf(a, index) <= SlotsOf(b, index) && Area(min, a, index) <= Area(min, b, index)
  {
    HalvedMonotone(a, b, index / 2);
    TimesMonotone(BytesOf(min, index), SlotsOf(a, index), SlotsOf(b, index));
  }

  /** The loop body of `build`. */
  function AddClass(g: Built, min: nat, base: nat, index: nat): Built
    requires g.Built?
  {
    if index >= 64 then Invalid
    else AddArea(g, BytesOf(min, index), SlotsOf(base, index), Area(min, base, index))
  }

  function Lay(h: Layout, min: nat, base: nat, n: nat): Built {
    if n == 0 then Built(h, [])
    else
      var g := Lay(h, min, base, n - 1);
      if g.Invalid? then Invalid else AddClass(g, min, base, n - 1)
  }

  function Padded(g: Built): Built {
    if g.Invalid? || g.layout.align == 0 then g
    else g.(layout := Layout(RoundUp(g.layout.size, g.layout.align), g.layout.align))
  }

  function Build(h: Layout, min: nat, count: nat, base: nat): Built { Padded(Lay(h, min, base, count)) }

  /** `Geometry::build`. */
  method BuildClasses(h: Layout, min: nat, count: nat, base: nat) returns (g: Built)
    ensures g == Build(h, min, count, base)
    ensures g.Built? ==> Exactly(h, g, min, count, base)
    ensures g.Built? <==> Buildable(h, min, count, base)
  {
    g := LayClasses(h, min, count, base);
    if g.Built? { g := Padded(g); }
    BuildExactly(h, min, count, base);
  }

  method LayClasses(h: Layout, min: nat, count: nat, base: nat) returns (g: Built)
    ensures g == Lay(h, min, base, count)
  {
    g := Built(h, []);
    var index := 0;
    while index < count
      invariant index <= count && g.Built? && g == Lay(h, min, base, index)
    {
      g := AddClass(g, min, base, index);
      if g.Invalid? {
        LayStaysInvalid(h, min, base, index + 1, count);
        return;
      }
      index := index + 1;
    }
  }

  lemma {:induction false} LayStaysInvalid(h: Layout, min: nat, base: nat, n: nat, m: nat)
    requires n <= m && Lay(h, min, base, n).Invalid?
    ensures Lay(h, min, base, m).Invalid?
    decreases m
  {
    if n < m { LayStaysInvalid(h, min, base, n, m - 1); }
  }

  // What is built, said of the classes themselves.

  /** Where the bytes before class i end, and the alignment asked for so far. */
  function Before(h: Layout, cs: seq<Class>, i: nat): nat
    requires i <= |cs|
  {
    if i == 0 then h.size else EndOf(cs[i - 1])
  }

  function AlignBefore(h: Layout, cs: seq<Class>, i: nat): nat
    requires i <= |cs|
  {
    if i == 0 then h.align else Max(Max(AlignBefore(h, cs, i - 1), CONTROL_BYTES), cs[i - 1].bytes)
  }

  /** The least multiple of a from x on. */
  predicate Snug(x: nat, a: nat, at: nat) { a >= 1 && at % a == 0 && x <= at < x + a }

  /**
   The numbers of class i: blocks twice as large as in the class before, a power of two; as many as in the class before
   for an odd index, half as many as two classes before for an even one.
   */
  predicate Numbers(cs: seq<Class>, i: nat, min: nat, base: nat)
    requires i < |cs|
  {
    && IsPow2(cs[i].bytes) && cs[i].bytes <= HALF_SPAN && cs[i].bytes == (if i == 0 then min else 2 * cs[i - 1].bytes)
    && cs[i].slots == (if i == 0 then base else if i % 2 == 1 then cs[i - 1].slots else cs[i - 2].slots / 2)
  }

  predicate Numbered(cs: seq<Class>, min: nat, base: nat) {
    forall i {:trigger Numbers(cs, i, min, base)} :: 0 <= i < |cs| ==> Numbers(cs, i, min, base)
  }

  /** Class i has its control words and blocks at the next aligned places, and every size there is a layout's. */
  predicate Places(h: Layout, cs: seq<Class>, i: nat)
    requires i < |cs|
  {
    i < 64 && Next(Layout(Before(h, cs, i), AlignBefore(h, cs, i)), cs[i])
  }

  /** Class c comes next after a layout l. */
  predicate Next(l: Layout, c: Class) {
    && Snug(l.size, CONTROL_BYTES, c.controls) && Snug(c.controls + CONTROL_BYTES * c.slots, c.bytes, c.payload)
    && Fits(CONTROL_BYTES * c.slots, CONTROL_BYTES) && Fits(AreaOf(c), c.bytes)
    && Fits(c.controls + CONTROL_BYTES * c.slots, Max(l.align, CONTROL_BYTES))
    && Fits(EndOf(c), Max(Max(l.align, CONTROL_BYTES), c.bytes))
  }

  predicate Placed(h: Layout, cs: seq<Class>) {
    forall i {:trigger Places(h, cs, i)} :: 0 <= i < |cs| ==> Places(h, cs, i)
  }

  lemma SnugIsRoundUp(x: nat, a: nat, at: nat)
    requires a >= 1
    ensures Snug(x, a, at) <==> at == RoundUp(x, a)
  {
    RoundUpLeast(x, a, 0);
    if Snug(x, a, at) { OneMultiple(x, a, RoundUp(x, a), at); }
  }

  lemma OneMultiple(x: nat, a: nat, y: nat, z: nat)
    requires a >= 1 && y % a == 0 && z % a == 0 && x <= y < x + a && x <= z < x + a
    ensures y == z
  {
    var r, k := y / a, z / a;
    assert y == r * a && z == k * a;
    LeastMultiple(r, k, a);
    LeastMultiple(k, r, a);
    assert (r + 1) * a == y + a && (k + 1) * a == z + a;
  }

  /** u is g with class c added. */
  predicate Added(g: Built, u: Built, c: Class) {
    && g.Built? && IsPow2(c.bytes) && Next(g.layout, c)
    && u == Built(Layout(EndOf(c), Max(Max(g.layout.align, CONTROL_BYTES), c.bytes)), g.classes + [c])
  }

  lemma AddsOne(g: Built, bytes: nat, slots: nat) returns (c: Class)
    requires g.Built? && AddArea(g, bytes, slots, Times(bytes, slots)).Built?
    ensures c.bytes == bytes && c.slots == slots && Added(g, AddArea(g, bytes, slots, Times(bytes, slots)), c)
  {
    var u := AddArea(g, bytes, slots, Times(bytes, slots));
    c := u.classes[|g.classes|];
    Pow2Positive(bytes);
    SnugIsRoundUp(g.layout.size, CONTROL_BYTES, c.controls);
    SnugIsRoundUp(c.controls + CONTROL_BYTES * c.slots, c.bytes, c.payload);
  }

  lemma AddsExactly(g: Built, u: Built, c: Class)
    requires Added(g, u, c)
    ensures AddArea(g, c.bytes, c.slots, AreaOf(c)) == u
  {
    Pow2Positive(c.bytes);
    SnugIsRoundUp(g.layout.size, CONTROL_BYTES, c.controls);
    SnugIsRoundUp(c.controls + CONTROL_BYTES * c.slots, c.bytes, c.payload);
  }

  // The numbers.

  lemma BytesStep(min: nat, i: nat)
    requires i >= 1 && BytesOf(min, i - 1) <= HALF_SPAN
    ensures BytesOf(min, i) == if BytesOf(min, i - 1) == HALF_SPAN then 0 else 2 * BytesOf(min, i - 1)
  {}

  lemma SlotsStep(base: nat, i: nat)
    requires i >= 1
    ensures SlotsOf(base, i) == if i % 2 == 1 then SlotsOf(base, i - 1) else SlotsOf(base, i - 2) / 2
  {
    if i % 2 == 0 { assert i / 2 == (i - 2) / 2 + 1; }
  }

  lemma {:induction false} BytesAt(cs: seq<Class>, min: nat, base: nat, i: nat)
    requires Numbered(cs, min, base) && i < |cs|
    ensures cs[i].bytes == BytesOf(min, i)
    decreases i
  {
    assert Numbers(cs, i, min, base);
    if i >= 1 {
      BytesAt(cs, min, base, i - 1);
      assert Numbers(cs, i - 1, min, base);
      BytesStep(min, i);
    }
  }

  lemma {:induction false} SlotsAt(cs: seq<Class>, min: nat, base: nat, i: nat)
    requires Numbered(cs, min, base) && i < |cs|
    ensures cs[i].slots == SlotsOf(base, i)
    decreases i
  {
    assert Numbers(cs, i, min, base);
    if i >= 1 {
      SlotsAt(cs, min, base, i - 1);
      if i >= 2 { SlotsAt(cs, min, base, i - 2); }
      SlotsStep(base, i);
    }
  }

  lemma NumbersGrow(cs: seq<Class>, c: Class, min: nat, base: nat)
    requires Numbered(cs, min, base) && IsPow2(c.bytes) && c.bytes <= HALF_SPAN
    requires c.bytes == BytesOf(min, |cs|) && c.slots == SlotsOf(base, |cs|)
    ensures Numbered(cs + [c], min, base)
  {
    var n, u := |cs|, cs + [c];
    forall i | 0 <= i <= n ensures Numbers(u, i, min, base) {
      if i < n { assert Numbers(cs, i, min, base); } else if n >= 1 { NumbersLast(cs, c, min, base); }
    }
  }

  lemma NumbersLast(cs: seq<Class>, c: Class, min: nat, base: nat)
    requires Numbered(cs, min, base) && IsPow2(c.bytes) && c.bytes <= HALF_SPAN && |cs| >= 1
    requires c.bytes == BytesOf(min, |cs|) && c.slots == SlotsOf(base, |cs|)
    ensures Numbers(cs + [c], |cs|, min, base)
  {
    var n := |cs|;
    assert Numbers(cs, n - 1, min, base);
    BytesAt(cs, min, base, n - 1);
    BytesStep(min, n);
    Pow2Positive(c.bytes);
    SlotsAt(cs, min, base, n - 1);
    if n >= 2 { SlotsAt(cs, min, base, n - 2); }
    SlotsStep(base, n);
  }

  // The places.

  lemma {:induction false} AlignPrefix(h: Layout, cs: seq<Class>, c: Class, i: nat)
    requires i <= |cs|
    ensures AlignBefore(h, cs + [c], i) == AlignBefore(h, cs, i) && Before(h, cs + [c], i) == Before(h, cs, i)
  {
    if i > 0 { AlignPrefix(h, cs, c, i - 1); }
  }

  lemma PlacesGrow(h: Layout, cs: seq<Class>, c: Class)
    requires Placed(h, cs) && |cs| < 64 && Next(Layout(Before(h, cs, |cs|), AlignBefore(h, cs, |cs|)), c)
    ensures Placed(h, cs + [c])
  {
    forall i | 0 <= i <= |cs| ensures Places(h, cs + [c], i) {
      AlignPrefix(h, cs, c, i);
      if i < |cs| { assert Places(h, cs, i); }
    }
  }

  /** The first n classes built: right numbers, right places. */
  ghost predicate InShape(h: Layout, g: Built, min: nat, base: nat, n: nat) {
    && g.Built? && |g.classes| == n && Numbered(g.classes, min, base) && Placed(h, g.classes)
    && g.layout == Layout(Before(h, g.classes, n), AlignBefore(h, g.classes, n))
  }

  lemma AddKeeps(h: Layout, g: Built, u: Built, c: Class, min: nat, base: nat, n: nat)
    requires InShape(h, g, min, base, n) && Added(g, u, c) && n < 64
    requires c.bytes == BytesOf(min, n) && c.slots == SlotsOf(base, n)
    ensures InShape(h, u, min, base, n + 1)
  {
    AlignPrefix(h, g.classes, c, n);
    NumbersGrow(g.classes, c, min, base);
    PlacesGrow(h, g.classes, c);
  }

  lemma {:induction false} LayShaped(h: Layout, min: nat, base: nat, n: nat)
    requires Lay(h, min, base, n).Built?
    ensures InShape(h, Lay(h, min, base, n), min, base, n)
  {
    if n > 0 {
      LayStep(h, min, base, n);
      LayShaped(h, min, base, n - 1);
      var g := Lay(h, min, base, n - 1);
      var c := AddsOne(g, BytesOf(min, n - 1), SlotsOf(base, n - 1));
      AddKeeps(h, g, Lay(h, min, base, n), c, min, base, n - 1);
    }
  }

  /** Classes with the right numbers and places are what is built. */
  lemma {:induction false} LayComplete(h: Layout, cs: seq<Class>, min: nat, base: nat, n: nat)
    requires Numbered(cs, min, base) && Placed(h, cs) && n <= |cs|
    ensures Lay(h, min, base, n) == Built(Layout(Before(h, cs, n), AlignBefore(h, cs, n)), cs[..n])
  {
    if n > 0 {
      LayComplete(h, cs, min, base, n - 1);
      CompleteStep(h, cs, Lay(h, min, base, n - 1), min, base, n);
    }
  }

  lemma CompleteStep(h: Layout, cs: seq<Class>, g: Built, min: nat, base: nat, n: nat)
    requires Numbered(cs, min, base) && Placed(h, cs) && 0 < n <= |cs|
    requires g == Lay(h, min, base, n - 1)
    requires g == Built(Layout(Before(h, cs, n - 1), AlignBefore(h, cs, n - 1)), cs[..n - 1])
    ensures Lay(h, min, base, n) == Built(Layout(Before(h, cs, n), AlignBefore(h, cs, n)), cs[..n])
  {
    assert cs[..n] == cs[..n - 1] + [cs[n - 1]];
    var u := Built(Layout(Before(h, cs, n), AlignBefore(h, cs, n)), cs[..n]);
    ClassComplete(h, cs, g, u, min, base, n - 1);
    LayNext(h, min, base, n, g, u);
  }

  lemma LayNext(h: Layout, min: nat, base: nat, n: nat, g: Built, u: Built)
    requires n > 0 && g == Lay(h, min, base, n - 1) && g.Built? && u == AddClass(g, min, base, n - 1)
    ensures Lay(h, min, base, n) == u
  {}

  lemma ClassComplete(h: Layout, cs: seq<Class>, g: Built, u: Built, min: nat, base: nat, n: nat)
    requires Numbered(cs, min, base) && Placed(h, cs) && n < |cs|
    requires g == Built(Layout(Before(h, cs, n), AlignBefore(h, cs, n)), cs[..n])
    requires u == Built(Layout(Before(h, cs, n + 1), AlignBefore(h, cs, n + 1)), cs[..n] + [cs[n]])
    ensures AddClass(g, min, base, n) == u
  {
    BytesAt(cs, min, base, n);
    SlotsAt(cs, min, base, n);
    assert Numbers(cs, n, min, base) && Places(h, cs, n);
    AddsExactly(g, u, cs[n]);
  }

  /** The right classes, and the extent is their end rounded up to the alignment they ask for. */
  predicate Exactly(h: Layout, g: Built, min: nat, count: nat, base: nat)
    requires g.Built?
  {
    && |g.classes| == count && Numbered(g.classes, min, base) && Placed(h, g.classes)
    && g.layout.align == AlignBefore(h, g.classes, count)
    && (g.layout.align >= 1 ==> Snug(Before(h, g.classes, count), g.layout.align, g.layout.size))
  }

  /** There are such classes. */
  ghost predicate Buildable(h: Layout, min: nat, count: nat, base: nat) {
    exists cs :: |cs| == count && Numbered(cs, min, base) && Placed(h, cs)
  }

  /** What `build` makes is exactly that, and it fails exactly when there are no such classes. */
  lemma BuildExactly(h: Layout, min: nat, count: nat, base: nat)
    ensures Build(h, min, count, base).Built? ==> Exactly(h, Build(h, min, count, base), min, count, base)
    ensures Build(h, min, count, base).Built? <==> Buildable(h, min, count, base)
  {
    var g := Lay(h, min, base, count);
    if g.Built? {
      LayShaped(h, min, base, count);
      PaddedExactly(h, g, min, count, base);
    }
    forall cs | |cs| == count && Numbered(cs, min, base) && Placed(h, cs) ensures g.Built? {
      LayComplete(h, cs, min, base, count);
    }
  }

  lemma PaddedExactly(h: Layout, g: Built, min: nat, count: nat, base: nat)
    requires InShape(h, g, min, base, count)
    ensures Exactly(h, Padded(g), min, count, base) && Buildable(h, min, count, base)
  {
    if g.layout.align >= 1 { SnugIsRoundUp(g.layout.size, g.layout.align, RoundUp(g.layout.size, g.layout.align)); }
  }

  // Monotonicity in the base slot count.

  lemma ExtendMonotone(l: Layout, m: Layout, p: Layout, q: Layout)
    requires p.align == q.align >= 1 && l.align == m.align && l.size <= m.size && p.size <= q.size
    requires Extend(m, q).Some?
    ensures Extend(l, p).Some? && Extend(l, p).value.0.size <= Extend(m, q).value.0.size
    ensures Extend(l, p).value.0.align == Extend(m, q).value.0.align
  {
    RoundUpMonotone(l.size, m.size, p.align);
  }

  /** Fewer slots take no more room: if b slots fit the address range, so do a <= b, in no more bytes. */
  lemma {:induction false} LayMonotone(h: Layout, min: nat, a: nat, b: nat, n: nat)
    requires a <= b && Lay(h, min, b, n).Built?
    ensures Lay(h, min, a, n).Built?
    ensures Lay(h, min, a, n).layout.size <= Lay(h, min, b, n).layout.size
    ensures Lay(h, min, a, n).layout.align == Lay(h, min, b, n).layout.align
  {
    if n > 0 {
      LayStep(h, min, b, n);
      LayMonotone(h, min, a, b, n - 1);
      AddMonotone(Lay(h, min, a, n - 1), Lay(h, min, b, n - 1), min, a, b, n - 1);
    }
  }

  lemma AddMonotone(f: Built, g: Built, min: nat, a: nat, b: nat, index: nat)
    requires f.Built? && g.Built? && f.layout.align == g.layout.align && f.layout.size <= g.layout.size && a <= b
    requires AddClass(g, min, b, index).Built?
    ensures AddClass(f, min, a, index).Built?
    ensures AddClass(f, min, a, index).layout.size <= AddClass(g, min, b, index).layout.size
    ensures AddClass(f, min, a, index).layout.align == AddClass(g, min, b, index).layout.align
  {
    SizesMonotone(min, a, b, index);
    AreaMonotone(f, g, BytesOf(min, index), SlotsOf(a, index), SlotsOf(b, index), Area(min, a, index),
                 Area(min, b, index));
  }

  lemma AreaMonotone(f: Built, g: Built, bytes: nat, s: nat, t: nat, a: nat, b: nat)
    requires f.Built? && g.Built? && f.layout.align == g.layout.align && f.layout.size <= g.layout.size && s <= t
             && a <= b
    requires AddArea(g, bytes, t, b).Built?
    ensures AddArea(f, bytes, s, a).Built?
    ensures AddArea(f, bytes, s, a).layout.size <= AddArea(g, bytes, t, b).layout.size
    ensures AddArea(f, bytes, s, a).layout.align == AddArea(g, bytes, t, b).layout.align
  {
    var c, d := Layout(CONTROL_BYTES * s, CONTROL_BYTES), Layout(CONTROL_BYTES * t, CONTROL_BYTES);
    ExtendMonotone(f.layout, g.layout, c, d);
    ExtendMonotone(Extend(f.layout, c).value.0, Extend(g.layout, d).value.0, Layout(a, bytes), Layout(b, bytes));
  }

  predicate FitsIn(h: Layout, min: nat, count: nat, base: nat, bound: nat) {
    var g := Build(h, min, count, base);
    g.Built? && g.layout.size <= bound
  }

  lemma FitsInMonotone(h: Layout, min: nat, count: nat, a: nat, b: nat, bound: nat)
    requires a <= b && FitsIn(h, min, count, b, bound)
    ensures FitsIn(h, min, count, a, bound)
  {
    LayMonotone(h, min, a, b, count);
    var f, g := Lay(h, min, a, count), Lay(h, min, b, count);
    if f.layout.align >= 1 { RoundUpMonotone(f.layout.size, g.layout.size, f.layout.align); }
  }

  /** The first class alone takes more than 65 bytes a slot, so nothing at or past the search's upper end fits. */
  lemma UpperEnd(h: Layout, min: nat, count: nat, base: nat, bound: nat)
    requires count >= 1 && MIN_BLOCK <= min && FitsIn(h, min, count, base, bound)
    ensures base < bound / (MIN_BLOCK + 1) + 1
  {
    FirstClass(h, min, base);
    LayGrows(h, min, base, 1, count);
    var g := Lay(h, min, base, count);
    if g.layout.align >= 1 { RoundUpLeast(g.layout.size, g.layout.align, 0); }
    assert 65 * base <= bound;
  }

  lemma LayStep(h: Layout, min: nat, base: nat, n: nat)
    requires n > 0 && Lay(h, min, base, n).Built?
    ensures Lay(h, min, base, n - 1).Built?
            && Lay(h, min, base, n) == AddClass(Lay(h, min, base, n - 1), min, base, n - 1)
  {}

  lemma {:induction false} LayGrows(h: Layout, min: nat, base: nat, n: nat, m: nat)
    requires n <= m && Lay(h, min, base, m).Built?
    ensures Lay(h, min, base, n).Built? && Lay(h, min, base, n).layout.size <= Lay(h, min, base, m).layout.size
    decreases m
  {
    if n < m {
      LayStep(h, min, base, m);
      LayGrows(h, min, base, n, m - 1);
      AddGrows(Lay(h, min, base, m - 1), min, base, m - 1);
    }
  }

  lemma AddGrows(g: Built, min: nat, base: nat, index: nat)
    requires g.Built? && AddClass(g, min, base, index).Built?
    ensures g.layout.size <= AddClass(g, min, base, index).layout.size
  {
    AreaGrows(g, BytesOf(min, index), SlotsOf(base, index), Area(min, base, index));
  }

  lemma AreaGrows(g: Built, bytes: nat, slots: nat, area: nat)
    requires g.Built? && AddArea(g, bytes, slots, area).Built?
    ensures g.layout.size + CONTROL_BYTES * slots + area <= AddArea(g, bytes, slots, area).layout.size
  {
    var c := Extend(g.layout, Layout(CONTROL_BYTES * slots, CONTROL_BYTES)).value;
    RoundUpLeast(g.layout.size, CONTROL_BYTES, 0);
    RoundUpLeast(c.0.size, bytes, 0);
  }

  lemma FirstClass(h: Layout, min: nat, base: nat)
    ensures BytesOf(min, 0) == min && SlotsOf(base, 0) == base
    ensures Lay(h, min, base, 1) == AddArea(Built(h, []), min, base, Times(min, base))
    ensures Lay(h, min, base, 1).Built? && min >= MIN_BLOCK ==> 68 * base <= Lay(h, min, base, 1).layout.size
  {
    assert Lay(h, min, base, 0) == Built(h, []);
    if Lay(h, min, base, 1).Built? && min >= MIN_BLOCK {
      AreaGrows(Built(h, []), min, base, Times(min, base));
      TimesIsProduct(min, base);
      ProductMonotone(base, MIN_BLOCK, min);
    }
  }

  // Choosing the slot count.

  /** The least base slot count the pool accepts for a class count. */
  function Minimum(count: nat): nat
    requires count >= 1
  {
    64 * TalcGeometry.Pow((count - 1) / 2)
  }

  /** Slot counts halve every second class, so a class has m slots exactly from m times that power of two on. */
  lemma {:induction false} SlotsFrom(cs: seq<Class>, min: nat, base: nat, i: nat, m: nat)
    requires Numbered(cs, min, base) && i < |cs|
    ensures cs[i].slots >= m <==> base >= m * TalcGeometry.Pow(i / 2)
    decreases i
  {
    assert Numbers(cs, i, min, base);
    if i % 2 == 1 {
      SlotsFrom(cs, min, base, i - 1, m);
    } else if i >= 2 {
      SlotsFrom(cs, min, base, i - 2, 2 * m);
      assert i / 2 == (i - 2) / 2 + 1;
      Regroup(m, TalcGeometry.Pow((i - 2) / 2));
    }
  }

  lemma Regroup(m: nat, p: nat)
    ensures (2 * m) * p == m * (2 * p)
  {}

  /** The minimum is the least base slot count that gives the last class 64 slots. */
  lemma MinimumIsLeast(cs: seq<Class>, min: nat, base: nat)
    requires Numbered(cs, min, base) && |cs| >= 1
    ensures cs[|cs| - 1].slots >= 64 <==> base >= Minimum(|cs|)
    ensures base == Minimum(|cs|) ==> cs[|cs| - 1].slots == 64
  {
    var n := |cs|;
    SlotsFrom(cs, min, base, n - 1, 64);
    SlotsFrom(cs, min, base, n - 1, 65);
    assert 65 * TalcGeometry.Pow((n - 1) / 2) == 64 * TalcGeometry.Pow((n - 1) / 2) + TalcGeometry.Pow((n - 1) / 2);
  }

  datatype Outcome = InvalidExtent | RequiredExtent(required: nat, available: nat) | Created(geometry: Built)

  /**
   The answer for a range of `count` classes from `min`, all of which must be kept when `exact`: the most classes
   whose minimum fits and for them the largest base slot count that fits, or why there is none.
   */
  ghost predicate Best(h: Layout, bound: nat, min: nat, count: nat, exact: bool, r: Outcome, chosen: nat, base: nat) {
    && 1 <= chosen <= count && (exact ==> chosen == count)
    && (forall c :: chosen < c <= count ==>
          Build(h, min, c, Minimum(c)).Built? && !FitsIn(h, min, c, Minimum(c), bound))
    && match r
       case InvalidExtent => Build(h, min, chosen, Minimum(chosen)).Invalid?
       case RequiredExtent(required, available) =>
         && (exact || chosen == 1) && Build(h, min, chosen, Minimum(chosen)).Built?
         && available == bound < required == Build(h, min, chosen, Minimum(chosen)).layout.size
       case Created(geometry) =>
         && base >= Minimum(chosen) && geometry == Build(h, min, chosen, base) && FitsIn(h, min, chosen, base, bound)
         && forall b :: b > base ==> !FitsIn(h, min, chosen, b, bound)
  }

  /** The loop of `Geometry::create`. */
  method Create(h: Layout, bound: nat, min: nat, count: nat, exact: bool) returns (r: Outcome, chosen: nat, base: nat)
    requires count >= 1 && MIN_BLOCK <= min
    ensures Best(h, bound, min, count, exact, r, chosen, base)
    ensures r.Created? ==> r.geometry.Built? && Exactly(h, r.geometry, min, chosen, base)
                           && r.geometry.classes[chosen - 1].slots >= 64
  {
    chosen, base := count, 0;
    while true
      invariant 1 <= chosen <= count && (exact ==> chosen == count)
      invariant forall c :: chosen < c <= count ==>
                  Build(h, min, c, Minimum(c)).Built? && !FitsIn(h, min, c, Minimum(c), bound)
      decreases chosen
    {
      var required := BuildClasses(h, min, chosen, Minimum(chosen));
      if required.Invalid? {
        r := InvalidExtent;
        return;
      }
      if required.layout.size <= bound {
        base := LargestBase(h, bound, min, chosen);
        var g := BuildClasses(h, min, chosen, base);
        MinimumIsLeast(g.classes, min, base);
        r := Created(g);
        return;
      }
      if exact || chosen == 1 {
        r := RequiredExtent(required.layout.size, bound);
        return;
      }
      chosen := chosen - 1;
    }
  }

  // The block sizes a caller asks for.

  datatype Range = Range(min: nat, max: nat)

  predicate GoodRange(r: Range) { IsPow2(r.min) && IsPow2(r.max) && MIN_BLOCK <= r.min <= r.max <= HALF_SPAN }

  /** `BlockRange::new`. */
  function NewRange(min: nat, max: nat): Option<Range> {
    var lo, hi := NextPow2(Max(min, MIN_BLOCK)), NextPow2(Max(max, MIN_BLOCK));
    if lo > HALF_SPAN || hi > HALF_SPAN || lo > hi then None else Some(Range(lo, hi))
  }

  /** A range is accepted with the least powers of two that hold its two ends. */
  lemma NewRangeHolds(min: nat, max: nat, p: nat)
    requires NewRange(min, max).Some? && IsPow2(p) && p >= MIN_BLOCK
    ensures var r := NewRange(min, max).value;
            && GoodRange(r) && r.min >= min && r.max >= max
            && (p >= min ==> p >= r.min) && (p >= max ==> p >= r.max)
  {
    NextPow2IsPow2(Max(min, MIN_BLOCK));
    NextPow2IsPow2(Max(max, MIN_BLOCK));
    if p >= min { NextPow2Least(Max(min, MIN_BLOCK), p); }
    if p >= max { NextPow2Least(Max(max, MIN_BLOCK), p); }
  }

  lemma RoundedWithin(n: nat, p: nat)
    requires IsPow2(p)
    ensures NextPow2(n) <= p <==> n <= p
  {
    NextPow2IsPow2(n);
    if n <= p { NextPow2Least(n, p); }
  }

  /** Blocks of p bytes hold the upper end and not the lower. */
  predicate Separates(p: nat, min: nat, max: nat) { IsPow2(p) && MIN_BLOCK <= p && max <= p < min }

  /** It is refused exactly when an end is past the largest power of two, or a power of two separates the ends. */
  lemma NewRangeRefuses(min: nat, max: nat)
    ensures NewRange(min, max).None? <==>
              min > HALF_SPAN || max > HALF_SPAN || exists p: nat :: Separates(p, min, max)
  {
    var a, b := Max(min, MIN_BLOCK), Max(max, MIN_BLOCK);
    assert IsPow2(HALF_SPAN) by { SpanIsPow2(); }
    RoundedWithin(a, HALF_SPAN);
    RoundedWithin(b, HALF_SPAN);
    var hi := NextPow2(b);
    NextPow2IsPow2(b);
    RoundedWithin(a, hi);
    RoundedWithin(b, hi);
    if hi < a { assert Separates(hi, min, max); }
    if p: nat :| Separates(p, min, max) {
      RoundedWithin(a, p);
      RoundedWithin(b, p);
    }
  }

  function CountOf(r: Range): nat
    requires 1 <= r.min && 1 <= r.max && TalcGeometry.Log(r.min) <= TalcGeometry.Log(r.max)
  {
    TalcGeometry.Log(r.max) - TalcGeometry.Log(r.min) + 1
  }

  /** With that many classes the last one has blocks of exactly the largest size. */
  lemma {:induction false} LastClass(min: nat, max: nat)
    requires IsPow2(min) && IsPow2(max) && min <= max <= HALF_SPAN
    ensures 1 <= min && TalcGeometry.Log(min) <= TalcGeometry.Log(max)
    ensures BytesOf(min, TalcGeometry.Log(max) - TalcGeometry.Log(min)) == max
    decreases max
  {
    Pow2Positive(min);
    if min < max {
      Pow2Gap(min, max);
      LastClass(min, max / 2);
      assert 2 * (max / 2) == max;
    }
  }

  /** `Geometry::create`: `exact` when the caller named the range, else the range is `DefaultRange`'s. */
  method CreateFor(h: Layout, bound: nat, range: Range, exact: bool) returns (r: Outcome, count: nat, chosen: nat,
                                                                              base: nat)
    requires GoodRange(range)
    ensures count >= 1 && BytesOf(range.min, count - 1) == range.max
    ensures Best(h, bound, range.min, count, exact, r, chosen, base)
  {
    Pow2Positive(range.max);
    LastClass(range.min, range.max);
    count := CountOf(range);
    r, chosen, base := Create(h, bound, range.min, count, exact);
  }

  /** The range used when the caller names none. */
  lemma DefaultRange()
    ensures GoodRange(Range(MIN_BLOCK, DEFAULT_MAX))
  {
    Times256(1);
    Times256(256);
    assert IsPow2(128) && IsPow2(64) by { assert IsPow2(256); }
  }

  /** The binary search of `create`. */
  method LargestBase(h: Layout, bound: nat, min: nat, count: nat) returns (base: nat)
    requires count >= 1 && MIN_BLOCK <= min && FitsIn(h, min, count, Minimum(count), bound)
    ensures Minimum(count) <= base && FitsIn(h, min, count, base, bound)
    ensures forall b :: b > base ==> !FitsIn(h, min, count, b, bound)
  {
    var low, high := Minimum(count), bound / (MIN_BLOCK + 1) + 1;
    UpperEnd(h, min, count, low, bound);
    if FitsIn(h, min, count, high, bound) { UpperEnd(h, min, count, high, bound); }
    while low + 1 < high
      invariant Minimum(count) <= low < high && FitsIn(h, min, count, low, bound) && !FitsIn(h, min, count, high, bound)
    {
      var middle := low + (high - low) / 2;
      var g := BuildClasses(h, min, count, middle);
      if g.Built? && g.layout.size <= bound {
        low := middle;
      } else {
        high := middle;
      }
    }
    forall b | b > low ensures !FitsIn(h, min, count, b, bound) {
      if FitsIn(h, min, count, b, bound) { FitsInMonotone(h, min, count, high, b, bound); }
    }
    return low;
  }

  // Disjointness and alignment.

  function AreaOf(c: Class): nat { Times(c.bytes, c.slots) }

  function EndOf(c: Class): nat { c.payload + AreaOf(c) }

  predicate ClassFits(c: Class, from: nat, to: nat, align: nat) {
    && from <= c.controls && c.controls % CONTROL_BYTES == 0 && c.controls + CONTROL_BYTES * c.slots <= c.payload
    && IsPow2(c.bytes) && c.bytes >= 1 && c.payload % c.bytes == 0 && EndOf(c) <= to
    && IsPow2(align) && c.bytes <= align
  }

  function StartOf(h: Layout, cs: seq<Class>, i: nat): nat
    requires i <= |cs|
  {
    if i == 0 then h.size else EndOf(cs[i - 1])
  }

  /** The classes follow one another after the header. */
  predicate Arranged(h: Layout, g: Built) {
    g.Built? && IsPow2(g.layout.align) && StartOf(h, g.classes, |g.classes|) <= g.layout.size
    && forall i {:trigger FitsAt(h, g, i)} :: 0 <= i < |g.classes| ==> FitsAt(h, g, i)
  }

  predicate FitsAt(h: Layout, g: Built, i: nat)
    requires g.Built? && i < |g.classes|
  {
    ClassFits(g.classes[i], StartOf(h, g.classes, i), g.layout.size, g.layout.align)
  }

  lemma ControlAlign()
    ensures IsPow2(CONTROL_BYTES)
  {
    assert IsPow2(2) by { assert IsPow2(1); }
  }

  lemma AreaFits(g: Built, bytes: nat, slots: nat, area: nat)
    requires g.Built? && IsPow2(g.layout.align) && area == Times(bytes, slots) && AddArea(g, bytes, slots, area).Built?
    ensures var u := AddArea(g, bytes, slots, area);
            && |u.classes| == |g.classes| + 1 && u.classes[..|g.classes|] == g.classes
            && ClassFits(u.classes[|g.classes|], g.layout.size, u.layout.size, u.layout.align)
            && EndOf(u.classes[|g.classes|]) == u.layout.size && g.layout.size <= u.layout.size
            && IsPow2(u.layout.align) && g.layout.align <= u.layout.align
  {
    var c := Extend(g.layout, Layout(CONTROL_BYTES * slots, CONTROL_BYTES)).value;
    ControlAlign();
    Pow2Positive(bytes);
    RoundUpLeast(g.layout.size, CONTROL_BYTES, 0);
    RoundUpLeast(c.0.size, bytes, 0);
  }

  lemma {:induction false} LayArranged(h: Layout, min: nat, base: nat, n: nat)
    requires IsPow2(h.align) && Lay(h, min, base, n).Built?
    ensures Arranged(h, Lay(h, min, base, n)) && |Lay(h, min, base, n).classes| == n
  {
    if n > 0 {
      var g, u := Lay(h, min, base, n - 1), Lay(h, min, base, n);
      LayArranged(h, min, base, n - 1);
      AreaFits(g, BytesOf(min, n - 1), SlotsOf(base, n - 1), Area(min, base, n - 1));
      forall i | 0 <= i < |u.classes|
        ensures FitsAt(h, u, i)
      {
        if i < n - 1 {
          assert FitsAt(h, g, i);
          assert u.classes[i] == g.classes[i] && StartOf(h, u.classes, i) == StartOf(h, g.classes, i);
          StillFits(u.classes[i], StartOf(h, g.classes, i), g.layout, u.layout);
        } else {
          assert StartOf(h, u.classes, i) == StartOf(h, g.classes, i) <= g.layout.size;
        }
      }
    }
  }

  lemma StillFits(c: Class, from: nat, l: Layout, m: Layout)
    requires ClassFits(c, from, l.size, l.align) && l.size <= m.size && IsPow2(m.align) && l.align <= m.align
    ensures ClassFits(c, from, m.size, m.align)
  {}

  // One control word or one block.
  datatype Part = ControlWord(i: nat, s: nat) | BlockAt(i: nat, s: nat)

  predicate IsPart(g: Built, p: Part) { g.Built? && p.i < |g.classes| && p.s < g.classes[p.i].slots }

  function Offset(c: Class, s: nat): nat { Times(c.bytes, s) }

  function PartStart(g: Built, p: Part): nat
    requires IsPart(g, p)
  {
    var c := g.classes[p.i];
    if p.ControlWord? then c.controls + CONTROL_BYTES * p.s else c.payload + Offset(c, p.s)
  }

  function PartSize(g: Built, p: Part): nat
    requires IsPart(g, p)
  {
    if p.ControlWord? then CONTROL_BYTES else g.classes[p.i].bytes
  }

  lemma ControlInClass(c: Class, from: nat, to: nat, align: nat, s: nat)
    requires ClassFits(c, from, to, align) && s < c.slots
    ensures from <= c.controls && c.controls + CONTROL_BYTES * s + CONTROL_BYTES <= c.payload <= EndOf(c) <= to
  {}

  lemma BlockInClass(c: Class, from: nat, to: nat, align: nat, s: nat)
    requires ClassFits(c, from, to, align) && s < c.slots
    ensures from <= c.controls <= c.payload && c.payload + Offset(c, s) + c.bytes <= EndOf(c) <= to
  {
    SlotInArea(c, s);
  }

  /** A part lies in its class: after the header and what came before, and within the extent. */
  lemma PartInClass(h: Layout, g: Built, p: Part)
    requires Arranged(h, g) && IsPart(g, p)
    ensures var c := g.classes[p.i];
            && StartOf(h, g.classes, p.i) <= c.controls <= PartStart(g, p)
            && (p.ControlWord? ==> PartStart(g, p) + PartSize(g, p) <= c.payload)
            && (p.BlockAt? ==> c.payload <= PartStart(g, p))
            && PartStart(g, p) + PartSize(g, p) <= EndOf(c) <= g.layout.size
  {
    var c := g.classes[p.i];
    assert FitsAt(h, g, p.i);
    if p.ControlWord? {
      ControlInClass(c, StartOf(h, g.classes, p.i), g.layout.size, g.layout.align, p.s);
    } else {
      BlockInClass(c, StartOf(h, g.classes, p.i), g.layout.size, g.layout.align, p.s);
    }
  }

  lemma SlotInArea(c: Class, s: nat)
    requires s < c.slots
    ensures Offset(c, s) + c.bytes <= AreaOf(c)
  {
    TimesMonotone(c.bytes, s + 1, c.slots);
  }

  /** Class i ends before class i + 1 begins, which ends no earlier. */
  lemma NextClass(h: Layout, g: Built, i: nat)
    requires Arranged(h, g) && i + 1 < |g.classes|
    ensures EndOf(g.classes[i]) <= g.classes[i + 1].controls <= EndOf(g.classes[i + 1])
  {
    assert FitsAt(h, g, i + 1);
  }

  lemma {:induction false} ClassesInOrder(h: Layout, g: Built, i: nat, j: nat)
    requires Arranged(h, g) && i < j < |g.classes|
    ensures EndOf(g.classes[i]) <= g.classes[j].controls
    decreases j
  {
    NextClass(h, g, j - 1);
    if i < j - 1 {
      ClassesInOrder(h, g, i, j - 1);
      NextClass(h, g, j - 2);
    }
  }

  predicate Apart(g: Built, p: Part, q: Part)
    requires IsPart(g, p) && IsPart(g, q)
  {
    PartStart(g, p) + PartSize(g, p) <= PartStart(g, q) || PartStart(g, q) + PartSize(g, q) <= PartStart(g, p)
  }

  lemma SameClassApart(g: Built, p: Part, q: Part)
    requires IsPart(g, p) && IsPart(g, q) && p.i == q.i && p.ControlWord? == q.ControlWord? && p.s < q.s
    ensures PartStart(g, p) + PartSize(g, p) <= PartStart(g, q)
  {
    TimesMonotone(g.classes[p.i].bytes, p.s + 1, q.s);
  }

  /** No two control words or blocks share a byte, none touches the header, and all are inside the pool's extent. */
  lemma PartsDisjoint(h: Layout, g: Built, p: Part, q: Part)
    requires Arranged(h, g) && IsPart(g, p) && IsPart(g, q) && p != q
    ensures Apart(g, p, q) && h.size <= PartStart(g, p) && PartStart(g, p) + PartSize(g, p) <= g.layout.size
  {
    PartInClass(h, g, p);
    PartInClass(h, g, q);
    if p.i < q.i {
      ClassesInOrder(h, g, p.i, q.i);
    } else if q.i < p.i {
      ClassesInOrder(h, g, q.i, p.i);
    } else if p.ControlWord? == q.ControlWord? {
      if p.s < q.s { SameClassApart(g, p, q); } else { SameClassApart(g, q, p); }
    }
    if p.i > 0 {
      ClassesInOrder(h, g, 0, p.i);
      assert FitsAt(h, g, 0);
    }
  }

  /** With the pool's base aligned as its layout asks, every block starts at a multiple of its size. */
  lemma BlocksAligned(h: Layout, g: Built, address: nat, p: Part)
    requires Arranged(h, g) && IsPart(g, p) && p.BlockAt? && address % g.layout.align == 0
    ensures PartSize(g, p) >= 1 && (address + PartStart(g, p)) % PartSize(g, p) == 0
  {
    var c := g.classes[p.i];
    assert FitsAt(h, g, p.i);
    Pow2Divides(c.bytes, g.layout.align);
    MultipleOfMultiple(address, g.layout.align, c.bytes);
    SumOfMultiples(address, c.payload, p.s, c.bytes);
    TimesIsProduct(c.bytes, p.s);
  }

  lemma MultipleOfMultiple(x: nat, a: nat, b: nat)
    requires a >= 1 && b >= 1 && x % a == 0 && a % b == 0
    ensures x % b == 0
  {
    var k, m := x / a, a / b;
    assert x == k * a && a == m * b;
    assert k * (m * b) == (k * m) * b;
    MulMod(k * m, b);
  }

  lemma SumOfMultiples(x: nat, y: nat, s: nat, b: nat)
    requires b >= 1 && x % b == 0 && y % b == 0
    ensures (x + (y + s * b)) % b == 0
  {
    var u, v := x / b, y / b;
    assert x == u * b && y == v * b;
    assert u * b + v * b + s * b == (u + v + s) * b;
    MulMod(u + v + s, b);
  }

  /** What `build` makes is arranged, also after padding. */
  lemma BuildArranged(h: Layout, min: nat, count: nat, base: nat)
    requires IsPow2(h.align) && Build(h, min, count, base).Built?
    ensures Arranged(h, Build(h, min, count, base)) && |Build(h, min, count, base).classes| == count
  {
    var g := Lay(h, min, base, count);
    LayArranged(h, min, base, count);
    RoundUpLeast(g.layout.size, g.layout.align, 0);
    var u := Padded(g);
    forall i | 0 <= i < |u.classes|
      ensures FitsAt(h, u, i)
    {
      assert FitsAt(h, g, i);
    }
  }

  // The recorded form.

  function InfoOf(g: Built): Info
    requires g.Built? && |g.classes| >= 1
  {
    Info(g.classes[0].bytes, g.classes[0].slots, |g.classes|)
  }

  function Recorded(h: Layout, info: Info, extent: nat): (r: Option<Built>)
    requires info.classes >= 1
  {
    var g := Build(h, info.min, info.classes, info.base);
    if g.Built? && g.layout.size == extent && |g.classes| >= 1 && InfoOf(g) == info then Some(g) else None
  }

  lemma {:induction false} FirstClassStays(h: Layout, min: nat, base: nat, n: nat)
    requires n >= 1 && Lay(h, min, base, n).Built?
    ensures var cs := Lay(h, min, base, n).classes; |cs| == n && cs[0].bytes == min && cs[0].slots == base
  {
    if n == 1 {
      FirstClass(h, min, base);
    } else {
      FirstClassStays(h, min, base, n - 1);
    }
  }

  /**
   The three recorded numbers rebuild the geometry they were taken from, and only a pool of that extent accepts them.
   */
  lemma RecordedRebuilds(h: Layout, min: nat, count: nat, base: nat, extent: nat)
    requires count >= 1 && Build(h, min, count, base).Built?
    ensures var g := Build(h, min, count, base);
            && |g.classes| >= 1 && InfoOf(g) == Info(min, base, count)
            && Recorded(h, InfoOf(g), extent) == if extent == g.layout.size then Some(g) else None
  {
    FirstClassStays(h, min, base, count);
  }
}
