/**
 Queue cursors.  A cursor word is `lap * oneLap + index` with `oneLap` a power of two above the capacity, kept in
 one wrapping machine word.  This module relates the words to plain positions 0, 1, 2, ...: every expression the
 queue computes on words is the encoding of the expected expression on positions, for every capacity.
 */
module LapCursor {
  import opened Powers

  // Slots are at least sixteen bytes and an allocation is below 2^63 bytes, which keeps a lap far below this.
  const MAX_LAP: nat := 0x1000_0000_0000_0000

  /** The slot a position uses: `p % cap`, defined by laps. */
  function Index(p: nat, cap: nat): (i: nat)
    requires cap > 0
    ensures i < cap
  {
    if p < cap then p else Index(p - cap, cap)
  }

  lemma {:induction false} IndexIsMod(p: nat, cap: nat)
    requires cap > 0
    ensures Index(p, cap) == p % cap
  {
    if p >= cap {
      IndexIsMod(p - cap, cap);
      ModShift(p - cap, cap);
    }
  }

  /** One lap further is the same slot. */
  lemma IndexNextLap(p: nat, cap: nat)
    requires cap > 0
    ensures Index(p + cap, cap) == Index(p, cap)
  {}

  /** Positions less than a lap apart use different slots. */
  lemma {:induction false} IndexInjective(p: nat, q: nat, cap: nat)
    requires cap > 0 && p < q < p + cap
    ensures Index(p, cap) != Index(q, cap)
  {
    if p >= cap {
      IndexInjective(p - cap, q - cap, cap);
    } else if q >= cap {
      assert Index(q, cap) == q - cap;
    }
  }

  function OneLap(cap: nat): nat { NextPow2(cap + 1) }

  predicate Usable(cap: nat) { cap > 0 && OneLap(cap) <= MAX_LAP }

  /** The unbounded cursor of a position. */
  function Cursor(p: nat, cap: nat): nat
    requires cap > 0
  {
    if p < cap then p else Cursor(p - cap, cap) + OneLap(cap)
  }

  /** The cursor as stored: one wrapping machine word. */
  function Word(p: nat, cap: nat): nat
    requires cap > 0
  {
    Cursor(p, cap) % WORD_SPAN
  }

  function WrappingAdd(a: nat, b: nat): nat { (a + b) % WORD_SPAN }
  function WrappingSub(a: nat, b: nat): nat
    requires a < WORD_SPAN && b < WORD_SPAN
  {
    (a + WORD_SPAN - b) % WORD_SPAN
  }

  // The expressions the queue evaluates on cursor words.
  function WordIndex(w: nat, cap: nat): nat { w % OneLap(cap) }
  function WordLap(w: nat, cap: nat): nat { w - w % OneLap(cap) }
  function WordNext(w: nat, cap: nat): nat {
    if WordIndex(w, cap) + 1 < cap then w + 1 else WrappingAdd(WordLap(w, cap), OneLap(cap))
  }

  lemma LapFacts(cap: nat)
    requires Usable(cap)
    ensures IsPow2(OneLap(cap)) && OneLap(cap) > cap && WORD_SPAN % OneLap(cap) == 0
  {
    NextPow2IsPow2(cap + 1);
    SpanIsPow2();
    Pow2Divides(OneLap(cap), WORD_SPAN);
  }

  /** The index part of a cursor is the slot of its position. */
  lemma {:induction false} CursorIndex(p: nat, cap: nat)
    requires cap > 0
    ensures Cursor(p, cap) % OneLap(cap) == Index(p, cap)
  {
    if p >= cap {
      CursorIndex(p - cap, cap);
      ModShift(Cursor(p - cap, cap), OneLap(cap));
    } else {
      RemainderUnique(p, 0, OneLap(cap), p);
    }
  }

  /** One more lap adds one lap to the cursor. */
  lemma CursorNextLap(p: nat, cap: nat)
    requires cap > 0
    ensures Cursor(p + cap, cap) == Cursor(p, cap) + OneLap(cap)
  {}

  /** Stepping to the next position is adding one, or starting the next lap at the last index. */
  lemma {:induction false} CursorStep(p: nat, cap: nat)
    requires cap > 0
    ensures Cursor(p + 1, cap) ==
            if Index(p, cap) + 1 < cap then Cursor(p, cap) + 1
            else Cursor(p, cap) - Index(p, cap) + OneLap(cap)
  {
    if p >= cap {
      CursorStep(p - cap, cap);
    }
  }

  /** Cursors are strictly ordered as their positions. */
  lemma {:induction false} CursorOrder(p: nat, q: nat, cap: nat)
    requires cap > 0 && p < q
    ensures Cursor(p, cap) + (q - p) <= Cursor(q, cap)
  {
    if p >= cap {
      CursorOrder(p - cap, q - cap, cap);
    } else if q >= cap {
      if q - cap > p {
        CursorOrder(p, q - cap, cap);
      } else if q - cap < p {
        assert Cursor(q, cap) == q - cap + OneLap(cap);
      }
    }
  }

  /** Positions at most two laps apart have cursors at most two laps apart. */
  lemma CursorSpread(p: nat, q: nat, cap: nat)
    requires cap > 0 && p <= q <= p + 2 * cap
    ensures Cursor(p, cap) <= Cursor(q, cap) <= Cursor(p, cap) + 2 * OneLap(cap)
  {
    if p < q { CursorOrder(p, q, cap); }
    if q < p + 2 * cap { CursorOrder(q, p + 2 * cap, cap); }
    CursorNextLap(p, cap);
    CursorNextLap(p + cap, cap);
  }

  /** Reducing modulo a multiple of the lap does not change the index. */
  lemma ModOfMod(x: nat, span: nat, m: nat)
    requires m > 0 && span > 0 && span % m == 0
    ensures (x % span) % m == x % m
  {
    var k, a := span / m, x / span;
    assert span == m * k;
    assert x == span * a + x % span;
    var r := (x % span) % m;
    var b := (x % span) / m;
    assert x % span == m * b + r;
    assert x == (k * a + b) * m + r by {
      assert span * a == (m * k) * a == (k * a) * m;
    }
    RemainderUnique(x, k * a + b, m, r);
  }

  /** The code's index of a stored cursor is the slot of its position. */
  lemma WordIndexIsIndex(p: nat, cap: nat)
    requires Usable(cap)
    ensures WordIndex(Word(p, cap), cap) == Index(p, cap)
  {
    LapFacts(cap);
    CursorIndex(p, cap);
    ModOfMod(Cursor(p, cap), WORD_SPAN, OneLap(cap));
  }

  /** Adding one lap to the stored cursor gives the stored cursor of the same slot one lap later. */
  lemma WordNextLap(p: nat, cap: nat)
    requires Usable(cap)
    ensures WrappingAdd(Word(p, cap), OneLap(cap)) == Word(p + cap, cap)
  {
    CursorNextLap(p, cap);
    AddMod(Cursor(p, cap), OneLap(cap));
  }

  lemma AddMod(x: nat, y: nat)
    ensures (x % WORD_SPAN + y) % WORD_SPAN == (x + y) % WORD_SPAN
  {}

  /** The code's successor of a stored cursor is the stored cursor of the next position, across index and word wrap. */
  lemma WordNextIsNext(p: nat, cap: nat)
    requires Usable(cap)
    ensures WordNext(Word(p, cap), cap) == Word(p + 1, cap)
  {
    LapFacts(cap);
    WordIndexIsIndex(p, cap);
    CursorIndex(p, cap);
    CursorStep(p, cap);
    var i, lap, c := Index(p, cap), OneLap(cap), Cursor(p, cap);
    if i + 1 < cap {
      StepInLap(c, lap, i);
    } else {
      StepToLap(c, lap, i);
    }
  }

  lemma StepInLap(c: nat, lap: nat, i: nat)
    requires lap > 0 && WORD_SPAN % lap == 0 && c % lap == i && i + 1 < lap
    ensures c % WORD_SPAN + 1 == (c + 1) % WORD_SPAN
  {
    ModOfMod(c, WORD_SPAN, lap);
    LastIndex(c % WORD_SPAN, lap, i);
  }

  /** The last word value has the last index of a lap. */
  lemma LastIndex(w: nat, lap: nat, i: nat)
    requires lap > 0 && WORD_SPAN % lap == 0 && w % lap == i && i + 1 < lap
    ensures w != WORD_SPAN - 1
  {
    var k := WORD_SPAN / lap;
    assert WORD_SPAN == lap * k;
    if w == WORD_SPAN - 1 {
      assert w == (k - 1) * lap + (lap - 1);
      RemainderUnique(w, k - 1, lap, lap - 1);
      assert false;
    }
  }

  lemma StepToLap(c: nat, lap: nat, i: nat)
    requires lap > 0 && WORD_SPAN % lap == 0 && c % lap == i
    ensures c >= i && c % WORD_SPAN >= i
    ensures (c % WORD_SPAN - i + lap) % WORD_SPAN == (c - i + lap) % WORD_SPAN
  {
    ModOfMod(c, WORD_SPAN, lap);
    RemainderAtMost(c, lap);
    RemainderAtMost(c % WORD_SPAN, lap);
    SubAdd(c, i, lap);
  }

  lemma RemainderAtMost(x: nat, m: nat)
    requires m > 0
    ensures x % m <= x
  {}

  lemma SubAdd(c: nat, i: nat, y: nat)
    requires c % WORD_SPAN >= i && c >= i
    ensures (c % WORD_SPAN - i + y) % WORD_SPAN == (c - i + y) % WORD_SPAN
  {}

  lemma SubMod(x: nat, y: nat)
    requires x <= y < x + HALF_SPAN
    ensures WrappingSub(y % WORD_SPAN, x % WORD_SPAN) == y - x
  {}

  /** Wrapping distance between stored cursors at most two laps apart is the true distance. */
  lemma WordDistance(p: nat, q: nat, cap: nat)
    requires Usable(cap) && p <= q <= p + 2 * cap
    ensures WrappingSub(Word(q, cap), Word(p, cap)) == Cursor(q, cap) - Cursor(p, cap) < HALF_SPAN
  {
    CursorSpread(p, q, cap);
    SubMod(Cursor(p, cap), Cursor(q, cap));
  }

  /**
   What repair and the recheck read off two stored cursors: equality of words is equality of positions, and the
   wrapping distance is in the lower half exactly when the first position is not behind the second.
   */
  lemma WordOrder(p: nat, q: nat, cap: nat)
    requires Usable(cap) && p <= q + 2 * cap && q <= p + 2 * cap
    ensures Word(p, cap) == Word(q, cap) <==> p == q
    ensures WrappingSub(Word(q, cap), Word(p, cap)) < HALF_SPAN <==> p <= q
  {
    if p < q {
      CursorOrder(p, q, cap);
      CursorSpread(p, q, cap);
      SubOrder(Cursor(p, cap), Cursor(q, cap));
    } else if q < p {
      CursorOrder(q, p, cap);
      CursorSpread(q, p, cap);
      SubOrder(Cursor(q, cap), Cursor(p, cap));
    }
  }

  lemma SubOrder(x: nat, y: nat)
    requires x < y < x + HALF_SPAN
    ensures x % WORD_SPAN != y % WORD_SPAN
    ensures WrappingSub(y % WORD_SPAN, x % WORD_SPAN) < HALF_SPAN <= WrappingSub(x % WORD_SPAN, y % WORD_SPAN)
  {
    SubMod(x, y);
  }

  /** The closed form: laps times the lap width plus the index. */
  lemma {:induction false} CursorClosedForm(p: nat, cap: nat)
    requires cap > 0
    ensures Cursor(p, cap) == (p / cap) * OneLap(cap) + p % cap
  {
    if p >= cap {
      CursorClosedForm(p - cap, cap);
      var q, r := (p - cap) / cap, (p - cap) % cap;
      assert p - cap == cap * q + r;
      assert p == (q + 1) * cap + r;
      RemainderUnique(p, q + 1, cap, r);
      assert (q + 1) * OneLap(cap) == q * OneLap(cap) + OneLap(cap);
    } else {
      RemainderUnique(p, 0, cap, p);
    }
  }
}
