/** Claiming a block: the smallest class that is large enough, then any larger one, each probed once round. */
module PoolClaim {
  import opened Common
  import opened ControlWord
  import opened Powers
  import opened PoolWord
  import TalcGeometry

  const TOP_POWER: nat := HALF_SPAN  // the largest power of two in a word
  const STRIDE: nat := 0x9e37

  /** The size of the blocks of class k of a pool whose first class has `first` bytes. */
  function ClassBytes(first: nat, k: nat): nat {
    if k == 0 then first else 2 * ClassBytes(first, k - 1)
  }

  lemma {:induction false} BytesMonotone(first: nat, a: nat, b: nat)
    requires a <= b
    ensures ClassBytes(first, a) <= ClassBytes(first, b)
    decreases b
  {
    if a < b { BytesMonotone(first, a, b - 1); }
  }

  lemma {:induction false} LogOfPower(first: nat, n: nat)
    requires IsPow2(first) && IsPow2(n) && first <= n
    ensures TalcGeometry.Log(first) <= TalcGeometry.Log(n)
    ensures ClassBytes(first, TalcGeometry.Log(n) - TalcGeometry.Log(first)) == n
    decreases n
  {
    if first < n {
      Pow2Gap(first, n);
      Pow2Positive(first);
      LogOfPower(first, n / 2);
    }
  }

  /** `needed.max(first).ilog2() - first.ilog2()`. */
  function Preferred(first: nat, needed: nat): nat
    requires IsPow2(first) && IsPow2(needed)
  {
    Pow2Positive(first);
    LogOfPower(first, Max(needed, first));
    TalcGeometry.Log(Max(needed, first)) - TalcGeometry.Log(first)
  }

  /** The preferred class is the first one that holds the request. */
  lemma PreferredIsLeast(first: nat, size: nat, align: nat, k: nat)
    requires IsPow2(first)
    ensures IsPow2(NextPow2(Max(size, align)))
    ensures k >= Preferred(first, NextPow2(Max(size, align))) <==>
              ClassBytes(first, k) >= size && ClassBytes(first, k) >= align
  {
    var m := Max(size, align);
    NextPow2IsPow2(m);
    var needed := NextPow2(m);
    var p := Preferred(first, needed);
    Pow2Positive(first);
    LogOfPower(first, Max(needed, first));
    assert ClassBytes(first, p) == Max(needed, first);
    if k >= p {
      BytesMonotone(first, p, k);
    } else {
      BytesMonotone(first, k, p - 1);
      PowerOfBytes(first, k);
      if ClassBytes(first, k) >= m { NextPow2Least(m, ClassBytes(first, k)); }
      assert 2 * ClassBytes(first, k) <= needed;
    }
  }

  lemma {:induction false} PowerOfBytes(first: nat, k: nat)
    requires IsPow2(first)
    ensures IsPow2(ClassBytes(first, k)) && ClassBytes(first, k) >= 1
  {
    if k > 0 {
      PowerOfBytes(first, k - 1);
      assert ClassBytes(first, k) / 2 == ClassBytes(first, k - 1);
    } else {
      Pow2Positive(first);
    }
  }

  datatype Grant = Nothing | Granted(class_: nat, slot: nat, generation: nat) | TooLarge | Unavailable

  predicate Open(w: Word) { w.Free? && w.generation < MAX_GENERATION }

  /** `(start + probe) % slots`. */
  function ProbeAt(start: nat, probe: nat, slots: nat): nat
    requires start < slots && probe < slots
    ensures ProbeAt(start, probe, slots) < slots && ProbeAt(start, probe, slots) == (start + probe) % slots
  {
    if start + probe < slots then start + probe
    else
      RemainderUnique(start + probe, 1, slots, start + probe - slots);
      start + probe - slots
  }

  predicate NoneOpen(class_: seq<Word>) {
    forall s :: 0 <= s < |class_| ==> !Open(class_[s])
  }

  /** The same pool later: no generation has fallen. */
  predicate Later(a: seq<seq<Word>>, b: seq<seq<Word>>) {
    && |b| == |a|
    && (forall c {:trigger b[c]} :: 0 <= c < |a| ==> |b[c]| == |a[c]|)
    && (forall c, s {:trigger b[c][s]} :: 0 <= c < |a| && 0 <= s < |a[c]| && s < |b[c]| ==>
          a[c][s].generation <= b[c][s].generation)
  }

  lemma LaterChain(a: seq<seq<Word>>, b: seq<seq<Word>>, c: seq<seq<Word>>)
    requires Later(a, b) && Later(b, c)
    ensures Later(a, c)
  {
    forall k | 0 <= k < |a| ensures |c[k]| == |a[k]| { assert |b[k]| == |a[k]|; }
    forall k, s | 0 <= k < |a| && 0 <= s < |a[k]| && s < |c[k]| ensures a[k][s].generation <= c[k][s].generation {
      assert |b[k]| == |a[k]| && a[k][s].generation <= b[k][s].generation;
    }
  }

  class Pool {
    const first: nat
    var words: seq<seq<Word>>  // by class and slot

    constructor (first: nat, slots: seq<nat>)
      ensures this.first == first && |words| == |slots|
      ensures forall c :: 0 <= c < |slots| ==> words[c] == seq(slots[c], _ => Free(0))
    {
      this.first := first;
      words := seq(|slots|, c requires 0 <= c < |slots| => seq(slots[c], _ => Free(0)));
    }

    /** Others allocate and release meanwhile, unless the caller is alone: no generation falls. */
    method Others(alone: bool)
      modifies this
      ensures Later(old(words), words) && (alone ==> words == old(words))
    {
      var next: seq<seq<Word>> := *;
      if !alone && Later(words, next) { words := next; }
    }

    /** One class, every slot once, starting at a place that depends on the class; the first open block is claimed. */
    method ProbeClass(c: nat, owner: nat, alone: bool) returns (found: Option<nat>)
      requires c < |words| && |words[c]| > 0
      modifies this
      ensures Later(old(words), words)
      ensures found.Some? ==>
                && found.value < |words[c]| && words[c][found.value].Local? && words[c][found.value].owner == owner
                && old(words)[c][found.value].generation < words[c][found.value].generation
                && words[c][found.value].generation <= MAX_GENERATION
      ensures alone && found.Some? ==>
                && Open(old(words)[c][found.value])
                && (var w := Local(old(words)[c][found.value].generation + 1, owner);
                    words == old(words)[c := old(words)[c][found.value := w]])
      ensures alone && found.None? ==> words == old(words) && NoneOpen(words[c])
    {
      var slots := |words[c]|;
      var start := ((c * STRIDE) % WORD_SPAN) % slots;
      var probe := 0;
      while probe < slots
        invariant probe <= slots && Later(old(words), words) && (alone ==> words == old(words))
        invariant alone ==> forall j :: 0 <= j < probe ==> !Open(words[c][ProbeAt(start, j, slots)])
      {
        var slot := ProbeAt(start, probe, slots);
        var free := words[c][slot];
        ghost var seen := words;
        Others(alone);
        LaterChain(old(words), seen, words);
        if Open(free) && words[c][slot] == free {
          words := words[c := words[c][slot := Local(free.generation + 1, owner)]];
          return Some(slot);
        }
        probe := probe + 1;
      }
      if alone {
        forall s | 0 <= s < slots
          ensures !Open(words[c][s])
        {
          var j := if s >= start then s - start else s + slots - start;
          assert ProbeAt(start, j, slots) == s;
        }
      }
      return None;
    }

    /**
     `claim`.  A request that is granted gets a block large enough under a generation it never had, whatever others do
     between the accesses.  A caller alone gets an open block of the first class, of those large enough, that has one,
     and if it is refused every such class is without an open block.
     */
    method Claim(owner: nat, size: nat, align: nat, alone: bool) returns (r: Grant)
      requires owner < PARTICIPANTS && IsPow2(first) && |words| >= 1 && align >= 1
      requires forall c :: 0 <= c < |words| ==> |words[c]| > 0
      modifies this
      ensures r.Nothing? <==> size == 0
      ensures Later(old(words), words) && (alone && !r.Granted? ==> words == old(words))
      ensures r.Granted? ==>
                && r.class_ < |words| && r.slot < |words[r.class_]|
                   && words[r.class_][r.slot] == Local(r.generation, owner)
                && old(words)[r.class_][r.slot].generation < r.generation <= MAX_GENERATION
                && size <= ClassBytes(first, r.class_) && align <= ClassBytes(first, r.class_)
      ensures alone && r.Granted? ==>
                && old(words)[r.class_][r.slot] == Free(r.generation - 1)
                && words == old(words)[r.class_ := old(words)[r.class_][r.slot := Local(r.generation, owner)]]
                && forall c :: 0 <= c < r.class_ && ClassBytes(first, c) >= size && ClassBytes(first, c) >= align ==>
                     NoneOpen(old(words)[c])
      ensures alone && r.Unavailable? ==>
                forall c :: 0 <= c < |words| && ClassBytes(first, c) >= size && ClassBytes(first, c) >= align ==>
                         NoneOpen(words[c])
      ensures r.TooLarge? <==> size > 0 && (NextPow2(Max(size, align)) > TOP_POWER
                                            || ClassBytes(first, |words| - 1) < size
                                               || ClassBytes(first, |words| - 1) < align)
    {
      if size == 0 { return Nothing; }
      var needed := NextPow2(Max(size, align));
      if needed > TOP_POWER { return TooLarge; }
      NextPow2IsPow2(Max(size, align));
      PreferredIsLeast(first, size, align, |words| - 1);
      var preferred := Preferred(first, needed);
      if preferred >= |words| { return TooLarge; }
      r := ProbeFrom(owner, preferred, alone);
      if r.Granted? { PreferredIsLeast(first, size, align, r.class_); }
      forall k | 0 <= k < |words| && ClassBytes(first, k) >= size && ClassBytes(first, k) >= align
        ensures k >= preferred
      {
        PreferredIsLeast(first, size, align, k);
      }
    }

    /** The classes from `preferred` on, in order. */
    method ProbeFrom(owner: nat, preferred: nat, alone: bool) returns (r: Grant)
      requires preferred < |words| && forall c :: 0 <= c < |words| ==> |words[c]| > 0
      modifies this
      ensures r.Granted? || r.Unavailable?
      ensures Later(old(words), words) && (alone && r.Unavailable? ==> words == old(words))
      ensures r.Granted? ==>
                && preferred <= r.class_ < |words| && r.slot < |words[r.class_]|
                   && words[r.class_][r.slot] == Local(r.generation, owner)
                && old(words)[r.class_][r.slot].generation < r.generation <= MAX_GENERATION
      ensures alone && r.Granted? ==>
                && old(words)[r.class_][r.slot] == Free(r.generation - 1)
                && words == old(words)[r.class_ := old(words)[r.class_][r.slot := Local(r.generation, owner)]]
                && forall c {:trigger NoneOpen(old(words)[c])} :: preferred <= c < r.class_ ==> NoneOpen(old(words)[c])
      ensures alone && r.Unavailable? ==>
                forall c {:trigger NoneOpen(words[c])} :: preferred <= c < |words| ==> NoneOpen(words[c])
    {
      var c := preferred;
      while c < |words|
        invariant preferred <= c <= |words| && Later(old(words), words) && (alone ==> words == old(words))
        invariant alone ==> forall k {:trigger NoneOpen(words[k])} :: preferred <= k < c ==> NoneOpen(words[k])
      {
        assert |words[c]| == |old(words)[c]|;
        ghost var seen := words;
        var found := ProbeClass(c, owner, alone);
        LaterChain(old(words), seen, words);
        if found.Some? {
          assert old(words)[c][found.value].generation <= seen[c][found.value].generation;
          return Granted(c, found.value, words[c][found.value].generation);
        }
        c := c + 1;
      }
      return Unavailable;
    }
  }
}
