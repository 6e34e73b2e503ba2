/**
 The two-level availability bitmap.  A word is the sequence of its 64 bits, lowest first.  Bit i of the
 availability words says whether bin i has a free chunk; bit w of the summary whether word w has any bit set.
 */
module TalcBits {
  import opened Common

  type Bits = seq<bool>

  predicate IsWord(w: Bits) { |w| == 64 }

  predicate Zero(w: Bits) { forall k :: 0 <= k < |w| ==> !w[k] }

  function ZeroWord(): (w: Bits)
    ensures IsWord(w) && Zero(w)
  {
    seq(64, _ => false)
  }

  function Flip(w: Bits, k: nat): (r: Bits)
    requires k < |w|
    ensures |r| == |w|
  {
    w[k := !w[k]]
  }

  function ShiftRight(w: Bits, k: nat): Bits
    requires k <= |w|
  {
    w[k..]
  }

  /** `w & (MAX << k)`: the bits below k cleared. */
  function ClearBelow(w: Bits, k: nat): (r: Bits)
    ensures |r| == |w|
  {
    seq(|w|, i requires 0 <= i < |w| => i >= k && w[i])
  }

  function TrailingZeros(w: Bits): (k: nat)
    ensures k <= |w| && (k < |w| ==> w[k]) && (forall i :: 0 <= i < k ==> !w[i])
    ensures k == |w| <==> Zero(w)
  {
    if w == [] then 0 else if w[0] then 0
    else
      var k := TrailingZeros(w[1..]);
      assert forall i :: 1 <= i < |w| ==> w[i] == w[1..][i - 1];
      k + 1
  }

  datatype Avail = Avail(words: seq<Bits>, summary: Bits)

  function WordCount(bins: nat): nat { (bins + 64 - 1) / 64 }

  ghost predicate Shaped(a: Avail, bins: nat) {
    && |a.words| == WordCount(bins) <= 64 && IsWord(a.summary)
    && (forall w :: 0 <= w < |a.words| ==> IsWord(a.words[w]))
  }

  /** The summary agrees with the words, and the words with the bins that have chunks. */
  ghost predicate Agrees(a: Avail, full: seq<bool>) {
    && Shaped(a, |full|)
    && (forall w :: 0 <= w < 64 ==> (a.summary[w] <==> w < |a.words| && !Zero(a.words[w])))
    && (forall w, k {:trigger BitAgrees(a, full, w, k)} :: 0 <= w < |a.words| && 0 <= k < 64 ==>
          BitAgrees(a, full, w, k))
  }

  /** Bit k of word w says whether its bin has a chunk; bits past the last bin are clear. */
  predicate BitAgrees(a: Avail, full: seq<bool>, w: nat, k: nat)
    requires w < |a.words| && k < |a.words[w]|
  {
    a.words[w][k] <==> 64 * w + k < |full| && full[64 * w + k]
  }

  /** `toggle_avail`: flip the bin's bit, and the summary bit when the word became or stopped being zero. */
  function Toggle(a: Avail, i: nat): Avail
    requires i / 64 < |a.words| && i / 64 < |a.summary| && IsWord(a.words[i / 64])
  {
    var w := i / 64;
    var word := Flip(a.words[w], i % 64);
    var summary := if Zero(a.words[w]) != Zero(word) then a.summary[w := !Zero(word)] else a.summary;
    Avail(a.words[w := word], summary)
  }

  lemma ToggleAgrees(a: Avail, full: seq<bool>, i: nat)
    requires Agrees(a, full) && i < |full|
    ensures i / 64 < |a.words| && i / 64 < |a.summary| && IsWord(a.words[i / 64])
    ensures Agrees(Toggle(a, i), full[i := !full[i]])
  {
    assert i / 64 < |a.words|;
    var b := Toggle(a, i);
    var full' := full[i := !full[i]];
    assert BitAgrees(a, full, i / 64, i % 64);
    forall w, k | 0 <= w < |b.words| && 0 <= k < 64
      ensures BitAgrees(b, full', w, k)
    {
      assert BitAgrees(a, full, w, k);
      assert 64 * w + k == i <==> w == i / 64 && k == i % 64;
    }
    forall w | 0 <= w < 64
      ensures b.summary[w] <==> w < |b.words| && !Zero(b.words[w])
    {
      assert a.summary[w] <==> w < |a.words| && !Zero(a.words[w]);
    }
  }

  /** The search from bit r of word w0, which is bin i. */
  function NextFrom(a: Avail, i: nat, w0: nat, r: nat, count: nat): Option<nat>
    requires w0 < |a.words| && r <= |a.words[w0]|
  {
    var shifted := ShiftRight(a.words[w0], r);
    if !Zero(shifted) then Some(i + TrailingZeros(shifted))
    else if w0 + 1 >= count then None
    else
      var rest := ClearBelow(a.summary, w0 + 1);
      if Zero(rest) then None
      else
        var w := TrailingZeros(rest);
        if w < |a.words| then Some(w * 64 + TrailingZeros(a.words[w])) else None
  }

  /** `next_avail_bin_idx`. */
  function NextAvail(a: Avail, i: nat, bins: nat): Option<nat>
    requires i < bins ==> i / 64 < |a.words| && IsWord(a.words[i / 64])
  {
    if i >= bins then None else NextFrom(a, i, i / 64, i % 64, WordCount(bins))
  }

  /** The least bin from i on that has a chunk, by looking at each in turn. */
  function Scan(full: seq<bool>, i: nat): (r: Option<nat>)
    ensures r.Some? ==> i <= r.value < |full| && full[r.value] && (forall k :: i <= k < r.value ==> !full[k])
    ensures r.None? ==> forall k :: i <= k < |full| ==> !full[k]
    decreases |full| - i
  {
    if i >= |full| then None else if full[i] then Some(i) else Scan(full, i + 1)
  }

  lemma ScanIs(full: seq<bool>, i: nat, r: Option<nat>)
    requires r.Some? ==> i <= r.value < |full| && full[r.value] && (forall k :: i <= k < r.value ==> !full[k])
    requires r.None? ==> forall k :: i <= k < |full| ==> !full[k]
    ensures Scan(full, i) == r
  {}

  lemma BitOf(a: Avail, full: seq<bool>, i: nat)
    requires Agrees(a, full) && i < |full|
    ensures i / 64 < |a.words| && (a.words[i / 64][i % 64] <==> full[i])
  {
    assert 64 * (i / 64) + i % 64 == i;
    assert BitAgrees(a, full, i / 64, i % 64);
  }

  lemma Locate(k: nat)
    ensures k == 64 * (k / 64) + k % 64 && k % 64 < 64
  {}

  /** The rest of word w0 from bit r on mirrors the bins from i on. */
  lemma RestOfWord(a: Avail, full: seq<bool>, i: nat, w0: nat, r: nat)
    requires Agrees(a, full) && i == 64 * w0 + r < |full| && r < 64 && w0 < |a.words|
    ensures IsWord(a.words[w0])
    ensures forall k :: i <= k < |full| && k < 64 * w0 + 64 ==> (full[k] <==> a.words[w0][r..][k - i])
    ensures forall z :: 0 <= z < 64 - r && a.words[w0][r..][z] ==> i + z < |full|
  {
    forall k | i <= k < |full| && k < 64 * w0 + 64
      ensures full[k] <==> a.words[w0][r..][k - i]
    {
      assert BitAgrees(a, full, w0, k - 64 * w0);
    }
    forall z | 0 <= z < 64 - r && a.words[w0][r..][z]
      ensures i + z < |full|
    {
      assert BitAgrees(a, full, w0, r + z);
    }
  }

  lemma FoundInRest(a: Avail, full: seq<bool>, i: nat, w0: nat, r: nat)
    requires Agrees(a, full) && i == 64 * w0 + r < |full| && r < 64 && w0 < |a.words|
    ensures IsWord(a.words[w0])
    ensures !Zero(a.words[w0][r..]) ==> Scan(full, i) == Some(i + TrailingZeros(a.words[w0][r..]))
    ensures Zero(a.words[w0][r..]) ==> forall k :: i <= k < |full| && k < 64 * w0 + 64 ==> !full[k]
  {
    RestOfWord(a, full, i, w0, r);
    if !Zero(a.words[w0][r..]) {
      var z := TrailingZeros(a.words[w0][r..]);
      forall k | i <= k < i + z ensures !full[k] { assert !a.words[w0][r..][k - i]; }
      ScanIs(full, i, Some(i + z));
    }
  }

  /** The word-and-summary search finds exactly what looking at every bin would. */
  lemma NextAvailIsScan(a: Avail, full: seq<bool>, i: nat)
    requires Agrees(a, full)
    ensures i < |full| ==> i / 64 < |a.words| && IsWord(a.words[i / 64])
    ensures NextAvail(a, i, |full|) == Scan(full, i)
  {
    if i < |full| {
      BitOf(a, full, i);
      Locate(i);
      NextFromIsScan(a, full, i, i / 64, i % 64);
    }
  }

  lemma NextFromIsScan(a: Avail, full: seq<bool>, i: nat, w0: nat, r: nat)
    requires Agrees(a, full) && i == 64 * w0 + r < |full| && r < 64 && w0 < |a.words|
    ensures IsWord(a.words[w0]) && NextFrom(a, i, w0, r, |a.words|) == Scan(full, i)
  {
    FoundInRest(a, full, i, w0, r);
    if Zero(a.words[w0][r..]) {
      match Scan(full, i)
      case None => NextFromNone(a, full, i, w0, r);
      case Some(k) => NextFromSome(a, full, i, w0, r, k);
    }
  }

  lemma NextFromNone(a: Avail, full: seq<bool>, i: nat, w0: nat, r: nat)
    requires Agrees(a, full) && i == 64 * w0 + r < |full| && r < 64 && w0 < |a.words| && |a.words[w0]| == 64
    requires Zero(a.words[w0][r..]) && Scan(full, i).None?
    ensures NextFrom(a, i, w0, r, |a.words|) == None
  {
    LaterNone(a, full, i, w0);
  }

  lemma NextFromSome(a: Avail, full: seq<bool>, i: nat, w0: nat, r: nat, k: nat)
    requires Agrees(a, full) && i == 64 * w0 + r < |full| && r < 64 && w0 < |a.words| && |a.words[w0]| == 64
    requires Zero(a.words[w0][r..]) && Scan(full, i) == Some(k) && 64 * w0 + 64 <= k
    ensures NextFrom(a, i, w0, r, |a.words|) == Some(k)
  {
    LaterBin(a, full, i, w0, k);
    NextFromLater(a, i, w0, r, |a.words|);
  }

  lemma NextFromLater(a: Avail, i: nat, w0: nat, r: nat, count: nat)
    requires w0 + 1 < count && w0 < |a.words| && r <= |a.words[w0]| && Zero(a.words[w0][r..])
    requires !Zero(ClearBelow(a.summary, w0 + 1)) && TrailingZeros(ClearBelow(a.summary, w0 + 1)) < |a.words|
    ensures var w := TrailingZeros(ClearBelow(a.summary, w0 + 1));
            NextFrom(a, i, w0, r, count) == Some(w * 64 + TrailingZeros(a.words[w]))
  {}

  /** A later word has the bin: the summary leads to it. */
  lemma LaterBin(a: Avail, full: seq<bool>, i: nat, w0: nat, k: nat)
    requires Agrees(a, full) && 64 * w0 <= i < 64 * w0 + 64 && w0 < |a.words|
    requires 64 * w0 + 64 <= k < |full| && Scan(full, i) == Some(k)
    ensures var rest := ClearBelow(a.summary, w0 + 1);
            && !Zero(rest) && w0 + 1 < |a.words| && TrailingZeros(rest) < |a.words|
            && TrailingZeros(rest) * 64 + TrailingZeros(a.words[TrailingZeros(rest)]) == k
  {
    Locate(k);
    LaterFound(a, full, i, w0, k, k / 64);
  }

  lemma LaterFound(a: Avail, full: seq<bool>, i: nat, w0: nat, k: nat, w1: nat)
    requires Agrees(a, full) && 64 * w0 <= i < 64 * w0 + 64 && w0 < |a.words| && w1 == k / 64
    requires 64 * w0 + 64 <= k < |full| && 64 * w1 <= k < 64 * w1 + 64 && Scan(full, i) == Some(k)
    ensures var rest := ClearBelow(a.summary, w0 + 1);
            && !Zero(rest) && w0 + 1 < |a.words| && TrailingZeros(rest) < |a.words|
            && TrailingZeros(rest) * 64 + TrailingZeros(a.words[TrailingZeros(rest)]) == k
  {
    var rest := ClearBelow(a.summary, w0 + 1);
    SetBitShows(a, full, k);
    assert rest[w1];
    var w := TrailingZeros(rest);
    assert a.summary[w] && w0 < w <= w1;
    FirstInWord(a, full, i, w);
  }

  lemma LaterNone(a: Avail, full: seq<bool>, i: nat, w0: nat)
    requires Agrees(a, full) && 64 * w0 <= i < 64 * w0 + 64 && i < |full| && w0 < |a.words|
    ensures !Zero(ClearBelow(a.summary, w0 + 1)) ==> Scan(full, i).Some?
  {
    var rest := ClearBelow(a.summary, w0 + 1);
    if !Zero(rest) {
      var w := TrailingZeros(rest);
      assert a.summary[w] && w > w0;
      var z := TrailingZeros(a.words[w]);
      assert BitAgrees(a, full, w, z);
    }
  }

  lemma SetBitShows(a: Avail, full: seq<bool>, k: nat)
    requires Agrees(a, full) && k < |full| && full[k]
    ensures k / 64 < |a.words| && a.summary[k / 64]
  {
    BitOf(a, full, k);
    assert !Zero(a.words[k / 64]);
  }

  lemma FirstInWord(a: Avail, full: seq<bool>, i: nat, w: nat)
    requires Agrees(a, full) && i < 64 * w && w < |a.words| && !Zero(a.words[w])
    requires forall k :: i <= k < |full| && k < 64 * w ==> !full[k]
    ensures Scan(full, i) == Some(w * 64 + TrailingZeros(a.words[w]))
  {
    var z := TrailingZeros(a.words[w]);
    assert BitAgrees(a, full, w, z);
    forall k | i <= k < w * 64 + z
      ensures !full[k]
    {
      if k >= 64 * w {
        assert BitAgrees(a, full, w, k - 64 * w);
      }
    }
    ScanIs(full, i, Some(w * 64 + z));
  }
}
