/**
 The authority word of one pool block: a generation, whether it is allocated and, if so, the participant it belongs
 to or nobody (detached: named by a queue token).  The functions here are the single compare-exchanges of the pool
 on a decoded word.
 */
module PoolWord {
  import opened Common
  import opened ControlWord

  const OWNERS: nat := 64       // owner codes: six bits
  const GENERATION: nat := 128  // one generation
  const MAX_GENERATION: nat := 0x1ff_ffff
  const RAW_SPAN: nat := 0x1_0000_0000

  datatype Word = Free(generation: nat) | Local(generation: nat, owner: nat) | Detached(generation: nat)
  {
    predicate Valid() { generation <= MAX_GENERATION && (Local? ==> owner < PARTICIPANTS) }
  }

  function Encode(w: Word): nat {
    match w
    case Free(g) => g * GENERATION
    case Local(g, owner) => g * GENERATION + OWNERS + owner + 1
    case Detached(g) => g * GENERATION + OWNERS
  }

  predicate Canonical(raw: nat) {
    raw < RAW_SPAN && (raw % GENERATION < OWNERS ==> raw % GENERATION == 0)
  }

  function Decode(raw: nat): Word {
    var g := raw / GENERATION;
    var low := raw % GENERATION;
    if low < OWNERS then Free(g)
    else if low == OWNERS then Detached(g)
    else Local(g, low - OWNERS - 1)
  }

  lemma DecodeEncode(w: Word)
    requires w.Valid()
    ensures Canonical(Encode(w)) && Decode(Encode(w)) == w
  {
    var low := match w case Free(_) => 0 case Local(_, o) => OWNERS + o + 1 case Detached(_) => OWNERS;
    assert Encode(w) == w.generation * GENERATION + low && low < GENERATION;
    assert Encode(w) / GENERATION == w.generation && Encode(w) % GENERATION == low;
  }

  lemma EncodeDecode(raw: nat)
    requires Canonical(raw)
    ensures Decode(raw).Valid() && Encode(Decode(raw)) == raw
  {
    assert raw == (raw / GENERATION) * GENERATION + raw % GENERATION;
  }

  /** `Storage::recover` on one word. */
  function Reap(w: Word, dead: nat): Word {
    if w.Local? && w.owner == dead then Free(w.generation) else w
  }

  /** `release_token` on the word its token names, for a token of generation g released on behalf of `owner`. */
  function Release(w: Word, g: nat, owner: Option<nat>): (bool, Word) {
    if w.generation < g then (false, w)
    else if w.generation > g || w.Free? then (true, w)
    else if w.Local? && Some(w.owner) != owner then (false, w)
    else (true, Free(g))
  }

  /** Reaping and releasing commute on every word, in either order and however often each runs. */
  lemma ReapReleaseCommute(w: Word, dead: nat, g: nat, owner: Option<nat>)
    ensures Reap(Release(w, g, owner).1, dead) == Release(Reap(w, dead), g, owner).1
    ensures Reap(Reap(w, dead), dead) == Reap(w, dead)
    ensures Release(Release(w, g, owner).1, g, owner) == (Release(w, g, owner).0, Release(w, g, owner).1)
  {}

  /**
   The order matters to the answer of the release exactly when it speaks for someone else than the word's dead owner.
   */
  lemma ReleaseAnswer(w: Word, dead: nat, g: nat, owner: Option<nat>)
    ensures Release(w, g, owner).0 == Release(Reap(w, dead), g, owner).0 <==>
              !(w == Local(g, dead) && owner != Some(dead))
  {}

  /** A token of an earlier generation frees nothing. */
  lemma StaleTokenFreesNothing(w: Word, g: nat, owner: Option<nat>)
    requires w.generation > g
    ensures Release(w, g, owner) == (true, w)
  {}

  datatype Call = ReapFor(dead: nat) | ReleaseFor(g: nat, owner: Option<nat>)

  function Apply(w: Word, c: Call): Word {
    match c
    case ReapFor(dead) => Reap(w, dead)
    case ReleaseFor(g, owner) => Release(w, g, owner).1
  }

  function ApplyAll(w: Word, calls: seq<Call>): Word {
    if calls == [] then w else Apply(ApplyAll(w, calls[..|calls| - 1]), calls[|calls| - 1])
  }

  /** What a set of reaps and releases does to a word: free it if one of them may, else nothing. */
  predicate Frees(w: Word, c: Call) {
    match c
    case ReapFor(dead) => w.Local? && w.owner == dead
    case ReleaseFor(g, owner) => g == w.generation && ((w.Local? && Some(w.owner) == owner) || w.Detached?)
  }

  /**
   Any list of reaps and releases leaves the word that its set of calls decides; order and repetition do not matter.
   */
  lemma {:induction false} ScanOrderIrrelevant(w: Word, calls: seq<Call>)
    ensures ApplyAll(w, calls) == if exists c :: c in calls && Frees(w, c) then Free(w.generation) else w
  {
    if calls != [] {
      var rest, last := calls[..|calls| - 1], calls[|calls| - 1];
      ScanOrderIrrelevant(w, rest);
      assert calls == rest + [last];
      if exists c :: c in rest && Frees(w, c) {
        var c :| c in rest && Frees(w, c);
        assert c in calls;
      } else if Frees(w, last) {
        assert last in calls;
      }
    }
  }

  /** Two lists with the same calls in them leave the same word. */
  lemma SameCallsSameWord(w: Word, a: seq<Call>, b: seq<Call>)
    requires forall c :: c in a <==> c in b
    ensures ApplyAll(w, a) == ApplyAll(w, b)
  {
    ScanOrderIrrelevant(w, a);
    ScanOrderIrrelevant(w, b);
    if exists c :: c in a && Frees(w, c) {
      var c :| c in a && Frees(w, c);
      assert c in b;
    }
    if exists c :: c in b && Frees(w, c) {
      var c :| c in b && Frees(w, c);
      assert c in a;
    }
  }

  /** `Storage::recover` over the raw words of all blocks: stops at the first word that is not canonical. */
  method RecoverStorage(words: array<nat>, dead: nat) returns (ok: bool)
    requires dead < PARTICIPANTS
    modifies words
    ensures ok <==> forall i :: 0 <= i < words.Length ==> Canonical(old(words[i]))
    ensures ok ==>
              forall i :: 0 <= i < words.Length ==>
                       Canonical(words[i]) && Decode(words[i]) == Reap(Decode(old(words[i])), dead)
    ensures ok ==> forall i :: 0 <= i < words.Length ==> Decode(words[i]) != Local(Decode(words[i]).generation, dead)
    ensures forall i :: 0 <= i < words.Length ==>
              words[i] == old(words[i]) || words[i] == Encode(Reap(Decode(old(words[i])), dead))
  {
    var i := 0;
    while i < words.Length
      invariant i <= words.Length
      invariant forall j :: 0 <= j < i ==>
                  Canonical(old(words[j])) && words[j] == Encode(Reap(Decode(old(words[j])), dead))
      invariant forall j :: i <= j < words.Length ==> words[j] == old(words[j])
    {
      if !Canonical(words[i]) {
        return false;
      }
      EncodeDecode(words[i]);
      var w := Decode(words[i]);
      if w.Local? && w.owner == dead {
        words[i] := Encode(Free(w.generation));
      }
      i := i + 1;
    }
    forall j | 0 <= j < words.Length
      ensures Canonical(words[j]) && Decode(words[j]) == Reap(Decode(old(words[j])), dead)
    {
      EncodeDecode(old(words[j]));
      DecodeEncode(Reap(Decode(old(words[j])), dead));
    }
    return true;
  }
}
