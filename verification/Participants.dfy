/** Participant slots: each word packs a generation and whether the slot is free, live, dead or retired for good. */
module Participants {
  import opened Common
  import opened ControlWord

  const STATES: nat := 4
  const MAX_GENERATION: nat := 0x3fff_ffff_ffff_ffff

  datatype Status = Free | Live | Dead | Retired

  datatype Word = Word(generation: nat, status: Status)

  datatype Member = Member(slot: nat, generation: nat)

  function Code(s: Status): nat { match s case Free => 0 case Live => 1 case Dead => 2 case Retired => 3 }

  function Encode(w: Word): nat { w.generation * STATES + Code(w.status) }

  /** Different words have different encodings, so comparing stored words compares slot states. */
  lemma EncodeInjective(v: Word, w: Word)
    requires Encode(v) == Encode(w)
    ensures v == w
  {
    assert Encode(v) % STATES == Code(v.status) && Encode(w) % STATES == Code(w.status);
  }

  // The exchanges on one word.

  predicate Grants(v: Word, w: Word) {
    v.status == Free && v.generation < MAX_GENERATION && w == Word(v.generation + 1, Live)
  }

  predicate Changes(v: Word, w: Word) {
    || Grants(v, w)                                                                            // join
    || (v == Word(MAX_GENERATION, Free) && w == Word(MAX_GENERATION, Retired))                 // join, exhausted
    || (v.status == Live && (w == v.(status := Free) || w == v.(status := Dead)))              // leave, mark_dead
    || (v.status == Dead
        && w == v.(status := if v.generation == MAX_GENERATION then Retired else Free))  // release_dead
  }

  predicate History(words: seq<Word>) {
    forall k {:trigger words[k]} :: 0 <= k < |words| - 1 ==> Changes(words[k], words[k + 1])
  }

  lemma {:induction false} GenerationsRise(words: seq<Word>, i: nat, j: nat)
    requires History(words) && i <= j < |words|
    ensures words[i].generation <= words[j].generation
    decreases j
  {
    if i < j {
      GenerationsRise(words, i, j - 1);
      assert Changes(words[j - 1], words[j]);
    }
  }

  /** In any history of a slot's word no generation is granted twice, across leaves, deaths and releases. */
  lemma GrantedOnce(words: seq<Word>, i: nat, j: nat)
    requires History(words) && i < |words| - 1 && j < |words| - 1
    requires Grants(words[i], words[i + 1]) && Grants(words[j], words[j + 1])
    requires words[i + 1].generation == words[j + 1].generation
    ensures i == j
  {
    if i < j { GenerationsRise(words, i + 1, j); }
    if j < i { GenerationsRise(words, j + 1, i); }
  }

  /** A retired slot is never used again. */
  lemma RetiredIsFinal(v: Word, w: Word)
    requires v.status == Retired
    ensures !Changes(v, w)
  {}

  /** The slots before n could not be joined: the exhausted ones are retired now, and none after n has changed. */
  predicate Passed(a: seq<Word>, b: seq<Word>, n: nat) {
    && |b| == |a|
    && (forall s :: 0 <= s < |a| && s < n ==>
          && (a[s].status == Free ==> a[s].generation == MAX_GENERATION)
          && b[s] == if a[s].status == Free then Word(MAX_GENERATION, Retired) else a[s])
    && forall s :: n < s < |a| ==> b[s] == a[s]
  }

  class Root {
    var members: seq<Word>
    ghost var granted: set<Member>

    ghost predicate Valid()
      reads this
    {
      && |members| == PARTICIPANTS
      && (forall m :: m in granted ==> m.slot < |members| && m.generation <= members[m.slot].generation)
      && (forall s :: 0 <= s < |members| ==> members[s].generation <= MAX_GENERATION)
      && (forall s :: 0 <= s < |members| && (members[s].status == Live || members[s].status == Dead) ==>
            Member(s, members[s].generation) in granted)
    }

    constructor ()
      ensures Valid() && granted == {} && forall s :: 0 <= s < |members| ==> members[s] == Word(0, Free)
    {
      members := seq(PARTICIPANTS, _ => Word(0, Free));
      granted := {};
    }

    /** Any number of exchanges by others, unless the caller is alone. */
    method Others(alone: bool)
      requires Valid()
      modifies this
      ensures Valid() && old(granted) <= granted
      ensures alone ==> members == old(members) && granted == old(granted)
    {
      if alone { return; }
      var n: nat := *;
      while n > 0
        invariant Valid() && old(granted) <= granted
      {
        var slot: nat, w: Word := *, *;
        if slot < |members| && Changes(members[slot], w) {
          if Grants(members[slot], w) { granted := granted + {Member(slot, w.generation)}; }
          members := members[slot := w];
        }
        n := n - 1;
      }
    }

    /** The same on the other slots, while a recovery keeps this one. */
    method OthersBut(kept: nat, alone: bool)
      requires Valid()
      modifies this
      ensures Valid() && old(granted) <= granted
      ensures kept < |members| ==> members[kept] == old(members)[kept]
      ensures alone ==> members == old(members) && granted == old(granted)
    {
      if alone { return; }
      var n: nat := *;
      while n > 0
        invariant Valid() && old(granted) <= granted
        invariant kept < |members| ==> members[kept] == old(members)[kept]
      {
        var slot: nat, w: Word := *, *;
        if slot != kept && slot < |members| && Changes(members[slot], w) {
          if Grants(members[slot], w) { granted := granted + {Member(slot, w.generation)}; }
          members := members[slot := w];
        }
        n := n - 1;
      }
    }

    /** A compare-exchange on a slot's word; the word it expects may be gone by then. */
    method TryGrant(slot: nat, observed: Word, w: Word) returns (ok: bool)
      requires Valid() && slot < |members| && Changes(observed, w)
      modifies this
      ensures Valid() && ok == (old(members)[slot] == observed)
      ensures members == if ok then old(members)[slot := w] else old(members)
      ensures granted == if ok && Grants(observed, w) then old(granted) + {Member(slot, w.generation)} else old(granted)
    {
      ok := members[slot] == observed;
      if ok {
        members := members[slot := w];
        if Grants(observed, w) { granted := granted + {Member(slot, w.generation)}; }
      }
    }

    /**
     A slot and a generation nobody had before, whatever others do between the accesses.  A caller alone is refused only
     when every slot is taken or exhausted; the exhausted ones are retired.
     */
    method Join(alone: bool) returns (r: Option<Member>)
      requires Valid()
      modifies this
      ensures Valid() && old(granted) <= granted
      ensures r.Some? ==> r.value !in old(granted) && r.value in granted
                          && r.value.slot < |members| && members[r.value.slot] == Word(r.value.generation, Live)
      ensures alone ==> granted == if r.Some? then old(granted) + {r.value} else old(granted)
      ensures alone ==> Passed(old(members), members, if r.Some? then r.value.slot else |members|)
      ensures alone && r.Some? ==>
                r.value.generation > 0 && old(members)[r.value.slot] == Word(r.value.generation - 1, Free)
    {
      var slot := 0;
      while slot < PARTICIPANTS
        invariant slot <= PARTICIPANTS && Valid() && old(granted) <= granted
        invariant alone ==> granted == old(granted)
        invariant alone ==> Passed(old(members), members, slot)
        invariant alone && slot < |members| ==> members[slot] == old(members)[slot]
      {
        var observed := members[slot];
        Others(alone);
        if observed.status == Free {
          if observed.generation == MAX_GENERATION {
            var _ := TryGrant(slot, observed, Word(observed.generation, Retired));
          } else {
            var ok := TryGrant(slot, observed, Word(observed.generation + 1, Live));
            if ok { return Some(Member(slot, observed.generation + 1)); }
          }
        }
        slot := slot + 1;
      }
      return None;
    }

    /** One exchange on the word of m, if it is what the caller expects. */
    method Exchange(m: Member, from: Status, to: Status) returns (ok: bool)
      requires Valid() && (from == Live || from == Dead) && to != Live && (to == Dead ==> from == Live)
      modifies this`members
      ensures Valid()
      ensures ok <==> m.slot < |old(members)| && old(members)[m.slot] == Word(m.generation, from)
      ensures members == if ok then old(members)[m.slot := Word(m.generation, to)] else old(members)
    {
      ok := m.slot < |members| && members[m.slot] == Word(m.generation, from);
      if ok { members := members[m.slot := Word(m.generation, to)]; }
    }

    method Leave(m: Member) returns (ok: bool)
      requires Valid()
      modifies this`members
      ensures Valid() && (ok ==> m in granted)
      ensures ok <==> m.slot < |old(members)| && old(members)[m.slot] == Word(m.generation, Live)
      ensures members == if ok then old(members)[m.slot := Word(m.generation, Free)] else old(members)
    {
      ok := Exchange(m, Live, Free);
    }

    /** Only the very incarnation that is live can be declared dead. */
    method MarkDead(m: Member) returns (ok: bool)
      requires Valid()
      modifies this`members
      ensures Valid() && (ok ==> m in granted)
      ensures ok <==> m.slot < |old(members)| && old(members)[m.slot] == Word(m.generation, Live)
      ensures members == if ok then old(members)[m.slot := Word(m.generation, Dead)] else old(members)
    {
      ok := Exchange(m, Live, Dead);
    }

    method ReleaseDead(m: Member) returns (ok: bool)
      requires Valid()
      modifies this`members
      ensures Valid()
      ensures ok <==> m.slot < |old(members)| && old(members)[m.slot] == Word(m.generation, Dead)
      ensures members ==
                if ok then
                  old(members)[m.slot := Word(m.generation, if m.generation == MAX_GENERATION then Retired else Free)]
                else old(members)
    {
      ok := Exchange(m, Dead, if m.generation == MAX_GENERATION then Retired else Free);
    }
  }
}
