/**
 The control word of one queue slot.  A word is sixteen bits: a two-bit base, a COMPLETE bit, a six-bit source
 and a six-bit reaper (both biased by one, zero meaning nobody) and one reserved bit.  The rest of the project
 works on the decoded form; the lemmas here say that the canonical words are exactly the encoded ones.
 */
module ControlWord {
  // One participant slot is kept for the CLOSED bit of a 64-bit membership word.
  const PARTICIPANTS: nat := 63

  const EMPTY: nat := 0
  const PRODUCER: nat := 1
  const AVAILABLE: nat := 2
  const CONSUMER: nat := 3
  const COMPLETE: nat := 4
  const SOURCE_UNIT: nat := 8
  const REAPER_UNIT: nat := 512
  const RESERVED_UNIT: nat := 32768

  datatype Reaper = Nobody | By(slot: nat)

  datatype Control =
    | Empty
    | Producer(complete: bool, source: nat, reaper: Reaper)
    | Available(complete: bool)
    | Consumer(complete: bool, source: nat, reaper: Reaper)
  {
    predicate Valid() {
      (Producer? || Consumer?) ==> source < PARTICIPANTS && (reaper.By? ==> reaper.slot < PARTICIPANTS)
    }

    /** The word carries the number of this participant slot. */
    predicate Names(p: nat) {
      (Producer? || Consumer?) && (source == p || reaper == By(p))
    }
  }

  function Base(w: nat): nat { w % 4 }
  function IsComplete(w: nat): bool { (w / COMPLETE) % 2 == 1 }
  function SourceField(w: nat): nat { (w / SOURCE_UNIT) % 64 }
  function ReaperField(w: nat): nat { (w / REAPER_UNIT) % 64 }

  predicate Canonical(w: nat) {
    && w < RESERVED_UNIT
    && (Base(w) == EMPTY ==> w == EMPTY)
    && (Base(w) == PRODUCER || Base(w) == CONSUMER ==>
          0 < SourceField(w) <= PARTICIPANTS && ReaperField(w) <= PARTICIPANTS)
    && (Base(w) == AVAILABLE ==> SourceField(w) == 0 && ReaperField(w) == 0)
  }

  function ReaperCode(r: Reaper): nat { if r.By? then r.slot + 1 else 0 }

  function Owned(base: nat, complete: bool, source: nat, reaper: Reaper): nat {
    base + (if complete then COMPLETE else 0) + (source + 1) * SOURCE_UNIT + ReaperCode(reaper) * REAPER_UNIT
  }

  function Encode(c: Control): nat {
    match c
    case Empty => EMPTY
    case Producer(complete, source, reaper) => Owned(PRODUCER, complete, source, reaper)
    case Available(complete) => AVAILABLE + (if complete then COMPLETE else 0)
    case Consumer(complete, source, reaper) => Owned(CONSUMER, complete, source, reaper)
  }

  function DecodeReaper(w: nat): Reaper {
    if ReaperField(w) == 0 then Nobody else By(ReaperField(w) - 1)
  }

  function Decode(w: nat): Control {
    if Base(w) == EMPTY || (Base(w) != AVAILABLE && SourceField(w) == 0) then Empty
    else if Base(w) == AVAILABLE then Available(IsComplete(w))
    else if Base(w) == PRODUCER then Producer(IsComplete(w), SourceField(w) - 1, DecodeReaper(w))
    else Consumer(IsComplete(w), SourceField(w) - 1, DecodeReaper(w))
  }

  /** Encoding a valid control gives a canonical word, and decoding it gives the control back. */
  lemma DecodeEncode(c: Control)
    requires c.Valid()
    ensures Canonical(Encode(c)) && Decode(Encode(c)) == c
  {
    match c
    case Empty =>
    case Available(_) =>
    case Producer(complete, source, reaper) => OwnedFields(PRODUCER, complete, source, reaper);
    case Consumer(complete, source, reaper) => OwnedFields(CONSUMER, complete, source, reaper);
  }

  lemma OwnedFields(base: nat, complete: bool, source: nat, reaper: Reaper)
    requires base < 4 && source < PARTICIPANTS && (reaper.By? ==> reaper.slot < PARTICIPANTS)
    ensures var w := Owned(base, complete, source, reaper);
            && w < RESERVED_UNIT && Base(w) == base && IsComplete(w) == complete
            && SourceField(w) == source + 1 && ReaperField(w) == ReaperCode(reaper)
  {
    var w := Owned(base, complete, source, reaper);
    var c := if complete then 1 else 0;
    assert w == base + 4 * (c + 2 * (source + 1) + 128 * ReaperCode(reaper));
    assert w == (base + 4 * c) + 8 * ((source + 1) + 64 * ReaperCode(reaper));
    assert w == (base + 4 * c + 8 * (source + 1)) + 512 * ReaperCode(reaper);
    assert w / 4 == c + 2 * ((source + 1) + 64 * ReaperCode(reaper));
    assert w / 8 == (source + 1) + 64 * ReaperCode(reaper);
    assert w / 512 == ReaperCode(reaper);
  }

  /** Every canonical word is the encoding of the valid control it decodes to. */
  lemma EncodeDecode(w: nat)
    requires Canonical(w)
    ensures Decode(w).Valid() && Encode(Decode(w)) == w
  {
    assert w == Base(w) + 4 * (w / 4);
    assert w / 4 == (w / 4) % 2 + 2 * (w / 8);
    assert w / 8 == SourceField(w) + 64 * (w / 512);
    assert w / 512 == ReaperField(w);
  }
}
