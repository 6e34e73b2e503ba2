/** What the transfer operations come to when nobody else steps in between. */
module TransferAlone {
  import opened Common
  import opened ControlWord
  import opened LapCursor
  import opened Transfer
  import opened TransferInvariant
  import opened TransferTheorems
  import PoolWord
  import Repair

  /** A free block is the allocator's at the next generation, and freeing it leaves it free there. */
  lemma AllocateFree(s: State, t: nat, b: nat)
    requires WellShaped(s) && Live(s, t) && s.threads[t].alloc == None && s.threads[t].hold == NoHold
    requires b < |s.blocks| && s.blocks[b].word.Free? && s.blocks[b].word.generation < PoolWord.MAX_GENERATION
    ensures var g := s.blocks[b].word.generation + 1;
            var e := Step(s, Allocate(t, b));
            && t < |e.threads| && b < |e.blocks| && e.threads[t].alloc == Some(Token(b, g))
            && e.blocks[b].word == PoolWord.Local(g, s.threads[t].owner)
            && Step(e, Move.Free(t)) == SetBlock(s, b, Block(PoolWord.Free(g), Nowhere))
  {
    var e := Step(s, Allocate(t, b));
    assert e.threads[t := s.threads[t]] == s.threads;
  }

  // Sending.

  /** Reserves the next position, stages the block in hand, lets it go and publishes. */
  function Sent(s: State, t: nat): State
    requires WellShaped(s)
  {
    Step(Step(Step(Step(s, Reserve(t)), Stage(t)), Detach(t)), Publish(t))
  }

  predicate MaySend(s: State, t: nat)
    requires WellShaped(s)
  {
    && Live(s, t) && s.threads[t].hold == NoHold && s.threads[t].alloc.Some?
    && s.tail < s.head + s.cap && At(s, s.tail).control == Empty
  }

  /** Position q is published with token k, which is in the queue. */
  predicate Offers(s: State, q: nat, k: Token)
    requires WellShaped(s)
  {
    && At(s, q).turn == q && At(s, q).control == Available(true) && At(s, q).token == Some(k)
    && q in s.record && s.record[q] == k && q in s.fate && s.fate[q] == Waiting
    && k.block < |s.blocks| && s.blocks[k.block].word == PoolWord.Detached(k.generation)
  }

  lemma EmptyTail(s: State, t: nat)
    requires Inv(s) && MaySend(s, t)
    ensures CanReserve(s, t) && s.threads[t].alloc.value.block < |s.blocks| && s.tail !in s.record
  {
    assert SlotOk(s, Ix(s, s.tail)) && ThreadOk(s, t);
    if At(s, s.tail).turn != s.tail { IndexInjective(s.tail, At(s, s.tail).turn, s.cap); }
    forall q | q in s.fate ensures q != s.tail { assert FateOk(s, q); }
  }

  /** The state with the block at the tail. */
  function Posted(s: State, t: nat, k: Token): State
    requires WellShaped(s) && t < |s.threads| && k.block < |s.blocks|
  {
    var i := Ix(s, s.tail);
    var s1 := SetSlot(s, i, Slot(s.tail, Available(true), Some(k), None))
              .(tail := s.tail + 1, record := s.record[s.tail := k], fate := s.fate[s.tail := Waiting]);
    SetThread(SetBlock(s1, k.block, Block(PoolWord.Detached(k.generation), InSlot(i))), t, None, NoHold)
  }

  lemma StageSteps(s: State, t: nat, k: Token)
    requires WellShaped(s) && CanReserve(s, t) && s.threads[t].alloc == Some(k)
    ensures Step(Step(s, Reserve(t)), Stage(t)) ==
            SetThread(SetSlot(s, Ix(s, s.tail),
                              Slot(s.tail, Producer(true, s.threads[t].owner, Nobody), Some(k), Some(t)))
                      .(tail := s.tail + 1), t, Some(k), Staged(s.tail))
  {
    var r := Step(s, Reserve(t));
    assert r.threads[t].hold == Reserved(s.tail);
  }

  lemma SendSteps(s: State, t: nat, k: Token)
    requires WellShaped(s) && CanReserve(s, t) && s.threads[t].alloc == Some(k) && k.block < |s.blocks|
    ensures Sent(s, t) == Posted(s, t, k)
  {
    StageSteps(s, t, k);
    var a := Step(Step(s, Reserve(t)), Stage(t));
    var b := Step(a, Detach(t));
    assert b.threads[t].hold == Parted(s.tail);
    var e := Step(b, Publish(t));
    assert e.slots == Posted(s, t, k).slots && e.blocks == Posted(s, t, k).blocks;
    assert e.threads == Posted(s, t, k).threads;
  }

  lemma SendInv(s: State, t: nat)
    requires Inv(s)
    ensures Inv(Sent(s, t))
  {
    var a := Step(s, Reserve(t));
    StepInv(s, Reserve(t));
    StepInv(a, Stage(t));
    StepInv(Step(a, Stage(t)), Detach(t));
    StepInv(Step(Step(a, Stage(t)), Detach(t)), Publish(t));
  }

  /** A block in hand is sent: its record waits at the next position and the sender has it no more. */
  lemma SendAlone(s: State, t: nat)
    requires Inv(s) && MaySend(s, t)
    ensures var e := Sent(s, t);
            && Inv(e) && Offers(e, s.tail, s.threads[t].alloc.value) && e.tail == s.tail + 1 && e.head == s.head
            && e.threads == s.threads[t := s.threads[t].(alloc := None)] && e.dead == s.dead
            && (forall q :: q in s.record ==> q in e.record && e.record[q] == s.record[q])
  {
    EmptyTail(s, t);
    SendSteps(s, t, s.threads[t].alloc.value);
    SendInv(s, t);
  }

  // Receiving.

  /** Claims the first record, takes its block over and recycles the slot. */
  function Received(s: State, u: nat): State
    requires WellShaped(s)
  {
    Step(Step(Step(s, Claim(u)), Takeover(u)), Take(u))
  }

  /** The state with the first position recycled, its block's word and its fate as given. */
  function Passed(s: State, k: Token, word: Block, fate: Fate): State
    requires WellShaped(s) && k.block < |s.blocks|
  {
    SetBlock(SetSlot(s, Ix(s, s.head), Slot(s.head + s.cap, Empty, None, None)), k.block, word)
    .(head := s.head + 1, fate := s.fate[s.head := fate])
  }

  lemma ClaimStep(s: State, u: nat, k: Token)
    requires WellShaped(s) && Live(s, u) && s.threads[u].hold == NoHold && Offers(s, s.head, k)
    ensures Step(s, Claim(u)) ==
            SetThread(SetSlot(s, Ix(s, s.head),
                              Slot(s.head, Consumer(true, s.threads[u].owner, Nobody), Some(k), Some(u)))
                      .(head := s.head + 1, fate := s.fate[s.head := Held]), u, s.threads[u].alloc, Claimed(s.head))
  {}

  lemma ReceiveSteps(s: State, u: nat, k: Token)
    requires WellShaped(s) && Live(s, u) && s.threads[u].hold == NoHold && s.threads[u].alloc == None
    requires Offers(s, s.head, k)
    ensures Received(s, u) ==
            SetThread(Passed(s, k, Block(PoolWord.Local(k.generation, s.threads[u].owner), InHand(u)), Delivered(k)),
                      u, Some(k), NoHold)
  {
    ClaimStep(s, u, k);
    var a := Step(s, Claim(u));
    var b := Step(a, Takeover(u));
    assert b.threads[u] == Thread(s.threads[u].owner, Some(k), Taken(s.head));
    assert s.fate[s.head := Held][s.head := Delivered(k)] == s.fate[s.head := Delivered(k)];
  }

  lemma ReceiveInv(s: State, u: nat)
    requires Inv(s)
    ensures Inv(Received(s, u))
  {
    StepInv(s, Claim(u));
    StepInv(Step(s, Claim(u)), Takeover(u));
    StepInv(Step(Step(s, Claim(u)), Takeover(u)), Take(u));
  }

  /** The first record is received: its block is the taker's, at the generation it was sent with. */
  lemma ReceiveAlone(s: State, u: nat, k: Token)
    requires Inv(s) && Live(s, u) && s.threads[u].hold == NoHold && s.threads[u].alloc == None && Offers(s, s.head, k)
    ensures var e := Received(s, u);
            && Inv(e) && e.head == s.head + 1 && e.tail == s.tail
            && e.threads == s.threads[u := s.threads[u].(alloc := Some(k))]
            && k.block < |e.blocks| && e.blocks[k.block].word == PoolWord.Local(k.generation, s.threads[u].owner)
            && e.fate == s.fate[s.head := Delivered(k)] && e.record == s.record
            && At(e, s.head) == Slot(s.head + s.cap, Empty, None, None)
  {
    ReceiveSteps(s, u, k);
    ReceiveInv(s, u);
  }

  /** Sending into an empty queue and receiving hands the very block over. */
  lemma HandOver(s: State, t: nat, u: nat)
    requires Inv(s) && MaySend(s, t) && s.head == s.tail && t != u
    requires Live(s, u) && s.threads[u].hold == NoHold && s.threads[u].alloc == None
    ensures var e := Received(Sent(s, t), u);
            && Inv(e) && e.head == e.tail == s.tail + 1
            && |e.threads| == |s.threads| && e.threads[u].alloc == s.threads[t].alloc && e.threads[t].alloc == None
  {
    SendAlone(s, t);
    ReceiveAlone(Sent(s, t), u, s.threads[t].alloc.value);
  }

  lemma DrainSteps(s: State, u: nat, k: Token)
    requires WellShaped(s) && Live(s, u) && s.threads[u].hold == NoHold && Offers(s, s.head, k)
    ensures Step(Step(Step(s, Claim(u)), Discharge(u)), Drain(u)) ==
            Passed(s, k, Block(PoolWord.Free(k.generation), Nowhere), Drained)
  {
    ClaimStep(s, u, k);
    var a := Step(s, Claim(u));
    var b := Step(a, Discharge(u));
    assert b.threads[u].hold == Emptied(s.head);
    var e := Step(b, Drain(u));
    assert s.fate[s.head := Held][s.head := Drained] == s.fate[s.head := Drained];
    assert e.threads == s.threads;
  }

  /** While the queue closes, the first record is drained: its block is free and its slot open for the next lap. */
  lemma DrainAlone(s: State, u: nat, k: Token)
    requires Inv(s) && Live(s, u) && s.threads[u].hold == NoHold && Offers(s, s.head, k)
    ensures var e := Step(Step(Step(s, Claim(u)), Discharge(u)), Drain(u));
            && Inv(e) && e.head == s.head + 1 && e.threads == s.threads
            && k.block < |e.blocks| && e.blocks[k.block].word == PoolWord.Free(k.generation)
            && e.fate == s.fate[s.head := Drained] && At(e, s.head) == Slot(s.head + s.cap, Empty, None, None)
  {
    DrainSteps(s, u, k);
    StepInv(s, Claim(u));
    StepInv(Step(s, Claim(u)), Discharge(u));
    StepInv(Step(Step(s, Claim(u)), Discharge(u)), Drain(u));
  }

  /** A reservation that is abandoned leaves a position without a record, which the next claim passes over. */
  lemma AbandonAlone(s: State, t: nat, u: nat)
    requires Inv(s) && MaySend(s, t) && s.head == s.tail && Live(s, u) && s.threads[u].hold == NoHold
    ensures var a := Step(Step(s, Reserve(t)), Abandon(t));
            var e := Step(a, Claim(u));
            && a.threads == s.threads && e.threads == s.threads && e.blocks == s.blocks
            && e.record == s.record && e.fate == s.fate && e.head == e.tail == s.tail + 1
            && At(e, s.tail) == Slot(s.tail + s.cap, Empty, None, None)
  {
    EmptyTail(s, t);
    var r := Step(s, Reserve(t));
    assert r.threads[t].hold == Reserved(s.tail);
    var a := Step(r, Abandon(t));
    assert a.threads == s.threads;
  }
}
