/** What every step of the transfer machine keeps. */
module TransferInvariant {
  import opened Common
  import opened ControlWord
  import opened LapCursor
  import opened Transfer
  import PoolWord
  import Repair

  /** Token k is the only authority over its block and the slot it is in is i. */
  predicate InQueue(s: State, k: Token, i: nat) {
    k.block < |s.blocks| && s.blocks[k.block] == Block(PoolWord.Detached(k.generation), InSlot(i))
  }

  /** The block of token k has been freed since, and possibly allocated again. */
  predicate Spent(s: State, k: Token) {
    k.block < |s.blocks|
    && (s.blocks[k.block].word.generation > k.generation || s.blocks[k.block].word == PoolWord.Free(k.generation))
  }

  /** Slot i is being drained: its record's block is freed. */
  predicate Draining(s: State, i: nat)
    requires i < |s.slots|
  {
    var h := s.slots[i].holder;
    h.Some? && h.value < |s.threads| && s.threads[h.value].hold.Emptied?
  }

  /** The token in slot i, which src owns: in the queue, in src's hand, or spent by draining or because src is dead. */
  predicate TokenOk(s: State, i: nat, src: nat)
    requires i < |s.slots|
  {
    && s.slots[i].token.Some?
    && var k := s.slots[i].token.value;
       && k.block < |s.blocks|
       && (InQueue(s, k, i) || s.blocks[k.block].word == PoolWord.Local(k.generation, src)
           || ((src in s.dead || Draining(s, i)) && Spent(s, k)))
  }

  predicate Producing(h: Hold, pos: nat) { (h.Reserved? || h.Staged? || h.Parted?) && h.pos == pos }
  predicate Consuming(h: Hold, pos: nat) { (h.Claimed? || h.Taken? || h.Emptied?) && h.pos == pos }

  /** An owned slot has a live guard, a live repairer, or a dead party whose repair is still to come. */
  predicate GuardOk(s: State, i: nat)
    requires i < |s.slots| && (s.slots[i].control.Producer? || s.slots[i].control.Consumer?)
  {
    var x := s.slots[i];
    && (x.control.reaper == Nobody && x.control.source !in s.dead ==>
          && x.holder.Some? && x.holder.value < |s.threads| && s.threads[x.holder.value].owner == x.control.source
          && if x.control.Producer? then Producing(s.threads[x.holder.value].hold, x.turn)
             else Consuming(s.threads[x.holder.value].hold, x.turn))
    && (x.control.reaper.By? ==>
          && x.control.source in s.dead
          && (x.control.reaper.slot !in s.dead ==>
                && x.holder.Some? && x.holder.value < |s.threads|
                   && s.threads[x.holder.value].owner == x.control.reaper.slot
                && s.threads[x.holder.value].hold.Fixing? && s.threads[x.holder.value].hold.i == i))
  }

  predicate SlotOk(s: State, i: nat)
    requires WellShaped(s) && i < |s.slots|
  {
    var x := s.slots[i];
    && Ix(s, x.turn) == i
    && match x.control
       case Empty => x.token == None && x.holder == None && s.tail <= x.turn < s.head + s.cap
       case Available(full) =>
         && s.head <= x.turn < s.tail && x.holder == None
         && (full ==> x.token.Some? && InQueue(s, x.token.value, i) && x.turn in s.fate && s.fate[x.turn] == Waiting)
         && (!full ==> x.token == None)
       case Producer(full, src, _) =>
         && s.head <= x.turn < s.tail && GuardOk(s, i) && x.turn !in s.fate
         && if full then TokenOk(s, i, src) else x.token == None
       case Consumer(full, src, _) =>
         && full && x.turn < s.head && s.tail <= x.turn + s.cap && GuardOk(s, i) && TokenOk(s, i, src)
         && x.turn in s.fate && s.fate[x.turn] == Held
  }

  predicate BlockOk(s: State, b: nat)
    requires b < |s.blocks|
  {
    match s.blocks[b].word
    case Free(_) => s.blocks[b].place == Nowhere
    case Local(g, o) =>
      o in s.dead || (s.blocks[b].place.InHand? && s.blocks[b].place.t < |s.threads|
                      && s.threads[s.blocks[b].place.t].owner == o
                         && s.threads[s.blocks[b].place.t].alloc == Some(Token(b, g)))
    case Detached(g) =>
      && s.blocks[b].place.InSlot? && s.blocks[b].place.i < |s.slots|
      && var x := s.slots[s.blocks[b].place.i]; !x.control.Empty? && x.control.complete && x.token == Some(Token(b, g))
  }

  predicate HandOk(s: State, t: nat)
    requires t < |s.threads|
  {
    var k := s.threads[t].alloc;
    k.Some? ==> k.value.block < |s.blocks|
                && s.blocks[k.value.block] == Block(PoolWord.Local(k.value.generation, s.threads[t].owner), InHand(t))
  }

  predicate HoldOk(s: State, t: nat)
    requires WellShaped(s) && t < |s.threads|
  {
    var me := s.threads[t];
    match me.hold
    case NoHold => true
    case Reserved(pos) =>
      At(s, pos).turn == pos && At(s, pos).control == Producer(false, me.owner, Nobody) && At(s, pos).holder == Some(t)
    case Staged(pos) =>
      && At(s, pos).turn == pos && At(s, pos).control == Producer(true, me.owner, Nobody)
         && At(s, pos).holder == Some(t)
      && me.alloc.Some? && At(s, pos).token == me.alloc
    case Parted(pos) =>
      && At(s, pos).turn == pos && At(s, pos).control == Producer(true, me.owner, Nobody)
         && At(s, pos).holder == Some(t)
      && At(s, pos).token.Some? && InQueue(s, At(s, pos).token.value, Ix(s, pos))
    case Claimed(pos) =>
      && At(s, pos).turn == pos && At(s, pos).control == Consumer(true, me.owner, Nobody)
         && At(s, pos).holder == Some(t)
      && At(s, pos).token.Some? && InQueue(s, At(s, pos).token.value, Ix(s, pos))
    case Taken(pos) =>
      && At(s, pos).turn == pos && At(s, pos).control == Consumer(true, me.owner, Nobody)
         && At(s, pos).holder == Some(t)
      && me.alloc.Some? && At(s, pos).token == me.alloc
    case Emptied(pos) =>
      && At(s, pos).turn == pos && At(s, pos).control == Consumer(true, me.owner, Nobody)
         && At(s, pos).holder == Some(t)
      && At(s, pos).token.Some? && Spent(s, At(s, pos).token.value)
    case Fixing(i, resolved) =>
      && i < |s.slots| && s.slots[i].holder == Some(t)
      && (s.slots[i].control.Producer? || s.slots[i].control.Consumer?) && s.slots[i].control.reaper == By(me.owner)
      && (resolved && s.slots[i].control.complete ==> s.slots[i].token.Some? && Spent(s, s.slots[i].token.value))
  }

  predicate ThreadOk(s: State, t: nat)
    requires WellShaped(s) && t < |s.threads|
  {
    && (s.threads[t].owner in s.dead ==> s.threads[t].alloc == None && s.threads[t].hold == NoHold)
    && HandOk(s, t) && HoldOk(s, t)
  }

  /** Position q's own slot is at q. */
  predicate Seated(s: State, q: nat)
    requires WellShaped(s)
  {
    At(s, q).turn == q
  }

  predicate FateOk(s: State, q: nat)
    requires WellShaped(s) && q in s.fate && q in s.record
  {
    && q < s.tail
    && match s.fate[q]
       case Waiting => s.head <= q && At(s, q).turn == q && At(s, q).control == Available(true)
                       && At(s, q).token == Some(s.record[q])
       case Held => q < s.head && At(s, q).turn == q && At(s, q).control.Consumer?
                    && At(s, q).token == Some(s.record[q])
       case Delivered(k) => q < s.head && k == s.record[q]
       case Drained => q < s.head
       case LostWith(_) => q < s.head
  }

  predicate Core(s: State) {
    && WellShaped(s) && s.head <= s.tail <= s.head + s.cap && s.record.Keys == s.fate.Keys
    && (forall q {:trigger Seated(s, q)} :: s.head <= q < s.tail ==> Seated(s, q))
  }

  predicate Inv(s: State) {
    && Core(s)
    && (forall i {:trigger SlotOk(s, i)} :: 0 <= i < |s.slots| ==> SlotOk(s, i))
    && (forall b {:trigger BlockOk(s, b)} :: 0 <= b < |s.blocks| ==> BlockOk(s, b))
    && (forall t {:trigger ThreadOk(s, t)} :: 0 <= t < |s.threads| ==> ThreadOk(s, t))
    && (forall q {:trigger FateOk(s, q)} :: q in s.fate ==> FateOk(s, q))
  }

  lemma InitInv(cap: nat, blocks: nat, owners: seq<nat>)
    requires cap > 0
    ensures Inv(Init(cap, blocks, owners))
  {
  }

  /** The thread a slot is under is in order. */
  lemma HolderOk(s: State, i: nat)
    requires Inv(s) && i < |s.slots|
    ensures s.slots[i].holder.Some? && s.slots[i].holder.value < |s.threads| ==> ThreadOk(s, s.slots[i].holder.value)
  {}

  lemma FateBelowTail(s: State, q: nat)
    requires Inv(s) && q in s.fate
    ensures q < s.tail
  {
    assert FateOk(s, q);
  }

  // The pool steps.

  lemma AllocateInv(s: State, t: nat, b: nat)
    requires Inv(s) && CanAllocate(s, t, b)
    ensures Inv(DoAllocate(s, t, b))
  {
    var u := DoAllocate(s, t, b);
    assert BlockOk(s, b) && ThreadOk(s, t);
    forall i | 0 <= i < |u.slots| ensures SlotOk(u, i) { assert SlotOk(s, i); }
    forall c | 0 <= c < |u.blocks| ensures BlockOk(u, c) { assert BlockOk(s, c); }
    forall j | 0 <= j < |u.threads| ensures ThreadOk(u, j) { assert ThreadOk(s, j); }
    forall q | q in u.fate ensures FateOk(u, q) { assert FateOk(s, q); }
    forall q | u.head <= q < u.tail ensures Seated(u, q) { assert Seated(s, q); }
  }

  lemma FreeInv(s: State, t: nat)
    requires Inv(s) && CanFree(s, t)
    ensures Inv(DoFree(s, t))
  {
    var u := DoFree(s, t);
    assert ThreadOk(s, t);
    forall i | 0 <= i < |u.slots| ensures SlotOk(u, i) { assert SlotOk(s, i); HolderOk(s, i); }
    forall c | 0 <= c < |u.blocks| ensures BlockOk(u, c) { assert BlockOk(s, c); }
    forall j | 0 <= j < |u.threads| ensures ThreadOk(u, j) { assert ThreadOk(s, j); }
    forall q | q in u.fate ensures FateOk(u, q) { assert FateOk(s, q); }
    forall q | u.head <= q < u.tail ensures Seated(u, q) { assert Seated(s, q); }
  }

  lemma ReapInv(s: State, b: nat, p: nat)
    requires Inv(s) && CanReap(s, b, p)
    ensures Inv(DoReap(s, b, p))
  {
    var u := DoReap(s, b, p);
    assert BlockOk(s, b);
    forall i | 0 <= i < |u.slots| ensures SlotOk(u, i) { assert SlotOk(s, i); }
    forall c | 0 <= c < |u.blocks| ensures BlockOk(u, c) { assert BlockOk(s, c); }
    forall j | 0 <= j < |u.threads| ensures ThreadOk(u, j) { assert ThreadOk(s, j); }
    forall q | q in u.fate ensures FateOk(u, q) { assert FateOk(s, q); }
    forall q | u.head <= q < u.tail ensures Seated(u, q) { assert Seated(s, q); }
  }

  // Producing.

  lemma ReserveInv(s: State, t: nat)
    requires Inv(s) && CanReserve(s, t)
    ensures Inv(DoReserve(s, t))
  {
    var u := DoReserve(s, t);
    assert ThreadOk(s, t);
    TailSlot(s);
    if s.tail in s.fate { FateBelowTail(s, s.tail); }
    forall i | 0 <= i < |u.slots| ensures SlotOk(u, i) { assert SlotOk(s, i); }
    forall c | 0 <= c < |u.blocks| ensures BlockOk(u, c) { assert BlockOk(s, c); }
    forall j | 0 <= j < |u.threads| ensures ThreadOk(u, j) { assert ThreadOk(s, j); }
    forall q | q in u.fate ensures FateOk(u, q) { assert FateOk(s, q); }
    forall q | u.head <= q < u.tail ensures Seated(u, q) { assert Seated(s, q); }
  }

  lemma StageInv(s: State, t: nat)
    requires Inv(s) && CanStage(s, t)
    ensures Inv(DoStage(s, t))
  {
    var u := DoStage(s, t);
    assert ThreadOk(s, t);
    forall i | 0 <= i < |u.slots| ensures SlotOk(u, i) { assert SlotOk(s, i); }
    forall c | 0 <= c < |u.blocks| ensures BlockOk(u, c) { assert BlockOk(s, c); }
    forall j | 0 <= j < |u.threads| ensures ThreadOk(u, j) { assert ThreadOk(s, j); }
    forall q | q in u.fate ensures FateOk(u, q) { assert FateOk(s, q); }
    forall q | u.head <= q < u.tail ensures Seated(u, q) { assert Seated(s, q); }
  }

  lemma DetachInv(s: State, t: nat)
    requires Inv(s) && CanDetach(s, t)
    ensures Inv(DoDetach(s, t))
  {
    var u := DoDetach(s, t);
    assert ThreadOk(s, t);
    forall i | 0 <= i < |u.slots| ensures SlotOk(u, i) { assert SlotOk(s, i); HolderOk(s, i); }
    forall c | 0 <= c < |u.blocks| ensures BlockOk(u, c) { assert BlockOk(s, c); }
    forall j | 0 <= j < |u.threads| ensures ThreadOk(u, j) { assert ThreadOk(s, j); }
    forall q | q in u.fate ensures FateOk(u, q) { assert FateOk(s, q); }
    forall q | u.head <= q < u.tail ensures Seated(u, q) { assert Seated(s, q); }
  }

  lemma PublishInv(s: State, t: nat)
    requires Inv(s) && CanPublish(s, t)
    ensures Inv(DoPublish(s, t))
  {
    var u := DoPublish(s, t);
    assert ThreadOk(s, t) && SlotOk(s, Ix(s, s.threads[t].hold.pos));
    forall i | 0 <= i < |u.slots| ensures SlotOk(u, i) { assert SlotOk(s, i); }
    forall c | 0 <= c < |u.blocks| ensures BlockOk(u, c) { assert BlockOk(s, c); }
    forall j | 0 <= j < |u.threads| ensures ThreadOk(u, j) { assert ThreadOk(s, j); }
    forall q | q in u.fate ensures FateOk(u, q) { if q in s.fate { assert FateOk(s, q); } }
    forall q | u.head <= q < u.tail ensures Seated(u, q) { assert Seated(s, q); }
  }

  lemma AbandonInv(s: State, t: nat)
    requires Inv(s) && CanAbandon(s, t)
    ensures Inv(DoAbandon(s, t))
  {
    var u := DoAbandon(s, t);
    assert ThreadOk(s, t);
    forall i | 0 <= i < |u.slots| ensures SlotOk(u, i) { assert SlotOk(s, i); }
    forall c | 0 <= c < |u.blocks| ensures BlockOk(u, c) { assert BlockOk(s, c); }
    forall j | 0 <= j < |u.threads| ensures ThreadOk(u, j) { assert ThreadOk(s, j); }
    forall q | q in u.fate ensures FateOk(u, q) { assert FateOk(s, q); }
    forall q | u.head <= q < u.tail ensures Seated(u, q) { assert Seated(s, q); }
  }

  // Consuming.

  lemma ClaimSlot(s: State, t: nat, i: nat)
    requires Inv(s) && CanClaim(s, t) && i < |s.slots|
    ensures SlotOk(DoClaim(s, t), i)
  {
    assert ThreadOk(s, t) && SlotOk(s, Ix(s, s.head)) && SlotOk(s, i);
    IndexNextLap(s.head, s.cap);
  }

  lemma ClaimThread(s: State, t: nat, j: nat)
    requires Inv(s) && CanClaim(s, t) && j < |s.threads|
    ensures ThreadOk(DoClaim(s, t), j)
  {
    assert ThreadOk(s, t) && SlotOk(s, Ix(s, s.head)) && ThreadOk(s, j);
  }

  lemma ClaimInv(s: State, t: nat)
    requires Inv(s) && CanClaim(s, t)
    ensures Inv(DoClaim(s, t))
  {
    var u := DoClaim(s, t);
    assert ThreadOk(s, t) && SlotOk(s, Ix(s, s.head));
    IndexNextLap(s.head, s.cap);
    forall i | 0 <= i < |u.slots| ensures SlotOk(u, i) { ClaimSlot(s, t, i); }
    forall c | 0 <= c < |u.blocks| ensures BlockOk(u, c) { assert BlockOk(s, c); }
    forall j | 0 <= j < |u.threads| ensures ThreadOk(u, j) { ClaimThread(s, t, j); }
    forall q | q in u.fate ensures FateOk(u, q) { if q in s.fate { assert FateOk(s, q); } }
    forall q | u.head <= q < u.tail ensures Seated(u, q) { assert Seated(s, q); }
  }

  lemma TakeoverInv(s: State, t: nat)
    requires Inv(s) && CanTakeover(s, t)
    ensures Inv(DoTakeover(s, t))
  {
    var u := DoTakeover(s, t);
    assert ThreadOk(s, t);
    forall i | 0 <= i < |u.slots| ensures SlotOk(u, i) { assert SlotOk(s, i); }
    forall c | 0 <= c < |u.blocks| ensures BlockOk(u, c) { assert BlockOk(s, c); }
    forall j | 0 <= j < |u.threads| ensures ThreadOk(u, j) { assert ThreadOk(s, j); }
    forall q | q in u.fate ensures FateOk(u, q) { assert FateOk(s, q); }
    forall q | u.head <= q < u.tail ensures Seated(u, q) { assert Seated(s, q); }
  }

  lemma TakeInv(s: State, t: nat)
    requires Inv(s) && CanTake(s, t)
    ensures Inv(DoTake(s, t))
  {
    var u := DoTake(s, t);
    assert ThreadOk(s, t) && SlotOk(s, Ix(s, s.threads[t].hold.pos));
    IndexNextLap(s.threads[t].hold.pos, s.cap);
    forall i | 0 <= i < |u.slots| ensures SlotOk(u, i) { assert SlotOk(s, i); }
    forall c | 0 <= c < |u.blocks| ensures BlockOk(u, c) { assert BlockOk(s, c); }
    forall j | 0 <= j < |u.threads| ensures ThreadOk(u, j) { assert ThreadOk(s, j); }
    forall q | q in u.fate ensures FateOk(u, q) { if q in s.fate { assert FateOk(s, q); } }
    forall q | u.head <= q < u.tail ensures Seated(u, q) { assert Seated(s, q); }
  }

  lemma DischargeSlot(s: State, t: nat, i: nat)
    requires Inv(s) && CanDischarge(s, t) && i < |s.slots|
    ensures SlotOk(DoDischarge(s, t), i)
  {
    assert ThreadOk(s, t) && SlotOk(s, i);
    HolderOk(s, i);
  }

  lemma DischargeInv(s: State, t: nat)
    requires Inv(s) && CanDischarge(s, t)
    ensures Inv(DoDischarge(s, t))
  {
    var u := DoDischarge(s, t);
    assert ThreadOk(s, t);
    forall i | 0 <= i < |u.slots| ensures SlotOk(u, i) { DischargeSlot(s, t, i); }
    forall c | 0 <= c < |u.blocks| ensures BlockOk(u, c) { assert BlockOk(s, c); }
    forall j | 0 <= j < |u.threads| ensures ThreadOk(u, j) { assert ThreadOk(s, j); }
    forall q | q in u.fate ensures FateOk(u, q) { assert FateOk(s, q); }
    forall q | u.head <= q < u.tail ensures Seated(u, q) { assert Seated(s, q); }
  }

  lemma DrainInv(s: State, t: nat)
    requires Inv(s) && CanDrain(s, t)
    ensures Inv(DoDrain(s, t))
  {
    var u := DoDrain(s, t);
    assert ThreadOk(s, t) && SlotOk(s, Ix(s, s.threads[t].hold.pos));
    IndexNextLap(s.threads[t].hold.pos, s.cap);
    forall i | 0 <= i < |u.slots| ensures SlotOk(u, i) { assert SlotOk(s, i); HolderOk(s, i); }
    forall c | 0 <= c < |u.blocks| ensures BlockOk(u, c) { assert BlockOk(s, c); }
    forall j | 0 <= j < |u.threads| ensures ThreadOk(u, j) { assert ThreadOk(s, j); }
    forall q | q in u.fate ensures FateOk(u, q) { if q in s.fate { assert FateOk(s, q); } }
    forall q | u.head <= q < u.tail ensures Seated(u, q) { assert Seated(s, q); }
  }

  // Death, repair and return.

  lemma CrashInv(s: State, p: nat)
    requires Inv(s)
    ensures Inv(DoCrash(s, p))
  {
    var u := DoCrash(s, p);
    forall i | 0 <= i < |u.slots| ensures SlotOk(u, i) { assert SlotOk(s, i); }
    forall c | 0 <= c < |u.blocks| ensures BlockOk(u, c) { assert BlockOk(s, c); }
    forall j | 0 <= j < |u.threads| ensures ThreadOk(u, j) { assert ThreadOk(s, j); }
    forall q | q in u.fate ensures FateOk(u, q) { assert FateOk(s, q); }
    forall q | u.head <= q < u.tail ensures Seated(u, q) { assert Seated(s, q); }
  }

  lemma TagInv(s: State, t: nat, i0: nat, p: nat)
    requires Inv(s) && CanTag(s, t, i0, p)
    ensures Inv(DoTag(s, t, i0, p))
  {
    var u := DoTag(s, t, i0, p);
    assert ThreadOk(s, t);
    forall i | 0 <= i < |u.slots| ensures SlotOk(u, i) { assert SlotOk(s, i); }
    forall c | 0 <= c < |u.blocks| ensures BlockOk(u, c) { assert BlockOk(s, c); }
    forall j | 0 <= j < |u.threads| ensures ThreadOk(u, j) { assert ThreadOk(s, j); }
    forall q | q in u.fate ensures FateOk(u, q) { assert FateOk(s, q); }
    forall q | u.head <= q < u.tail ensures Seated(u, q) { assert Seated(s, q); }
  }

  lemma ResolveSlot(s: State, t: nat, i: nat)
    requires Inv(s) && CanResolve(s, t) && i < |s.slots|
    ensures SlotOk(DoResolve(s, t), i)
  {
    assert ThreadOk(s, t) && SlotOk(s, s.threads[t].hold.i) && SlotOk(s, i);
  }

  lemma ResolveHand(s: State, t: nat, j: nat)
    requires Inv(s) && CanResolve(s, t) && j < |s.threads|
    ensures HandOk(DoResolve(s, t), j)
  {
    assert ThreadOk(s, t) && SlotOk(s, s.threads[t].hold.i) && ThreadOk(s, j);
  }

  lemma ResolveThread(s: State, t: nat, j: nat)
    requires Inv(s) && CanResolve(s, t) && j < |s.threads|
    ensures ThreadOk(DoResolve(s, t), j)
  {
    ResolveHand(s, t, j);
    assert ThreadOk(s, j);
    if j != t { ResolveOther(s, t, j); } else { assert SlotOk(s, s.threads[t].hold.i); }
  }

  lemma ResolveOther(s: State, t: nat, j: nat)
    requires Inv(s) && CanResolve(s, t) && j < |s.threads| && j != t
    ensures HoldOk(DoResolve(s, t), j)
  {
    assert ThreadOk(s, t) && SlotOk(s, s.threads[t].hold.i) && ThreadOk(s, j);
    var u := DoResolve(s, t);
    assert u.slots == s.slots && u.threads[j] == s.threads[j];
  }

  lemma ResolveInv(s: State, t: nat)
    requires Inv(s) && CanResolve(s, t)
    ensures Inv(DoResolve(s, t))
  {
    var u := DoResolve(s, t);
    assert ThreadOk(s, t) && SlotOk(s, s.threads[t].hold.i);
    forall i | 0 <= i < |u.slots| ensures SlotOk(u, i) { ResolveSlot(s, t, i); }
    forall c | 0 <= c < |u.blocks| ensures BlockOk(u, c) { assert BlockOk(s, c); }
    forall j | 0 <= j < |u.threads| ensures ThreadOk(u, j) { ResolveThread(s, t, j); }
    forall q | q in u.fate ensures FateOk(u, q) { assert FateOk(s, q); }
    forall q | u.head <= q < u.tail ensures Seated(u, q) { assert Seated(s, q); }
  }

  lemma StoreSlot(s: State, t: nat, i: nat)
    requires Inv(s) && CanStore(s, t) && i < |s.slots|
    ensures SlotOk(DoStore(s, t), i)
  {
    assert ThreadOk(s, t) && SlotOk(s, s.threads[t].hold.i) && SlotOk(s, i);
    IndexNextLap(s.slots[s.threads[t].hold.i].turn, s.cap);
  }

  lemma StoreThread(s: State, t: nat, j: nat)
    requires Inv(s) && CanStore(s, t) && j < |s.threads|
    ensures ThreadOk(DoStore(s, t), j)
  {
    assert ThreadOk(s, t) && SlotOk(s, s.threads[t].hold.i) && ThreadOk(s, j);
  }

  lemma StoreInv(s: State, t: nat)
    requires Inv(s) && CanStore(s, t)
    ensures Inv(DoStore(s, t))
  {
    var u := DoStore(s, t);
    assert ThreadOk(s, t) && SlotOk(s, s.threads[t].hold.i);
    IndexNextLap(s.slots[s.threads[t].hold.i].turn, s.cap);
    forall i | 0 <= i < |u.slots| ensures SlotOk(u, i) { StoreSlot(s, t, i); }
    forall c | 0 <= c < |u.blocks| ensures BlockOk(u, c) { assert BlockOk(s, c); }
    forall j | 0 <= j < |u.threads| ensures ThreadOk(u, j) { StoreThread(s, t, j); }
    forall q | q in u.fate ensures FateOk(u, q) { if q in s.fate { assert FateOk(s, q); } }
    forall q | u.head <= q < u.tail ensures Seated(u, q) { assert Seated(s, q); }
  }

  lemma RejoinInv(s: State, p: nat)
    requires Inv(s) && p in s.dead && Forgotten(s, p)
    ensures Inv(s.(dead := s.dead - {p}))
  {
    var u := s.(dead := s.dead - {p});
    forall i | 0 <= i < |u.slots| ensures SlotOk(u, i) { assert SlotOk(s, i); }
    forall c | 0 <= c < |u.blocks| ensures BlockOk(u, c) { assert BlockOk(s, c); }
    forall j | 0 <= j < |u.threads| ensures ThreadOk(u, j) { assert ThreadOk(s, j); }
    forall q | q in u.fate ensures FateOk(u, q) { assert FateOk(s, q); }
    forall q | u.head <= q < u.tail ensures Seated(u, q) { assert Seated(s, q); }
  }

  /** Reserving leaves room: the slot at the tail is nobody else's. */
  lemma TailSlot(s: State)
    requires Inv(s) && At(s, s.tail).control == Empty && At(s, s.tail).turn == s.tail
    ensures s.tail < s.head + s.cap
    ensures forall i {:trigger s.slots[i]} :: 0 <= i < |s.slots| && i != Ix(s, s.tail) ==>
              s.slots[i].turn != s.tail && s.slots[i].turn + s.cap != s.tail
  {
    assert SlotOk(s, Ix(s, s.tail));
    forall i | 0 <= i < |s.slots| && i != Ix(s, s.tail)
      ensures s.slots[i].turn != s.tail && s.slots[i].turn + s.cap != s.tail
    {
      assert SlotOk(s, i);
      IndexNextLap(s.slots[i].turn, s.cap);
    }
  }
}
