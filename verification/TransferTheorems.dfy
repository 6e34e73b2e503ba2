/** What holds in every run of the transfer machine. */
module TransferTheorems {
  import opened Common
  import opened ControlWord
  import opened LapCursor
  import opened Transfer
  import opened TransferInvariant
  import PoolWord
  import Repair

  lemma GuardStepInv(s: State, m: Move)
    requires Inv(s)
             && (m.Reserve? || m.Stage? || m.Detach? || m.Publish? || m.Abandon? || m.Claim? || m.Takeover? || m.Take?
                         || m.Discharge? || m.Drain?)
    ensures Inv(Step(s, m))
  {
    match m
    case Discharge(t) => if CanDischarge(s, t) { DischargeInv(s, t); }
    case Drain(t) => if CanDrain(s, t) { DrainInv(s, t); }
    case Reserve(t) => if CanReserve(s, t) { ReserveInv(s, t); }
    case Stage(t) => if CanStage(s, t) { StageInv(s, t); }
    case Detach(t) => if CanDetach(s, t) { DetachInv(s, t); }
    case Publish(t) => if CanPublish(s, t) { PublishInv(s, t); }
    case Abandon(t) => if CanAbandon(s, t) { AbandonInv(s, t); }
    case Claim(t) => if CanClaim(s, t) { ClaimInv(s, t); }
    case Takeover(t) => if CanTakeover(s, t) { TakeoverInv(s, t); }
    case Take(t) => if CanTake(s, t) { TakeInv(s, t); }
  }

  lemma RepairStepInv(s: State, m: Move)
    requires Inv(s) && (m.Crash? || m.Tag? || m.Resolve? || m.Store? || m.ReapBlock? || m.Rejoin?)
    ensures Inv(Step(s, m))
  {
    match m
    case Crash(p) => CrashInv(s, p);
    case Tag(t, i, p) => if CanTag(s, t, i, p) { TagInv(s, t, i, p); }
    case Resolve(t) => if CanResolve(s, t) { ResolveInv(s, t); }
    case Store(t) => if CanStore(s, t) { StoreInv(s, t); }
    case ReapBlock(b, p) => if CanReap(s, b, p) { ReapInv(s, b, p); }
    case Rejoin(p) => if p in s.dead && Forgotten(s, p) { RejoinInv(s, p); }
  }

  lemma StepInv(s: State, m: Move)
    requires Inv(s)
    ensures Inv(Step(s, m))
  {
    if m.Allocate? {
      if CanAllocate(s, m.t, m.b) { AllocateInv(s, m.t, m.b); }
    } else if m.Free? {
      if CanFree(s, m.t) { FreeInv(s, m.t); }
    } else if m.Crash? || m.Tag? || m.Resolve? || m.Store? || m.ReapBlock? || m.Rejoin? {
      RepairStepInv(s, m);
    } else {
      GuardStepInv(s, m);
    }
  }

  /** Every state any schedule of operations, deaths, repairs and returns can reach. */
  predicate Reachable(s: State, cap: nat, blocks: nat, owners: seq<nat>, moves: seq<Move>) {
    cap > 0 && s == Run(Init(cap, blocks, owners), moves)
  }

  lemma {:induction false} RunInv(s: State, moves: seq<Move>)
    requires Inv(s)
    ensures Inv(Run(s, moves))
    decreases |moves|
  {
    if moves != [] {
      RunInv(s, moves[..|moves| - 1]);
      StepInv(Run(s, moves[..|moves| - 1]), moves[|moves| - 1]);
    }
  }

  lemma ReachableInv(s: State, cap: nat, blocks: nat, owners: seq<nat>, moves: seq<Move>)
    requires Reachable(s, cap, blocks, owners, moves)
    ensures Inv(s)
  {
    InitInv(cap, blocks, owners);
    RunInv(Init(cap, blocks, owners), moves);
  }

  // Authority over pool blocks.

  predicate HandleOf(s: State, t: nat, k: Token) { t < |s.threads| && s.threads[t].alloc == Some(k) }

  predicate NamedBy(s: State, i: nat, k: Token) {
    && i < |s.slots| && s.slots[i].token == Some(k) && !s.slots[i].control.Empty? && s.slots[i].control.complete
  }

  /**
   Every block is exactly one of: free, with no handle and no claimable record naming its generation; in the hand of
   exactly one handle, or of a dead participant with none; or detached and named by exactly one queue slot.
   */
  lemma OneAuthority(s: State, cap: nat, blocks: nat, owners: seq<nat>, moves: seq<Move>, b: nat)
    requires Reachable(s, cap, blocks, owners, moves) && b < |s.blocks|
    ensures var w := s.blocks[b].word;
            var k := Token(b, w.generation);
            && (w.Free? ==>
                  && (forall t: nat :: !HandleOf(s, t, k))
                  && (forall i: nat :: NamedBy(s, i, k) ==> !s.slots[i].control.Available?))
            && (w.Local? ==> (if w.owner in s.dead then forall t: nat :: !HandleOf(s, t, k)
                              else (exists t: nat :: HandleOf(s, t, k) && s.threads[t].owner == w.owner)
                                   && forall t: nat, u: nat :: HandleOf(s, t, k) && HandleOf(s, u, k) ==> t == u)
                             && forall i: nat :: NamedBy(s, i, k) ==> !s.slots[i].control.Available?)
            && (w.Detached? ==> (forall t: nat :: !HandleOf(s, t, k)) && (exists i: nat :: NamedBy(s, i, k))
                                && forall i: nat, j: nat :: NamedBy(s, i, k) && NamedBy(s, j, k) ==> i == j)
  {
    ReachableInv(s, cap, blocks, owners, moves);
    var w := s.blocks[b].word;
    var k := Token(b, w.generation);
    assert BlockOk(s, b);
    forall t: nat | HandleOf(s, t, k)
      ensures w == PoolWord.Local(k.generation, s.threads[t].owner) && s.blocks[b].place == InHand(t)
              && s.threads[t].owner !in s.dead
    {
      assert ThreadOk(s, t);
    }
    forall i: nat | NamedBy(s, i, k)
      ensures s.slots[i].control.Available? || w.Detached? ==> w.Detached? && s.blocks[b].place == InSlot(i)
    {
      assert SlotOk(s, i);
    }
    if w.Local? && w.owner !in s.dead { assert HandleOf(s, s.blocks[b].place.t, k); }
    if w.Detached? { assert NamedBy(s, s.blocks[b].place.i, k); }
  }

  /** No live handle, token or claim names a generation the block has not reached, and a handle's is current. */
  lemma HandlesAreCurrent(s: State, cap: nat, blocks: nat, owners: seq<nat>, moves: seq<Move>, t: nat)
    requires Reachable(s, cap, blocks, owners, moves) && t < |s.threads| && s.threads[t].alloc.Some?
    ensures s.threads[t].alloc.value.block < |s.blocks|
    ensures s.blocks[s.threads[t].alloc.value.block].word == PoolWord.Local(s.threads[t].alloc.value.generation,
                                                                            s.threads[t].owner)
  {
    ReachableInv(s, cap, blocks, owners, moves);
    assert ThreadOk(s, t);
  }

  /**
   The exchanges the code asserts or unwraps succeed: detaching a staged transfer, taking over or freeing a claimed
   one.
   */
  lemma LinearityNeverFails(s: State, cap: nat, blocks: nat, owners: seq<nat>, moves: seq<Move>, t: nat)
    requires Reachable(s, cap, blocks, owners, moves) && Live(s, t)
    ensures s.threads[t].hold.Staged? ==> CanDetach(s, t)
    ensures s.threads[t].hold.Parted? ==> CanPublish(s, t)
    ensures s.threads[t].hold.Claimed? && s.threads[t].alloc == None ==> CanTakeover(s, t)
    ensures s.threads[t].hold.Taken? ==> CanTake(s, t)
    ensures s.threads[t].hold.Claimed? ==> CanDischarge(s, t) && Discharged(s, t).0
    ensures s.threads[t].hold.Emptied? ==> CanDrain(s, t)
  {
    ReachableInv(s, cap, blocks, owners, moves);
    assert ThreadOk(s, t);
  }

  /** A repair never finds corruption: its plan exists, its release succeeds, and it can always go on. */
  lemma RepairGoesOn(s: State, cap: nat, blocks: nat, owners: seq<nat>, moves: seq<Move>, t: nat)
    requires Reachable(s, cap, blocks, owners, moves) && Live(s, t) && s.threads[t].hold.Fixing?
    ensures !s.threads[t].hold.resolved ==>
              && CanResolve(s, t) && (PlanOf(s, t).release ==> Released(s, t).0)
              && Step(s, Resolve(t)).threads[t].hold == Fixing(s.threads[t].hold.i, true)
    ensures s.threads[t].hold.resolved ==>
              && CanStore(s, t)
              && !Step(s, Store(t)).slots[s.threads[t].hold.i].control.Producer?
              && !Step(s, Store(t)).slots[s.threads[t].hold.i].control.Consumer?
  {
    ReachableInv(s, cap, blocks, owners, moves);
    assert ThreadOk(s, t) && SlotOk(s, s.threads[t].hold.i);
  }

  // Positions.

  /**
   Slot i is waiting for someone who can still move: its guard, its repairer, or any idle thread that will repair it.
   */
  ghost predicate Attended(s: State, i: nat)
    requires i < |s.slots|
  {
    || (s.slots[i].holder.Some? && Live(s, s.slots[i].holder.value)
        && s.threads[s.slots[i].holder.value].hold != NoHold)
    || (exists p: nat :: Repairable(s, i, p))
  }

  ghost predicate Repairable(s: State, i: nat, p: nat)
    requires i < |s.slots|
  {
    p in s.dead && forall t: nat :: Live(s, t) && s.threads[t].hold == NoHold ==> CanTag(s, t, i, p)
  }

  lemma OwnedIsAttended(s: State, i: nat)
    requires Inv(s) && i < |s.slots| && (s.slots[i].control.Producer? || s.slots[i].control.Consumer?)
    ensures Attended(s, i)
  {
    assert SlotOk(s, i);
    var c := s.slots[i].control;
    if c.reaper == Nobody && c.source in s.dead {
      assert Repairable(s, i, c.source);
    } else if c.reaper.By? && c.reaper.slot in s.dead {
      assert Repairable(s, i, c.reaper.slot);
    }
  }

  /**
   No position is wedged: each reserved one is claimable in its turn or attended, and so is the slot the tail waits
   for.
   */
  lemma NoPositionWedged(s: State, cap: nat, blocks: nat, owners: seq<nat>, moves: seq<Move>, q: nat)
    requires Reachable(s, cap, blocks, owners, moves) && s.head <= q <= s.tail && q < s.head + s.cap
    ensures q < s.tail ==> At(s, q).turn == q && (At(s, q).control.Available? || Attended(s, Ix(s, q)))
    ensures q == s.tail ==> (At(s, q).control == Empty && At(s, q).turn == q) || Attended(s, Ix(s, q))
  {
    ReachableInv(s, cap, blocks, owners, moves);
    var i := Ix(s, q);
    assert SlotOk(s, i);
    if s.slots[i].control.Producer? || s.slots[i].control.Consumer? { OwnedIsAttended(s, i); }
    if q < s.tail {
      assert Seated(s, q);
    } else {
      TailSeat(s);
    }
  }

  /** The slot of the tail, when it is not full, is at the tail or still claimed from the lap before. */
  lemma TailSeat(s: State)
    requires Inv(s) && s.tail < s.head + s.cap
    ensures At(s, s.tail).turn == s.tail || At(s, s.tail).control.Consumer?
  {
    var x := At(s, s.tail);
    assert SlotOk(s, Ix(s, s.tail));
    if x.control.Empty? {
      if x.turn > s.tail { IndexInjective(s.tail, x.turn, s.cap); }
    } else if !x.control.Consumer? {
      IndexInjective(x.turn, s.tail, s.cap);
    }
  }

  // Records.

  /**
   How one step may change the fate of a record: towards delivery with its own token, draining, or loss with a dead
   claimer.
   */
  predicate Onward(s: State, before: Fate, after: Fate, k: Token) {
    || after == before
    || (before.Waiting? && after.Held?)
    || (before.Held? && (after == Delivered(k) || after == Drained))
    || (before.Held? && after.LostWith? && after.dead in s.dead)
  }

  predicate Faithful(s: State, u: State) {
    && (forall q :: q in s.record ==> q in u.record && u.record[q] == s.record[q])
    && (forall q :: q in s.fate && q in s.record ==> q in u.fate && Onward(s, s.fate[q], u.fate[q], s.record[q]))
    && (forall q :: q in u.fate && q !in s.fate ==> u.fate[q] == Waiting)
  }

  lemma PublishFaithful(s: State, t: nat)
    requires Inv(s) && CanPublish(s, t)
    ensures Faithful(s, DoPublish(s, t))
  {
    assert ThreadOk(s, t) && SlotOk(s, Ix(s, s.threads[t].hold.pos));
  }

  lemma ClaimFaithful(s: State, t: nat)
    requires Inv(s) && CanClaim(s, t)
    ensures Faithful(s, DoClaim(s, t))
  {
    assert SlotOk(s, Ix(s, s.head));
  }

  lemma TakeFaithful(s: State, t: nat)
    requires Inv(s) && CanTake(s, t)
    ensures Faithful(s, DoTake(s, t))
  {
    var pos := s.threads[t].hold.pos;
    assert ThreadOk(s, t) && SlotOk(s, Ix(s, pos));
    assert FateOk(s, pos);
  }

  lemma DrainFaithful(s: State, t: nat)
    requires Inv(s) && CanDrain(s, t)
    ensures Faithful(s, DoDrain(s, t))
  {
    var pos := s.threads[t].hold.pos;
    assert ThreadOk(s, t) && SlotOk(s, Ix(s, pos));
    assert FateOk(s, pos);
  }

  lemma StoreFaithful(s: State, t: nat)
    requires Inv(s) && CanStore(s, t)
    ensures Faithful(s, DoStore(s, t))
  {
    assert ThreadOk(s, t) && SlotOk(s, s.threads[t].hold.i);
  }

  /** Each step keeps every published record and moves its fate onward only; a new record is waiting. */
  lemma StepFaithful(s: State, m: Move)
    requires Inv(s)
    ensures Faithful(s, Step(s, m))
  {
    if m.Publish? && CanPublish(s, m.t) { PublishFaithful(s, m.t); }
    else if m.Claim? && CanClaim(s, m.t) { ClaimFaithful(s, m.t); }
    else if m.Take? && CanTake(s, m.t) { TakeFaithful(s, m.t); }
    else if m.Drain? && CanDrain(s, m.t) { DrainFaithful(s, m.t); }
    else if m.Store? && CanStore(s, m.t) { StoreFaithful(s, m.t); }
    else {
      assert Step(s, m).record == s.record && Step(s, m).fate == s.fate;
    }
  }

  /**
   Over any run a record stays what was published, and one delivered or lost stays so: it is never delivered again.
   */
  lemma {:induction false} RecordsAreFinal(s: State, moves: seq<Move>, q: nat)
    requires Inv(s) && q in s.record
    ensures var u := Run(s, moves);
            && Inv(u) && q in u.record && u.record[q] == s.record[q]
            && q in s.fate && q in u.fate
            && (s.fate[q].Delivered? || s.fate[q].Drained? || s.fate[q].LostWith? ==> u.fate[q] == s.fate[q])
            && (u.fate[q].Delivered? ==> u.fate[q] == Delivered(s.record[q]))
    decreases |moves|
  {
    RunInv(s, moves);
    assert FateOk(s, q);
    if moves != [] {
      var u := Run(s, moves[..|moves| - 1]);
      RecordsAreFinal(s, moves[..|moves| - 1], q);
      StepFaithful(u, moves[|moves| - 1]);
    }
  }

  function WaitingRecords(s: State): set<nat> { set q | q in s.fate && s.fate[q].Waiting? }
  function HeldRecords(s: State): set<nat> { set q | q in s.fate && s.fate[q].Held? }
  function DeliveredRecords(s: State): set<nat> { set q | q in s.fate && s.fate[q].Delivered? }
  function DrainedRecords(s: State): set<nat> { set q | q in s.fate && s.fate[q].Drained? }
  function LostRecords(s: State): set<nat> { set q | q in s.fate && s.fate[q].LostWith? }

  lemma CountFive(all: set<nat>, a: set<nat>, b: set<nat>, c: set<nat>, d: set<nat>, e: set<nat>)
    requires all == a + b + c + d + e && a !! b && (a + b) !! c && (a + b + c) !! d && (a + b + c + d) !! e
    ensures |all| == |a| + |b| + |c| + |d| + |e|
  {}

  /**
   Published records are the waiting, the claimed, the delivered, the drained and the lost ones, each counted once.
   */
  lemma PublishedAreAccounted(s: State, cap: nat, blocks: nat, owners: seq<nat>, moves: seq<Move>)
    requires Reachable(s, cap, blocks, owners, moves)
    ensures |s.record| == |WaitingRecords(s)| + |HeldRecords(s)| + |DeliveredRecords(s)| + |DrainedRecords(s)|
                          + |LostRecords(s)|
    ensures forall q :: q in s.fate && s.fate[q].Delivered? ==> q in s.record && s.fate[q].token == s.record[q]
  {
    ReachableInv(s, cap, blocks, owners, moves);
    CountRecords(s);
    forall q | q in s.fate && s.fate[q].Delivered? ensures s.fate[q].token == s.record[q] { assert FateOk(s, q); }
  }

  lemma CountRecords(s: State)
    requires s.record.Keys == s.fate.Keys
    ensures |s.record| == |WaitingRecords(s)| + |HeldRecords(s)| + |DeliveredRecords(s)| + |DrainedRecords(s)|
                          + |LostRecords(s)|
  {
    assert s.record.Keys == WaitingRecords(s) + HeldRecords(s) + DeliveredRecords(s) + DrainedRecords(s)
                            + LostRecords(s);
    CountFive(s.record.Keys, WaitingRecords(s), HeldRecords(s), DeliveredRecords(s), DrainedRecords(s), LostRecords(s));
  }

  /**
   Once the queue is empty and nothing is claimed, published = delivered + drained by closing + claimed by the dead.
   */
  lemma DrainedMeansDeliveredOrLost(s: State, cap: nat, blocks: nat, owners: seq<nat>, moves: seq<Move>)
    requires Reachable(s, cap, blocks, owners, moves)
    requires s.head == s.tail && forall i :: 0 <= i < |s.slots| ==> !s.slots[i].control.Consumer?
    ensures |s.record| == |DeliveredRecords(s)| + |DrainedRecords(s)| + |LostRecords(s)|
  {
    ReachableInv(s, cap, blocks, owners, moves);
    CountRecords(s);
    forall q | q in s.fate ensures !s.fate[q].Waiting? && !s.fate[q].Held? { assert FateOk(s, q); }
    assert WaitingRecords(s) == {} && HeldRecords(s) == {};
  }

  // Identities.

  lemma GenerationsGrow(s: State, m: Move, b: nat)
    requires Inv(s) && b < |s.blocks|
    ensures b < |Step(s, m).blocks| && s.blocks[b].word.generation <= Step(s, m).blocks[b].word.generation
    ensures m.Allocate? && m.b == b && CanAllocate(s, m.t, b) ==>
              Step(s, m).blocks[b].word.generation == s.blocks[b].word.generation + 1 <= PoolWord.MAX_GENERATION
  {
    match m
    case Free(t) => if CanFree(s, t) { assert ThreadOk(s, t); }
    case Detach(t) => if CanDetach(s, t) { assert ThreadOk(s, t); }
    case Takeover(t) => if CanTakeover(s, t) { assert ThreadOk(s, t); }
    case _ =>
  }

  lemma {:induction false} RunGenerations(s: State, moves: seq<Move>, b: nat)
    requires Inv(s) && b < |s.blocks|
    ensures b < |Run(s, moves).blocks| && s.blocks[b].word.generation <= Run(s, moves).blocks[b].word.generation
    decreases |moves|
  {
    if moves != [] {
      RunInv(s, moves[..|moves| - 1]);
      RunGenerations(s, moves[..|moves| - 1], b);
      GenerationsGrow(Run(s, moves[..|moves| - 1]), moves[|moves| - 1], b);
    }
  }

  /** The identity an allocation grants, if the move is one. */
  function Granted(s: State, m: Move): Option<Token>
    requires WellShaped(s)
  {
    var u := Step(s, m);
    if m.Allocate? && CanAllocate(s, m.t, m.b) && m.t < |u.threads| then u.threads[m.t].alloc else None
  }

  /** No block identity is granted twice in any run, whatever dies and is repaired between the two grants. */
  lemma NeverGrantedTwice(s: State, first: Move, between: seq<Move>, second: Move)
    requires Inv(s) && Granted(s, first).Some?
    ensures Granted(Run(Step(s, first), between), second) != Granted(s, first)
  {
    var u := Step(s, first);
    StepInv(s, first);
    GenerationsGrow(s, first, first.b);
    RunGenerations(u, between, first.b);
  }
}
