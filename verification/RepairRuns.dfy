/**
 Runs of the ring that end at the points where repair does not undo: for which capacities they exist, and that a
 repairer's own death between its two stores can meet the one state that reopens a claim.
 */
module RepairRuns {
  import opened Common
  import opened ControlWord
  import opened LapCursor
  import opened Ring
  import opened RingInvariant
  import opened RingClose
  import opened RepairPoints
  import Repair

  lemma Reaches(s: State, t: nat, c: Choice) returns (u: State)
    requires Reachable(s) && WellShaped(s)
    ensures u == Step(s, t, c) && Reachable(u) && WellShaped(u)
  {
    u := Step(s, t, c);
    var cap: nat, owners: seq<nat>, moves: seq<Move> :| cap > 0 && s == Run(Init(cap, owners), moves);
    var more := moves + [Move(t, c)];
    assert more[..|moves|] == moves;
    assert u == Run(Init(cap, owners), more);
  }

  /** From s to u only thread t moved, the ring stayed open, and `slot` is what became of the slot of position p. */
  predicate Alone(s: State, u: State, t: nat, p: nat, slot: Slot, pc: Pc)
    requires WellShaped(s)
  {
    && u.cap == s.cap && u.send == s.send && u.recv == s.recv && u.slots == s.slots[Ix(s, p) := slot]
    && t < |s.threads| == |u.threads| && u.threads == s.threads[t := u.threads[t]] && u.threads[t].pc == pc
    && u.threads[t].owner == s.threads[t].owner
  }

  // The pieces of an operation of one thread, a few accesses each.

  /** As far as the slot exchange of a reservation. */
  lemma Approach(s: State, t: nat) returns (u: State)
    requires Reachable(s) && WellShaped(s) && s.send == 0 && s.recv == 0 && t < |s.threads| && s.threads[t].pc == Idle
    ensures Reachable(u) && u == Go(s, t, RAcquire(s.tail))
  {
    u := Reaches(s, t, StartReserve);
    u := Reaches(u, t, Continue);
    u := Reaches(u, t, Continue);
    u := Reaches(u, t, Continue);
  }

  function Taken(s: State, t: nat, p: nat): Slot
    requires WellShaped(s) && t < |s.threads|
  {
    SlotOf(s, p).(control := Producer(false, s.threads[t].owner, Nobody), holder := Some(t))
  }

  /** The slot exchange and the test of the turn. */
  lemma Acquire(s: State, t: nat, p: nat) returns (u: State)
    requires Reachable(s) && WellShaped(s) && t < |s.threads| && s.threads[t].pc == RAcquire(p)
    requires SlotOf(s, p).control == Empty && SlotOf(s, p).turn == p
    ensures Reachable(u) && u == Go(WithSlot(s, p, Taken(s, t, p)), t, RTail(p))
  {
    u := Reaches(s, t, Continue);
    assert u == Go(WithSlot(s, p, Taken(s, t, p)), t, RTurn(p));
    u := Reaches(u, t, Continue);
  }

  /** The other tests and the cursor exchange. */
  lemma Commit(s: State, t: nat) returns (u: State)
    requires Reachable(s) && WellShaped(s) && s.send == 0 && s.recv == 0 && t < |s.threads|
             && s.threads[t].pc == RTail(s.tail)
    ensures Reachable(u) && u == Go(s.(tail := s.tail + 1, log := s.log + [Pending]), t, Reserved(s.tail))
  {
    u := Recheck(s, t);
    u := Reaches(u, t, Continue);
  }

  lemma Recheck(s: State, t: nat) returns (u: State)
    requires Reachable(s) && WellShaped(s) && s.send == 0 && s.recv == 0 && t < |s.threads|
             && s.threads[t].pc == RTail(s.tail)
    ensures Reachable(u) && u == Go(s, t, RCommit(s.tail))
  {
    u := Reaches(s, t, Continue);
    assert u == Go(s, t, RSend(s.tail));
    u := Reaches(u, t, Continue);
    assert u == Go(s, t, RRecv(s.tail, 0));
    u := Reaches(u, t, Continue);
  }

  /** Writing, staging and publishing a record. */
  lemma Fill(s: State, t: nat, p: nat) returns (u: State)
    requires Reachable(s) && WellShaped(s) && t < |s.threads| && s.threads[t].pc == Reserved(p)
    ensures Reachable(u) && u.head == s.head && u.tail == s.tail
    ensures Alone(s, u, t, p, SlotOf(s, p).(control := Available(true), value := Some(0), holder := None), Idle)
  {
    u := Write(s, t, p);
    u := Reaches(u, t, Continue);
  }

  lemma Write(s: State, t: nat, p: nat) returns (u: State)
    requires Reachable(s) && WellShaped(s) && t < |s.threads| && s.threads[t].pc == Reserved(p)
    ensures Reachable(u) && u.head == s.head && u.tail == s.tail
    ensures Alone(s, u, t, p, SlotOf(s, p).(control := Producer(true, s.threads[t].owner, Nobody), value := Some(0)),
                  Staged(p, 0))
  {
    u := Reaches(s, t, Stage(0));
    assert u == Go(WithSlot(s, p, SlotOf(s, p).(value := Some(0))), t, Written(p, 0));
    u := Reaches(u, t, Continue);
  }

  /** Thread t publishes a record at the tail. */
  lemma Publish(s: State, t: nat) returns (u: State)
    requires Reachable(s) && Inv(s) && s.send == 0 && s.recv == 0 && t < |s.threads| && s.threads[t].pc == Idle
    requires SlotOf(s, s.tail).control == Empty && SlotOf(s, s.tail).turn == s.tail
    ensures Reachable(u) && Inv(u) && u.head == s.head && u.tail == s.tail + 1
    ensures Alone(s, u, t, s.tail, Slot(s.tail, Available(true), Some(0), None), Idle)
  {
    u := Approach(s, t);
    u := Acquire(u, t, s.tail);
    u := Commit(u, t);
    u := Fill(u, t, s.tail);
    ReachableInv(u);
  }

  /** As far as the slot exchange of a claim. */
  lemma ApproachClaim(s: State, t: nat) returns (u: State)
    requires Reachable(s) && WellShaped(s) && s.recv == 0 && t < |s.threads| && s.threads[t].pc == Idle
    requires SlotOf(s, s.head).control == Available(true)
    ensures Reachable(u) && u == Go(s, t, CAcquire(s.head, true))
  {
    u := LoadHead(s, t);
    u := Reaches(u, t, Continue);
  }

  lemma LoadHead(s: State, t: nat) returns (u: State)
    requires Reachable(s) && WellShaped(s) && s.recv == 0 && t < |s.threads| && s.threads[t].pc == Idle
    ensures Reachable(u) && u == Go(s, t, CRead(s.head))
  {
    u := Reaches(s, t, StartClaim);
    assert u == Go(s, t, CRecv);
    u := Reaches(u, t, Continue);
    assert u == Go(s, t, CLoadHead);
    u := Reaches(u, t, Continue);
  }

  function TakenFull(s: State, t: nat, p: nat): Slot
    requires WellShaped(s) && t < |s.threads|
  {
    SlotOf(s, p).(control := Consumer(true, s.threads[t].owner, Nobody), holder := Some(t))
  }

  lemma AcquireClaim(s: State, t: nat, p: nat) returns (u: State)
    requires Reachable(s) && WellShaped(s) && t < |s.threads| && s.threads[t].pc == CAcquire(p, true)
    requires SlotOf(s, p).control == Available(true) && SlotOf(s, p).turn == p
    ensures Reachable(u) && u == Go(WithSlot(s, p, TakenFull(s, t, p)), t, CHead(p, true))
  {
    u := ExchangeClaim(s, t, p);
    u := Reaches(u, t, Continue);
  }

  lemma ExchangeClaim(s: State, t: nat, p: nat) returns (u: State)
    requires Reachable(s) && WellShaped(s) && t < |s.threads| && s.threads[t].pc == CAcquire(p, true)
    requires SlotOf(s, p).control == Available(true)
    ensures Reachable(u) && u == Go(WithSlot(s, p, TakenFull(s, t, p)), t, CTurn(p, true))
  {
    u := Reaches(s, t, Continue);
  }

  lemma CommitClaim(s: State, t: nat) returns (u: State)
    requires Reachable(s) && WellShaped(s) && t < |s.threads| && s.threads[t].pc == CHead(s.head, true)
    ensures Reachable(u)
    ensures u == Go(s.(head := s.head + 1, delivered := s.delivered + [SlotOf(s, s.head).value]), t, Claimed(s.head))
  {
    u := Reaches(s, t, Continue);
    assert u == Go(s, t, CCommit(s.head, true));
    u := Reaches(u, t, Continue);
  }

  /** Thread t claims the record at the head. */
  lemma ClaimOnly(s: State, t: nat) returns (u: State)
    requires Reachable(s) && WellShaped(s) && s.recv == 0 && t < |s.threads| && s.threads[t].pc == Idle
    requires SlotOf(s, s.head).control == Available(true) && SlotOf(s, s.head).turn == s.head
    ensures Reachable(u) && u.head == s.head + 1 && u.tail == s.tail
    ensures Alone(s, u, t, s.head, TakenFull(s, t, s.head), Claimed(s.head))
  {
    u := ApproachClaim(s, t);
    u := AcquireClaim(u, t, s.head);
    u := CommitClaim(u, t);
  }

  /** Thread t claims and takes the record at the head, up to the last store of the recycling. */
  lemma ClaimToFree(s: State, t: nat) returns (u: State)
    requires Reachable(s) && WellShaped(s) && s.recv == 0 && t < |s.threads| && s.threads[t].pc == Idle
    requires SlotOf(s, s.head).control == Available(true) && SlotOf(s, s.head).turn == s.head
    ensures Reachable(u) && u.head == s.head + 1 && u.tail == s.tail
    ensures Alone(s, u, t, s.head, Slot(s.head
                                        + s.cap, Consumer(true, s.threads[t].owner,
                                                          Nobody), None, Some(t)), CFree(s.head, true))
  {
    u := ClaimOnly(s, t);
    u := Recycle(u, t, s.head);
  }

  lemma Recycle(s: State, t: nat, p: nat) returns (u: State)
    requires Reachable(s) && WellShaped(s) && t < |s.threads| && s.threads[t].pc == Claimed(p)
    ensures Reachable(u) && u.head == s.head && u.tail == s.tail
    ensures Alone(s, u, t, p, SlotOf(s, p).(turn := p + s.cap, value := None), CFree(p, true))
  {
    u := TakeRecord(s, t, p);
    u := Reaches(u, t, Continue);
  }

  lemma TakeRecord(s: State, t: nat, p: nat) returns (u: State)
    requires Reachable(s) && WellShaped(s) && t < |s.threads| && s.threads[t].pc == Claimed(p)
    ensures Reachable(u) && u.head == s.head && u.tail == s.tail
    ensures Alone(s, u, t, p, SlotOf(s, p).(value := None), CTurnStore(p, true))
  {
    u := Reaches(s, t, Take);
  }

  lemma Claim(s: State, t: nat) returns (u: State)
    requires Reachable(s) && WellShaped(s) && s.recv == 0 && t < |s.threads| && s.threads[t].pc == Idle
    requires SlotOf(s, s.head).control == Available(true) && SlotOf(s, s.head).turn == s.head
    ensures Reachable(u) && Inv(u) && u.head == s.head + 1 && u.tail == s.tail
    ensures Alone(s, u, t, s.head, Slot(s.head + s.cap, Empty, None, None), Idle)
  {
    u := ClaimToFree(s, t);
    u := Free(u, t, s.head);
    ReachableInv(u);
  }

  lemma Free(s: State, t: nat, p: nat) returns (u: State)
    requires Reachable(s) && WellShaped(s) && t < |s.threads| && s.threads[t].pc == CFree(p, true)
    ensures Reachable(u) && u.head == s.head && u.tail == s.tail
    ensures Alone(s, u, t, p, SlotOf(s, p).(control := Empty, holder := None), Idle)
  {
    u := Reaches(s, t, Continue);
  }

  /** An open ring with three idle threads. */
  lemma Start(cap: nat, owner: nat) returns (s: State)
    requires cap > 0
    ensures |s.threads| == 3 && s.threads[0].owner == owner
    ensures Reachable(s) && Inv(s) && s.cap == cap && s.head == s.tail == 0 && s.send == s.recv == 0 && |s.threads| == 3
    ensures forall t :: 0 <= t < 3 ==> s.threads[t].pc == Idle
    ensures forall i :: 0 <= i < cap ==> s.slots[i] == Slot(i, Empty, None, None)
  {
    s := Init(cap, [owner, 1, 2]);
    assert s == Run(Init(cap, [owner, 1, 2]), []);
    InitInv(cap, [owner, 1, 2]);
  }

  predicate Owned(s: State, p: nat)
    requires WellShaped(s)
  {
    SlotOf(s, p).control.Producer? || SlotOf(s, p).control.Consumer?
  }

  ghost predicate Unclean(s: State, t: nat, cap: nat) {
    && Reachable(s) && s.cap == cap && WellShaped(s) && t < |s.threads|
    && var pc := s.threads[t].pc;
       && (Reserving(pc) || InProducer(pc) || Claiming(pc) || Consuming(pc))
       && !Clean(s, t) && Owned(s, PositionOf(pc))
  }

  lemma Outrun(cap: nat) returns (s: State)
    requires cap >= 2
    ensures Reachable(s) && WellShaped(s) && s.cap == cap && s.tail == 1 && |s.threads| == 3
    ensures s.threads[0].pc == RAcquire(0) && s.slots[0] == Slot(cap, Empty, None, None)
  {
    s := Start(cap, 0);
    s := Approach(s, 0);
    ReachableInv(s);
    s := Publish(s, 1);
    s := Claim(s, 2);
  }

  /**
   Thread 0 is about to take the slot of position 0 when 1 publishes and 2 consumes it: 0 gets the next lap's turn.
   */
  lemma UncleanReservation(cap: nat) returns (s: State)
    requires cap >= 2
    ensures Unclean(s, 0, cap) && Reserving(s.threads[0].pc) && PlanAt(s, 0).Corrupted?
  {
    s := Outrun(cap);
    s := Reaches(s, 0, Continue);
    ReachableInv(s);
    RepairUndoesExactly(s, 0);
  }

  /** Thread 1 publishes position n, whose slot nobody has used in this lap. */
  lemma {:induction false} PublishUpTo(s: State, n: nat) returns (u: State)
    requires Reachable(s) && Inv(s) && s.send == 0 && s.recv == 0 && |s.threads| == 3 && s.threads[1].pc == Idle
    requires 1 <= s.tail <= n <= s.cap && s.head == 1
    requires forall i :: s.tail <= i < s.cap ==> s.slots[i].control == Empty && s.slots[i].turn == i
    ensures Reachable(u) && Inv(u) && u.send == 0 && u.recv == 0 && u.cap == s.cap && u.head == 1 && u.tail == n
    ensures |u.threads| == 3 && u.threads[1].pc == Idle && u.threads[0] == s.threads[0] && u.slots[0] == s.slots[0]
    decreases n - s.tail
  {
    u := s;
    if s.tail < n {
      assert Ix(s, s.tail) == s.tail;
      u := Publish(s, 1);
      u := PublishUpTo(u, n);
    }
  }

  lemma Overtaken(cap: nat) returns (s: State)
    requires cap >= 2
    ensures Reachable(s) && Inv(s) && s.cap == cap && s.head == s.tail == 1 && s.send == s.recv == 0 && |s.threads| == 3
    ensures s.threads[0].pc == CAcquire(0, true) && s.threads[1].pc == Idle
            && s.slots[0] == Slot(cap, Empty, None, None)
    ensures forall i :: 1 <= i < cap ==> s.slots[i].control == Empty && s.slots[i].turn == i
  {
    s := Start(cap, 0);
    s := Publish(s, 1);
    s := ApproachClaim(s, 0);
    s := Claim(s, 2);
  }

  /**
   Thread 0 has read the record at position 0 and is about to claim it when 2 consumes it and 1 publishes the whole next
   lap: 0 takes the slot with a later record, which repair gives up.
   */
  lemma UncleanClaim(cap: nat) returns (s: State)
    requires cap >= 2
    ensures Unclean(s, 0, cap) && Claiming(s.threads[0].pc)
    ensures PlanAt(s, 0).Plan? && PlanAt(s, 0).release && PlanAt(s, 0).control == Empty && s.head < PlanAt(s, 0).turn
  {
    s := Overtaken(cap);
    s := PublishUpTo(s, cap);
    IndexNextLap(0, cap);
    s := Publish(s, 1);
    s := Reaches(s, 0, Continue);
    ReachableInv(s);
    RepairUndoesExactly(s, 0);
  }

  /** Threads 1 and 2 pass records through positions up to n. */
  lemma {:induction false} PassUpTo(s: State, n: nat) returns (u: State)
    requires Reachable(s) && Inv(s) && s.send == 0 && s.recv == 0 && |s.threads| == 3
             && s.threads[1].pc == s.threads[2].pc == Idle
    requires 1 <= s.head == s.tail <= n <= s.cap
    requires forall i :: s.tail <= i < s.cap ==> s.slots[i].control == Empty && s.slots[i].turn == i
    ensures Reachable(u) && Inv(u) && u.cap == s.cap && u.head == n && |u.threads| == 3 && u.threads[0] == s.threads[0]
            && u.slots[0] == s.slots[0]
    decreases n - s.head
  {
    u := s;
    if s.head < n {
      assert Ix(s, s.tail) == s.tail;
      u := Publish(s, 1);
      u := Claim(u, 2);
      u := PassUpTo(u, n);
    }
  }

  /** Thread 0 is about to free the slot of position 0 when the head has come round to its next turn. */
  lemma UncleanFree(cap: nat) returns (s: State)
    requires cap >= 1
    ensures Unclean(s, 0, cap) && s.threads[0].pc.CFree? && PlanAt(s, 0).Plan?
            && PlanAt(s, 0).control == Available(true)
  {
    s := Start(cap, 0);
    s := Publish(s, 1);
    s := ClaimToFree(s, 0);
    ReachableInv(s);
    s := PassUpTo(s, cap);
    RepairUndoesExactly(s, 0);
  }

  lemma OneSlot(s: State, t: nat)
    requires Unclean(s, t, 1)
    ensures !Reserving(s.threads[t].pc) && !Claiming(s.threads[t].pc)
  {
    ReachableInv(s);
    assert ThreadOk(s, t) && SlotOk(s, 0);
  }

  /** The rings in which an uncommitted reservation can be caught unclean are those with more than one slot. */
  lemma ReservationsUncleanIff(cap: nat)
    requires cap >= 1
    ensures (exists s, t: nat :: Unclean(s, t, cap) && Reserving(s.threads[t].pc)) <==> cap >= 2
  {
    if cap >= 2 {
      var s := UncleanReservation(cap);
      assert Unclean(s, 0, cap);
    } else {
      forall s, t: nat | Unclean(s, t, cap) ensures !Reserving(s.threads[t].pc)
             && !Claiming(s.threads[t].pc) { OneSlot(s, t); }
    }
  }

  /** And the same for an uncommitted claim. */
  lemma ClaimsUncleanIff(cap: nat)
    requires cap >= 1
    ensures (exists s, t: nat :: Unclean(s, t, cap) && Claiming(s.threads[t].pc)) <==> cap >= 2
  {
    if cap >= 2 {
      var s := UncleanClaim(cap);
      assert Unclean(s, 0, cap);
    } else {
      forall s, t: nat | Unclean(s, t, cap) ensures !Reserving(s.threads[t].pc)
             && !Claiming(s.threads[t].pc) { OneSlot(s, t); }
    }
  }

  /**
   At every capacity: a claim whose owner dies before recycling and whose first repairer dies between its two stores,
   while the others take the head round to the next turn.  The second repair offers the claimed record again.
   */
  lemma ClaimReopened(cap: nat, dead: nat, live: nat, next: nat) returns (s: State)
    requires cap >= 1 && dead != live && live != next
    ensures Reachable(s) && s.cap == cap && |s.slots| == cap && s.slots[0].turn == 0 < s.head == cap
    ensures s.slots[0].control == Consumer(true, dead, Nobody)
    ensures var c := Repair.Cell(s.slots[0].turn, s.slots[0].control);
            var first := Repair.Attempt(dead, live, s.head, s.tail, true, Repair.AfterTurn);
            var second := Repair.Attempt(live, next, s.head, s.tail, true, Repair.Completed);
            Repair.Chain(c, [first, second], cap).cell == Repair.Cell(cap, Available(true))
  {
    s := Start(cap, dead);
    s := Publish(s, 1);
    s := ClaimOnly(s, 0);
    ReachableInv(s);
    s := PassUpTo(s, cap);
    ReopenedChain(s, dead, live, next);
  }

  lemma ReopenedChain(s: State, dead: nat, live: nat, next: nat)
    requires s.cap >= 1 && |s.slots| == s.cap && dead != live && live != next
    requires s.slots[0].turn == 0 && s.head == s.cap && s.slots[0].control == Consumer(true, dead, Nobody)
    ensures var c := Repair.Cell(s.slots[0].turn, s.slots[0].control);
            var first := Repair.Attempt(dead, live, s.head, s.tail, true, Repair.AfterTurn);
            var second := Repair.Attempt(live, next, s.head, s.tail, true, Repair.Completed);
            Repair.Chain(c, [first, second], s.cap).cell == Repair.Cell(s.cap, Available(true))
  {
    var c := Repair.Cell(s.slots[0].turn, s.slots[0].control);
    var first := Repair.Attempt(dead, live, s.head, s.tail, true, Repair.AfterTurn);
    var second := Repair.Attempt(live, next, s.head, s.tail, true, Repair.Completed);
    var all := [first, second];
    assert all[..1] == [first] && all[..1][..0] == [] && [first][..0] == [];
    assert Repair.Chain(c, [first], s.cap) == Repair.Try(Repair.Trail(c, []), first, s.cap);
    assert Repair.Chain(c, all, s.cap) == Repair.Try(Repair.Chain(c, [first], s.cap), second, s.cap);
    Repair.HalfRecycleReopens(c, first, second, s.cap);
  }
}
