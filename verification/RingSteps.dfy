/** The invariant of the ring, step by step. */
module RingSteps {
  import opened Common
  import opened ControlWord
  import opened LapCursor
  import opened Ring
  import opened RingInvariant

  /** Only the thread's own record and the lifecycle fields change. */
  lemma OwnRecord(s: State, s': State, t: nat, me: Thread)
    requires Inv(s) && t < |s.threads| && me.owner == s.threads[t].owner
    requires s' == s.(threads := s.threads[t := me], send := s'.send, recv := s'.recv)
    requires HeldPos(me.pc) == HeldPos(s.threads[t].pc)
    requires ThreadOk(s', t)
    ensures Inv(s')
  {
    forall u | 0 <= u < |s'.threads| && u != t
      ensures ThreadOk(s', u)
    {
      assert ThreadOk(s, u);
    }
    forall i | 0 <= i < |s'.slots|
      ensures SlotOk(s', i)
    {
      assert SlotOk(s, i);
    }
  }

  lemma IdleStep(s: State, t: nat, c: Choice)
    requires Inv(s) && t < |s.threads| && s.threads[t].pc.Idle?
    ensures Inv(StepIdle(s, t, c))
  {
    var s' := StepIdle(s, t, c);
    assert s'.threads == s.threads[t := s'.threads[t]];
    OwnRecord(s, s', t, s'.threads[t]);
  }

  lemma CloseStep(s: State, t: nat)
    requires Inv(s) && t < |s.threads| && InClose(s.threads[t].pc)
    ensures Inv(StepClose(s, t))
  {
    var s' := StepClose(s, t);
    OwnRecord(s, s', t, s'.threads[t]);
  }

  /** Thread t takes a slot nobody has. */
  lemma Acquire(s: State, s': State, t: nat, p: nat, ctl: Control, pc: Pc)
    requires Inv(s) && t < |s.threads| && SlotOf(s, p).holder == None && HeldPos(s.threads[t].pc) == None
    requires s' == Go(WithSlot(s, p, SlotOf(s, p).(control := ctl, holder := Some(t))), t, pc)
    requires HeldPos(pc) == Some(p)
    requires ThreadOk(s', t)
    ensures Inv(s')
  {
    var i := Ix(s, p);
    assert SlotOk(s, i);
    assert SlotOk(s', i);
    Assemble(s, s', t, i);
  }

  /** A held slot is under a producer or consumer control. */
  lemma Unheld(s: State, i: nat)
    requires Inv(s) && i < |s.slots|
    ensures s.slots[i].holder.Some? ==> s.slots[i].control.Producer? || s.slots[i].control.Consumer?
  {
    assert SlotOk(s, i);
    if s.slots[i].holder.Some? {
      assert ThreadOk(s, s.slots[i].holder.value);
    }
  }

  lemma ReserveAcquire(s: State, t: nat)
    requires Inv(s) && t < |s.threads| && s.threads[t].pc.RAcquire?
    ensures Inv(StepReserve(s, t))
  {
    var p := s.threads[t].pc.tail;
    var s' := StepReserve(s, t);
    assert ThreadOk(s, t);
    if SlotOf(s, p).control == Empty {
      Unheld(s, Ix(s, p));
      assert SlotOk(s, Ix(s, p));
      Acquire(s, s', t, p, Producer(false, s.threads[t].owner, Nobody), RTurn(p));
    } else {
      OwnRecord(s, s', t, s'.threads[t]);
    }
  }

  /** The steps of reserve that only read. */
  lemma ReserveRead(s: State, t: nat)
    requires Inv(s) && t < |s.threads| && InReserve(s.threads[t].pc)
    requires !s.threads[t].pc.RAcquire? && !s.threads[t].pc.RCommit? && !s.threads[t].pc.RUndo?
    ensures Inv(StepReserve(s, t))
  {
    var s' := StepReserve(s, t);
    assert ThreadOk(s, t);
    OwnRecord(s, s', t, s'.threads[t]);
  }

  /** Thread t gives its slot back, finishing its operation. */
  lemma Release(s: State, s': State, t: nat, p: nat, ctl: Control, log: seq<Entry>, out: Outcome)
    requires Inv(s) && t < |s.threads| && HeldPos(s.threads[t].pc) == Some(p)
    requires |log| == |s.log| && (forall q :: 0 <= q < |log| && q != p ==> log[q] == s.log[q])
    requires p < |log| && log[p] != s.log[p] ==> s.head <= p
    requires s' == Finish(WithSlot(s, p, SlotOf(s, p).(control := ctl, holder := None)).(log := log), t, out)
    requires Untaken(s', SlotOf(s', p))
    ensures Inv(s')
  {
    var i := Ix(s, p);
    HolderOf(s, t);
    assert log[..s.head] == s.log[..s.head];
    assert forall q :: q in s.taken ==> s'.log[q] == s.log[q];
    assert SlotOk(s, i);
    assert SlotOk(s', i);
    Assemble(s, s', t, i);
  }

  lemma ReserveUndo(s: State, t: nat)
    requires Inv(s) && t < |s.threads| && s.threads[t].pc.RUndo?
    ensures Inv(StepReserve(s, t))
  {
    var pc := s.threads[t].pc;
    assert ThreadOk(s, t);
    Release(s, StepReserve(s, t), t, pc.tail, Empty, s.log, pc.err);
  }

  /** Advancing the tail: the committing thread holds the slot of the tail, so nobody else depends on it. */
  lemma ReserveCommit(s: State, t: nat)
    requires Inv(s) && t < |s.threads| && s.threads[t].pc.RCommit?
    ensures Inv(StepReserve(s, t))
  {
    var s' := StepReserve(s, t);
    assert ThreadOk(s, t);
    assert SlotOk(s, Ix(s, s.tail));
    assert s'.log[..s.head] == s.log[..s.head];
    assert Core(s');
    forall u | 0 <= u < |s'.threads|
      ensures ThreadOk(s', u)
    {
      if u != t { CommitOther(s, s', t, u); }
    }
    forall i | 0 <= i < |s'.slots|
      ensures SlotOk(s', i)
    {
      CommitSlot(s, s', t, i);
    }
  }

  /** Another thread's held slot is not the slot of the tail. */
  lemma NotAtTail(s: State, t: nat, u: nat)
    requires Inv(s) && t < |s.threads| && s.threads[t].pc.RCommit? && u < |s.threads| && u != t
    ensures HeldPos(s.threads[u].pc).Some? ==>
              SlotOf(s, HeldPos(s.threads[u].pc).value).turn != s.tail && HeldPos(s.threads[u].pc) != Some(s.tail)
  {
    assert ThreadOk(s, t);
    if HeldPos(s.threads[u].pc).Some? {
      var q := HeldPos(s.threads[u].pc).value;
      HolderOf(s, u);
      HolderOf(s, t);
      assert SlotOk(s, Ix(s, q));
    }
  }

  lemma CommitOther(s: State, s': State, t: nat, u: nat)
    requires Inv(s) && t < |s.threads| && s.threads[t].pc.RCommit? && u < |s.threads| && u != t
    requires s' == s.(tail := s.tail + 1, log := s.log + [Pending], threads := s'.threads) && Core(s')
    requires |s'.threads| == |s.threads| && s'.threads[u] == s.threads[u]
    ensures ThreadOk(s', u)
  {
    assert ThreadOk(s, u);
    NotAtTail(s, t, u);
    CommitReserver(s, s', u);
    CommitProducer(s, s', u);
    CommitClaimer(s, s', u);
  }

  lemma CommitReserver(s: State, s': State, u: nat)
    requires Core(s) && Core(s') && u < |s.threads| == |s'.threads| && s'.threads[u] == s.threads[u] && ReserverOk(s, u)
    requires s' == s.(tail := s.tail + 1, log := s.log + [Pending], threads := s'.threads)
    requires HeldPos(s.threads[u].pc).Some? ==>
               SlotOf(s, HeldPos(s.threads[u].pc).value).turn != s.tail && HeldPos(s.threads[u].pc) != Some(s.tail)
    ensures ReserverOk(s', u)
  {}

  lemma CommitProducer(s: State, s': State, u: nat)
    requires Core(s) && Core(s') && u < |s.threads| == |s'.threads| && s'.threads[u] == s.threads[u] && ProducerOk(s, u)
    requires s' == s.(tail := s.tail + 1, log := s.log + [Pending], threads := s'.threads)
    ensures ProducerOk(s', u)
  {}

  lemma CommitClaimer(s: State, s': State, u: nat)
    requires Core(s) && Core(s') && u < |s.threads| == |s'.threads| && s'.threads[u] == s.threads[u] && ClaimerOk(s, u)
    requires s' == s.(tail := s.tail + 1, log := s.log + [Pending], threads := s'.threads)
    requires HeldPos(s.threads[u].pc).Some? ==> SlotOf(s, HeldPos(s.threads[u].pc).value).turn != s.tail
    ensures ClaimerOk(s', u)
  {}

  lemma CommitSlot(s: State, s': State, t: nat, i: nat)
    requires Inv(s) && t < |s.threads| && s.threads[t].pc.RCommit? && i < |s.slots|
    requires s' == StepReserve(s, t) && s.threads[t].pc.tail == s.tail && Core(s')
    ensures SlotOk(s', i)
  {
    assert SlotOk(s, i);
    assert ThreadOk(s, t);
    IndexNextLap(s.slots[i].turn, s.cap);
  }

  lemma ReserveStep(s: State, t: nat)
    requires Inv(s) && t < |s.threads| && InReserve(s.threads[t].pc)
    ensures Inv(StepReserve(s, t))
  {
    match s.threads[t].pc
    case RAcquire(_) => ReserveAcquire(s, t);
    case RCommit(_) => ReserveCommit(s, t);
    case RUndo(_, _) => ReserveUndo(s, t);
    case _ => ReserveRead(s, t);
  }

  /** Thread t changes the slot it holds and moves on, still holding it. */
  lemma Rewrite(s: State, s': State, t: nat, p: nat, sl: Slot, taken: map<nat, Option<Value>>, pc: Pc)
    requires Inv(s) && t < |s.threads| && HeldPos(s.threads[t].pc) == Some(p) && HeldPos(pc) == Some(p)
    requires sl.holder == Some(t) && Index(sl.turn, s.cap) == Ix(s, p) && s.tail <= sl.turn + s.cap
    requires sl.turn >= s.tail ==> sl.turn < s.head + s.cap
    requires forall q: nat :: q != p ==> (q in taken <==> q in s.taken) && (q in taken ==> taken[q] == s.taken[q])
    requires p in taken ==> p < s.head && s.log[p].Ready? && taken[p] == Some(s.log[p].v)
    requires s' == Go(WithSlot(s, p, sl).(taken := taken), t, pc)
    requires Core(s') ==> ThreadOk(s', t)
    ensures Inv(s')
  {
    var i := Ix(s, p);
    HolderOf(s, t);
    assert SlotOk(s, i);
    assert SlotOk(s', i);
    Assemble(s, s', t, i);
  }

  lemma ProducerStep(s: State, t: nat, c: Choice)
    requires Inv(s) && t < |s.threads| && InProducer(s.threads[t].pc)
    ensures Inv(StepProducer(s, t, c))
  {
    var s' := StepProducer(s, t, c);
    var pc := s.threads[t].pc;
    var p := pc.pos;
    assert ThreadOk(s, t);
    assert SlotOk(s, Ix(s, p));
    if s' != s {
      if s'.threads[t].pc.Idle? {
        ProducerEnds(s, t, c);
      } else {
        Rewrite(s, s', t, p, SlotOf(s', p), s.taken, s'.threads[t].pc);
      }
    }
  }

  /** Publishing, skipping and cancelling give the slot back with the position resolved. */
  lemma ProducerEnds(s: State, t: nat, c: Choice)
    requires Inv(s) && t < |s.threads| && InProducer(s.threads[t].pc) && StepProducer(s, t, c).threads[t].pc.Idle?
    ensures Inv(StepProducer(s, t, c))
  {
    var s' := StepProducer(s, t, c);
    var p := s.threads[t].pc.pos;
    assert ThreadOk(s, t);
    assert SlotOk(s, Ix(s, p));
    Release(s, s', t, p, SlotOf(s', p).control, s'.log, Done);
  }

  lemma ClaimRead(s: State, t: nat, c: Choice)
    requires Inv(s) && t < |s.threads|
    requires var pc := s.threads[t].pc;
             pc.CRecv? || pc.CLoadHead? || pc.CRead? || pc.CBlocked? || pc.CTurn? || pc.CHead?
    ensures Inv(StepClaim(s, t, c))
  {
    var s' := StepClaim(s, t, c);
    assert ThreadOk(s, t);
    OwnRecord(s, s', t, s'.threads[t]);
  }

  lemma ClaimAcquire(s: State, t: nat, c: Choice)
    requires Inv(s) && t < |s.threads| && s.threads[t].pc.CAcquire?
    ensures Inv(StepClaim(s, t, c))
  {
    var pc := s.threads[t].pc;
    var s' := StepClaim(s, t, c);
    assert ThreadOk(s, t);
    if SlotOf(s, pc.head).control == Available(pc.full) {
      Unheld(s, Ix(s, pc.head));
      assert SlotOk(s, Ix(s, pc.head));
      Acquire(s, s', t, pc.head, Consumer(pc.full, s.threads[t].owner, Nobody), CTurn(pc.head, pc.full));
    } else {
      OwnRecord(s, s', t, s'.threads[t]);
    }
  }

  /** Advancing the head: the committing thread holds the slot of the head. */
  lemma ClaimCommit(s: State, t: nat, c: Choice)
    requires Inv(s) && t < |s.threads| && s.threads[t].pc.CCommit?
    ensures Inv(StepClaim(s, t, c))
  {
    var s' := StepClaim(s, t, c);
    assert ThreadOk(s, t);
    assert s.log[..s.head + 1][..s.head] == s.log[..s.head];
    assert Core(s');
    forall u | 0 <= u < |s'.threads|
      ensures ThreadOk(s', u)
    {
      if u != t { HeadOther(s, s', t, u); }
    }
    forall i | 0 <= i < |s'.slots|
      ensures SlotOk(s', i)
    {
      HeadSlot(s, s', t, c, i);
    }
  }

  lemma NotAtHead(s: State, t: nat, u: nat)
    requires Inv(s) && t < |s.threads| && s.threads[t].pc.CCommit? && u < |s.threads| && u != t
    ensures HeldPos(s.threads[u].pc).Some? ==>
              SlotOf(s, HeldPos(s.threads[u].pc).value).turn != s.head && HeldPos(s.threads[u].pc) != Some(s.head)
  {
    assert ThreadOk(s, t);
    if HeldPos(s.threads[u].pc).Some? {
      var q := HeldPos(s.threads[u].pc).value;
      HolderOf(s, u);
      HolderOf(s, t);
      assert SlotOk(s, Ix(s, q));
    }
  }

  lemma HeadOther(s: State, s': State, t: nat, u: nat)
    requires Inv(s) && t < |s.threads| && s.threads[t].pc.CCommit? && u < |s.threads| && u != t
    requires s' == s.(head := s.head + 1, delivered := s'.delivered, threads := s'.threads) && Core(s')
    requires |s'.threads| == |s.threads| && s'.threads[u] == s.threads[u]
    ensures ThreadOk(s', u)
  {
    assert ThreadOk(s, u);
    NotAtHead(s, t, u);
    assert ReserverOk(s', u);
    HeadProducer(s, s', u);
    HeadClaimer(s, s', u);
  }

  lemma HeadProducer(s: State, s': State, u: nat)
    requires Core(s) && Core(s') && u < |s.threads| == |s'.threads| && s'.threads[u] == s.threads[u] && ProducerOk(s, u)
    requires s' == s.(head := s.head + 1, delivered := s'.delivered, threads := s'.threads)
    requires HeldPos(s.threads[u].pc) != Some(s.head)
    ensures ProducerOk(s', u)
  {}

  lemma HeadClaimer(s: State, s': State, u: nat)
    requires Core(s) && Core(s') && u < |s.threads| == |s'.threads| && s'.threads[u] == s.threads[u] && ClaimerOk(s, u)
    requires s' == s.(head := s.head + 1, delivered := s'.delivered, threads := s'.threads)
    requires HeldPos(s.threads[u].pc).Some? ==>
               SlotOf(s, HeldPos(s.threads[u].pc).value).turn != s.head && HeldPos(s.threads[u].pc) != Some(s.head)
    ensures ClaimerOk(s', u)
  {}

  lemma HeadSlot(s: State, s': State, t: nat, c: Choice, i: nat)
    requires Inv(s) && t < |s.threads| && s.threads[t].pc.CCommit? && i < |s.slots|
    requires s' == StepClaim(s, t, c) && s.threads[t].pc.head == s.head && Core(s')
    ensures SlotOk(s', i)
  {
    assert SlotOk(s, i);
    assert ThreadOk(s, t);
  }

  lemma ClaimUndo(s: State, t: nat, c: Choice)
    requires Inv(s) && t < |s.threads| && s.threads[t].pc.CUndo?
    ensures Inv(StepClaim(s, t, c))
  {
    var pc := s.threads[t].pc;
    assert ThreadOk(s, t);
    assert SlotOk(s, Ix(s, pc.head));
    Release(s, StepClaim(s, t, c), t, pc.head, Available(pc.full), s.log, Busy);
  }

  lemma ClaimTake(s: State, t: nat, c: Choice)
    requires Inv(s) && t < |s.threads| && s.threads[t].pc.Claimed?
    ensures Inv(StepClaim(s, t, c))
  {
    var s', p := StepClaim(s, t, c), s.threads[t].pc.pos;
    assert ThreadOk(s, t);
    assert SlotOk(s, Ix(s, p));
    if s' != s { Rewrite(s, s', t, p, SlotOf(s', p), s'.taken, s'.threads[t].pc); }
  }

  lemma ClaimTurn(s: State, t: nat, c: Choice)
    requires Inv(s) && t < |s.threads| && s.threads[t].pc.CTurnStore?
    ensures Inv(StepClaim(s, t, c))
  {
    var pc := s.threads[t].pc;
    assert ThreadOk(s, t);
    assert SlotOk(s, Ix(s, pc.pos));
    IndexNextLap(pc.pos, s.cap);
    Rewrite(s, StepClaim(s, t, c), t, pc.pos, SlotOf(s, pc.pos).(turn := pc.pos + s.cap), s.taken,
            CFree(pc.pos, pc.full));
  }

  lemma ClaimFree(s: State, t: nat, c: Choice)
    requires Inv(s) && t < |s.threads| && s.threads[t].pc.CFree?
    ensures Inv(StepClaim(s, t, c))
  {
    var pc := s.threads[t].pc;
    assert ThreadOk(s, t);
    assert SlotOk(s, Ix(s, pc.pos));
    Release(s, StepClaim(s, t, c), t, pc.pos, Empty, s.log, if pc.full then Done else Busy);
  }

  lemma ClaimStep(s: State, t: nat, c: Choice)
    requires Inv(s) && t < |s.threads|
    requires !s.threads[t].pc.Idle? && !InReserve(s.threads[t].pc) && !InProducer(s.threads[t].pc)
    requires !InClose(s.threads[t].pc)
    ensures Inv(StepClaim(s, t, c))
  {
    match s.threads[t].pc
    case CAcquire(_, _) => ClaimAcquire(s, t, c);
    case CCommit(_, _) => ClaimCommit(s, t, c);
    case CUndo(_, _) => ClaimUndo(s, t, c);
    case Claimed(_) => ClaimTake(s, t, c);
    case CTurnStore(_, _) => ClaimTurn(s, t, c);
    case CFree(_, _) => ClaimFree(s, t, c);
    case _ => ClaimRead(s, t, c);
  }

  /** Every step of every thread keeps the invariant. */
  lemma StepInv(s: State, t: nat, c: Choice)
    requires Inv(s)
    ensures Inv(Step(s, t, c))
  {
    if t < |s.threads| {
      var pc := s.threads[t].pc;
      if pc.Idle? { IdleStep(s, t, c); }
      else if InReserve(pc) { ReserveStep(s, t); }
      else if InProducer(pc) { ProducerStep(s, t, c); }
      else if InClose(pc) { CloseStep(s, t); }
      else { ClaimStep(s, t, c); }
    }
  }

  /** Every schedule of any threads, from the empty ring of any capacity, keeps the invariant. */
  lemma {:induction false} RunInv(s: State, moves: seq<Move>)
    requires Inv(s)
    ensures Inv(Run(s, moves))
    decreases |moves|
  {
    if moves != [] {
      var m := moves[|moves| - 1];
      RunInv(s, moves[..|moves| - 1]);
      StepInv(Run(s, moves[..|moves| - 1]), m.t, m.c);
    }
  }
}
