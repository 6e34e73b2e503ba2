/** Closing a direction: what a closed send field, a finished one and a terminal answer mean. */
module RingClose {
  import opened Common
  import opened ControlWord
  import opened LapCursor
  import opened Ring
  import opened RingInvariant
  import opened RingSteps
  import opened RingTheorems
  import opened RingValues

  /** A reservation that is past its last look at the open send field, or already granted. */
  ghost predicate Committed(pc: Pc) {
    (pc.RRecv? && pc.sendSeen == 0) || pc.RCommit? || InProducer(pc)
  }

  /** No committed reservation has a slot below k. */
  ghost predicate NoneBelow(s: State, k: nat)
    requires s.cap > 0
  {
    forall u {:trigger s.threads[u]} :: 0 <= u < |s.threads| && Committed(s.threads[u].pc) ==>
      HeldPos(s.threads[u].pc).Some? && Index(HeldPos(s.threads[u].pc).value, s.cap) >= k
  }

  ghost predicate NoneCommitted(s: State) {
    forall u {:trigger s.threads[u]} :: 0 <= u < |s.threads| ==> !Committed(s.threads[u].pc)
  }

  ghost predicate ScanOk(s: State, pc: Pc)
    requires s.cap > 0
  {
    match pc
    case FScan(f, k, _) => f == SendField ==> s.send != 0 && NoneBelow(s, k)
    case THead => s.send == 3
    case TTail(h) => s.send == 3 && h <= s.head
    case _ => true
  }

  ghost predicate CloseInv(s: State) {
    && s.cap > 0
    && (s.send == 0 || s.send == 1 || s.send == 3)
    && (s.send == 3 ==> NoneCommitted(s))
    && (forall u {:trigger s.threads[u]} :: 0 <= u < |s.threads| ==> ScanOk(s, s.threads[u].pc))
  }

  /** A step neither opens the send field nor commits a reservation once it is closed. */
  ghost predicate Quiet(s: State, s': State, t: nat)
    requires t < |s.threads|
  {
    && s'.cap == s.cap && |s'.threads| == |s.threads| && s.head <= s'.head && s'.send == s.send
    && (forall u :: 0 <= u < |s.threads| && u != t ==> s'.threads[u] == s.threads[u])
    && (Committed(s'.threads[t].pc) && s.send != 0 ==>
          Committed(s.threads[t].pc) && HeldPos(s'.threads[t].pc) == HeldPos(s.threads[t].pc))
  }

  lemma QuietKeeps(s: State, s': State, t: nat)
    requires CloseInv(s) && t < |s.threads| && Quiet(s, s', t)
    requires ScanOk(s', s'.threads[t].pc)
    ensures CloseInv(s')
  {
    forall k: nat | s.send != 0 && NoneBelow(s, k)
      ensures NoneBelow(s', k)
    {
      forall u | 0 <= u < |s'.threads| && Committed(s'.threads[u].pc)
        ensures HeldPos(s'.threads[u].pc).Some? && Index(HeldPos(s'.threads[u].pc).value, s.cap) >= k
      {
        assert Committed(s.threads[u].pc);
      }
    }
    forall u | 0 <= u < |s'.threads|
      ensures ScanOk(s', s'.threads[u].pc) && (s.send == 3 ==> !Committed(s'.threads[u].pc))
    {
      if u != t { assert ScanOk(s, s.threads[u].pc); }
      assert s.send == 3 ==> !Committed(s.threads[u].pc);
    }
  }

  /** A committed reservation shows a producer control in its slot. */
  lemma CommittedShows(s: State, u: nat)
    requires Inv(s) && u < |s.threads| && Committed(s.threads[u].pc)
    ensures HeldPos(s.threads[u].pc).Some? && SlotOf(s, HeldPos(s.threads[u].pc).value).control.Producer?
  {
    assert ThreadOk(s, u);
  }

  lemma ScanStep(s: State, t: nat)
    requires Inv(s) && CloseInv(s) && t < |s.threads| && s.threads[t].pc.FScan?
    ensures CloseInv(StepClose(s, t))
  {
    var s' := StepClose(s, t);
    var pc := s.threads[t].pc;
    assert ScanOk(s, pc);
    if pc.field == SendField {
      if pc.k < s.cap {
        if !s.slots[pc.k].control.Producer? {
          forall u | 0 <= u < |s'.threads| && Committed(s'.threads[u].pc)
            ensures HeldPos(s'.threads[u].pc).Some? && Index(HeldPos(s'.threads[u].pc).value, s.cap) >= pc.k + 1
          {
            CommittedShows(s, u);
          }
          assert NoneBelow(s', pc.k + 1);
        }
        QuietKeeps(s, s', t);
      } else {
        LastScan(s, s', t);
      }
    } else {
      QuietKeeps(s, s', t);
    }
  }

  lemma LastScan(s: State, s': State, t: nat)
    requires Inv(s) && CloseInv(s) && t < |s.threads| && s.threads[t].pc.FScan? && s.threads[t].pc.field == SendField
    requires s.threads[t].pc.k >= s.cap && s' == StepClose(s, t)
    ensures CloseInv(s')
  {
    assert ScanOk(s, s.threads[t].pc);
    assert s'.send == 3;
    forall u | 0 <= u < |s'.threads|
      ensures !Committed(s'.threads[u].pc) && ScanOk(s', s'.threads[u].pc)
    {
      if Committed(s.threads[u].pc) { assert false; }
      assert ScanOk(s, s.threads[u].pc);
      var pc := s'.threads[u].pc;
      if pc.FScan? && pc.field == SendField {
        assert u != t;
        BelowSame(s, s', t, pc.k);
      }
    }
  }

  lemma BelowSame(s: State, s': State, t: nat, k: nat)
    requires s.cap > 0 && s'.cap == s.cap && t < |s.threads| == |s'.threads| && !Committed(s'.threads[t].pc)
    requires forall u :: 0 <= u < |s.threads| && u != t ==> s'.threads[u] == s.threads[u]
    requires NoneBelow(s, k)
    ensures NoneBelow(s', k)
  {
    forall w | 0 <= w < |s'.threads| && Committed(s'.threads[w].pc)
      ensures HeldPos(s'.threads[w].pc).Some? && Index(HeldPos(s'.threads[w].pc).value, s.cap) >= k
    {
      assert s'.threads[w] == s.threads[w];
    }
  }

  lemma CloseSendStep(s: State, s': State)
    requires CloseInv(s) && s' == s.(send := Or1(s.send))
    ensures CloseInv(s')
  {
    assert s.send == 3 ==> s' == s;
    forall u | 0 <= u < |s'.threads|
      ensures ScanOk(s', s'.threads[u].pc)
    {
      assert ScanOk(s, s.threads[u].pc);
      var pc := s.threads[u].pc;
      if pc.FScan? && pc.field == SendField { assert s' == s; }
    }
  }

  lemma IdleClose(s: State, t: nat, c: Choice)
    requires Inv(s) && CloseInv(s) && t < |s.threads| && s.threads[t].pc.Idle?
    ensures CloseInv(StepIdle(s, t, c))
  {
    if c.CloseSend? {
      CloseSendStep(s, StepIdle(s, t, c));
    } else {
      QuietKeeps(s, StepIdle(s, t, c), t);
    }
  }

  lemma OtherClose(s: State, t: nat)
    requires Inv(s) && CloseInv(s) && t < |s.threads| && InClose(s.threads[t].pc)
    ensures CloseInv(StepClose(s, t))
  {
    if s.threads[t].pc.FScan? {
      ScanStep(s, t);
    } else {
      var s' := StepClose(s, t);
      assert ScanOk(s, s.threads[t].pc);
      if s'.threads[t].pc.FScan? && s.send != 0 { assert NoneBelow(s', 0); }
      QuietKeeps(s, s', t);
    }
  }

  lemma ReserveClose(s: State, t: nat)
    requires Inv(s) && CloseInv(s) && t < |s.threads| && InReserve(s.threads[t].pc)
    ensures CloseInv(StepReserve(s, t))
  {
    assert ThreadOk(s, t);
    QuietKeeps(s, StepReserve(s, t), t);
  }

  lemma ProducerClose(s: State, t: nat, c: Choice)
    requires Inv(s) && CloseInv(s) && t < |s.threads| && InProducer(s.threads[t].pc)
    ensures CloseInv(StepProducer(s, t, c))
  {
    QuietKeeps(s, StepProducer(s, t, c), t);
  }

  lemma ClaimClose(s: State, t: nat, c: Choice)
    requires Inv(s) && CloseInv(s) && t < |s.threads|
    requires !s.threads[t].pc.Idle? && !InReserve(s.threads[t].pc) && !InProducer(s.threads[t].pc)
    requires !InClose(s.threads[t].pc)
    ensures CloseInv(StepClaim(s, t, c))
  {
    ClaimQuiet(s, t, c);
    QuietKeeps(s, StepClaim(s, t, c), t);
  }

  lemma ClaimQuiet(s: State, t: nat, c: Choice)
    requires Inv(s) && t < |s.threads|
    requires !s.threads[t].pc.Idle? && !InReserve(s.threads[t].pc) && !InProducer(s.threads[t].pc)
    requires !InClose(s.threads[t].pc)
    ensures var s' := StepClaim(s, t, c);
            && Quiet(s, s', t) && !Committed(s'.threads[t].pc) && !InClose(s'.threads[t].pc)
            && s'.log == s.log && s'.tail == s.tail
  {}

  lemma StepClosed(s: State, t: nat, c: Choice)
    requires Inv(s) && CloseInv(s)
    ensures CloseInv(Step(s, t, c))
  {
    if t < |s.threads| {
      var pc := s.threads[t].pc;
      if pc.Idle? { IdleClose(s, t, c); }
      else if InReserve(pc) { ReserveClose(s, t); }
      else if InProducer(pc) { ProducerClose(s, t, c); }
      else if InClose(pc) { OtherClose(s, t); }
      else { ClaimClose(s, t, c); }
    }
  }

  lemma {:induction false} RunClosed(s: State, moves: seq<Move>)
    requires Inv(s) && CloseInv(s)
    ensures Inv(Run(s, moves)) && CloseInv(Run(s, moves))
    decreases |moves|
  {
    RunInv(s, moves);
    if moves != [] {
      var m := moves[|moves| - 1];
      RunClosed(s, moves[..|moves| - 1]);
      StepClosed(Run(s, moves[..|moves| - 1]), m.t, m.c);
    }
  }

  /** Reachable states. */
  ghost predicate Reachable(s: State) {
    exists cap: nat, owners: seq<nat>, moves: seq<Move> :: cap > 0 && s == Run(Init(cap, owners), moves)
  }

  lemma ReachableInv(s: State)
    requires Reachable(s)
    ensures Inv(s) && CloseInv(s)
  {
    var cap: nat, owners: seq<nat>, moves: seq<Move> :| cap > 0 && s == Run(Init(cap, owners), moves);
    InitInv(cap, owners);
    RunClosed(Init(cap, owners), moves);
  }

  /** A pending position belongs to a producer guard. */
  lemma PendingHasGuard(s: State, p: nat)
    requires Inv(s) && p < s.tail && s.log[p] == Pending
    ensures exists u :: 0 <= u < |s.threads| && InProducer(s.threads[u].pc) && HeldPos(s.threads[u].pc) == Some(p)
  {
    var i := Ix(s, p);
    assert s.head <= p;
    assert SlotOk(s, i);
    var sl := s.slots[i];
    TurnOfOpen(s, p);
    if sl.holder.Some? {
      assert ThreadOk(s, sl.holder.value);
      assert InProducer(s.threads[sl.holder.value].pc);
    }
  }

  /** A reserved, unclaimed position is the turn of its slot. */
  lemma TurnOfOpen(s: State, p: nat)
    requires Inv(s) && s.head <= p < s.tail
    ensures SlotOf(s, p).turn == p
  {
    var i := Ix(s, p);
    assert SlotOk(s, i);
    var turn := s.slots[i].turn;
    if turn < p {
      IndexInjectiveOrEqual(turn, p, s.cap);
    } else if p < turn {
      IndexInjectiveOrEqual(p, turn, s.cap);
    }
  }

  lemma IndexInjectiveOrEqual(p: nat, q: nat, cap: nat)
    requires cap > 0 && p < q && Index(p, cap) == Index(q, cap)
    ensures q >= p + cap
  {
    if q < p + cap { IndexInjective(p, q, cap); }
  }

  /**
   Close is a barrier.  Once the send field reads 3, every reservation ever granted is published or skipped, and
   however the run goes on no reservation is granted again.
   */
  lemma CloseIsABarrier(s: State, moves: seq<Move>)
    requires Reachable(s) && s.send == 3
    ensures forall p :: 0 <= p < s.tail ==> p < |s.log| && s.log[p] != Pending
    ensures Run(s, moves).send == 3 && Run(s, moves).tail == s.tail && Run(s, moves).log == s.log
  {
    ReachableInv(s);
    forall p | 0 <= p < s.tail
      ensures s.log[p] != Pending
    {
      if s.log[p] == Pending {
        PendingHasGuard(s, p);
        assert false;
      }
    }
    ClosedRun(s, moves);
  }

  lemma {:induction false} ClosedRun(s: State, moves: seq<Move>)
    requires Inv(s) && CloseInv(s) && s.send == 3
    requires forall p :: 0 <= p < s.tail ==> s.log[p] != Pending
    ensures Run(s, moves).send == 3 && Run(s, moves).log == s.log && Run(s, moves).tail == s.tail
    decreases |moves|
  {
    if moves != [] {
      var m := moves[|moves| - 1];
      ClosedRun(s, moves[..|moves| - 1]);
      RunClosed(s, moves[..|moves| - 1]);
      ClosedStep(Run(s, moves[..|moves| - 1]), m.t, m.c);
    }
  }

  lemma ClosedStep(s: State, t: nat, c: Choice)
    requires Inv(s) && CloseInv(s) && s.send == 3
    requires forall p :: 0 <= p < s.tail ==> s.log[p] != Pending
    ensures Step(s, t, c).send == 3 && Step(s, t, c).log == s.log && Step(s, t, c).tail == s.tail
  {
    if t < |s.threads| {
      var pc := s.threads[t].pc;
      assert !Committed(pc);
      if pc.Idle? {
        assert StepIdle(s, t, c).send == 3;
      } else if InReserve(pc) {
        assert !pc.RCommit?;
      } else if InClose(pc) {
        assert StepClose(s, t).send == 3;
      } else {
        ClaimQuiet(s, t, c);
      }
    }
  }

  /** A terminal answer by the send side: every record ever accepted was claimed, and none will be added. */
  lemma TerminalMeansDrained(s: State, t: nat, c: Choice, moves: seq<Move>)
    requires Reachable(s) && t < |s.threads| && s.threads[t].pc.TTail?
    requires Step(s, t, c).threads[t].out == Terminal(true)
    ensures s.head == s.tail && s.delivered == Values(s.log)
    ensures Run(s, moves).tail == s.tail && Run(s, moves).delivered == s.delivered
  {
    ReachableInv(s);
    assert ScanOk(s, s.threads[t].pc);
    CloseIsABarrier(s, moves);
    assert s.log[..s.head] == s.log;
    RunInv(s, moves);
    var e := Run(s, moves);
    HistoryIsStable(s, moves);
    assert e.log[..e.head] == s.log;
  }

  // What the answers of the field tests and of the terminal test say.

  /** The test of field f that thread pc is in has found it finished: it reads 3, or no slot is owned by that side. */
  predicate FoundFinished(s: State, pc: Pc, f: Field) {
    (pc.FLoad? && pc.field == f && FieldOf(s, f) == 3) || (pc.FScan? && pc.field == f && pc.k >= s.cap)
  }

  /** The test has found it unfinished: it is not closed, or slot k is still owned. */
  predicate FoundOpen(s: State, pc: Pc, f: Field)
    requires WellShaped(s)
  {
    || (pc.FLoad? && pc.field == f && FieldOf(s, f) != 1 && FieldOf(s, f) != 3)
    || (pc.FScan? && pc.field == f && pc.k < s.cap && OwnsBase(s.slots[pc.k].control, f))
  }

  predicate Ends(s: State, t: nat, out: Outcome)
    requires t < |s.threads|
  {
    s.threads[t].pc == Idle && s.threads[t].out == out
  }

  /**
   `terminal` answers true for the receive side exactly when that field is found finished, goes on to the send field
   exactly when it is found unfinished, answers false exactly when the send field is found unfinished or the cursors
   differ, and true for the send side exactly when they agree.
   */
  lemma TerminalAnswers(s: State, t: nat, c: Choice)
    requires WellShaped(s) && t < |s.threads| && InClose(s.threads[t].pc)
    requires s.threads[t].pc.FLoad? || s.threads[t].pc.FScan? ==> s.threads[t].pc.term
    ensures var pc, u := s.threads[t].pc, Step(s, t, c);
            && |u.threads| == |s.threads|
            && (Ends(u, t, Terminal(false)) <==> FoundFinished(s, pc, RecvField))
            && (u.threads[t].pc == FLoad(SendField, true) <==> FoundOpen(s, pc, RecvField))
            && (u.threads[t].pc == THead <==> FoundFinished(s, pc, SendField))
            && (Ends(u, t, NotTerminal) <==> FoundOpen(s, pc, SendField) || (pc.TTail? && s.tail != pc.h))
            && (Ends(u, t, Terminal(true)) <==> pc.TTail? && s.tail == pc.h)
  {}

  /** `send_closed` and `recv_closed` answer yes exactly when the field is found finished. */
  lemma FieldAnswers(s: State, t: nat, c: Choice)
    requires WellShaped(s) && t < |s.threads|
    requires (s.threads[t].pc.FLoad? || s.threads[t].pc.FScan?) && !s.threads[t].pc.term
    ensures var pc, u := s.threads[t].pc, Step(s, t, c);
            && |u.threads| == |s.threads|
            && (Ends(u, t, FieldClosed) <==> FoundFinished(s, pc, pc.field))
            && (Ends(u, t, StillOpen) <==> FoundOpen(s, pc, pc.field))
  {}

  /** The receive field reads 0, 1 or 3, and a scan of it runs only once it is closed. */
  ghost predicate RecvInv(s: State) {
    && (s.recv == 0 || s.recv == 1 || s.recv == 3)
    && forall u {:trigger s.threads[u]} :: 0 <= u < |s.threads| ==>
         (s.threads[u].pc.FScan? && s.threads[u].pc.field == RecvField ==> s.recv != 0)
  }

  /** A step of a thread outside the field tests leaves the receive field, or closes it. */
  ghost predicate RecvKept(s: State, u: State, t: nat)
    requires t < |s.threads|
  {
    && |u.threads| == |s.threads| && (u.recv == s.recv || u.recv == Or1(s.recv))
    && (forall k :: 0 <= k < |s.threads| && k != t ==> u.threads[k] == s.threads[k]) && !u.threads[t].pc.FScan?
  }

  lemma ReserveRecv(s: State, t: nat)
    requires WellShaped(s) && t < |s.threads| && InReserve(s.threads[t].pc)
    ensures RecvKept(s, StepReserve(s, t), t)
  {}

  lemma ProducerRecv(s: State, t: nat, c: Choice)
    requires WellShaped(s) && t < |s.threads| && InProducer(s.threads[t].pc)
    ensures RecvKept(s, StepProducer(s, t, c), t)
  {}

  lemma ClaimRecv(s: State, t: nat, c: Choice)
    requires WellShaped(s) && t < |s.threads| && !InClose(s.threads[t].pc)
    ensures RecvKept(s, StepClaim(s, t, c), t)
  {}

  lemma CloseRecvInv(s: State, t: nat)
    requires WellShaped(s) && RecvInv(s) && t < |s.threads| && InClose(s.threads[t].pc)
    ensures RecvInv(StepClose(s, t))
  {}

  lemma StepRecv(s: State, t: nat, c: Choice)
    requires WellShaped(s) && RecvInv(s)
    ensures RecvInv(Step(s, t, c))
  {
    if t < |s.threads| {
      var pc := s.threads[t].pc;
      if pc.Idle? { assert RecvKept(s, StepIdle(s, t, c), t); }
      else if InReserve(pc) { ReserveRecv(s, t); }
      else if InProducer(pc) { ProducerRecv(s, t, c); }
      else if InClose(pc) { CloseRecvInv(s, t); }
      else { ClaimRecv(s, t, c); }
    }
  }

  lemma {:induction false} RunRecv(s: State, moves: seq<Move>)
    requires WellShaped(s) && RecvInv(s)
    ensures RecvInv(Run(s, moves))
    decreases |moves|
  {
    if moves != [] {
      RunRecv(s, moves[..|moves| - 1]);
      StepRecv(Run(s, moves[..|moves| - 1]), moves[|moves| - 1].t, moves[|moves| - 1].c);
    }
  }

  /** In every reachable state, a field found finished reads 3 from then on. */
  lemma FinishedReads3(s: State, t: nat, c: Choice)
    requires Reachable(s) && t < |s.threads| && (s.threads[t].pc.FLoad? || s.threads[t].pc.FScan?)
    ensures var f := s.threads[t].pc.field;
            FoundFinished(s, s.threads[t].pc, f) ==> FieldOf(Step(s, t, c), f) == 3
  {
    ReachableInv(s);
    ReachableRecv(s);
    FinishedStores3(s, t);
  }

  lemma ReachableRecv(s: State)
    requires Reachable(s)
    ensures RecvInv(s)
  {
    var cap: nat, owners: seq<nat>, moves: seq<Move> :| cap > 0 && s == Run(Init(cap, owners), moves);
    RunRecv(Init(cap, owners), moves);
  }

  lemma FinishedStores3(s: State, t: nat)
    requires WellShaped(s) && CloseInv(s) && RecvInv(s)
    requires t < |s.threads| && (s.threads[t].pc.FLoad? || s.threads[t].pc.FScan?)
    ensures var f := s.threads[t].pc.field; FoundFinished(s, s.threads[t].pc, f) ==> FieldOf(StepClose(s, t), f) == 3
  {
    assert ScanOk(s, s.threads[t].pc);
  }

  // A closed side stays closed, and refuses.

  lemma StepFields(s: State, t: nat, c: Choice)
    requires WellShaped(s)
    ensures s.send <= Step(s, t, c).send && s.recv <= Step(s, t, c).recv
  {
    if t < |s.threads| {
      var pc := s.threads[t].pc;
      if InReserve(pc) { ReserveRecv(s, t); assert StepReserve(s, t).send == s.send; }
      else if InProducer(pc) { ProducerRecv(s, t, c); assert StepProducer(s, t, c).send == s.send; }
      else if InClose(pc) { assert StepClose(s, t).send >= s.send && StepClose(s, t).recv >= s.recv; }
      else if !pc.Idle? { ClaimRecv(s, t, c); assert StepClaim(s, t, c).send == s.send; }
    }
  }

  lemma {:induction false} FieldsRise(s: State, moves: seq<Move>)
    requires WellShaped(s)
    ensures s.send <= Run(s, moves).send && s.recv <= Run(s, moves).recv
    decreases |moves|
  {
    if moves != [] {
      FieldsRise(s, moves[..|moves| - 1]);
      StepFields(Run(s, moves[..|moves| - 1]), moves[|moves| - 1].t, moves[|moves| - 1].c);
    }
  }

  /** With a side closed, `reserve` answers Closed, whatever others do between its loads. */
  lemma ClosedReserve(s: State, t: nat, m1: seq<Move>, c1: Choice, m2: seq<Move>, c2: Choice)
    requires Inv(s) && t < |s.threads| && s.threads[t].pc == Idle && Without(m1, t) && Without(m2, t)
    requires s.send != 0 || s.recv != 0
    ensures var a := Step(Run(Step(s, t, StartReserve), m1), t, c1);
            var e := Step(Run(a, m2), t, c2);
            |e.threads| == |s.threads| && Ends(e, t, Closed)
  {
    var b := Step(s, t, StartReserve);
    StepInv(s, t, StartReserve);
    OthersLeave(b, m1, t);
    FieldsRise(b, m1);
    var z := Run(b, m1);
    StepInv(z, t, c1);
    OthersLeave(Step(z, t, c1), m2, t);
    FieldsRise(Step(z, t, c1), m2);
    assert Step(z, t, c1).threads[t].pc == RRecv0(z.send) && Step(z, t, c1).recv == z.recv;
  }

  /** With the receiving side closed, so does `claim`. */
  lemma ClosedClaim(s: State, t: nat, m1: seq<Move>, c1: Choice)
    requires Inv(s) && t < |s.threads| && s.threads[t].pc == Idle && Without(m1, t) && s.recv != 0
    ensures var e := Step(Run(Step(s, t, StartClaim), m1), t, c1); |e.threads| == |s.threads| && Ends(e, t, Closed)
  {
    var d := Step(s, t, StartClaim);
    StepInv(s, t, StartClaim);
    OthersLeave(d, m1, t);
    FieldsRise(d, m1);
  }

  /** Once a thread has closed a side, every later `reserve` is refused, and after the receiving side every `claim`. */
  lemma CloseIsFinal(s: State, t: nat, f: Field, later: seq<Move>, u: nat, m1: seq<Move>, c1: Choice, m2: seq<Move>,
                     c2: Choice)
    requires Inv(s) && t < |s.threads| && s.threads[t].pc == Idle && u < |s.threads|
    requires Without(m1, u) && Without(m2, u)
    ensures var z := Run(Step(s, t, if f == SendField then CloseSend else CloseRecv), later);
            var a := Step(Run(Step(z, u, StartReserve), m1), u, c1);
            var e := Step(Run(a, m2), u, c2);
            |z.threads| == |e.threads| == |s.threads| && (z.threads[u].pc == Idle ==> Ends(e, u, Closed))
    ensures var z := Run(Step(s, t, if f == SendField then CloseSend else CloseRecv), later);
            var e := Step(Run(Step(z, u, StartClaim), m1), u, c1);
            |z.threads| == |e.threads| == |s.threads|
            && (f == RecvField && z.threads[u].pc == Idle ==> Ends(e, u, Closed))
  {
    var c := if f == SendField then CloseSend else CloseRecv;
    var b := Step(s, t, c);
    StepInv(s, t, c);
    RunInv(b, later);
    FieldsRise(b, later);
    if Run(b, later).threads[u].pc == Idle {
      ClosedReserve(Run(b, later), u, m1, c1, m2, c2);
      if f == RecvField { ClosedClaim(Run(b, later), u, m1, c1); }
    }
  }
}
