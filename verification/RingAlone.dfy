/** A thread alone on a ring at rest: the operations are those of a sequential bounded queue. */
module RingAlone {
  import opened Common
  import opened ControlWord
  import opened LapCursor
  import opened Ring
  import opened RingInvariant
  import opened RingSteps
  import opened RingTheorems
  import opened RingClose

  /** Nobody is inside an operation or has a guard. */
  ghost predicate AtRest(s: State) {
    Inv(s) && forall u {:trigger s.threads[u]} :: 0 <= u < |s.threads| ==> s.threads[u].pc == Idle
  }

  /** What is in the queue: reserved positions not yet claimed. */
  ghost function Waiting(s: State): seq<Entry>
    requires s.head <= |s.log|
  {
    s.log[s.head..]
  }

  /** n steps of thread t. */
  function Steps(s: State, t: nat, n: nat): State
    requires WellShaped(s)
    ensures SameShape(s, Steps(s, t, n))
    decreases n
  {
    if n == 0 then s else Steps(Step(s, t, Continue), t, n - 1)
  }

  /** Thread t starts c and goes on for n steps. */
  function Call(s: State, t: nat, c: Choice, n: nat): State
    requires WellShaped(s)
    ensures SameShape(s, Call(s, t, c, n))
  {
    Steps(Step(s, t, c), t, n)
  }

  lemma {:induction false} StepsInv(s: State, t: nat, n: nat)
    requires Inv(s)
    ensures Inv(Steps(s, t, n))
    decreases n
  {
    if n > 0 {
      StepInv(s, t, Continue);
      StepsInv(Step(s, t, Continue), t, n - 1);
    }
  }

  lemma {:induction false} StepsAdd(s: State, t: nat, m: nat, n: nat)
    requires WellShaped(s)
    ensures Steps(s, t, m + n) == Steps(Steps(s, t, m), t, n)
    decreases m
  {
    if m > 0 {
      var u := Step(s, t, Continue);
      assert Steps(s, t, m) == Steps(u, t, m - 1) && Steps(s, t, m + n) == Steps(u, t, m - 1 + n);
      StepsAdd(u, t, m - 1, n);
    }
  }

  lemma GoGo(s: State, t: nat, a: Pc, b: Pc, out: Outcome)
    requires t < |s.threads|
    ensures Go(Go(s, t, a), t, b) == Go(s, t, b) && Finish(Go(s, t, a), t, out) == Finish(s, t, out)
  {}

  // The slots of a ring at rest.

  lemma SlotAtRest(s: State, i: nat)
    requires AtRest(s) && i < |s.slots|
    ensures s.slots[i].holder == None && Untaken(s, s.slots[i])
  {
    assert SlotOk(s, i);
  }

  lemma TailAtRest(s: State)
    requires AtRest(s)
    ensures s.tail < s.head + s.cap ==> SlotOf(s, s.tail).control == Empty && SlotOf(s, s.tail).turn == s.tail
    ensures s.tail == s.head + s.cap ==> SlotOf(s, s.tail).control.Available?
  {
    var i := Ix(s, s.tail);
    assert SlotOk(s, i);
    SlotAtRest(s, i);
    var turn := s.slots[i].turn;
    if turn < s.tail {
      IndexInjectiveOrEqual(turn, s.tail, s.cap);
    } else if turn > s.tail {
      IndexInjectiveOrEqual(s.tail, turn, s.cap);
    }
  }

  lemma HeadAtRest(s: State)
    requires AtRest(s) && s.head < s.tail
    ensures SlotOf(s, s.head).turn == s.head && s.log[s.head] != Pending
    ensures SlotOf(s, s.head).control == Available(s.log[s.head].Ready?)
    ensures s.log[s.head].Ready? ==> SlotOf(s, s.head).value == Some(s.log[s.head].v)
  {
    TurnOfOpen(s, s.head);
    SlotAtRest(s, Ix(s, s.head));
  }

  // Reserving.

  lemma ReserveLoads(s: State, t: nat)
    requires WellShaped(s) && t < |s.threads| && s.threads[t].pc == Idle
    ensures s.send != 0 || s.recv != 0 ==> Call(s, t, StartReserve, 2) == Finish(s, t, Closed)
    ensures s.send == 0 && s.recv == 0 ==> Call(s, t, StartReserve, 3) == Go(s, t, RAcquire(s.tail))
  {
    var a := Step(s, t, StartReserve);
    var b := Step(a, t, Continue);
    GoGo(s, t, RSend0, RRecv0(s.send), Closed);
    assert b == Go(s, t, RRecv0(s.send));
    var c := Step(b, t, Continue);
    GoGo(s, t, RRecv0(s.send), RLoadTail, Closed);
    assert Steps(a, t, 2) == Steps(b, t, 1) == Steps(c, t, 0);
    if s.send == 0 && s.recv == 0 {
      assert c == Go(s, t, RLoadTail);
      GoGo(s, t, RLoadTail, RAcquire(s.tail), Closed);
      assert Steps(a, t, 3) == Steps(b, t, 2) == Steps(c, t, 1) == Steps(Step(c, t, Continue), t, 0);
    }
  }

  lemma ReserveBlocked(s: State, t: nat)
    requires WellShaped(s) && t < |s.threads| && SlotOf(s, s.tail).control != Empty && s.tail == s.head + s.cap
    ensures Steps(Go(s, t, RAcquire(s.tail)), t, 2) == Finish(s, t, Full)
  {
    var a := Go(s, t, RAcquire(s.tail));
    GoGo(s, t, RAcquire(s.tail), RBlocked(s.tail), Full);
    var b := Step(a, t, Continue);
    assert b == Go(s, t, RBlocked(s.tail));
    GoGo(s, t, RBlocked(s.tail), Idle, Full);
    assert Steps(a, t, 2) == Steps(b, t, 1) == Steps(Step(b, t, Continue), t, 0);
  }

  /** The slot of the tail taken by thread t. */
  function Held(s: State, t: nat): State
    requires WellShaped(s) && t < |s.threads|
  {
    WithSlot(s, s.tail,
             SlotOf(s, s.tail).(control := Producer(false, s.threads[t].owner, Nobody), holder := Some(t)))
  }

  lemma ReserveChecks(s: State, t: nat)
    requires WellShaped(s) && t < |s.threads| && s.send == 0 && s.recv == 0
    requires SlotOf(s, s.tail).control == Empty && SlotOf(s, s.tail).turn == s.tail
    ensures Steps(Go(s, t, RAcquire(s.tail)), t, 5) == Go(Held(s, t), t, RCommit(s.tail))
  {
    var h, p := Held(s, t), s.tail;
    var a := Go(s, t, RAcquire(p));
    GoGo(h, t, RAcquire(p), RTurn(p), Done);
    var b := Step(a, t, Continue);
    assert b == Go(h, t, RTurn(p));
    GoGo(h, t, RTurn(p), RTail(p), Done);
    var c := Step(b, t, Continue);
    assert c == Go(h, t, RTail(p));
    GoGo(h, t, RTail(p), RSend(p), Done);
    var d := Step(c, t, Continue);
    assert d == Go(h, t, RSend(p));
    GoGo(h, t, RSend(p), RRecv(p, 0), Done);
    var e := Step(d, t, Continue);
    assert e == Go(h, t, RRecv(p, 0));
    GoGo(h, t, RRecv(p, 0), RCommit(p), Done);
    assert Steps(a, t, 5) == Steps(b, t, 4) == Steps(c, t, 3) == Steps(d, t, 2) == Steps(e, t, 1)
        == Steps(Step(e, t, Continue), t, 0);
  }

  /**
   Alone, `reserve` is refused as closed exactly when one side closed, as full exactly when the queue has no room, and
   otherwise grants the next position; it changes nothing else.
   */
  lemma ReserveAlone(s: State, t: nat)
    requires AtRest(s) && t < |s.threads|
    ensures s.send != 0 || s.recv != 0 ==> Call(s, t, StartReserve, 2) == Finish(s, t, Closed)
    ensures s.send == 0 && s.recv == 0 && |Waiting(s)| == s.cap ==>
              Call(s, t, StartReserve, 5) == Finish(s, t, Full)
    ensures s.send == 0 && s.recv == 0 && |Waiting(s)| < s.cap ==>
              var e := Call(s, t, StartReserve, 9);
              Inv(e) && e == Go(Held(s, t).(tail := s.tail + 1, log := s.log + [Pending]), t, Reserved(s.tail))
  {
    ReserveLoads(s, t);
    TailAtRest(s);
    var a := Step(s, t, StartReserve);
    if s.send == 0 && s.recv == 0 {
      if s.tail == s.head + s.cap {
        StepsAdd(a, t, 3, 2);
        ReserveBlocked(s, t);
      } else {
        StepsAdd(a, t, 3, 6);
        ReserveCommits(s, t);
        StepInv(s, t, StartReserve);
        StepsInv(a, t, 9);
      }
    }
  }

  lemma ReserveCommits(s: State, t: nat)
    requires WellShaped(s) && t < |s.threads| && s.send == 0 && s.recv == 0
    requires SlotOf(s, s.tail).control == Empty && SlotOf(s, s.tail).turn == s.tail
    ensures Steps(Go(s, t, RAcquire(s.tail)), t, 6) ==
            Go(Held(s, t).(tail := s.tail + 1, log := s.log + [Pending]), t, Reserved(s.tail))
  {
    ReserveChecks(s, t);
    StepsAdd(Go(s, t, RAcquire(s.tail)), t, 5, 1);
    var b := Go(Held(s, t), t, RCommit(s.tail));
    assert Steps(b, t, 1) == Steps(Step(b, t, Continue), t, 0);
    GoGo(Held(s, t).(tail := s.tail + 1, log := s.log + [Pending]), t, RCommit(s.tail), Reserved(s.tail), Done);
  }

  /** Reserves, stages v and publishes. */
  function Sent(s: State, t: nat, v: Value): State
    requires WellShaped(s)
  {
    Call(Call(s, t, StartReserve, 9), t, Choice.Stage(v), 2)
  }

  /** The state after the send: v behind everything that waits. */
  function Enqueued(s: State, t: nat, v: Value): State
    requires WellShaped(s) && t < |s.threads|
  {
    var slot := SlotOf(s, s.tail).(control := Available(true), value := Some(v), holder := None);
    Finish(WithSlot(s, s.tail, slot).(tail := s.tail + 1, log := s.log + [Ready(v)]), t, Done)
  }

  lemma PublishSteps(s: State, t: nat, p: nat, v: Value)
    requires WellShaped(s) && t < |s.threads| && s.threads[t].pc == Reserved(p) && p < |s.log|
    ensures Call(s, t, Choice.Stage(v), 2) ==
            Finish(WithSlot(s, p, SlotOf(s, p).(control := Available(true), value := Some(v), holder := None))
                   .(log := s.log[p := Ready(v)]), t, Done)
  {
    var a := WithSlot(s, p, SlotOf(s, p).(value := Some(v)));
    var b := WithSlot(a, p, SlotOf(a, p).(control := Producer(true, s.threads[t].owner, Nobody)));
    var c := Step(s, t, Choice.Stage(v));
    assert c == Go(a, t, Written(p, v));
    var d := Step(c, t, Continue);
    GoGo(b, t, Written(p, v), Staged(p, v), Done);
    assert d == Go(b, t, Staged(p, v));
    GoGo(b, t, Staged(p, v), Idle, Done);
    assert Steps(c, t, 2) == Steps(d, t, 1) == Steps(Step(d, t, Continue), t, 0);
  }

  /** Alone on an open queue with room, sending v puts v behind what waits and the ring is at rest again. */
  lemma SendAlone(s: State, t: nat, v: Value)
    requires AtRest(s) && t < |s.threads| && s.send == 0 && s.recv == 0 && |Waiting(s)| < s.cap
    ensures var e := Sent(s, t, v);
            && AtRest(e) && e == Enqueued(s, t, v) && Waiting(e) == Waiting(s) + [Ready(v)] && e.threads[t].out == Done
  {
    ReserveAlone(s, t);
    var r := Call(s, t, StartReserve, 9);
    PublishSteps(r, t, s.tail, v);
    StepInv(r, t, Choice.Stage(v));
    StepsInv(Step(r, t, Choice.Stage(v)), t, 2);
    var e := Sent(s, t, v);
    assert (s.log + [Pending])[s.tail := Ready(v)] == s.log + [Ready(v)];
    assert e.slots == Enqueued(s, t, v).slots && e.threads == Enqueued(s, t, v).threads;
  }

  // Claiming.

  lemma ClaimLoads(s: State, t: nat)
    requires WellShaped(s) && t < |s.threads| && s.threads[t].pc == Idle
    ensures s.recv != 0 ==> Call(s, t, StartClaim, 1) == Finish(s, t, Closed)
    ensures s.recv == 0 ==> Call(s, t, StartClaim, 2) == Go(s, t, CRead(s.head))
  {
    var a := Step(s, t, StartClaim);
    var b := Step(a, t, Continue);
    assert Steps(a, t, 1) == Steps(b, t, 0);
    GoGo(s, t, CRecv, CLoadHead, Closed);
    if s.recv == 0 {
      assert b == Go(s, t, CLoadHead);
      GoGo(s, t, CLoadHead, CRead(s.head), Closed);
      assert Steps(a, t, 2) == Steps(b, t, 1) == Steps(Step(b, t, Continue), t, 0);
    }
  }

  lemma ClaimNothing(s: State, t: nat)
    requires WellShaped(s) && t < |s.threads| && SlotOf(s, s.head).control == Empty && s.tail == s.head
    ensures Steps(Go(s, t, CRead(s.head)), t, 2) == Finish(s, t, NoItem)
  {
    var a := Go(s, t, CRead(s.head));
    GoGo(s, t, CRead(s.head), CBlocked(s.head), NoItem);
    var b := Step(a, t, Continue);
    assert b == Go(s, t, CBlocked(s.head));
    GoGo(s, t, CBlocked(s.head), Idle, NoItem);
    assert Steps(a, t, 2) == Steps(b, t, 1) == Steps(Step(b, t, Continue), t, 0);
  }

  /** The slot of the head taken by thread t. */
  function Drawn(s: State, t: nat, full: bool): State
    requires WellShaped(s) && t < |s.threads|
  {
    WithSlot(s, s.head,
             SlotOf(s, s.head).(control := Consumer(full, s.threads[t].owner, Nobody), holder := Some(t)))
  }

  lemma ClaimTakes(s: State, t: nat, full: bool)
    requires WellShaped(s) && t < |s.threads| && SlotOf(s, s.head).control == Available(full)
    ensures Steps(Go(s, t, CRead(s.head)), t, 2) == Go(Drawn(s, t, full), t, CTurn(s.head, full))
  {
    var h, p := Drawn(s, t, full), s.head;
    var a := Go(s, t, CRead(p));
    GoGo(s, t, CRead(p), CAcquire(p, full), Done);
    var b := Step(a, t, Continue);
    assert b == Go(s, t, CAcquire(p, full));
    GoGo(h, t, CAcquire(p, full), CTurn(p, full), Done);
    assert Steps(a, t, 2) == Steps(b, t, 1) == Steps(Step(b, t, Continue), t, 0);
  }

  lemma ClaimRechecks(s: State, t: nat, full: bool)
    requires WellShaped(s) && t < |s.threads| && SlotOf(s, s.head).turn == s.head
    ensures Steps(Go(s, t, CTurn(s.head, full)), t, 2) == Go(s, t, CCommit(s.head, full))
  {
    var p := s.head;
    var a := Go(s, t, CTurn(p, full));
    GoGo(s, t, CTurn(p, full), CHead(p, full), Done);
    var b := Step(a, t, Continue);
    assert b == Go(s, t, CHead(p, full));
    GoGo(s, t, CHead(p, full), CCommit(p, full), Done);
    assert Steps(a, t, 2) == Steps(b, t, 1) == Steps(Step(b, t, Continue), t, 0);
  }

  lemma ClaimChecks(s: State, t: nat, full: bool)
    requires WellShaped(s) && t < |s.threads|
    requires SlotOf(s, s.head).control == Available(full) && SlotOf(s, s.head).turn == s.head
    ensures Steps(Go(s, t, CRead(s.head)), t, 4) == Go(Drawn(s, t, full), t, CCommit(s.head, full))
  {
    ClaimTakes(s, t, full);
    ClaimRechecks(Drawn(s, t, full), t, full);
    StepsAdd(Go(s, t, CRead(s.head)), t, 2, 2);
  }

  lemma RecycleSteps(s: State, t: nat, p: nat, full: bool)
    requires WellShaped(s) && t < |s.threads|
    ensures Steps(Go(s, t, CTurnStore(p, full)), t, 2) ==
            Finish(WithSlot(s, p, SlotOf(s, p).(turn := p + s.cap, control := Empty, holder := None)), t,
                   if full then Done else Busy)
  {
    var a := Go(s, t, CTurnStore(p, full));
    var h := WithSlot(s, p, SlotOf(s, p).(turn := p + s.cap));
    GoGo(h, t, CTurnStore(p, full), CFree(p, full), Done);
    var b := Step(a, t, Continue);
    assert b == Go(h, t, CFree(p, full));
    GoGo(h, t, CFree(p, full), Idle, if full then Done else Busy);
    assert Steps(a, t, 2) == Steps(b, t, 1) == Steps(Step(b, t, Continue), t, 0);
  }

  /**
   Alone, `claim` is refused as closed exactly when the receiving side closed, finds nothing exactly when nothing waits,
   and otherwise comes to the commit of the first position.
   */
  lemma ClaimAlone(s: State, t: nat)
    requires AtRest(s) && t < |s.threads|
    ensures s.recv != 0 ==> Call(s, t, StartClaim, 1) == Finish(s, t, Closed)
    ensures s.recv == 0 && Waiting(s) == [] ==> Call(s, t, StartClaim, 4) == Finish(s, t, NoItem)
    ensures s.recv == 0 && Waiting(s) != [] ==>
              var full := Waiting(s)[0].Ready?;
              Call(s, t, StartClaim, 6) == Go(Drawn(s, t, full), t, CCommit(s.head, full))
  {
    ClaimLoads(s, t);
    var a := Step(s, t, StartClaim);
    if s.recv == 0 {
      StepsAdd(a, t, 2, 2);
      StepsAdd(a, t, 2, 4);
      if s.head == s.tail {
        TailAtRest(s);
        ClaimNothing(s, t);
      } else {
        HeadAtRest(s);
        ClaimChecks(s, t, s.log[s.head].Ready?);
      }
    }
  }

  /** Claims the first record, takes it and recycles its slot. */
  function Received(s: State, t: nat): State
    requires WellShaped(s)
  {
    Call(Call(s, t, StartClaim, 7), t, Take, 2)
  }

  lemma CommitStep(s: State, t: nat, full: bool)
    requires WellShaped(s) && t < |s.threads|
    ensures var a := Drawn(s, t, full);
            Steps(Go(a, t, CCommit(s.head, full)), t, 1) ==
            Go(a.(head := s.head + 1,
                  delivered := if full then s.delivered + [SlotOf(s, s.head).value] else s.delivered),
               t, if full then Claimed(s.head) else CTurnStore(s.head, false))
  {
    var a := Drawn(s, t, full);
    var b := a.(head := s.head + 1,
                delivered := if full then s.delivered + [SlotOf(s, s.head).value] else s.delivered);
    GoGo(b, t, CCommit(s.head, full), if full then Claimed(s.head) else CTurnStore(s.head, false), Done);
    var c := Go(a, t, CCommit(s.head, full));
    assert Steps(c, t, 1) == Steps(Step(c, t, Continue), t, 0);
  }

  lemma TakeSteps(s: State, t: nat, p: nat)
    requires WellShaped(s) && t < |s.threads| && s.threads[t].pc == Claimed(p)
    ensures Call(s, t, Take, 2) ==
            Finish(WithSlot(s, p, SlotOf(s, p).(value := None, turn := p + s.cap, control := Empty, holder := None))
                   .(taken := s.taken[p := SlotOf(s, p).value]), t, Done)
  {
    var a := WithSlot(s, p, SlotOf(s, p).(value := None)).(taken := s.taken[p := SlotOf(s, p).value]);
    RecycleSteps(a, t, p, true);
  }

  /**
   Alone on a queue whose first record is ready, receiving takes its value and nothing else; a position that was skipped
   is passed over with Busy.  Either way the ring is at rest again with the first position gone.
   */
  lemma ReceiveAlone(s: State, t: nat)
    requires AtRest(s) && t < |s.threads| && s.recv == 0 && Waiting(s) != []
    ensures Waiting(s)[0].Ready? ==>
              var e := Received(s, t);
              && AtRest(e) && Waiting(e) == Waiting(s)[1..] && e.log == s.log && e.threads[t].out == Done
              && s.head !in s.taken && e.taken == s.taken[s.head := Some(Waiting(s)[0].v)]
              && e.delivered == s.delivered + [Some(Waiting(s)[0].v)]
    ensures !Waiting(s)[0].Ready? ==>
              var e := Call(s, t, StartClaim, 9);
              && AtRest(e) && Waiting(e) == Waiting(s)[1..] && e.log == s.log && e.threads[t].out == Busy
              && e.taken == s.taken && e.delivered == s.delivered
  {
    ClaimAlone(s, t);
    HeadAtRest(s);
    var full := s.log[s.head].Ready?;
    var a := Step(s, t, StartClaim);
    StepInv(s, t, StartClaim);
    StepsAdd(a, t, 6, 1);
    StepsAdd(a, t, 7, 2);
    CommitStep(s, t, full);
    StepsInv(a, t, 7);
    StepsInv(a, t, 9);
    var b := Call(s, t, StartClaim, 7);
    if full {
      TakeSteps(b, t, s.head);
      StepInv(b, t, Take);
      StepsInv(Step(b, t, Take), t, 2);
    } else {
      RecycleSteps(b, t, s.head, false);
      assert b == Go(b, t, CTurnStore(s.head, false));
    }
  }

  /** What one thread sends into an empty queue at rest, any thread receives. */
  lemma SendReceive(s: State, t: nat, u: nat, v: Value)
    requires AtRest(s) && t < |s.threads| && u < |s.threads| && s.send == 0 && s.recv == 0 && Waiting(s) == []
    ensures var e := Received(Sent(s, t, v), u);
            AtRest(e) && Waiting(e) == [] && s.head in e.taken && e.taken[s.head] == Some(v)
  {
    SendAlone(s, t, v);
    ReceiveAlone(Sent(s, t, v), u);
  }

  // Closing.

  function WithField(s: State, f: Field, x: nat): State { if f == SendField then s.(send := x) else s.(recv := x) }

  /** The accesses one field test makes. */
  function TestSteps(s: State, f: Field): nat { if FieldOf(s, f) == 1 then s.cap + 2 else 1 }

  lemma {:induction false} ScanAlone(s: State, t: nat, f: Field, k: nat, term: bool)
    requires AtRest(s) && t < |s.threads| && FieldOf(s, f) == 1 && k <= s.cap
    ensures Steps(Go(s, t, FScan(f, k, term)), t, s.cap - k + 1) == FieldResult(WithField(s, f, 3), t, f, term, true)
    decreases s.cap - k
  {
    var a := Go(s, t, FScan(f, k, term));
    var b := Step(a, t, Continue);
    assert Steps(a, t, s.cap - k + 1) == Steps(b, t, s.cap - k);
    if k < s.cap {
      SlotAtRest(s, k);
      GoGo(s, t, FScan(f, k, term), FScan(f, k + 1, term), Done);
      assert b == Go(s, t, FScan(f, k + 1, term));
      ScanAlone(s, t, f, k + 1, term);
    } else {
      ResultGo(WithField(s, f, 3), t, FScan(f, k, term), f, term, true);
    }
  }

  lemma ResultGo(s: State, t: nat, a: Pc, f: Field, term: bool, closed: bool)
    requires t < |s.threads|
    ensures FieldResult(Go(s, t, a), t, f, term, closed) == FieldResult(s, t, f, term, closed)
  {
    GoGo(s, t, a, THead, NotTerminal);
    GoGo(s, t, a, FLoad(SendField, true), Terminal(false));
    GoGo(s, t, a, Idle, FieldClosed);
    GoGo(s, t, a, Idle, StillOpen);
  }

  lemma TestAlone(s: State, t: nat, f: Field, term: bool)
    requires AtRest(s) && t < |s.threads| && (FieldOf(s, f) == 0 || FieldOf(s, f) == 1 || FieldOf(s, f) == 3)
    ensures Steps(Go(s, t, FLoad(f, term)), t, TestSteps(s, f)) ==
            if FieldOf(s, f) == 0 then FieldResult(s, t, f, term, false)
            else FieldResult(WithField(s, f, 3), t, f, term, true)
  {
    var a := Go(s, t, FLoad(f, term));
    var b := Step(a, t, Continue);
    assert Steps(a, t, TestSteps(s, f)) == Steps(b, t, TestSteps(s, f) - 1);
    if FieldOf(s, f) == 1 {
      GoGo(s, t, FLoad(f, term), FScan(f, 0, term), Done);
      ScanAlone(s, t, f, 0, term);
    } else {
      ResultGo(s, t, FLoad(f, term), f, term, FieldOf(s, f) == 3);
    }
  }

  /** Alone, a side that was closed is found finished and left at 3; one that was not is found open. */
  lemma FinishAlone(s: State, t: nat, f: Field)
    requires Reachable(s) && AtRest(s) && t < |s.threads|
    ensures Call(s, t, StartFinish(f), TestSteps(s, f)) ==
            if FieldOf(s, f) == 0 then Finish(s, t, StillOpen) else Finish(WithField(s, f, 3), t, FieldClosed)
  {
    ReachableInv(s);
    ReachableRecv(s);
    TestAlone(s, t, f, false);
  }

  /** Alone, `terminal` says that the receiving side is closed, or that the sending side is and nothing waits. */
  lemma TerminalAlone(s: State, t: nat)
    requires Reachable(s) && AtRest(s) && t < |s.threads|
    ensures s.recv != 0 ==> Ends(Call(s, t, StartTerminal, TestSteps(s, RecvField)), t, Terminal(false))
    ensures s.recv == 0 && s.send == 0 ==> Ends(Call(s, t, StartTerminal, 2), t, NotTerminal)
    ensures s.recv == 0 && s.send != 0 ==>
              Ends(Call(s, t, StartTerminal, 1 + TestSteps(s, SendField) + 2), t,
                   if Waiting(s) == [] then Terminal(true) else NotTerminal)
  {
    ReachableInv(s);
    ReachableRecv(s);
    if s.recv == 0 { TerminalSend(s, t, TestSteps(s, SendField)); } else { TerminalRecv(s, t); }
  }

  lemma TerminalRecv(s: State, t: nat)
    requires AtRest(s) && t < |s.threads| && (s.recv == 1 || s.recv == 3)
    ensures Ends(Call(s, t, StartTerminal, TestSteps(s, RecvField)), t, Terminal(false))
  {
    TestAlone(s, t, RecvField, true);
  }

  lemma TerminalSend(s: State, t: nat, n: nat)
    requires AtRest(s) && t < |s.threads| && s.recv == 0 && (s.send == 0 || s.send == 1 || s.send == 3)
    requires n == TestSteps(s, SendField)
    ensures s.send == 0 ==> Ends(Call(s, t, StartTerminal, 2), t, NotTerminal)
    ensures s.send != 0 ==>
              Ends(Call(s, t, StartTerminal, 1 + n + 2), t, if s.head == s.tail then Terminal(true) else NotTerminal)
  {
    var a := Step(s, t, StartTerminal);
    RecvOpen(s, t);
    StepsAdd(a, t, 1, n);
    TestAlone(s, t, SendField, true);
    if s.send != 0 { ThenEmpty(s, a, t, 1 + n); }
  }

  lemma RecvOpen(s: State, t: nat)
    requires AtRest(s) && t < |s.threads| && s.recv == 0
    ensures Call(s, t, StartTerminal, 1) == Go(s, t, FLoad(SendField, true))
  {
    TestAlone(s, t, RecvField, true);
  }

  lemma ThenEmpty(s: State, a: State, t: nat, n: nat)
    requires WellShaped(a) && WellShaped(s) && t < |s.threads| == |a.threads|
    requires Steps(a, t, n) == Go(WithField(s, SendField, 3), t, THead)
    ensures Ends(Steps(a, t, n + 2), t, if s.head == s.tail then Terminal(true) else NotTerminal)
  {
    StepsAdd(a, t, n, 2);
    EmptyTest(WithField(s, SendField, 3), t);
  }

  lemma EmptyTest(s: State, t: nat)
    requires WellShaped(s) && t < |s.threads|
    ensures Ends(Steps(Go(s, t, THead), t, 2), t, if s.head == s.tail then Terminal(true) else NotTerminal)
  {
    var a := Go(s, t, THead);
    var b := Step(a, t, Continue);
    assert Steps(a, t, 2) == Steps(b, t, 1) == Steps(Step(b, t, Continue), t, 0);
  }
}
