/** What callers of the ring may rely on in every interleaving. */
module RingTheorems {
  import opened Common
  import opened ControlWord
  import opened LapCursor
  import opened Ring
  import opened RingInvariant
  import opened RingSteps

  /** The specification: a bounded queue of reservations, resolved in any order and consumed in order. */
  datatype Fifo = Fifo(cap: nat, entries: seq<Entry>, head: nat, out: seq<Option<Value>>)

  ghost predicate FifoReserve(a: Fifo, b: Fifo) {
    |a.entries| < a.head + a.cap && b == a.(entries := a.entries + [Pending])
  }

  ghost predicate FifoResolve(a: Fifo, b: Fifo, p: nat) {
    && p < |a.entries| && a.entries[p] == Pending && p < |b.entries| && b.entries[p] != Pending
    && b == a.(entries := a.entries[p := b.entries[p]])
  }

  ghost predicate FifoConsume(a: Fifo, b: Fifo) {
    && a.head < |a.entries| && a.entries[a.head] != Pending
    && b == a.(head := a.head + 1,
               out := match a.entries[a.head] case Ready(v) => a.out + [Some(v)] case _ => a.out)
  }

  ghost predicate FifoNext(a: Fifo, b: Fifo) {
    b == a || FifoReserve(a, b) || FifoConsume(a, b) || exists p: nat :: FifoResolve(a, b, p)
  }

  ghost function Abs(s: State): Fifo { Fifo(s.cap, s.log, s.head, s.delivered) }

  /** What thread t may change of the bytes and of what was taken. */
  ghost predicate Gentle(s: State, s': State, t: nat) {
    && |s'.slots| == |s.slots|
    && (forall i :: 0 <= i < |s.slots| && s.slots[i].holder != Some(t) ==> s'.slots[i].value == s.slots[i].value)
    && (forall p :: p in s.taken ==> p in s'.taken && s'.taken[p] == s.taken[p])
  }

  lemma ReserveRefines(s: State, t: nat)
    requires Inv(s) && t < |s.threads| && InReserve(s.threads[t].pc)
    ensures var s' := StepReserve(s, t); FifoNext(Abs(s), Abs(s')) && Gentle(s, s', t)
  {
    var s' := StepReserve(s, t);
    if s.threads[t].pc.RCommit? {
      assert ThreadOk(s, t);
      assert SlotOk(s, Ix(s, s.tail));
      assert FifoReserve(Abs(s), Abs(s'));
    }
  }

  lemma ProducerRefines(s: State, t: nat, c: Choice)
    requires Inv(s) && t < |s.threads| && InProducer(s.threads[t].pc)
    ensures var s' := StepProducer(s, t, c); FifoNext(Abs(s), Abs(s')) && Gentle(s, s', t)
  {
    var s' := StepProducer(s, t, c);
    assert ThreadOk(s, t);
    if s'.log != s.log {
      assert FifoResolve(Abs(s), Abs(s'), s.threads[t].pc.pos);
    }
  }

  lemma ClaimRefines(s: State, t: nat, c: Choice)
    requires Inv(s) && t < |s.threads|
    requires !s.threads[t].pc.Idle? && !InReserve(s.threads[t].pc) && !InProducer(s.threads[t].pc)
    requires !InClose(s.threads[t].pc)
    ensures var s' := StepClaim(s, t, c); FifoNext(Abs(s), Abs(s')) && Gentle(s, s', t)
  {
    var s' := StepClaim(s, t, c);
    if s.threads[t].pc.CCommit? {
      assert ThreadOk(s, t);
      assert FifoConsume(Abs(s), Abs(s'));
    } else if s.threads[t].pc.Claimed? {
      assert ThreadOk(s, t);
    }
  }

  lemma CloseRefines(s: State, t: nat)
    requires Inv(s) && t < |s.threads| && InClose(s.threads[t].pc)
    ensures var s' := StepClose(s, t); Abs(s) == Abs(s') && Gentle(s, s', t)
  {}

  /** Every step of every thread is one step of the bounded queue, or no step of it. */
  lemma StepRefines(s: State, t: nat, c: Choice)
    requires Inv(s)
    ensures FifoNext(Abs(s), Abs(Step(s, t, c))) && Gentle(s, Step(s, t, c), t)
  {
    if t < |s.threads| {
      var pc := s.threads[t].pc;
      if pc.Idle? { assert Abs(s) == Abs(StepIdle(s, t, c)); }
      else if InReserve(pc) { ReserveRefines(s, t); }
      else if InProducer(pc) { ProducerRefines(s, t, c); }
      else if InClose(pc) { CloseRefines(s, t); }
      else { ClaimRefines(s, t, c); }
    }
  }

  /**
   The ring is a bounded FIFO in every interleaving: the window never exceeds the capacity, what was claimed in
   head order is exactly what was published among the claimed positions in tail order, and no position before the
   head is unresolved.
   */
  lemma BoundedFifo(cap: nat, owners: seq<nat>, moves: seq<Move>)
    requires cap > 0
    ensures var s := Run(Init(cap, owners), moves);
            && s.head <= s.tail <= s.head + cap
            && |s.log| == s.tail
            && s.delivered == Values(s.log[..s.head])
            && (forall p :: 0 <= p < s.head ==> s.log[p] != Pending)
  {
    InitInv(cap, owners);
    RunInv(Init(cap, owners), moves);
  }

  /** No two threads ever have the same slot, so at most one party touches a slot's bytes. */
  lemma ExclusiveSlots(cap: nat, owners: seq<nat>, moves: seq<Move>, t: nat, u: nat)
    requires cap > 0 && t < |owners| && u < |owners| && t != u
    ensures var s := Run(Init(cap, owners), moves);
            && |s.threads| == |owners|
            && (HeldPos(s.threads[t].pc).Some? && HeldPos(s.threads[u].pc).Some? ==>
                  Index(HeldPos(s.threads[t].pc).value, cap) != Index(HeldPos(s.threads[u].pc).value, cap))
  {
    InitInv(cap, owners);
    RunInv(Init(cap, owners), moves);
    var s := Run(Init(cap, owners), moves);
    if HeldPos(s.threads[t].pc).Some? && HeldPos(s.threads[u].pc).Some? {
      HolderOf(s, t);
      HolderOf(s, u);
    }
  }

  /** The bytes of a slot are written, moved out or dropped only by the thread that has it. */
  lemma BytesNeedTheSlot(s: State, t: nat, c: Choice, i: nat)
    requires Inv(s) && t < |s.threads| && i < |s.slots|
    requires i < |Step(s, t, c).slots| && Step(s, t, c).slots[i].value != s.slots[i].value
    ensures s.slots[i].holder == Some(t)
  {
    StepRefines(s, t, c);
  }

  /** A cursor exchange whose recheck passed never fails. */
  lemma CommitNeverFails(cap: nat, owners: seq<nat>, moves: seq<Move>, t: nat, c: Choice)
    requires cap > 0 && t < |owners|
    ensures var s := Run(Init(cap, owners), moves);
            && |s.threads| == |owners|
            && (s.threads[t].pc.RCommit? ==> Step(s, t, c).threads[t].pc == Reserved(s.tail))
            && (s.threads[t].pc.CCommit? ==> Step(s, t, c).head == s.head + 1)
  {
    InitInv(cap, owners);
    RunInv(Init(cap, owners), moves);
    assert ThreadOk(Run(Init(cap, owners), moves), t);
  }

  /** Each record is taken at most once, and what is taken is the value staged at that position. */
  lemma TakeIsExactlyOnce(s: State, t: nat)
    requires Inv(s) && t < |s.threads| && s.threads[t].pc.Claimed?
    ensures var p := s.threads[t].pc.pos;
            && p !in s.taken && p < s.head && s.log[p].Ready?
            && Step(s, t, Take).taken == s.taken[p := Some(s.log[p].v)]
  {
    assert ThreadOk(s, t);
  }

  /** What s says of resolved positions and taken records, u says too. */
  ghost predicate Remembers(s: State, u: State) {
    && s.head <= u.head && s.tail <= u.tail
    && (forall p :: 0 <= p < |s.log| && s.log[p] != Pending ==> p < |u.log| && u.log[p] == s.log[p])
    && (forall p :: p in s.taken ==> p in u.taken && u.taken[p] == s.taken[p])
  }

  lemma StepRemembers(s: State, t: nat, c: Choice)
    requires Inv(s)
    ensures Remembers(s, Step(s, t, c))
  {
    StepInv(s, t, c);
    StepRefines(s, t, c);
  }

  /** A resolved position keeps its fate and a taken record its bytes for the rest of every run. */
  lemma {:induction false} HistoryIsStable(s: State, moves: seq<Move>)
    requires Inv(s)
    ensures Remembers(s, Run(s, moves))
    decreases |moves|
  {
    if moves != [] {
      var m := moves[|moves| - 1];
      var u := Run(s, moves[..|moves| - 1]);
      RunInv(s, moves[..|moves| - 1]);
      HistoryIsStable(s, moves[..|moves| - 1]);
      StepRemembers(u, m.t, m.c);
      RemembersChains(s, u, Step(u, m.t, m.c));
    }
  }

  lemma RemembersChains(s: State, u: State, w: State)
    requires Remembers(s, u) && Remembers(u, w)
    ensures Remembers(s, w)
  {}

  /** `Full` is exact when it is returned, however old the first tail load was; and a current load reports it. */
  lemma FullIsExact(s: State, t: nat, c: Choice)
    requires Inv(s) && t < |s.threads| && s.threads[t].pc.RBlocked?
    ensures Step(s, t, c).threads[t].out == Full <==>
            s.tail == s.head + s.cap && s.threads[t].pc.tail == s.tail
  {
    assert ThreadOk(s, t);
  }

  /** `Empty` is exact when it is returned, however old the first head load was; and a current load reports it. */
  lemma EmptyIsExact(s: State, t: nat, c: Choice)
    requires Inv(s) && t < |s.threads| && s.threads[t].pc.CBlocked?
    ensures Step(s, t, c).threads[t].out == NoItem <==>
            s.head == s.tail && s.threads[t].pc.head == s.head
  {
    assert ThreadOk(s, t);
  }

  /** In a full ring a reserver with a current tail is blocked at the slot, so it goes on to report Full. */
  lemma FullBlocksAcquire(s: State, t: nat, c: Choice)
    requires Inv(s) && s.tail == s.head + s.cap && t < |s.threads| && s.threads[t].pc == RAcquire(s.tail)
    ensures Step(s, t, c) == Go(s, t, RBlocked(s.tail))
  {
    IndexNextLap(s.head, s.cap);
    var i := Ix(s, s.tail);
    assert SlotOk(s, i);
    if s.slots[i].holder.Some? { assert ThreadOk(s, s.slots[i].holder.value); }
  }
}
