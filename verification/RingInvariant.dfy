/** What every step of the ring keeps. */
module RingInvariant {
  import opened Common
  import opened ControlWord
  import opened LapCursor
  import opened Ring

  /** The bytes of the ready entries, in order. */
  ghost function Values(log: seq<Entry>): seq<Option<Value>> {
    if log == [] then []
    else
      var last := log[|log| - 1];
      Values(log[..|log| - 1]) + (if last.Ready? then [Some(last.v)] else [])
  }

  /** The position whose slot a thread has taken, if any. */
  ghost function HeldPos(pc: Pc): Option<nat> {
    match pc
    case RTurn(p) => Some(p) case RTail(p) => Some(p) case RSend(p) => Some(p) case RRecv(p, _) => Some(p)
    case RCommit(p) => Some(p) case RUndo(p, _) => Some(p)
    case Reserved(p) => Some(p) case Written(p, _) => Some(p) case Staged(p, _) => Some(p) case Unstaged(p) => Some(p)
    case CTurn(p, _) => Some(p) case CHead(p, _) => Some(p) case CCommit(p, _) => Some(p) case CUndo(p, _) => Some(p)
    case Claimed(p) => Some(p) case CTurnStore(p, _) => Some(p) case CFree(p, _) => Some(p)
    case _ => None
  }

  ghost predicate Core(s: State) {
    && WellShaped(s)
    && s.head <= s.tail <= s.head + s.cap
    && |s.log| == s.tail
    && (forall p :: 0 <= p < s.head ==> s.log[p] != Pending)
    && s.delivered == Values(s.log[..s.head])
    && (forall p :: p in s.taken ==> p < s.head && s.log[p].Ready? && s.taken[p] == Some(s.log[p].v))
  }

  ghost predicate Matches(s: State, sl: Slot, full: bool)
    requires |s.log| == s.tail
  {
    && s.head <= sl.turn < s.tail
    && (if full then sl.value.Some? && s.log[sl.turn] == Ready(sl.value.value) else s.log[sl.turn] == Skipped)
  }

  /** Thread t has the slot of p under a producer control. */
  ghost predicate HoldsProducer(s: State, t: nat, p: nat, full: bool)
    requires WellShaped(s) && t < |s.threads|
  {
    SlotOf(s, p).holder == Some(t) && SlotOf(s, p).control == Producer(full, s.threads[t].owner, Nobody)
  }

  ghost predicate HoldsConsumer(s: State, t: nat, p: nat, full: bool)
    requires WellShaped(s) && t < |s.threads|
  {
    SlotOf(s, p).holder == Some(t) && SlotOf(s, p).control == Consumer(full, s.threads[t].owner, Nobody)
  }

  ghost predicate ReserverOk(s: State, t: nat)
    requires Core(s) && t < |s.threads|
  {
    match s.threads[t].pc
    case RAcquire(p) => p <= s.tail
    case RBlocked(p) => p <= s.tail
    case RTurn(p) => p <= s.tail && HoldsProducer(s, t, p, false) && SlotOf(s, p).turn >= s.tail
    case RTail(p) => p <= s.tail && HoldsProducer(s, t, p, false) && SlotOf(s, p).turn == p >= s.tail
    case RSend(p) => HoldsProducer(s, t, p, false) && SlotOf(s, p).turn == p == s.tail
    case RRecv(p, _) => HoldsProducer(s, t, p, false) && SlotOf(s, p).turn == p == s.tail
    case RCommit(p) => HoldsProducer(s, t, p, false) && SlotOf(s, p).turn == p == s.tail
    case RUndo(p, _) => HoldsProducer(s, t, p, false) && SlotOf(s, p).turn >= s.tail
    case _ => true
  }

  ghost predicate GuardOk(s: State, t: nat, p: nat, full: bool)
    requires Core(s) && t < |s.threads|
  {
    HoldsProducer(s, t, p, full) && SlotOf(s, p).turn == p && s.head <= p < s.tail && s.log[p] == Pending
  }

  ghost predicate ProducerOk(s: State, t: nat)
    requires Core(s) && t < |s.threads|
  {
    match s.threads[t].pc
    case Reserved(p) => GuardOk(s, t, p, false)
    case Written(p, v) => GuardOk(s, t, p, false) && SlotOf(s, p).value == Some(v)
    case Staged(p, v) => GuardOk(s, t, p, true) && SlotOf(s, p).value == Some(v)
    case Unstaged(p) => GuardOk(s, t, p, true)
    case _ => true
  }

  ghost predicate ClaimerOk(s: State, t: nat)
    requires Core(s) && t < |s.threads|
  {
    match s.threads[t].pc
    case CRead(p) => p <= s.head
    case CBlocked(p) => p <= s.head
    case CAcquire(p, _) => p <= s.head
    case CTurn(p, full) => p <= s.head && HoldsConsumer(s, t, p, full) && Matches(s, SlotOf(s, p), full)
    case CHead(p, full) =>
      p <= s.head && HoldsConsumer(s, t, p, full) && Matches(s, SlotOf(s, p), full) && SlotOf(s, p).turn == p
    case CCommit(p, full) =>
      p == s.head && HoldsConsumer(s, t, p, full) && Matches(s, SlotOf(s, p), full) && SlotOf(s, p).turn == p
    case CUndo(p, full) => HoldsConsumer(s, t, p, full) && Matches(s, SlotOf(s, p), full)
    case Claimed(p) =>
      && HoldsConsumer(s, t, p, true) && SlotOf(s, p).turn == p < s.head && p !in s.taken
      && s.log[p].Ready? && SlotOf(s, p).value == Some(s.log[p].v)
    case CTurnStore(p, full) => HoldsConsumer(s, t, p, full) && SlotOf(s, p).turn == p < s.head
    case CFree(p, full) =>
      HoldsConsumer(s, t, p, full) && SlotOf(s, p).turn == p + s.cap >= s.tail && p < s.head
    case _ => true
  }

  ghost predicate ThreadOk(s: State, t: nat)
    requires Core(s) && t < |s.threads|
  {
    ReserverOk(s, t) && ProducerOk(s, t) && ClaimerOk(s, t)
  }

  ghost predicate Untaken(s: State, sl: Slot)
    requires |s.log| == s.tail
  {
    || (sl.control == Empty && sl.turn >= s.tail)
    || (sl.control.Available? && Matches(s, sl, sl.control.complete))
  }

  ghost predicate SlotOk(s: State, i: nat)
    requires Core(s) && i < |s.slots|
  {
    var sl := s.slots[i];
    && Index(sl.turn, s.cap) == i
    && s.tail <= sl.turn + s.cap
    && (sl.turn >= s.tail ==> sl.turn < s.head + s.cap)
    && (sl.holder == None ==> Untaken(s, sl))
    && (sl.holder.Some? ==>
          && sl.holder.value < |s.threads|
          && HeldPos(s.threads[sl.holder.value].pc).Some?
          && Index(HeldPos(s.threads[sl.holder.value].pc).value, s.cap) == i)
  }

  ghost predicate Slots(s: State)
    requires Core(s)
  {
    forall i :: 0 <= i < |s.slots| ==> SlotOk(s, i)
  }

  ghost predicate Threads(s: State)
    requires Core(s)
  {
    forall t :: 0 <= t < |s.threads| ==> ThreadOk(s, t)
  }

  ghost predicate Inv(s: State) { Core(s) && Slots(s) && Threads(s) }

  lemma InitInv(cap: nat, owners: seq<nat>)
    requires cap > 0
    ensures Inv(Init(cap, owners))
  {}

  /** A thread that has taken a slot is its recorded holder. */
  lemma HolderOf(s: State, t: nat)
    requires Inv(s) && t < |s.threads| && HeldPos(s.threads[t].pc).Some?
    ensures SlotOf(s, HeldPos(s.threads[t].pc).value).holder == Some(t)
  {
    assert ThreadOk(s, t);
  }

  /** s' differs from s at most in thread t, in slot i, and in history of the positions of slot i. */
  ghost predicate Local(s: State, s': State, t: nat, i: nat)
    requires WellShaped(s) && t < |s.threads| && i < |s.slots|
  {
    && WellShaped(s') && s'.cap == s.cap && s'.head == s.head && s'.tail == s.tail
    && |s'.threads| == |s.threads|
    && (forall u :: 0 <= u < |s.threads| && u != t ==> s'.threads[u] == s.threads[u])
    && (forall j :: 0 <= j < |s.slots| && j != i ==> s'.slots[j] == s.slots[j])
    && |s'.log| == |s.log|
    && (forall p :: 0 <= p < |s.log| && Index(p, s.cap) != i ==> s'.log[p] == s.log[p])
    && (forall p: nat :: Index(p, s.cap) != i ==> (p in s'.taken <==> p in s.taken))
  }

  /** A local step leaves every other thread and slot in order. */
  lemma Frame(s: State, s': State, t: nat, i: nat)
    requires Inv(s) && t < |s.threads| && i < |s.slots|
    requires Local(s, s', t, i) && Core(s')
    requires s.slots[i].holder == None || s.slots[i].holder == Some(t)
    requires HeldPos(s.threads[t].pc).Some? ==> Index(HeldPos(s.threads[t].pc).value, s.cap) == i
    ensures forall u :: 0 <= u < |s.threads| && u != t ==> ThreadOk(s', u)
    ensures forall j :: 0 <= j < |s.slots| && j != i ==> SlotOk(s', j)
  {
    forall u | 0 <= u < |s.threads| && u != t
      ensures ThreadOk(s', u)
    {
      FrameThread(s, s', t, i, u);
    }
    forall j | 0 <= j < |s.slots| && j != i
      ensures SlotOk(s', j)
    {
      assert SlotOk(s, j);
      if s.slots[j].holder == Some(t) { assert false; }
    }
  }

  lemma FrameThread(s: State, s': State, t: nat, i: nat, u: nat)
    requires Inv(s) && t < |s.threads| && i < |s.slots|
    requires Local(s, s', t, i) && Core(s')
    requires s.slots[i].holder == None || s.slots[i].holder == Some(t)
    requires u < |s.threads| && u != t
    ensures ThreadOk(s', u)
  {
    assert ThreadOk(s, u);
    var held := HeldPos(s.threads[u].pc);
    if held.Some? {
      HolderOf(s, u);
      assert SlotOk(s, Ix(s, held.value));
    }
    KeptReserver(s, s', u);
    KeptProducer(s, s', t, i, u);
    KeptClaimer(s, s', t, i, u);
  }

  /** The slot a thread holds is not slot i and its record did not change. */
  ghost predicate Elsewhere(s: State, s': State, u: nat)
    requires WellShaped(s) && WellShaped(s') && u < |s.threads| && u < |s'.threads|
  {
    && s'.threads[u] == s.threads[u] && s'.cap == s.cap && s'.head == s.head && s'.tail == s.tail
    && (HeldPos(s.threads[u].pc).Some? ==>
          SlotOf(s', HeldPos(s.threads[u].pc).value) == SlotOf(s, HeldPos(s.threads[u].pc).value))
  }

  lemma KeptReserver(s: State, s': State, u: nat)
    requires Core(s) && Core(s') && u < |s.threads| && u < |s'.threads| && Elsewhere(s, s', u) && ReserverOk(s, u)
    ensures ReserverOk(s', u)
  {}

  lemma KeptProducer(s: State, s': State, t: nat, i: nat, u: nat)
    requires Core(s) && Core(s') && t < |s.threads| && i < |s.slots| && Local(s, s', t, i)
    requires u < |s.threads| && u < |s'.threads| && Elsewhere(s, s', u) && ProducerOk(s, u)
    requires HeldPos(s.threads[u].pc).Some? ==> Ix(s, HeldPos(s.threads[u].pc).value) != i
    ensures ProducerOk(s', u)
  {}

  lemma KeptClaimer(s: State, s': State, t: nat, i: nat, u: nat)
    requires Core(s) && Core(s') && t < |s.threads| && i < |s.slots| && Local(s, s', t, i)
    requires u < |s.threads| && u < |s'.threads| && Elsewhere(s, s', u) && ClaimerOk(s, u)
    requires HeldPos(s.threads[u].pc).Some? ==>
               Ix(s, HeldPos(s.threads[u].pc).value) != i
               && Index(SlotOf(s, HeldPos(s.threads[u].pc).value).turn, s.cap) == Ix(s, HeldPos(s.threads[u].pc).value)
    ensures ClaimerOk(s', u)
  {}

  /** Assembles the invariant from the frame and the two changed parts. */
  lemma Assemble(s: State, s': State, t: nat, i: nat)
    requires Inv(s) && t < |s.threads| && i < |s.slots|
    requires Local(s, s', t, i) && Core(s')
    requires s.slots[i].holder == None || s.slots[i].holder == Some(t)
    requires HeldPos(s.threads[t].pc).Some? ==> Index(HeldPos(s.threads[t].pc).value, s.cap) == i
    requires ThreadOk(s', t) && SlotOk(s', i)
    ensures Inv(s')
  {
    Frame(s, s', t, i);
  }
}
