/**
 The bounded ring as a step system.  Any number of threads of any number of participants run `reserve`, `claim`,
 the guard operations, close and the terminal test; every step is one atomic access of shared memory (or one
 access to the bytes of a slot by the guard that owns it).  Cursors are positions; LapCursor relates them to the
 stored words.
 */
module Ring {
  import opened Common
  import opened ControlWord
  import opened LapCursor

  type Value = nat  // one queue item; only its identity matters

  // `value` is None while the bytes are uninitialised.  `holder` records which thread's control exchange last
  // took the slot; no step reads it.
  datatype Slot = Slot(turn: nat, control: Control, value: Option<Value>, holder: Option<nat>)

  // What became of one reserved position.
  datatype Entry = Pending | Skipped | Ready(v: Value)

  datatype Field = SendField | RecvField

  datatype Outcome =
    | Nothing | Full | Busy | Closed | NoItem | Done
    | StillOpen | FieldClosed | Terminal(bySend: bool) | NotTerminal

  // Where a thread is.  Each constructor names the access the thread makes next.
  datatype Pc =
    | Idle
    // reserve
    | RSend0 | RRecv0(sendSeen: nat) | RLoadTail
    | RAcquire(tail: nat) | RBlocked(tail: nat)
    | RTurn(tail: nat) | RTail(tail: nat) | RSend(tail: nat) | RRecv(tail: nat, sendSeen: nat)
    | RCommit(tail: nat) | RUndo(tail: nat, err: Outcome)
    // producer guards
    | Reserved(pos: nat) | Written(pos: nat, v: Value) | Staged(pos: nat, v: Value) | Unstaged(pos: nat)
    // claim
    | CRecv | CLoadHead | CRead(head: nat) | CBlocked(head: nat) | CAcquire(head: nat, full: bool)
    | CTurn(head: nat, full: bool) | CHead(head: nat, full: bool) | CCommit(head: nat, full: bool)
    | CUndo(head: nat, full: bool)
    // consumer guard and recycling
    | Claimed(pos: nat) | CTurnStore(pos: nat, full: bool) | CFree(pos: nat, full: bool)
    // finish_field and terminal
    | FLoad(field: Field, term: bool) | FScan(field: Field, k: nat, term: bool)
    | THead | TTail(h: nat)

  // The nondeterminism of a step: what an idle thread starts and what a guard does next.
  datatype Choice =
    | Continue | StartReserve | StartClaim | CloseSend | CloseRecv | StartFinish(field: Field) | StartTerminal
    | Stage(v: Value) | Abandon | Take

  datatype Thread = Thread(owner: nat, pc: Pc, out: Outcome)

  // `log`, `delivered` and `taken` are history: the fate of every reserved position in tail order, the bytes of
  // every claimed complete position in head order, and the bytes each `take` returned.
  datatype State = State(
    cap: nat, head: nat, tail: nat, slots: seq<Slot>, send: nat, recv: nat, threads: seq<Thread>,
    log: seq<Entry>, delivered: seq<Option<Value>>, taken: map<nat, Option<Value>>)

  predicate WellShaped(s: State) {
    s.cap > 0 && |s.slots| == s.cap
  }

  predicate SameShape(s: State, u: State) {
    u.cap == s.cap && |u.slots| == |s.slots| && |u.threads| == |s.threads|
  }

  function Ix(s: State, p: nat): nat
    requires WellShaped(s)
    ensures Ix(s, p) < |s.slots|
  {
    Index(p, s.cap)
  }

  function SlotOf(s: State, p: nat): Slot
    requires WellShaped(s)
  {
    s.slots[Ix(s, p)]
  }

  function WithSlot(s: State, p: nat, slot: Slot): State
    requires WellShaped(s)
  {
    s.(slots := s.slots[Ix(s, p) := slot])
  }

  function Go(s: State, t: nat, pc: Pc): State
    requires t < |s.threads|
  {
    s.(threads := s.threads[t := s.threads[t].(pc := pc)])
  }

  function Finish(s: State, t: nat, out: Outcome): State
    requires t < |s.threads|
  {
    s.(threads := s.threads[t := s.threads[t].(pc := Idle, out := out)])
  }

  function Or1(x: nat): nat { if x % 2 == 0 then x + 1 else x }
  function Or2(x: nat): nat { if (x / 2) % 2 == 0 then x + 2 else x }

  function FieldOf(s: State, f: Field): nat { if f == SendField then s.send else s.recv }

  /** The field test has its answer: report it, or carry on with `recv_closed() || (send_closed() && is_empty())`. */
  function FieldResult(s: State, t: nat, f: Field, term: bool, closed: bool): State
    requires t < |s.threads|
  {
    if !term then Finish(s, t, if closed then FieldClosed else StillOpen)
    else if f == RecvField then (if closed then Finish(s, t, Terminal(false)) else Go(s, t, FLoad(SendField, true)))
    else if closed then Go(s, t, THead)
    else Finish(s, t, NotTerminal)
  }

  predicate OwnsBase(c: Control, f: Field) { if f == SendField then c.Producer? else c.Consumer? }

  function StepIdle(s: State, t: nat, c: Choice): State
    requires t < |s.threads|
    ensures SameShape(s, StepIdle(s, t, c))
  {
    match c
    case StartReserve => Go(s, t, RSend0)
    case StartClaim => Go(s, t, CRecv)
    case CloseSend => s.(send := Or1(s.send))
    case CloseRecv => s.(recv := Or1(s.recv))
    case StartFinish(f) => Go(s, t, FLoad(f, false))
    case StartTerminal => Go(s, t, FLoad(RecvField, true))
    case _ => s
  }

  function StepReserve(s: State, t: nat): State
    requires WellShaped(s) && t < |s.threads|
    ensures SameShape(s, StepReserve(s, t))
  {
    var me := s.threads[t];
    match me.pc
    case RSend0 => Go(s, t, RRecv0(s.send))
    case RRecv0(seen) => if seen != 0 || s.recv != 0 then Finish(s, t, Closed) else Go(s, t, RLoadTail)
    case RLoadTail => Go(s, t, RAcquire(s.tail))
    case RAcquire(tail) =>
      if SlotOf(s, tail).control == Empty
      then Go(WithSlot(s, tail, SlotOf(s, tail).(control := Producer(false, me.owner, Nobody), holder := Some(t))),
              t, RTurn(tail))
      else Go(s, t, RBlocked(tail))
    case RBlocked(tail) => Finish(s, t, if s.head + s.cap == tail then Full else Busy)
    case RTurn(tail) => Go(s, t, if SlotOf(s, tail).turn == tail then RTail(tail) else RUndo(tail, Busy))
    case RTail(tail) => Go(s, t, if s.tail == tail then RSend(tail) else RUndo(tail, Busy))
    case RSend(tail) => Go(s, t, RRecv(tail, s.send))
    case RRecv(tail, seen) => Go(s, t, if seen != 0 || s.recv != 0 then RUndo(tail, Closed) else RCommit(tail))
    case RCommit(tail) =>
      if s.tail == tail then Go(s.(tail := tail + 1, log := s.log + [Pending]), t, Reserved(tail))
      else Go(s, t, RUndo(tail, Busy))
    case RUndo(tail, err) =>
      Finish(WithSlot(s, tail, SlotOf(s, tail).(control := Empty, holder := None)), t, err)
    case _ => s
  }

  function Skip(s: State, t: nat, p: nat): State
    requires WellShaped(s) && t < |s.threads|
    ensures SameShape(s, Skip(s, t, p))
  {
    var s1 := WithSlot(s, p, SlotOf(s, p).(control := Available(false), holder := None));
    Finish(s1.(log := if p < |s.log| then s.log[p := Skipped] else s.log), t, Done)
  }

  function StepProducer(s: State, t: nat, c: Choice): State
    requires WellShaped(s) && t < |s.threads|
    ensures SameShape(s, StepProducer(s, t, c))
  {
    var me := s.threads[t];
    match me.pc
    case Reserved(p) =>
      if c.Stage? then Go(WithSlot(s, p, SlotOf(s, p).(value := Some(c.v))), t, Written(p, c.v))
      else if c.Abandon? then Skip(s, t, p)
      else s
    case Written(p, v) =>
      Go(WithSlot(s, p, SlotOf(s, p).(control := Producer(true, me.owner, Nobody))), t, Staged(p, v))
    case Staged(p, v) =>
      if c.Abandon? then Go(WithSlot(s, p, SlotOf(s, p).(value := None)), t, Unstaged(p))  // cancel: bytes moved out
      else
        var s1 := WithSlot(s, p, SlotOf(s, p).(control := Available(true), holder := None));
        Finish(s1.(log := if p < |s.log| then s.log[p := Ready(v)] else s.log), t, Done)
    case Unstaged(p) => Skip(s, t, p)
    case _ => s
  }

  function StepClaim(s: State, t: nat, c: Choice): State
    requires WellShaped(s) && t < |s.threads|
    ensures SameShape(s, StepClaim(s, t, c))
  {
    var me := s.threads[t];
    match me.pc
    case CRecv => if s.recv != 0 then Finish(s, t, Closed) else Go(s, t, CLoadHead)
    case CLoadHead => Go(s, t, CRead(s.head))
    case CRead(head) =>
      if SlotOf(s, head).control.Available? then Go(s, t, CAcquire(head, SlotOf(s, head).control.complete))
      else Go(s, t, CBlocked(head))
    case CBlocked(head) => Finish(s, t, if s.tail == head then NoItem else Busy)
    case CAcquire(head, full) =>
      if SlotOf(s, head).control == Available(full)
      then Go(WithSlot(s, head, SlotOf(s, head).(control := Consumer(full, me.owner, Nobody), holder := Some(t))),
              t, CTurn(head, full))
      else Finish(s, t, Busy)
    case CTurn(head, full) => Go(s, t, if SlotOf(s, head).turn == head then CHead(head, full) else CUndo(head, full))
    case CHead(head, full) => Go(s, t, if s.head == head then CCommit(head, full) else CUndo(head, full))
    case CCommit(head, full) =>
      if s.head == head
      then Go(s.(head := head + 1,
                 delivered := if full then s.delivered + [SlotOf(s, head).value] else s.delivered),
              t, if full then Claimed(head) else CTurnStore(head, false))
      else Go(s, t, CUndo(head, full))
    case CUndo(head, full) =>
      Finish(WithSlot(s, head, SlotOf(s, head).(control := Available(full), holder := None)), t, Busy)
    case Claimed(p) =>
      var s1 := WithSlot(s, p, SlotOf(s, p).(value := None));  // bytes moved out or dropped
      if c.Take? then Go(s1.(taken := s.taken[p := SlotOf(s, p).value]), t, CTurnStore(p, true))
      else if c.Abandon? then Go(s1, t, CTurnStore(p, true))
      else s
    case CTurnStore(p, full) => Go(WithSlot(s, p, SlotOf(s, p).(turn := p + s.cap)), t, CFree(p, full))
    case CFree(p, full) =>
      Finish(WithSlot(s, p, SlotOf(s, p).(control := Empty, holder := None)), t,
             if full then Done else Busy)
    case _ => s
  }

  function StepClose(s: State, t: nat): State
    requires WellShaped(s) && t < |s.threads|
    ensures SameShape(s, StepClose(s, t))
  {
    match s.threads[t].pc
    case FLoad(f, term) =>
      if FieldOf(s, f) == 1 then Go(s, t, FScan(f, 0, term))
      else FieldResult(s, t, f, term, FieldOf(s, f) == 3)
    case FScan(f, k, term) =>
      if k < s.cap then
        if OwnsBase(s.slots[k].control, f) then FieldResult(s, t, f, term, false)
        else Go(s, t, FScan(f, k + 1, term))
      else
        FieldResult(if f == SendField then s.(send := Or2(s.send)) else s.(recv := Or2(s.recv)), t, f, term, true)
    case THead => Go(s, t, TTail(s.head))
    case TTail(h) => Finish(s, t, if s.tail == h then Terminal(true) else NotTerminal)
    case _ => s
  }

  predicate InReserve(pc: Pc) {
    pc.RSend0? || pc.RRecv0? || pc.RLoadTail? || pc.RAcquire? || pc.RBlocked? || pc.RTurn? || pc.RTail?
    || pc.RSend? || pc.RRecv? || pc.RCommit? || pc.RUndo?
  }

  predicate InProducer(pc: Pc) { pc.Reserved? || pc.Written? || pc.Staged? || pc.Unstaged? }

  predicate InClose(pc: Pc) { pc.FLoad? || pc.FScan? || pc.THead? || pc.TTail? }

  /** One step of thread t; no such thread, no step. */
  function Step(s: State, t: nat, c: Choice): State
    requires WellShaped(s)
    ensures SameShape(s, Step(s, t, c))
  {
    if t >= |s.threads| then s
    else if s.threads[t].pc.Idle? then StepIdle(s, t, c)
    else if InReserve(s.threads[t].pc) then StepReserve(s, t)
    else if InProducer(s.threads[t].pc) then StepProducer(s, t, c)
    else if InClose(s.threads[t].pc) then StepClose(s, t)
    else StepClaim(s, t, c)
  }

  /** An empty open ring with one idle thread per owner given. */
  function Init(cap: nat, owners: seq<nat>): State
    requires cap > 0
  {
    State(cap, 0, 0, seq(cap, i requires 0 <= i => Slot(i, Empty, None, None)), 0, 0,
          seq(|owners|, i requires 0 <= i < |owners| => Thread(owners[i], Idle, Nothing)), [], [], map[])
  }

  datatype Move = Move(t: nat, c: Choice)

  /** The state after a schedule. */
  function Run(s: State, moves: seq<Move>): State
    requires WellShaped(s)
    ensures SameShape(s, Run(s, moves))
    decreases |moves|
  {
    if moves == [] then s
    else Step(Run(s, moves[..|moves| - 1]), moves[|moves| - 1].t, moves[|moves| - 1].c)
  }
}
