/**
 Ownership transfer through one queue and one pool, with deaths and repairs.  The guard operations of the queue
 (`reserve`, `claim` and the recycling of a slot) are single steps; the pool's compare-exchanges are steps of their
 own, so a participant may die between detaching and publishing, between taking over and taking, between marking a
 slot for repair and resolving its token, and between that and the slot's new words.
 */
module Transfer {
  import opened Common
  import opened ControlWord
  import opened LapCursor
  import PoolWord
  import Repair

  datatype Token = Token(block: nat, generation: nat)

  // `holder` is history: the thread whose guard or repair the slot is under.
  datatype Slot = Slot(turn: nat, control: Control, token: Option<Token>, holder: Option<nat>)

  // `place` is history: where the authority over an allocated block is.
  datatype Place = Nowhere | InHand(t: nat) | InSlot(i: nat)

  datatype Block = Block(word: PoolWord.Word, place: Place)

  // The queue guard a thread has.
  datatype Hold =
    | NoHold
    | Reserved(pos: nat) | Staged(pos: nat) | Parted(pos: nat)  // Parted: detached, not yet published
    | Claimed(pos: nat)
    | Taken(pos: nat) | Emptied(pos: nat)  // token taken over or freed, not yet recycled
    | Fixing(i: nat, resolved: bool)

  // A thread of a participant, with the allocation handle it has.
  datatype Thread = Thread(owner: nat, alloc: Option<Token>, hold: Hold)

  // What became of a published record.
  datatype Fate = Waiting | Held | Delivered(token: Token) | Drained | LostWith(dead: nat)

  datatype State = State(
    cap: nat, head: nat, tail: nat, slots: seq<Slot>, blocks: seq<Block>, threads: seq<Thread>, dead: set<nat>,
    record: map<nat, Token>, fate: map<nat, Fate>)

  datatype Move =
    | Allocate(t: nat, b: nat) | Free(t: nat)
    | Reserve(t: nat) | Stage(t: nat) | Detach(t: nat) | Publish(t: nat) | Abandon(t: nat)
    | Claim(t: nat) | Takeover(t: nat) | Take(t: nat) | Discharge(t: nat) | Drain(t: nat)
    | Crash(p: nat)
    | Tag(t: nat, i: nat, p: nat) | Resolve(t: nat) | Store(t: nat)
    | ReapBlock(b: nat, p: nat) | Rejoin(p: nat)

  predicate WellShaped(s: State) { s.cap > 0 && |s.slots| == s.cap }

  function Ix(s: State, p: nat): nat
    requires WellShaped(s)
    ensures Ix(s, p) < |s.slots|
  {
    Index(p, s.cap)
  }

  function At(s: State, p: nat): Slot
    requires WellShaped(s)
  {
    s.slots[Ix(s, p)]
  }

  predicate Live(s: State, t: nat) { t < |s.threads| && s.threads[t].owner !in s.dead }

  function SetSlot(s: State, i: nat, x: Slot): State
    requires i < |s.slots|
  {
    s.(slots := s.slots[i := x])
  }

  function SetBlock(s: State, b: nat, x: Block): State
    requires b < |s.blocks|
  {
    s.(blocks := s.blocks[b := x])
  }

  function SetThread(s: State, t: nat, alloc: Option<Token>, hold: Hold): State
    requires t < |s.threads|
  {
    s.(threads := s.threads[t := s.threads[t].(alloc := alloc, hold := hold)])
  }

  // The pool.

  predicate CanAllocate(s: State, t: nat, b: nat) {
    && Live(s, t) && s.threads[t].alloc == None && b < |s.blocks|
    && s.blocks[b].word.Free? && s.blocks[b].word.generation < PoolWord.MAX_GENERATION
  }

  function DoAllocate(s: State, t: nat, b: nat): State
    requires CanAllocate(s, t, b)
  {
    var g := s.blocks[b].word.generation + 1;
    SetThread(SetBlock(s, b, Block(PoolWord.Local(g, s.threads[t].owner), InHand(t))), t, Some(Token(b, g)),
              s.threads[t].hold)
  }

  predicate CanFree(s: State, t: nat) {
    && Live(s, t) && s.threads[t].alloc.Some? && s.threads[t].alloc.value.block < |s.blocks|
    && !s.threads[t].hold.Staged? && !s.threads[t].hold.Taken?
  }

  function DoFree(s: State, t: nat): State
    requires CanFree(s, t)
  {
    var k := s.threads[t].alloc.value;
    SetThread(SetBlock(s, k.block, Block(PoolWord.Free(k.generation), Nowhere)), t, None, s.threads[t].hold)
  }

  // Producing.

  predicate CanReserve(s: State, t: nat)
    requires WellShaped(s)
  {
    Live(s, t) && s.threads[t].hold == NoHold && At(s, s.tail).control == Empty && At(s, s.tail).turn == s.tail
  }

  function DoReserve(s: State, t: nat): State
    requires WellShaped(s) && CanReserve(s, t)
  {
    var x := At(s, s.tail).(control := Producer(false, s.threads[t].owner, Nobody), holder := Some(t));
    SetThread(SetSlot(s, Ix(s, s.tail), x).(tail := s.tail + 1), t, s.threads[t].alloc, Reserved(s.tail))
  }

  predicate CanStage(s: State, t: nat) {
    Live(s, t) && s.threads[t].hold.Reserved? && s.threads[t].alloc.Some?
  }

  function DoStage(s: State, t: nat): State
    requires WellShaped(s) && CanStage(s, t)
  {
    var pos := s.threads[t].hold.pos;
    var x := At(s, pos).(control := Producer(true, s.threads[t].owner, Nobody), token := s.threads[t].alloc);
    SetThread(SetSlot(s, Ix(s, pos), x), t, s.threads[t].alloc, Staged(pos))
  }

  predicate CanDetach(s: State, t: nat) {
    Live(s, t) && s.threads[t].hold.Staged? && s.threads[t].alloc.Some? && s.threads[t].alloc.value.block < |s.blocks|
  }

  function DoDetach(s: State, t: nat): State
    requires WellShaped(s) && CanDetach(s, t)
  {
    var pos, k := s.threads[t].hold.pos, s.threads[t].alloc.value;
    SetThread(SetBlock(s, k.block, Block(PoolWord.Detached(k.generation), InSlot(Ix(s, pos)))), t, None, Parted(pos))
  }

  predicate CanPublish(s: State, t: nat)
    requires WellShaped(s)
  {
    Live(s, t) && s.threads[t].hold.Parted? && At(s, s.threads[t].hold.pos).token.Some?
  }

  function DoPublish(s: State, t: nat): State
    requires WellShaped(s) && CanPublish(s, t)
  {
    var pos := s.threads[t].hold.pos;
    var x := At(s, pos).(control := Available(true), holder := None);
    SetThread(SetSlot(s, Ix(s, pos), x).(record := s.record[pos := x.token.value], fate := s.fate[pos := Waiting]),
              t, s.threads[t].alloc, NoHold)
  }

  predicate CanAbandon(s: State, t: nat) { Live(s, t) && (s.threads[t].hold.Reserved? || s.threads[t].hold.Staged?) }

  function DoAbandon(s: State, t: nat): State
    requires WellShaped(s) && CanAbandon(s, t)
  {
    var pos := s.threads[t].hold.pos;
    var x := At(s, pos).(control := Available(false), token := None, holder := None);
    SetThread(SetSlot(s, Ix(s, pos), x), t, s.threads[t].alloc, NoHold)
  }

  // Consuming.

  predicate CanClaim(s: State, t: nat)
    requires WellShaped(s)
  {
    Live(s, t) && s.threads[t].hold == NoHold && At(s, s.head).control.Available? && At(s, s.head).turn == s.head
  }

  function DoClaim(s: State, t: nat): State
    requires WellShaped(s) && CanClaim(s, t)
  {
    var i := Ix(s, s.head);
    var s1 := s.(head := s.head + 1);
    if s.slots[i].control.complete then
      var x := s.slots[i].(control := Consumer(true, s.threads[t].owner, Nobody), holder := Some(t));
      SetThread(SetSlot(s1, i, x).(fate := s.fate[s.head := Held]), t, s.threads[t].alloc, Claimed(s.head))
    else
      SetSlot(s1, i, Slot(s.head + s.cap, Empty, None, None))
  }

  predicate CanTakeover(s: State, t: nat)
    requires WellShaped(s)
  {
    && Live(s, t) && s.threads[t].hold.Claimed? && s.threads[t].alloc == None
    && var k := At(s, s.threads[t].hold.pos).token;
       k.Some? && k.value.block < |s.blocks| && s.blocks[k.value.block].word == PoolWord.Detached(k.value.generation)
  }

  function DoTakeover(s: State, t: nat): State
    requires WellShaped(s) && CanTakeover(s, t)
  {
    var pos := s.threads[t].hold.pos;
    var k := At(s, pos).token.value;
    SetThread(SetBlock(s, k.block, Block(PoolWord.Local(k.generation, s.threads[t].owner), InHand(t))), t, Some(k),
              Taken(pos))
  }

  predicate CanTake(s: State, t: nat) { Live(s, t) && s.threads[t].hold.Taken? && s.threads[t].alloc.Some? }

  function DoTake(s: State, t: nat): State
    requires WellShaped(s) && CanTake(s, t)
  {
    var pos := s.threads[t].hold.pos;
    SetThread(SetSlot(s, Ix(s, pos), Slot(pos + s.cap, Empty, None, None))
                .(fate := s.fate[pos := Delivered(s.threads[t].alloc.value)]),
              t, s.threads[t].alloc, NoHold)
  }

  // Draining a queue that is being closed: the claimed record's block is freed, then its slot recycled.

  predicate CanDischarge(s: State, t: nat)
    requires WellShaped(s)
  {
    && Live(s, t) && s.threads[t].hold.Claimed?
    && var k := At(s, s.threads[t].hold.pos).token; k.Some? && k.value.block < |s.blocks|
  }

  /** The answer of releasing the claimed token for nobody in particular, and the word that leaves. */
  function Discharged(s: State, t: nat): (bool, PoolWord.Word)
    requires WellShaped(s) && CanDischarge(s, t)
  {
    var k := At(s, s.threads[t].hold.pos).token.value;
    PoolWord.Release(s.blocks[k.block].word, k.generation, None)
  }

  function DoDischarge(s: State, t: nat): State
    requires WellShaped(s) && CanDischarge(s, t)
  {
    var pos := s.threads[t].hold.pos;
    var b, word := At(s, pos).token.value.block, Discharged(s, t).1;
    if !Discharged(s, t).0 then s
    else SetThread(SetBlock(s, b, Block(word, if word == s.blocks[b].word then s.blocks[b].place else Nowhere)),
                   t, s.threads[t].alloc, Emptied(pos))
  }

  predicate CanDrain(s: State, t: nat) { Live(s, t) && s.threads[t].hold.Emptied? }

  function DoDrain(s: State, t: nat): State
    requires WellShaped(s) && CanDrain(s, t)
  {
    var pos := s.threads[t].hold.pos;
    SetThread(SetSlot(s, Ix(s, pos), Slot(pos + s.cap, Empty, None, None)).(fate := s.fate[pos := Drained]),
              t, s.threads[t].alloc, NoHold)
  }

  // Death, repair and return.

  function Cleared(s: State, p: nat): seq<Thread> {
    seq(|s.threads|, t requires 0 <= t < |s.threads| =>
      if s.threads[t].owner == p then Thread(p, None, NoHold) else s.threads[t])
  }

  function DoCrash(s: State, p: nat): State { s.(dead := s.dead + {p}, threads := Cleared(s, p)) }

  predicate CanTag(s: State, t: nat, i: nat, p: nat) {
    && Live(s, t) && s.threads[t].hold == NoHold && p in s.dead && i < |s.slots|
    && Repair.TagFor(s.slots[i].control, p, s.threads[t].owner).Tagged?
    && Repair.TagFor(s.slots[i].control, p, s.threads[t].owner).next != s.slots[i].control
  }

  function DoTag(s: State, t: nat, i: nat, p: nat): State
    requires CanTag(s, t, i, p)
  {
    var next := Repair.TagFor(s.slots[i].control, p, s.threads[t].owner).next;
    SetThread(SetSlot(s, i, s.slots[i].(control := next, holder := Some(t))), t, s.threads[t].alloc, Fixing(i, false))
  }

  predicate CanPlan(s: State, t: nat) {
    && Live(s, t) && s.threads[t].hold.Fixing? && s.threads[t].hold.i < |s.slots|
    && var c := s.slots[s.threads[t].hold.i].control; c.Producer? || c.Consumer?
  }

  function PlanOf(s: State, t: nat): Repair.Plan
    requires CanPlan(s, t)
  {
    var x := s.slots[s.threads[t].hold.i];
    Repair.PlanFor(Repair.Cell(x.turn, x.control), s.head, s.tail, s.cap)
  }

  predicate CanResolve(s: State, t: nat) {
    && CanPlan(s, t) && !s.threads[t].hold.resolved && PlanOf(s, t).Plan?
    && var k := s.slots[s.threads[t].hold.i].token;
       PlanOf(s, t).release ==> k.Some? && k.value.block < |s.blocks|
  }

  /** The answer of the token's release and the word it leaves. */
  function Released(s: State, t: nat): (bool, PoolWord.Word)
    requires CanResolve(s, t) && PlanOf(s, t).release
  {
    var x := s.slots[s.threads[t].hold.i];
    PoolWord.Release(s.blocks[x.token.value.block].word, x.token.value.generation, Some(x.control.source))
  }

  function DoResolve(s: State, t: nat): State
    requires CanResolve(s, t)
  {
    var i := s.threads[t].hold.i;
    if !PlanOf(s, t).release then SetThread(s, t, s.threads[t].alloc, Fixing(i, true))
    else if !Released(s, t).0 then s
    else
      var b := s.slots[i].token.value.block;
      var word := Released(s, t).1;
      SetThread(SetBlock(s, b, Block(word, if word == s.blocks[b].word then s.blocks[b].place else Nowhere)),
                t, s.threads[t].alloc, Fixing(i, true))
  }

  predicate CanStore(s: State, t: nat) { CanPlan(s, t) && s.threads[t].hold.resolved && PlanOf(s, t).Plan? }

  function DoStore(s: State, t: nat): State
    requires CanStore(s, t)
  {
    var i := s.threads[t].hold.i;
    var x, plan := s.slots[i], PlanOf(s, t);
    var token := if plan.control.Available? && plan.control.complete then x.token else None;
    var fate := if x.control.Consumer?
    && plan.control.Empty? then s.fate[x.turn := LostWith(x.control.source)] else s.fate;
    SetThread(SetSlot(s, i, Slot(plan.turn, plan.control, token, None)).(fate := fate), t, s.threads[t].alloc, NoHold)
  }

  predicate CanReap(s: State, b: nat, p: nat) {
    p in s.dead && b < |s.blocks| && s.blocks[b].word.Local? && s.blocks[b].word.owner == p
  }

  function DoReap(s: State, b: nat, p: nat): State
    requires CanReap(s, b, p)
  {
    SetBlock(s, b, Block(PoolWord.Reap(s.blocks[b].word, p), Nowhere))
  }

  /** No shared word carries p's number: what a completed reap guarantees before the number is given out again. */
  predicate Forgotten(s: State, p: nat) {
    && (forall i :: 0 <= i < |s.slots| ==> !s.slots[i].control.Names(p))
    && (forall b :: 0 <= b < |s.blocks| ==> !(s.blocks[b].word.Local? && s.blocks[b].word.owner == p))
  }

  /** One step; a move that is not enabled changes nothing. */
  function Step(s: State, m: Move): State
    requires WellShaped(s)
    ensures WellShaped(Step(s, m))
  {
    match m
    case Allocate(t, b) => if CanAllocate(s, t, b) then DoAllocate(s, t, b) else s
    case Free(t) => if CanFree(s, t) then DoFree(s, t) else s
    case Reserve(t) => if CanReserve(s, t) then DoReserve(s, t) else s
    case Stage(t) => if CanStage(s, t) then DoStage(s, t) else s
    case Detach(t) => if CanDetach(s, t) then DoDetach(s, t) else s
    case Publish(t) => if CanPublish(s, t) then DoPublish(s, t) else s
    case Abandon(t) => if CanAbandon(s, t) then DoAbandon(s, t) else s
    case Claim(t) => if CanClaim(s, t) then DoClaim(s, t) else s
    case Takeover(t) => if CanTakeover(s, t) then DoTakeover(s, t) else s
    case Take(t) => if CanTake(s, t) then DoTake(s, t) else s
    case Discharge(t) => if CanDischarge(s, t) then DoDischarge(s, t) else s
    case Drain(t) => if CanDrain(s, t) then DoDrain(s, t) else s
    case Crash(p) => DoCrash(s, p)
    case Tag(t, i, p) => if CanTag(s, t, i, p) then DoTag(s, t, i, p) else s
    case Resolve(t) => if CanResolve(s, t) then DoResolve(s, t) else s
    case Store(t) => if CanStore(s, t) then DoStore(s, t) else s
    case ReapBlock(b, p) => if CanReap(s, b, p) then DoReap(s, b, p) else s
    case Rejoin(p) => if p in s.dead && Forgotten(s, p) then s.(dead := s.dead - {p}) else s
  }

  /** An empty queue, a pool of free blocks and one thread without guards per owner given. */
  function Init(cap: nat, blocks: nat, owners: seq<nat>): State
    requires cap > 0
  {
    State(cap, 0, 0, seq(cap, i requires 0 <= i => Slot(i, Empty, None, None)),
          seq(blocks, _ => Block(PoolWord.Free(0), Nowhere)),
          seq(|owners|, i requires 0 <= i < |owners| => Thread(owners[i], None, NoHold)), {}, map[], map[])
  }

  function Run(s: State, moves: seq<Move>): State
    requires WellShaped(s)
    ensures WellShaped(Run(s, moves))
    decreases |moves|
  {
    if moves == [] then s
    else Step(Run(s, moves[..|moves| - 1]), moves[|moves| - 1])
  }
}
