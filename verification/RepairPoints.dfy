/**
 Where a thread may die inside a queue operation so that repair leaves its slot as the operation's own undoing would.
 The states are those of the ring's step system, so every point between two atomic accesses is covered.
 */
module RepairPoints {
  import opened ControlWord
  import opened LapCursor
  import opened Ring
  import opened RingInvariant
  import Repair

  /** Holding a slot on the way to a commit, before it. */
  predicate Reserving(pc: Pc) {
    pc.RTurn? || pc.RTail? || pc.RSend? || pc.RRecv? || pc.RCommit? || pc.RUndo?
  }

  predicate Claiming(pc: Pc) { pc.CTurn? || pc.CHead? || pc.CCommit? || pc.CUndo? }

  predicate Consuming(pc: Pc) { pc.Claimed? || pc.CTurnStore? || pc.CFree? }

  /**
   The words of the slot once the operation is undone or abandoned: an uncommitted reservation leaves it empty, an
   uncommitted claim as it was, a reservation skipped, and a claim recycled for the next lap.
   */
  function Undone(s: State, t: nat): Repair.Cell
    requires WellShaped(s) && t < |s.threads|
    requires var pc := s.threads[t].pc; Reserving(pc) || InProducer(pc) || Claiming(pc) || Consuming(pc)
  {
    var pc := s.threads[t].pc;
    if Reserving(pc) then Repair.Cell(SlotOf(s, PositionOf(pc)).turn, Empty)
    else if InProducer(pc) then Repair.Cell(pc.pos, Available(false))
    else if Claiming(pc) then Repair.Cell(SlotOf(s, PositionOf(pc)).turn, Available(pc.full))
    else Repair.Cell(pc.pos + s.cap, Empty)
  }

  function PositionOf(pc: Pc): nat
    requires Reserving(pc) || InProducer(pc) || Claiming(pc) || Consuming(pc)
  {
    if Reserving(pc) then pc.tail else if Claiming(pc) then pc.head else pc.pos
  }

  /** The last store of each undoing leaves those words. */
  lemma UndoingStores(s: State, t: nat, c: Choice)
    requires Inv(s) && t < |s.threads|
    requires var pc := s.threads[t].pc;
             pc.RUndo? || (pc.Reserved? && c.Abandon?) || pc.Unstaged? || pc.CUndo? || pc.CFree?
    ensures var x := SlotOf(Step(s, t, c), PositionOf(s.threads[t].pc)); Repair.Cell(x.turn, x.control) == Undone(s, t)
  {
    assert ThreadOk(s, t);
  }

  /** The condition: the slot's turn is the cursor the operation was after, and is not yet the next lap's. */
  predicate Clean(s: State, t: nat)
    requires WellShaped(s) && t < |s.threads|
    requires var pc := s.threads[t].pc; Reserving(pc) || InProducer(pc) || Claiming(pc) || Consuming(pc)
  {
    var pc := s.threads[t].pc;
    var turn := SlotOf(s, PositionOf(pc)).turn;
    && (Reserving(pc) ==> turn == s.tail)
    && (Claiming(pc) ==> turn == s.head)
    && (pc.CFree? ==> turn != s.head)
  }

  function PlanAt(s: State, t: nat): Repair.Plan
    requires WellShaped(s) && t < |s.threads|
    requires var pc := s.threads[t].pc; Reserving(pc) || InProducer(pc) || Claiming(pc) || Consuming(pc)
    requires var x := SlotOf(s, PositionOf(s.threads[t].pc)); x.control.Producer? || x.control.Consumer?
  {
    var x := SlotOf(s, PositionOf(s.threads[t].pc));
    Repair.PlanFor(Repair.Cell(x.turn, x.control), s.head, s.tail, s.cap)
  }

  /**
   Whoever dies with a slot, wherever in its operation: repair leaves the slot as undoing would if and only if the
   point is clean.  Guards always are.  An unclean reservation is reported as corrupted; an unclean claim that has
   not committed loses the record it was not yet entitled to; a half-done recycling offers the slot again.
   */
  lemma RepairUndoesExactly(s: State, t: nat)
    requires Inv(s) && t < |s.threads|
    requires var pc := s.threads[t].pc; Reserving(pc) || InProducer(pc) || Claiming(pc) || Consuming(pc)
    ensures var x := SlotOf(s, PositionOf(s.threads[t].pc)); x.control.Producer? || x.control.Consumer?
    ensures var plan := PlanAt(s, t);
            && (plan.Plan? && Repair.Cell(plan.turn, plan.control) == Undone(s, t) <==> Clean(s, t))
            && (InProducer(s.threads[t].pc) || s.threads[t].pc.Claimed? || s.threads[t].pc.CTurnStore? ==> Clean(s, t))
            && (Reserving(s.threads[t].pc) && !Clean(s, t) ==> plan.Corrupted?)
            && (Claiming(s.threads[t].pc) && !Clean(s, t) ==> plan.Plan? && plan.control == Empty && s.head < plan.turn)
            && (s.threads[t].pc.CFree? && !Clean(s, t) ==> plan.Plan? && plan.control.Available?)
  {
    assert ThreadOk(s, t);
  }

  /**
   The unclean points of a reservation and of a claim are those before the recheck of the turn, and undoing after it
   failed.
   */
  lemma RechecksMakeClean(s: State, t: nat)
    requires Inv(s) && t < |s.threads|
    ensures var pc := s.threads[t].pc;
            (pc.RTail? || pc.RSend? || pc.RRecv? || pc.RCommit? || pc.CHead? || pc.CCommit? ==> Clean(s, t))
  {
    assert ThreadOk(s, t);
  }
}
