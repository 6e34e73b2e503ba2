/**
 Repair of one queue slot left by a dead participant.  A repairer first writes its own number into the control
 word, then resolves the token, then stores the slot's new words; it may die between any two of these, and then
 another participant repairs on its behalf.
 */
module Repair {
  import opened ControlWord

  datatype Cell = Cell(turn: nat, control: Control)

  datatype Tag = Nothing | Busy(slot: nat) | Tagged(next: Control)

  /** The reaper field a repair by `live` of what `dead` left writes, if it may go on. */
  function TagFor(c: Control, dead: nat, live: nat): Tag {
    if !(c.Producer? || c.Consumer?) then Nothing
    else if c.source == dead && c.reaper == By(live) then Tagged(c)
    else if c.reaper == By(dead) || (c.source == dead && c.reaper == Nobody) then Tagged(c.(reaper := By(live)))
    else if c.source == dead then Busy(c.reaper.slot)
    else Nothing
  }

  // What the second half of a repair does: which source it releases the token for, if it does, and the new words.
  datatype Plan = Corrupted | Plan(release: bool, turn: nat, control: Control)

  /** Positions stand for the cursor words; `ahead` is the wrapping distance test `0 < a - b < half the range`. */
  predicate Ahead(a: nat, b: nat) { a > b }

  function PlanFor(cell: Cell, head: nat, tail: nat, cap: nat): Plan
    requires cell.control.Producer? || cell.control.Consumer?
  {
    var complete := cell.control.complete;
    if cell.control.Producer? then
      if tail == cell.turn then (if complete then Corrupted else Plan(false, cell.turn, Empty))
      else if Ahead(tail, cell.turn) then Plan(complete, cell.turn, Available(false))
      else Corrupted
    else if head == cell.turn then Plan(false, cell.turn, Available(complete))
    else Plan(complete, if Ahead(head, cell.turn) then cell.turn + cap else cell.turn, Empty)
  }

  // How far one attempt gets before its repairer dies.
  datatype Cut = AfterTag | AfterRelease | AfterTurn | Completed

  // One attempt: who repairs for whom, the cursors at that time, whether the token could be released, and the cut.
  datatype Attempt = Attempt(dead: nat, live: nat, head: nat, tail: nat, released: bool, cut: Cut)

  // The slot after some attempts, and the sources tokens were released for, in order.
  datatype Trail = Trail(cell: Cell, releases: seq<nat>)

  function Try(t: Trail, a: Attempt, cap: nat): Trail {
    match TagFor(t.cell.control, a.dead, a.live)
    case Tagged(next) =>
      var cell := t.cell.(control := next);
      if a.cut == AfterTag then t.(cell := cell)
      else
        (match PlanFor(cell, a.head, a.tail, cap)
         case Corrupted => t.(cell := cell)
         case Plan(release, turn, control) =>
           var releases := if release then t.releases + [next.source] else t.releases;
           if release && !a.released then Trail(cell, releases)
           else if a.cut == AfterRelease then Trail(cell, releases)
           else if a.cut == AfterTurn then Trail(cell.(turn := turn), releases)
           else Trail(Cell(turn, control), releases))
    case _ => t
  }

  function Chain(c: Cell, attempts: seq<Attempt>, cap: nat): Trail {
    if attempts == [] then Trail(c, [])
    else Try(Chain(c, attempts[..|attempts| - 1], cap), attempts[|attempts| - 1], cap)
  }

  predicate Participants(a: Attempt) { a.dead < PARTICIPANTS && a.live < PARTICIPANTS }

  /** While a slot is claimed at `turn`, its next use is at turn + cap, so the head cannot be past that. */
  predicate WithinLap(c: Cell, a: Attempt, cap: nat) { c.control.Consumer? ==> a.head <= c.turn + cap }

  /** What a chain may have done to a slot that was first found as c. */
  predicate Traced(c: Cell, t: Trail, cap: nat)
    requires c.control.Producer? || c.control.Consumer?
  {
    && t.cell.control.Valid()
    && (!t.cell.control.Empty? && t.cell.control.complete ==> c.control.complete)
    && (forall k :: 0 <= k < |t.releases| ==> t.releases[k] == c.control.source)
    && (t.releases != [] ==> c.control.complete)
    && (t.cell.turn == c.turn || (c.control.Consumer? && t.cell.turn == c.turn + cap))
    && (t.cell.control.Producer? ==> c.control.Producer? && t.cell.turn == c.turn)
    && (t.cell.control.Consumer? ==> c.control.Consumer?)
    && (t.cell.control.Producer? || t.cell.control.Consumer? ==>
          t.cell.control.source == c.control.source && t.cell.control.complete == c.control.complete)
  }

  /**
   Any chain of repairs, each cut anywhere, by any participants and with any cursors the ring allows, keeps the word
   canonical, never makes an incomplete slot complete, releases the token only for the participant that first owned
   the slot, and moves the turn by one lap at most.
   */
  lemma {:induction false} ChainTraced(c: Cell, attempts: seq<Attempt>, cap: nat)
    requires cap > 0 && (c.control.Producer? || c.control.Consumer?) && c.control.Valid()
    requires forall k :: 0 <= k < |attempts| ==> Participants(attempts[k]) && WithinLap(c, attempts[k], cap)
    ensures Traced(c, Chain(c, attempts, cap), cap)
  {
    if attempts != [] {
      var rest, last := attempts[..|attempts| - 1], attempts[|attempts| - 1];
      ChainTraced(c, rest, cap);
      TryTraced(c, Chain(c, rest, cap), last, cap);
    }
  }

  lemma TryTraced(c: Cell, t: Trail, a: Attempt, cap: nat)
    requires cap > 0 && (c.control.Producer? || c.control.Consumer?) && c.control.Valid()
    requires Traced(c, t, cap) && Participants(a) && WithinLap(c, a, cap)
    ensures Traced(c, Try(t, a, cap), cap)
  {
    var u := Try(t, a, cap);
    assert u.releases == t.releases || u.releases == t.releases + [c.control.source];
  }

  /** The stored word stays canonical bit for bit. */
  lemma ChainCanonical(c: Cell, attempts: seq<Attempt>, cap: nat)
    requires cap > 0 && (c.control.Producer? || c.control.Consumer?) && c.control.Valid()
    requires forall k :: 0 <= k < |attempts| ==> Participants(attempts[k]) && WithinLap(c, attempts[k], cap)
    ensures Canonical(Encode(Chain(c, attempts, cap).cell.control))
  {
    ChainTraced(c, attempts, cap);
    DecodeEncode(Chain(c, attempts, cap).cell.control);
  }

  /** A completed repair of what `dead` left names neither it nor the repairer any more. */
  lemma CompletedForgets(t: Trail, a: Attempt, cap: nat)
    requires a.cut == Completed && a.released && TagFor(t.cell.control, a.dead, a.live).Tagged?
    requires PlanFor(t.cell.(control := TagFor(t.cell.control, a.dead, a.live).next), a.head, a.tail, cap).Plan?
    ensures var u := Try(t, a, cap); u.cell.control.Empty? || u.cell.control.Available?
  {}

  /** A dead participant no repair by `live` can go on for leaves a word that names it only beside another repairer. */
  lemma RefusalMeans(c: Control, dead: nat, live: nat)
    requires dead != live
    ensures c.Names(dead) <==> !TagFor(c, dead, live).Nothing?
    ensures TagFor(c, dead, live).Busy? <==> ((c.Producer? || c.Consumer?) && c.source == dead && c.reaper.By?
                                              && c.reaper != By(dead) && c.reaper != By(live))
  {}

  /** Once the head is past a claimed position, repairs not cut between their two stores never offer it again. */
  lemma {:induction false} ClaimedNeverReopens(c: Cell, attempts: seq<Attempt>, cap: nat)
    requires cap > 0 && c.control.Consumer?
    requires forall k :: 0 <= k < |attempts| ==> c.turn < attempts[k].head && attempts[k].cut != AfterTurn
    ensures var t := Chain(c, attempts, cap).cell;
            (t.control.Consumer? && t.turn == c.turn) || (t.control.Empty? && t.turn == c.turn + cap)
  {
    if attempts != [] {
      ClaimedNeverReopens(c, attempts[..|attempts| - 1], cap);
    }
  }

  /**
   Cut between the stores, the claim can be offered again, as the record of the next lap: the next completed repair
   does so exactly when the head has come round to that very position.
   */
  lemma HalfRecycleReopens(c: Cell, first: Attempt, second: Attempt, cap: nat)
    requires cap > 0 && c.control.Consumer? && TagFor(c.control, first.dead, first.live).Tagged?
    requires first.cut == AfterTurn && first.released && c.turn < first.head
    requires second.dead == first.live && second.cut == Completed && second.released && second.head <= c.turn + cap
    ensures Try(Try(Trail(c, []), first, cap), second, cap).cell
            == if second.head == c.turn + cap then Cell(c.turn + cap, Available(c.control.complete))
               else Cell(c.turn + cap, Empty)
  {}
}
