/**
 Whole runs of the directory: any operations by any participants, any of which may die on the way and be recovered.
 */
module DirectoryRuns {
  import opened Common
  import opened Directory

  // `offered` and `slab` are what the heap would answer with; `live` is who recovers.
  datatype Op =
    | Create(owner: nat, offered: Option<nat>, slab: Option<nat>, admitted: bool, w: World)
    | Remove(owner: nat, i: nat, generation: nat, mapped: nat, w: World)
    | Recover(live: nat, w: World)

  function Actor(op: Op): nat { if op.Recover? then op.live else op.owner }

  // What an operation of a run answers; `Skipped`: there was no one to run it, or nothing to recover.
  datatype Answer = Skipped | Made(outcome: Outcome) | Mended(recovery: Recovery)

  // A state of the run: the directory's words, its books, and who has died.
  datatype View = View(txn: Txn, entries: seq<Entry>, slabs: seq<nat>, lock: Lock, members: map<nat, set<nat>>,
                       closed: set<nat>,
                       why: map<nat, Reason>, issued: set<(nat, nat)>, undone: bool, seen: Seen, dead: set<nat>)

  ghost function Look(d: Region, dead: set<nat>): View
    reads d
  {
    View(d.txn, d.entries, d.slabs, d.lock, d.members, d.closed, d.why, d.issued, d.undone,
         d.See(if d.txn.By? then d.txn.owner else 0), dead)
  }

  /**
   Between the operations of a run: quiet, a dead participant's transaction, or one a live participant had to keep.
   */
  ghost predicate Orderly(d: Region, dead: set<nat>)
    reads d
  {
    && d.Accounts() && (d.txn.Clean? ==> d.Quiet())
    && (d.txn.By? && d.txn.owner in dead ==> d.Interrupted(d.txn.owner))
    && (d.txn.By? && d.txn.owner !in dead ==> d.Parked(d.txn.owner))
    && (d.debugAssertions ==> !d.undone && (d.txn.By? && d.txn.owner !in dead ==> d.RollbackDue()))
  }

  /** The heap answers with blocks it has not handed out. */
  predicate Answers(why: map<nat, Reason>, offered: Option<nat>, slab: Option<nat>) {
    && (offered.Some? ==> offered.value !in why && offered.value != 0)
    && (slab.Some? ==> slab.value !in why && slab.value != 0 && slab != offered)
  }

  /** Whether op is run at all: its caller is alive and not inside the heap, and a recovery has something to recover. */
  predicate Runs(op: Op, txn: Txn, lock: Lock, why: map<nat, Reason>, dead: set<nat>) {
    match op
    case Create(owner, offered, slab, _, _) => owner !in dead && lock != LockedBy(owner) && Answers(why, offered, slab)
    case Remove(owner, _, _, _, _) => owner !in dead && lock != LockedBy(owner)
    case Recover(live, _) => live !in dead && lock != LockedBy(live) && txn.By? && txn.owner in dead
  }

  /** The mapping the caller removes is the current lifetime of entry i and the caller a member. */
  predicate Current(v: View, owner: nat, i: nat, generation: nat, mapped: nat) {
    && v.txn.Clean? && i < |v.entries| && v.entries[i] == Entry(Published, generation, mapped)
    && mapped in v.members && owner in v.members[mapped] && mapped !in v.closed
  }

  /** And the caller is its only member. */
  predicate Removable(v: View, owner: nat, i: nat, generation: nat, mapped: nat) {
    Current(v, owner, i, generation, mapped) && v.members[mapped] == {owner}
  }

  /** An entry is left, or the chain can grow. */
  predicate Roomy(v: View, slab: Option<nat>) {
    FirstOpen(v.entries) < |v.entries| || (slab.Some? && |v.slabs| <= 0xffff_ffff)
  }

  /** What a creation by `owner` that answers r did between states v and v'. */
  ghost predicate CreateMeans(v: View, op: Op, r: Outcome, v': View)
    requires op.Create?
  {
    var i := FirstOpen(v.entries);
    && (r.Done? ==>
          && v.txn.Clean? && op.admitted && op.offered.Some?
          && r == Done(i, if i < |v.entries| then v.entries[i].generation + 1 else 1)
          && i < |v'.entries| && v'.entries[i] == Entry(Published, r.generation, op.offered.value)
          && StillThere(i, v.entries, v'.entries)
          && (!v.undone ==> (i, r.generation) !in v.issued) && v'.issued == v.issued + {(i, r.generation)})
    && (r.Failed? && r.error.Busy? ==> v' == v && v.txn.By? && v.txn.owner == r.error.slot)
    && (r.Failed? && !r.error.Busy? && v.txn.Clean? ==> v.entries <= v'.entries && v'.issued == v.issued)
    && (r.Crashed? ==> op.w.mayDie)
    && (!r.Crashed? ==> v'.lock != LockedBy(op.owner) && (op.w.alone && v.lock.Unlocked? ==> v'.lock.Unlocked?))
    && v'.dead == (if r.Crashed? then v.dead + {op.owner} else v.dead)
    && (op.w == CALM && v.txn.Clean? && v.lock.Unlocked? && op.admitted && op.offered.Some? && Roomy(v, op.slab) ==>
          r.Done?)
  }

  /** What a removal by `owner` that answers r did. */
  ghost predicate RemoveMeans(v: View, op: Op, r: Outcome, v': View)
    requires op.Remove?
  {
    && (r.Removed? ==>
          && Current(v, op.owner, op.i, op.generation, op.mapped)
          && op.mapped in v.why && v'.why == v.why - {op.mapped}
          && v'.entries == v.entries[op.i := Entry(Vacant, op.generation, op.mapped)])
    && (r.Failed? ==> v'.entries == v.entries && v'.why == v.why && v'.txn == v.txn)
    && (r.Removed? || r.Failed? || (r.Crashed? && op.w.mayDie))
    && (!r.Crashed? ==> v'.lock != LockedBy(op.owner) && (op.w.alone ==> v'.lock == v.lock))
    && (op.w == CALM && v.lock.Unlocked? ==> (r.Removed? <==> Removable(v, op.owner, op.i, op.generation, op.mapped)))
    && v'.issued == v.issued
    && v'.dead == (if r.Crashed? then v.dead + {op.owner} else v.dead)
  }

  /** What a recovery that answers r did. */
  ghost predicate RecoverMeans(v: View, op: Op, r: Recovery, v': View)
    requires op.Recover?
  {
    && (if Halts(r) then op.w.mayDie else v'.lock != LockedBy(op.live))
    && (r.Refused? || r.Panicked? ==> v'.entries == v.entries && v'.why == v.why && v'.txn == v.txn)
    && (r.Refused? && op.w.alone ==> v.seen.taken)
    && (r.Panicked? ==> !op.w.alone && v.seen.sure && !v.seen.poisoned)
    && (!Halts(r) && !r.Refused? && !r.Panicked? ==>
          || Planned(v, v.seen.plan, r, v')
          || (!op.w.alone && v'.lock.Poisoned? && Planned(v, v.seen.spoiled, r, v')))
    && v'.dead == if Halts(r) then v.dead + {op.live} else v.dead
  }

  /** The recovery went by this plan for what it found. */
  ghost predicate Planned(v: View, plan: Plan, r: Recovery, v': View) {
    && r == plan.verdict && SameBut(v.seen.at, v.entries, v'.entries)
    && (v.seen.at < |v.entries| ==> v'.entries[v.seen.at] == plan.after)
    && (plan.quarantines || v'.txn.Clean?)
  }

  /** Answer a to op explains how state v became v'. */
  ghost predicate Explains(v: View, op: Op, a: Answer, v': View) {
    && (a.Skipped? <==> !Runs(op, v.txn, v.lock, v.why, v.dead))
    && match op
       case Create(_, _, _, _, _) => (a.Skipped? && v' == v) || (a.Made? && CreateMeans(v, op, a.outcome, v'))
       case Remove(_, _, _, _, _) => (a.Skipped? && v' == v) || (a.Made? && RemoveMeans(v, op, a.outcome, v'))
       case Recover(_, _) => (a.Skipped? && v' == v) || (a.Mended? && RecoverMeans(v, op, a.recovery, v'))
  }

  /** One operation of a run.  It ends the run only where a recovery died freeing a closed layout. */
  method Act(d: Region, op: Op, dead: set<nat>) returns (a: Answer, dead': set<nat>)
    requires Orderly(d, dead)
    modifies d
    ensures Explains(old(Look(d, dead)), op, a, Look(d, dead'))
    ensures !Ends(a) ==> Orderly(d, dead')
    ensures Ends(a) ==> op.Recover? && d.FreesAgain(op.live) && old(d.ClosedRemoval())
    ensures old(d.issued) <= d.issued
    ensures d.txn.By? ==> d.txn.owner == Actor(op) || (old(d.txn).By? && d.txn.owner == old(d.txn).owner)
  {
    dead' := dead;
    if !Runs(op, d.txn, d.lock, d.why, dead) { return Skipped, dead; }
    match op
    case Create(_, _, _, _, _) =>
      a, dead' := ActCreate(d, op, dead);
    case Remove(_, _, _, _, _) =>
      a, dead' := ActRemove(d, op, dead);
    case Recover(_, _) =>
      a, dead' := ActRecover(d, op, dead);
  }

  method ActRemove(d: Region, op: Op, dead: set<nat>) returns (a: Answer, dead': set<nat>)
    requires Orderly(d, dead) && op.Remove? && Runs(op, d.txn, d.lock, d.why, dead)
    modifies d
    ensures a.Made? && RemoveMeans(old(Look(d, dead)), op, a.outcome, Look(d, dead'))
    ensures Orderly(d, dead') && old(d.issued) <= d.issued
    ensures d.txn.By? ==> d.txn.owner == Actor(op) || (old(d.txn).By? && d.txn.owner == old(d.txn).owner)
  {
    var r := d.RemoveIn(op.owner, op.i, op.generation, op.mapped, op.w);
    a, dead' := Made(r), dead;
    if r.Crashed? { dead' := dead + {op.owner}; }
  }

  method ActRecover(d: Region, op: Op, dead: set<nat>) returns (a: Answer, dead': set<nat>)
    requires Orderly(d, dead) && op.Recover? && Runs(op, d.txn, d.lock, d.why, dead)
    modifies d
    ensures a.Mended? && RecoverMeans(old(Look(d, dead)), op, a.recovery, Look(d, dead'))
    ensures !Ends(a) ==> Orderly(d, dead')
    ensures Ends(a) ==> d.FreesAgain(op.live) && old(d.ClosedRemoval())
    ensures old(d.issued) <= d.issued
    ensures d.txn.By? ==> d.txn.owner == Actor(op) || (old(d.txn).By? && d.txn.owner == old(d.txn).owner)
  {
    var r;
    ghost var found, read;
    r, found, read := d.Recover(d.txn.owner, op.live, op.w);
    a, dead' := Mended(r), dead;
    if Halts(r) { dead' := dead + {op.live}; }
  }

  method ActCreate(d: Region, op: Op, dead: set<nat>) returns (a: Answer, dead': set<nat>)
    requires Orderly(d, dead) && op.Create? && Runs(op, d.txn, d.lock, d.why, dead)
    modifies d
    ensures a.Made? && CreateMeans(old(Look(d, dead)), op, a.outcome, Look(d, dead'))
    ensures Orderly(d, dead') && old(d.issued) <= d.issued
    ensures d.txn.By? ==> d.txn.owner == Actor(op) || (old(d.txn).By? && d.txn.owner == old(d.txn).owner)
  {
    var r := d.CreateIn(op.owner, op.offered, op.slab, op.admitted, op.w);
    a, dead' := Made(r), dead;
    if r.Crashed? { dead' := dead + {op.owner}; }
  }

  predicate Ends(a: Answer) { a.Mended? && a.recovery.HaltedFreeing? }

  /** The identities the answers hand out, in order. */
  function Granted(answers: seq<Answer>): (ids: seq<(nat, nat)>) {
    if answers == [] then []
    else
      var a := answers[|answers| - 1];
      Granted(answers[..|answers| - 1])
      + if a.Made? && a.outcome.Done? then [(a.outcome.id, a.outcome.generation)] else []
  }

  /** All handed out so far, and each once. */
  ghost predicate Once(ids: seq<(nat, nat)>, issued: set<(nat, nat)>) {
    && (forall i :: 0 <= i < |ids| ==> ids[i] in issued)
    && (forall i, j :: 0 <= i < j < |ids| ==> ids[i] != ids[j])
  }

  /** The states before and after each operation are explained by its answer. */
  ghost predicate Explained(views: seq<View>, ops: seq<Op>, answers: seq<Answer>) {
    && |views| == |answers| + 1 && |answers| <= |ops|
    && forall k {:trigger answers[k]} :: 0 <= k < |answers| ==> Explains(views[k], ops[k], answers[k], views[k + 1])
  }

  /** One more explained step. */
  lemma Extends(views: seq<View>, ops: seq<Op>, answers: seq<Answer>, a: Answer, v: View)
    requires Explained(views, ops, answers) && |answers| < |ops| && Explains(views[|answers|], ops[|answers|], a, v)
    ensures Explained(views + [v], ops, answers + [a])
  {
    forall k | 0 <= k < |answers|
      ensures Explains((views + [v])[k], ops[k], (answers + [a])[k], (views + [v])[k + 1])
    {
      assert Explains(views[k], ops[k], answers[k], views[k + 1]);
    }
  }

  /** What a step hands out had not been handed out before. */
  lemma GrantsOnce(v: View, op: Op, a: Answer, v': View, answers: seq<Answer>)
    requires Explains(v, op, a, v') && v.issued <= v'.issued && !v.undone && Once(Granted(answers), v.issued)
    ensures Once(Granted(answers + [a]), v'.issued)
  {
    assert (answers + [a])[..|answers|] == answers;
    if a.Made? && a.outcome.Done? {
      assert op.Create? || op.Remove?;
      assert (a.outcome.id, a.outcome.generation) !in v.issued;
    }
  }

  /**
   Any run of creations, removals and recoveries by any participants, who may die anywhere on the way, while
   recovering others too.  Every operation is answered, each answer explains the change of state, the books stay
   straight throughout, and with debug assertions no identity is handed out twice.  A run is cut short only when
   one dies freeing a dead participant's closed layout, which leaves a block to be freed again.
   */
  method Drive(d: Region, ops: seq<Op>) returns (answers: seq<Answer>, ghost views: seq<View>)
    requires d.Quiet() && !d.undone
    modifies d
    ensures Explained(views, ops, answers)
    ensures views[0] == old(Look(d, {})) && exists dead :: views[|answers|] == Look(d, dead)
    ensures |answers| < |ops| ==> answers != [] && Ends(answers[|answers| - 1])
    ensures answers != [] && Ends(answers[|answers| - 1]) ==> exists p :: d.FreesAgain(p)
    ensures (answers != [] && Ends(answers[|answers| - 1])) || (d.Accounts() && (d.txn.Clean? ==> d.Quiet()))
    ensures d.debugAssertions ==> Once(Granted(answers), d.issued)
  {
    var dead: set<nat> := {};
    answers := [];
    views := [Look(d, dead)];
    while |answers| < |ops|
      invariant Explained(views, ops, answers) && Orderly(d, dead)
      invariant views[0] == old(Look(d, {})) && views[|answers|] == Look(d, dead)
      invariant answers != [] ==> !Ends(answers[|answers| - 1])
      invariant d.debugAssertions ==> Once(Granted(answers), d.issued)
    {
      var a;
      a, dead := Act(d, ops[|answers|], dead);
      Extends(views, ops, answers, a, Look(d, dead));
      if d.debugAssertions { GrantsOnce(views[|answers|], ops[|answers|], a, Look(d, dead), answers); }
      answers, views := answers + [a], views + [Look(d, dead)];
      if Ends(a) { return; }
    }
  }

  /**
   Without debug assertions an identity can be handed out twice: participant 1 dies right after publishing it,
   participant 2 recovers, which quarantines the entry, and finds the transaction still its own; its next creation
   rolls the published entry back, and the one after that publishes the same identity again, for another block.
   */
  method SameIdentityTwice(d: Region, o: nat, o': nat) returns (id: nat, generation: nat, again: Outcome)
    requires !d.debugAssertions && d.Quiet() && d.lock.Unlocked? && !d.undone
    requires FirstOpen(d.entries) < |d.entries| && 0 != o && 0 != o' && o != o' && o !in d.why && o' !in d.why
    modifies d
    ensures (id, generation) !in old(d.issued) && again == Done(id, generation)
    ensures id < |d.entries| && d.entries[id] == Entry(Published, generation, o')
  {
    id, generation := PublishAndDie(d, o);
    RecoverAndRollBack(d, o');
    FirstAgain(old(d.entries), d.entries, id);
    again := d.CreateIn(2, Some(o'), None, true, CALM);
  }

  lemma FirstAgain(before: seq<Entry>, after: seq<Entry>, i: nat)
    requires i == FirstOpen(before) < |before| == |after| && SameBut(i, before, after) && Open(after[i])
    ensures FirstOpen(after) == i
  {
  }

  /** Participant 2 recovers a creation of 1 that was published, and asks for one of its own. */
  method RecoverAndRollBack(d: Region, offered: nat)
    requires !d.debugAssertions && d.Interrupted(1) && d.lock.Unlocked? && offered != 0 && offered !in d.why
    requires d.txn == By(1, Evidence) && d.pendingKind == OpKind.Create && d.entries[d.Located()].phase.Published?
    modifies d
    ensures d.Quiet() && d.lock.Unlocked? && offered !in d.why
    ensures d.entries == old(d.entries)[old(d.Located()) := Rewound(old(d.entries)[old(d.Located())])]
  {
    var q;
    ghost var found, read;
    q, found, read := d.Recover(1, 2, CALM);
    assert q.SetAside?;
    var r := d.CreateIn(2, Some(offered), None, true, CALM);
    assert r == Failed(RolledBack);
  }

  /** Participant 1 creates a layout up to the store that publishes it. */
  method PublishAndDie(d: Region, o: nat) returns (id: nat, generation: nat)
    requires d.Quiet() && d.lock.Unlocked? && !d.undone
    requires FirstOpen(d.entries) < |d.entries| && 0 != o && o !in d.why
    modifies d
    ensures id == FirstOpen(old(d.entries)) && generation == old(d.entries)[id].generation + 1
    ensures (id, generation) !in old(d.issued) && d.issued == old(d.issued) + {(id, generation)} && !d.undone
            && d.lock.Unlocked?
    ensures d.Interrupted(1) && d.txn == By(1, Evidence) && d.pendingKind == OpKind.Create && d.Located() == id
    ensures d.pendingOffset == o && d.why == old(d.why)[o := ByEntry(id)]
    ensures d.entries == old(d.entries)[id := Entry(Published, generation, o)]
  {
    d.txn := By(1, Held);
    var place := d.Reserve();
    id := place.value;
    generation := d.entries[id].generation + 1;
    var r := d.PrepareEntry(1, id, Some(o), CALM);
    r := d.Announce(1, id, CALM);
  }

  /**
   A closed layout can be freed twice: participant 1 dies after closing the layout it removes, participant 2 dies
   after freeing the block for it, and participant 3's recovery comes to the same free with the block gone.
   */
  method SameBlockTwice(d: Region, i: nat)
    requires d.Quiet() && d.lock.Unlocked? && i < |d.entries| && d.entries[i].phase.Published?
             && d.Sole(1, d.entries[i].offset)
    modifies d
    ensures d.lock == LockedBy(3) && d.txn.By? && d.txn.owner == 3
    ensures d.pendingOffset == old(d.entries[i].offset) && d.pendingOffset in old(d.why) && d.pendingOffset !in d.why
  {
    CloseAndDie(d, i);
    var cleared := d.ClearDead(1);
    var e, crashed := d.ClaimAndTransfer(1, 2, CALM);
    crashed := d.FreeClosed(2, CALM);
    d.FreeTwice(2, 3);
  }

  /** Participant 1 removes the layout of entry i up to the store that closes it. */
  method CloseAndDie(d: Region, i: nat)
    requires d.Quiet() && d.lock.Unlocked? && i < |d.entries| && d.entries[i].phase.Published?
             && d.Sole(1, d.entries[i].offset)
    modifies d
    ensures d.Interrupted(1) && d.ClosedRemoval() && d.lock == LockedBy(1) && d.Carried() && d.Located() == i && !d.torn
    ensures d.entries == old(d.entries)[i := old(d.entries)[i].(phase := Closing)]
    ensures d.pendingOffset == old(d.entries[i].offset) && d.pendingOffset in old(d.why)
  {
    assert d.EntryAccounted(i);
    d.txn := By(1, Held);
    var e := d.BeginMutation(1);
    var r := d.CloseEntry(1, i, CALM);
  }

  /**
   A recovery can panic: participant 1 dies after freeing a layout's block and letting the heap go, participant 2 has
   the heap for an allocation of its own when 3 tries to clear it, and lets it go before 3 looks who has it.
   */
  method PanicAfterRelease(d: Region, i: nat) returns (r: Recovery)
    requires d.Quiet() && d.lock.Unlocked? && i < |d.entries| && d.entries[i].phase.Published?
             && d.Sole(1, d.entries[i].offset)
    modifies d
    ensures r.Panicked? && d.Interrupted(1) && d.entries == old(d.entries)[i := old(d.entries)[i].(phase := Released)]
  {
    ReleaseAndDie(d, i);
    var e := d.BeginMutation(2);
    r := ClearTooEarly(d);
  }

  /** Participant 3 tries to clear the heap that 2 has, 2 lets it go, and 3 looks. */
  method ClearTooEarly(d: Region) returns (r: Recovery)
    requires d.Interrupted(1) && d.Sure() && d.lock == LockedBy(2) && !d.torn
    modifies d
    ensures r.Panicked? && d.Interrupted(1) && d.entries == old(d.entries)
  {
    var cleared := d.ClearDead(1);
    assert !cleared;
    d.lock := Unlocked;
    r := d.Resolve(1, 3, CALM);
  }

  /** Participant 1 removes the layout of entry i up to the commit of the heap's mutation. */
  method ReleaseAndDie(d: Region, i: nat)
    requires d.Quiet() && d.lock.Unlocked? && i < |d.entries| && d.entries[i].phase.Published?
             && d.Sole(1, d.entries[i].offset)
    modifies d
    ensures d.Interrupted(1) && d.Sure() && d.Located() == i && d.lock.Unlocked? && !d.torn
    ensures d.entries == old(d.entries)[i := old(d.entries)[i].(phase := Released)]
  {
    CloseAndDie(d, i);
    assert d.EntryAccounted(i);
    d.StoreEntry(i, d.entries[i].(phase := Removing));
    var crashed := d.FreeCarried(CALM);
    crashed := d.MarkReleased(1, i, CALM);
  }

  /**
   The same after a death right after the close, on the second attempt: the first was refused by 2 having the heap.
   */
  method PanicAfterClose(d: Region, i: nat) returns (first: Option<Error>, r: Recovery)
    requires d.Quiet() && d.lock.Unlocked? && i < |d.entries| && d.entries[i].phase.Published?
             && d.Sole(1, d.entries[i].offset)
    modifies d
    ensures first == Some(HeapBusy) && r.Panicked? && d.Interrupted(1)
  {
    CloseAndDie(d, i);
    var cleared := d.ClearDead(1);
    first := FindBusy(d);
    r := ClearTooEarly(d);
  }

  /** Participant 2 takes the heap before 3 can. */
  method FindBusy(d: Region) returns (e: Option<Error>)
    requires d.Interrupted(1) && d.ClosedRemoval() && d.Carried() && d.lock.Unlocked?
    modifies d
    ensures e == Some(HeapBusy) && d.Interrupted(1) && d.Sure() && d.lock == LockedBy(2) && !d.torn
  {
    e := d.BeginMutation(2);
    var crashed;
    e, crashed := d.Seize(3, CALM);
  }
}
