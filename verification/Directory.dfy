/**
 The directory: a chain of slabs of entries, each entry the current lifetime of one layout in the general heap.
 Create, grow and remove run as sequences of durable stores under one transaction word; a participant may die
 between any two of them.  `case w.mayDie => return Crashed` marks every such place, so each contract below speaks about
 every crash point.  `why` says for every block allocated through the directory what keeps it; no step reads it.
 */
module Directory {
  import opened Common

  const CAPACITY: nat := 32
  const GENERATION_MAX: nat := 0x1fff_ffff_ffff_ffff

  datatype Phase = Vacant | Pending | Published | Closing | Removing | Released | Quarantined

  datatype Entry = Entry(phase: Phase, generation: nat, offset: nat)

  datatype TxnPhase = Held | Evidence | RollingBack

  datatype Txn = Clean | By(owner: nat, phase: TxnPhase)

  datatype OpKind = Create | Remove | Grow

  // The mutation word of the general heap.
  datatype Lock = Unlocked | LockedBy(slot: nat) | Poisoned

  datatype Reason = ByEntry(i: nat) | BySlab(k: nat) | InFlight | Lost

  datatype Error =
    | Busy(slot: nat) | Full | Stale | HeapBusy | HeapPoisoned | HeapExhausted | NotAdmitted | RolledBack | CloseRefused

  // `Ready`: the step is done and the operation goes on; `Stalled`: the undo could not lock the heap.
  datatype Outcome = Ready | Done(id: nat, generation: nat) | Removed | Failed(error: Error) | Stalled | Crashed

  // `Halted`: the recovering participant died too; `HaltedFreeing`: in the middle of freeing a closed layout.
  // `Panicked`: it came to an `unreachable!()`.
  datatype Recovery = Undone | Freed | Retained | SetAside | Refused(error: Error) | Panicked | Halted | HaltedFreeing

  predicate Halts(r: Recovery) { r.Halted? || r.HaltedFreeing? }

  predicate AtRest(p: Phase) { p.Vacant? || p.Published? || p.Quarantined? }

  /** The entry as it was before its reservation. */
  function Rewound(e: Entry): Entry { Entry(Vacant, if e.generation == 0 then 0 else e.generation - 1, e.offset) }

  /** A reserved entry that has a generation to go back to. */
  predicate Reserved(e: Entry) { e.phase.Pending? && e.generation >= 1 }

  /** Whether a reservation may take the entry. */
  predicate Open(e: Entry) { e.phase.Vacant? && e.generation != GENERATION_MAX }

  /** The first entry a reservation may take; past the end when there is none. */
  function FirstOpen(entries: seq<Entry>): (i: nat)
    ensures i <= |entries| && (i < |entries| ==> Open(entries[i]))
    ensures forall j :: 0 <= j < i ==> !Open(entries[j])
  {
    if entries == [] || Open(entries[0]) then 0 else 1 + FirstOpen(entries[1..])
  }

  /** The generation the next reservation gives its entry. */
  function NextGeneration(entries: seq<Entry>): nat {
    if FirstOpen(entries) < |entries| then entries[FirstOpen(entries)].generation + 1 else 1
  }

  /** The phase a transaction is left in when its guard is dropped uncommitted. */
  function Dropped(t: Txn): TxnPhase { if t.By? && t.phase.Held? then Held else RollingBack }

  /** No earlier entry but i differs; there may be new ones. */
  ghost predicate StillThere(i: nat, before: seq<Entry>, after: seq<Entry>) {
    |before| <= |after| && forall j :: 0 <= j < |before| && j != i ==> after[j] == before[j]
  }

  /** No entry but i differs. */
  ghost predicate SameBut(i: nat, before: seq<Entry>, after: seq<Entry>) {
    |after| == |before| && forall j :: 0 <= j < |after| && j != i ==> after[j] == before[j]
  }

  /** Nothing is allocated, and every block but those in flight and that of entry i is kept as it was. */
  ghost predicate KeptBut(i: nat, before: map<nat, Reason>, after: map<nat, Reason>) {
    && (forall o :: o in after ==> o in before)
    && (forall o :: o in before && before[o] != InFlight && before[o] != ByEntry(i) ==>
          o in after && after[o] == before[o])
  }

  ghost predicate LosesNone(before: map<nat, Reason>, after: map<nat, Reason>) {
    forall o :: o in after && after[o] == Lost ==> o in before && before[o] == Lost
  }

  /** The first entry in transition; past the end when there is none. */
  function FirstBusy(entries: seq<Entry>): (i: nat)
    ensures i <= |entries| && (i < |entries| ==> !AtRest(entries[i].phase))
    ensures forall j :: 0 <= j < i ==> AtRest(entries[j].phase)
  {
    if entries == [] || !AtRest(entries[0].phase) then 0 else 1 + FirstBusy(entries[1..])
  }

  // What becomes of the entry an interrupted operation concerns, whether that is a quarantine, and the answer.
  datatype Plan = Plan(after: Entry, quarantines: bool, verdict: Recovery)

  /**
   The state recovery starts from and what it is to make of it: the entry concerned (past the end when there is
   none), the plan for it, and the plan should the heap turn out poisoned.
   */
  datatype Seen = Seen(slabs: seq<nat>, entries: seq<Entry>, why: map<nat, Reason>, issued: set<(nat, nat)>, txn: Txn,
                       at: nat, plan: Plan, spoiled: Plan,
                       poisoned: bool, taken: bool, free: bool, sure: bool, closing: bool)

  /** Recovery that finds c instead of b has as much to go by: others at most poisoned the heap in between. */
  ghost predicate Since(b: Seen, c: Seen, alone: bool) {
    && c.slabs == b.slabs && c.entries == b.entries && c.why == b.why && c.issued == b.issued && c.txn == b.txn
    && c.at == b.at && c.spoiled == b.spoiled && c.sure == b.sure && c.closing == b.closing
    && (b.poisoned ==> c.poisoned)
    && (c.plan == b.plan || (c.poisoned && c.plan == b.spoiled))
    && (alone ==> c.plan == b.plan && c.taken == b.taken && c.free == b.free)
  }

  predicate Mine(a: nat, b: nat, l: Lock) { l == LockedBy(a) || l == LockedBy(b) }

  /** Nobody takes the heap for a or b, nor from them, nor repairs a poisoned one. */
  predicate LeftAlone(a: nat, b: nat, before: Lock, after: Lock) {
    Mine(a, b, before) || Mine(a, b, after) || before.Poisoned? ==> after == before
  }

  /** Others join and leave; a and b do not. */
  predicate OthersJoin(a: nat, b: nat, before: map<nat, set<nat>>, after: map<nat, set<nat>>) {
    && after.Keys == before.Keys
    && forall o :: o in before ==> (a in after[o] <==> a in before[o]) && (b in after[o] <==> b in before[o])
  }

  // What may happen during a call: whether the caller may die, and whether no one else acts.
  datatype World = World(mayDie: bool, alone: bool)

  const CALM := World(false, true)

  class Region {
    const debugAssertions: bool  // whether `debug_assert!` evaluates its argument in this build
    var txn: Txn
    var pendingSlab: nat
    var pendingEntry: nat
    var pendingKind: OpKind
    var pendingOffset: nat
    var slabs: seq<nat>       // offsets in chain order; the root comes first
    var entries: seq<Entry>   // CAPACITY for each slab, in chain order
    var lock: Lock
    var members: map<nat, set<nat>>  // the membership word of the layout at an offset
    var closed: set<nat>             // offsets whose membership word reads CLOSED
    var why: map<nat, Reason>        // the blocks the heap has handed out, and what keeps each
    ghost var torn: bool             // the heap's words are between two consistent states
    ghost var issued: set<(nat, nat)>  // identities ever published
    ghost var undone: bool           // an entry has gone back behind a generation it was published with

    /** `Directory::init`, over a clean heap. */
    constructor (debug: bool)
      ensures Quiet() && lock.Unlocked? && why == map[] && issued == {} && !undone && debugAssertions == debug
      ensures entries == seq(CAPACITY, _ => Entry(Vacant, 0, 0)) && slabs == [0]
    {
      debugAssertions := debug;
      txn, pendingSlab, pendingEntry, pendingKind, pendingOffset := Clean, 0, 0, Create, 0;
      slabs, entries := [0], seq(CAPACITY, _ => Entry(Vacant, 0, 0));
      lock, members, closed := Unlocked, map[], {};
      why, torn, issued, undone := map[], false, {}, false;
    }

    ghost predicate EntryAccounted(i: nat)
      requires i < |entries|
      reads `entries, `why, `issued, `undone
    {
      && (entries[i].phase.Published? ==>
            && entries[i].offset in why && why[entries[i].offset] == ByEntry(i)
            && (i, entries[i].generation) in issued)
      && (!undone ==> forall g: nat :: (i, g) in issued ==>
            if entries[i].phase.Pending? then g < entries[i].generation else g <= entries[i].generation)
    }

    ghost predicate BlockAccounted(o: nat)
      requires o in why
      reads `entries, `why, `slabs
    {
      match why[o]
      case ByEntry(i) => i < |entries| && entries[i].phase.Published? && entries[i].offset == o
      case BySlab(k) => 1 <= k < |slabs| && slabs[k] == o
      case _ => true
    }

    /** Every published offset and every linked slab is an allocated block of its own. */
    ghost predicate Books()
      reads `slabs, `entries, `why, `issued, `undone
    {
      && |slabs| >= 1 && |entries| == CAPACITY * |slabs|
      && (forall i {:trigger EntryAccounted(i)} :: 0 <= i < |entries| ==> EntryAccounted(i))
      && (forall k :: 1 <= k < |slabs| ==> slabs[k] in why && why[slabs[k]] == BySlab(k))
      && (forall o {:trigger BlockAccounted(o)} :: o in why ==> BlockAccounted(o))
      && 0 !in why
      && (forall p :: p in issued ==> p.0 < |entries|)
    }

    /** The books are straight, and the heap is not called clean while it is torn. */
    ghost predicate Accounts()
      reads `slabs, `entries, `why, `issued, `undone, `lock, `torn
    {
      Books() && (lock.Unlocked? ==> !torn)
    }

    /** No block is in flight except perhaps o. */
    ghost predicate OnlyFlight(o: nat)
      reads `why
    {
      forall x :: x in why && why[x] == InFlight ==> x == o
    }

    ghost predicate NoFlight()
      reads `why
    {
      forall x :: x in why ==> why[x] != InFlight
    }

    /** Every entry except perhaps i is at rest. */
    ghost predicate RestBut(i: nat)
      reads `entries
    {
      forall j :: 0 <= j < |entries| && j != i ==> AtRest(entries[j].phase)
    }

    ghost predicate AllRest()
      reads `entries
    {
      forall j :: 0 <= j < |entries| ==> AtRest(entries[j].phase)
    }

    /** Between transactions. */
    ghost predicate Quiet()
      reads `slabs, `entries, `why, `issued, `undone, `lock, `torn, `txn
    {
      Accounts() && txn.Clean? && AllRest() && NoFlight()
    }

    function Located(): nat
      reads `pendingSlab, `pendingEntry
    {
      CAPACITY * pendingSlab + pendingEntry
    }

    /** The heap is under p's own mutation, or poisoned for good. */
    ghost predicate Disturbed(p: nat)
      reads `lock
    {
      lock == LockedBy(p) || lock.Poisoned?
    }

    /** The block the evidence names is the one in flight. */
    ghost predicate Carried()
      reads `why, `pendingOffset
    {
      pendingOffset in why && why[pendingOffset] == InFlight && OnlyFlight(pendingOffset)
    }

    /** The block the evidence names has been given up. */
    ghost predicate Forfeited()
      reads `why, `pendingOffset
    {
      pendingOffset in why && why[pendingOffset] == Lost
    }

    // What a participant p may leave behind, by transaction phase and operation.

    ghost predicate HeldShape(p: nat, i: nat)
      reads `entries, `why, `lock
    {
      && RestBut(i)
      && (i < |entries| && !AtRest(entries[i].phase) ==>
            entries[i].phase.Pending? || (entries[i].phase.Closing? && Disturbed(p)))
      && (!Disturbed(p) ==> NoFlight())
    }

    ghost predicate Placed()
      reads `entries, `pendingSlab, `pendingEntry
    {
      pendingEntry < CAPACITY && Located() < |entries| && RestBut(Located())
    }

    ghost predicate CreateShape(p: nat)
      reads `entries, `why, `lock, `pendingSlab, `pendingEntry, `pendingOffset
    {
      Placed()
      && match entries[Located()].phase
         case Pending => !Disturbed(p) ==> Carried()
         case Published => lock != LockedBy(p) && NoFlight() && entries[Located()].offset == pendingOffset
         case Vacant => Disturbed(p)
         case Quarantined => NoFlight() && (Disturbed(p) || Forfeited())
         case _ => false
    }

    ghost predicate RemoveShape(p: nat)
      reads `entries, `why, `lock, `torn, `pendingSlab, `pendingEntry, `pendingOffset
    {
      Placed()
      && match entries[Located()].phase
         case Closing => (lock == LockedBy(p) ==> !torn) && Carried() && entries[Located()].offset == pendingOffset
         case Removing => Disturbed(p) || Carried()
         case Released => NoFlight() && (lock == LockedBy(p) ==> !torn)
         case Vacant => lock != LockedBy(p) && NoFlight()
         case Published => NoFlight()
         case Quarantined => NoFlight()
         case _ => false
    }

    ghost predicate GrowShape(p: nat)
      reads `slabs, `entries, `why, `lock, `pendingSlab, `pendingOffset
    {
      && AllRest() && 1 <= pendingSlab <= |slabs| && pendingOffset != 0
      && if pendingSlab == |slabs| then !Disturbed(p) ==> Carried()
         else slabs[pendingSlab] == pendingOffset && lock != LockedBy(p) && NoFlight()
    }

    /** The states participant p's death can leave while it holds the transaction. */
    ghost predicate Interrupted(p: nat)
      reads `slabs, `entries, `why, `issued, `undone, `lock, `torn, `txn,
            `pendingSlab, `pendingEntry, `pendingKind, `pendingOffset
    {
      && Accounts() && txn.By? && txn.owner == p
      && match txn.phase
         case Held => exists i: nat :: HeldShape(p, i)
         case _ =>
           match pendingKind
           case Create => CreateShape(p)
           case Remove => RemoveShape(p)
           case Grow => GrowShape(p)
    }

    /** What a creation leaves when it could not lock the heap to undo itself. */
    ghost predicate RollbackDue()
      reads `entries, `why, `pendingSlab, `pendingEntry, `pendingKind, `pendingOffset
    {
      pendingKind == Create && Placed() && Carried() && entries[Located()].phase.Pending?
      && entries[Located()].generation >= 1
    }

    /** What a quarantine leaves with the evidence still recorded. */
    ghost predicate Aside()
      reads `entries, `why, `lock, `pendingSlab, `pendingEntry, `pendingKind, `pendingOffset
    {
      && AllRest() && NoFlight() && Placed() && entries[Located()].phase.Quarantined? && !pendingKind.Grow?
      && (pendingKind == Create ==> lock.Poisoned? || Forfeited())
    }

    /** Live participant p keeps the transaction although no operation of its own is running. */
    ghost predicate Parked(p: nat)
      reads `entries, `why, `lock, `txn, `pendingSlab, `pendingEntry, `pendingKind, `pendingOffset
    {
      && txn.By? && txn.owner == p && lock != LockedBy(p)
      && match txn.phase
         case Held => AllRest() && NoFlight()
         case Evidence => false
         case RollingBack => RollbackDue() || Aside()
    }

    /** A participant that dies while it keeps a transaction can be recovered. */
    lemma ParkedMayDie(p: nat)
      requires Accounts() && Parked(p)
      ensures Interrupted(p)
    {
      if txn.phase.Held? { assert HeldShape(p, 0); }
    }

    /** `Mutation::claim`. */
    method BeginMutation(owner: nat) returns (e: Option<Error>)
      modifies this`lock
      ensures e == None <==> old(lock).Unlocked?
      ensures e == None ==> lock == LockedBy(owner)
      ensures e.Some? ==> lock == old(lock) && e.value == if lock.Poisoned? then HeapPoisoned else HeapBusy
    {
      match lock
      case Unlocked => lock := LockedBy(owner); return None;
      case Poisoned => return Some(HeapPoisoned);
      case LockedBy(_) => return Some(HeapBusy);
    }

    /** The entry a participant's reservation without evidence may have left in transition. */
    ghost function HeldAt(p: nat): (i: nat)
      reads `slabs, `entries, `why, `issued, `undone, `lock, `torn, `txn,
            `pendingSlab, `pendingEntry, `pendingKind, `pendingOffset
      ensures Interrupted(p) && txn.phase.Held? ==> HeldShape(p, i)
    {
      if Interrupted(p) && txn.phase.Held? then var j: nat :| HeldShape(p, j); j else 0
    }

    /** Others take, free or poison the heap, unless a or b has it. */
    method OthersLock(a: nat, b: nat)
      requires Accounts()
      modifies this`lock, this`torn
      ensures Accounts() && LeftAlone(a, b, old(lock), lock) && (Mine(a, b, old(lock)) ==> torn == old(torn))
    {
      var to: Lock := *;
      if lock.Poisoned? || Mine(a, b, lock) || Mine(a, b, to) { return; }
      lock := to;
      torn := *;
      if lock.Unlocked? { torn := false; }
    }

    /** Others act on the heap; what p left stays as it is. */
    method OthersHeap(p: nat, q: nat)
      requires Accounts()
      modifies this`lock, this`torn
      ensures Accounts() && (old(Interrupted(p)) ==> Interrupted(p))
      ensures LeftAlone(p, q, old(lock), lock) && (Mine(p, q, old(lock)) ==> torn == old(torn))
    {
      ghost var i := HeldAt(p);
      OthersLock(p, q);
      if old(Interrupted(p)) && txn.phase.Held? { assert HeldShape(p, i); }
    }

    /** What participants other than p may do to the heap and to memberships. */
    method Others(p: nat, w: World)
      requires Accounts()
      modifies this`lock, this`torn, this`members
      ensures Accounts() && (old(Interrupted(p)) ==> Interrupted(p))
      ensures LeftAlone(p, p, old(lock), lock) && (Mine(p, p, old(lock)) ==> torn == old(torn))
      ensures OthersJoin(p, p, old(members), members)
      ensures w.alone ==> lock == old(lock) && torn == old(torn) && members == old(members)
    {
      if w.alone { return; }
      var next: map<nat, set<nat>> := *;
      if OthersJoin(p, p, members, next) { members := next; }
      OthersHeap(p, p);
    }

    /** What others may do while `live` recovers `dead`. */
    method Meanwhile(dead: nat, live: nat, w: World)
      requires Interrupted(dead)
      modifies this`lock, this`torn, this`members
      ensures Interrupted(dead)
      ensures LeftAlone(dead, live, old(lock), lock)
      ensures w.alone ==> lock == old(lock) && torn == old(torn) && members == old(members)
    {
      if w.alone { return; }
      var next: map<nat, set<nat>> := *;
      if OthersJoin(dead, live, members, next) { members := next; }
      OthersHeap(dead, live);
    }

    /** Others act between two looks of recovery at the heap, which goes by the same evidence afterwards. */
    method Between(dead: nat, live: nat, w: World)
      requires Interrupted(dead)
      modifies this`lock, this`torn, this`members
      ensures Interrupted(dead) && Since(old(See(dead)), See(dead), w.alone)
      ensures LeftAlone(dead, live, old(lock), lock)
      ensures w.alone ==> lock == old(lock)
    {
      Meanwhile(dead, live, w);
    }

    /** The heap hands out a block nobody has. */
    method TakeBlock(o: nat)
      requires Accounts() && o !in why && o != 0
      modifies this`why, this`torn, this`members, this`closed
      ensures Accounts() && !torn && why == old(why)[o := InFlight] && members == old(members) - {o}
              && closed == old(closed) - {o}
    {
      why := why[o := InFlight];
      torn := false;
      members := members - {o};  // the block is zeroed
      closed := closed - {o};
      forall i | 0 <= i < |entries|
        ensures EntryAccounted(i)
      {
        assert old(EntryAccounted(i));
      }
      forall x | x in why
        ensures BlockAccounted(x)
      {
        if x != o { assert old(BlockAccounted(x)); }
      }
    }

    /** The heap takes a block back; only a block that is allocated and kept by nothing may come here. */
    method GiveBlock(o: nat)
      requires Accounts() && o in why && (why[o] == InFlight || why[o] == Lost)
      modifies this`why, this`torn
      ensures Accounts() && !torn && why == old(why) - {o}
    {
      why := why - {o};
      torn := false;
      forall i | 0 <= i < |entries|
        ensures EntryAccounted(i)
      {
        assert old(EntryAccounted(i));
      }
      forall x | x in why
        ensures BlockAccounted(x)
      {
        assert old(BlockAccounted(x));
      }
    }

    /** One durable store to an entry's state word, which must keep the accounts straight. */
    method StoreEntry(i: nat, e: Entry)
      requires Accounts() && i < |entries|
      requires !entries[i].phase.Published? && !e.phase.Published?
      requires !undone ==>
                 forall g: nat :: (i, g) in issued ==> if e.phase.Pending? then g < e.generation else g <= e.generation
      modifies this`entries
      ensures Accounts() && entries == old(entries)[i := e]
    {
      entries := entries[i := e];
      forall j | 0 <= j < |entries|
        ensures EntryAccounted(j)
      {
        assert old(EntryAccounted(j));
      }
      forall x | x in why
        ensures BlockAccounted(x)
      {
        assert old(BlockAccounted(x));
      }
    }

    /** Publishes entry i, which already names block o. */
    method PublishEntry(i: nat, o: nat)
      requires Accounts() && i < |entries| && (entries[i].phase.Pending? || entries[i].phase.Closing?)
      requires entries[i].offset == o && o in why && why[o] == InFlight
      modifies this`entries, this`why, this`issued
      ensures Accounts() && entries == old(entries)[i := Entry(Published, old(entries)[i].generation, o)]
      ensures why == old(why)[o := ByEntry(i)]
      ensures issued == old(issued) + {(i, old(entries)[i].generation)}
    {
      entries := entries[i := entries[i].(phase := Published)];
      why := why[o := ByEntry(i)];
      issued := issued + {(i, entries[i].generation)};
      forall j | 0 <= j < |entries|
        ensures EntryAccounted(j)
      {
        assert old(EntryAccounted(j));
      }
      forall x | x in why
        ensures BlockAccounted(x)
      {
        assert old(BlockAccounted(x));
      }
    }

    /** A published entry leaves that phase; its block is no longer kept by it. */
    method UnpublishEntry(i: nat, phase: Phase, reason: Reason)
      requires Accounts() && i < |entries| && entries[i].phase.Published? && !phase.Published? && !phase.Pending?
      requires reason == InFlight || reason == Lost
      modifies this`entries, this`why
      ensures Accounts() && entries == old(entries)[i := old(entries)[i].(phase := phase)]
      ensures old(entries)[i].offset in old(why) && why == old(why)[old(entries)[i].offset := reason]
    {
      var o := entries[i].offset;
      assert EntryAccounted(i);
      entries := entries[i := entries[i].(phase := phase)];
      why := why[o := reason];
      forall j | 0 <= j < |entries|
        ensures EntryAccounted(j)
      {
        assert old(EntryAccounted(j));
      }
      forall x | x in why
        ensures BlockAccounted(x)
      {
        assert old(BlockAccounted(x));
      }
    }

    /** `reserve`: the first vacant entry whose generation is not exhausted. */
    method Reserve() returns (r: Option<nat>)
      ensures r == if FirstOpen(entries) < |entries| then Some(FirstOpen(entries)) else None
    {
      var i := 0;
      while i < |entries|
        invariant i <= |entries| && forall j :: 0 <= j < i ==> !Open(entries[j])
      {
        if Open(entries[i]) { return Some(i); }
        i := i + 1;
      }
      return None;
    }

    /** `transition`: the entry in transition, if any. */
    method Transition() returns (r: Option<nat>)
      ensures r == if FirstBusy(entries) < |entries| then Some(FirstBusy(entries)) else None
    {
      var i := 0;
      while i < |entries|
        invariant i <= |entries| && forall j :: 0 <= j < i ==> AtRest(entries[j].phase)
      {
        if !AtRest(entries[i].phase) { return Some(i); }
        i := i + 1;
      }
      return None;
    }

    /** Records what the transaction has in flight; the phase store makes it count. */
    method Persist(owner: nat, slab: nat, entry: nat, offset: nat, kind: OpKind, w: World) returns (crashed: bool)
      requires txn == By(owner, Held)
      modifies this`pendingSlab, this`pendingEntry, this`pendingKind, this`pendingOffset, this`txn
      ensures crashed ==> txn == old(txn)
      ensures !crashed ==>
                && txn == By(owner, Evidence) && pendingSlab == slab && pendingEntry == entry
                && pendingOffset == offset && pendingKind == kind
      ensures !w.mayDie ==> !crashed
    {
      pendingSlab := slab;
      if { case w.mayDie => return true; case true => }
      pendingEntry := entry;
      if { case w.mayDie => return true; case true => }
      pendingKind := kind;
      if { case w.mayDie => return true; case true => }
      pendingOffset := offset;
      if { case w.mayDie => return true; case true => }
      txn := By(owner, Evidence);
      return false;
    }

    /** Clears the evidence and ends the transaction. */
    method Finish(owner: nat, w: World) returns (crashed: bool)
      requires Accounts() && AllRest() && NoFlight()
      modifies this`txn
      ensures crashed ==> Interrupted(owner)
      ensures !crashed ==> Quiet()
      ensures !w.mayDie ==> !crashed
    {
      txn := By(owner, Held);
      if { case w.mayDie => assert HeldShape(owner, 0); return true; case true => }
      txn := Clean;
      return false;
    }

    /**
     The operation is over and the heap consistent: clears the evidence, lets the heap go and ends the transaction.
     */
    method EndLocked(owner: nat, w: World) returns (crashed: bool)
      requires Accounts() && AllRest() && NoFlight() && lock == LockedBy(owner) && !torn
      modifies this`txn, this`lock, this`torn, this`members
      ensures crashed ==> w.mayDie && Interrupted(owner)
      ensures !crashed ==> Quiet() && lock != LockedBy(owner) && (w.alone ==> lock.Unlocked?)
    {
      txn := By(owner, Held);
      if { case w.mayDie => assert HeldShape(owner, 0); return true; case true => }
      lock := Unlocked;
      assert HeldShape(owner, 0);
      Others(owner, w);
      if { case w.mayDie => return true; case true => }
      txn := Clean;
      return false;
    }

    /** Allocates and records a block for a new slab.  `offered` is what the heap answers the allocation with. */
    method PrepareSlab(owner: nat, offered: Option<nat>, w: World) returns (r: Outcome)
      requires Accounts() && txn == By(owner, Held) && AllRest() && NoFlight() && lock != LockedBy(owner)
      requires offered.Some? ==> offered.value !in why && offered.value != 0
      modifies this`lock, this`torn, this`why, this`members, this`closed, this`txn,
               this`pendingSlab, this`pendingEntry, this`pendingKind, this`pendingOffset
      ensures r.Ready? || r.Failed? || r.Crashed?
      ensures r.Crashed? ==> Interrupted(owner)
      ensures !r.Crashed? ==> Accounts() && lock != LockedBy(owner)
      ensures r.Ready? ==> offered.Some? && txn == By(owner, Evidence) && pendingKind == Grow && GrowShape(owner)
                             && pendingSlab == |slabs| && pendingOffset == offered.value && Carried()
      ensures r.Failed? ==> txn == old(txn) && why == old(why)
      ensures r.Ready? ==> why == old(why)[offered.value := InFlight] && lock.Unlocked?
      ensures w.alone && r.Failed? ==> lock == old(lock)
      ensures forall o :: o in old(why) ==> o in why && why[o] == old(why[o])
      ensures r.Failed? ==> !r.error.Busy? && !r.error.RolledBack?
      ensures w.alone && r.Failed? ==> !old(lock).Unlocked? || offered.None?
      ensures !w.mayDie ==> !r.Crashed?
    {
      ghost var none := |entries|;
      Others(owner, w);
      var e := BeginMutation(owner);
      if e.Some? { return Failed(e.value); }
      if { case w.mayDie => assert HeldShape(owner, none); return Crashed; case true => }
      r := AllocateSlab(owner, offered, w);
    }

    /** Allocates the slab's block under the heap's lock. */
    method AllocateSlab(owner: nat, offered: Option<nat>, w: World) returns (r: Outcome)
      requires Accounts() && txn == By(owner, Held) && AllRest() && NoFlight() && lock == LockedBy(owner)
      requires offered.Some? ==> offered.value !in why && offered.value != 0
      modifies this`lock, this`torn, this`why, this`members, this`closed, this`txn,
               this`pendingSlab, this`pendingEntry, this`pendingKind, this`pendingOffset
      ensures r.Ready? || r.Failed? || r.Crashed?
      ensures r.Crashed? ==> Interrupted(owner)
      ensures !r.Crashed? ==> Accounts() && lock.Unlocked?
      ensures r.Ready? ==> offered.Some? && txn == By(owner, Evidence) && pendingKind == Grow && GrowShape(owner)
                             && pendingSlab == |slabs| && pendingOffset == offered.value && Carried()
                             && why == old(why)[offered.value := InFlight]
      ensures r.Failed? ==> txn == old(txn) && why == old(why) && offered.None? && r.error.HeapExhausted?
      ensures forall o :: o in old(why) ==> o in why && why[o] == old(why[o])
      ensures !w.mayDie ==> !r.Crashed?
    {
      ghost var none := |entries|;
      torn := true;
      if { case w.mayDie => assert HeldShape(owner, none); return Crashed; case true => }
      if offered.None? {
        torn := false;
        lock := Unlocked;
        return Failed(HeapExhausted);
      }
      TakeBlock(offered.value);
      if { case w.mayDie => assert HeldShape(owner, none); return Crashed; case true => }
      r := RecordSlab(owner, offered.value, w);
    }

    /** Records the block allocated for the next slab and lets the heap go. */
    method RecordSlab(owner: nat, o: nat, w: World) returns (r: Outcome)
      requires Accounts() && txn == By(owner, Held) && AllRest() && lock == LockedBy(owner) && !torn
      requires o != 0 && o in why && why[o] == InFlight && OnlyFlight(o)
      modifies this`lock, this`txn, this`pendingSlab, this`pendingEntry, this`pendingKind, this`pendingOffset
      ensures r.Ready? || r.Crashed?
      ensures r.Crashed? ==> Interrupted(owner)
      ensures r.Ready? ==> Accounts() && txn == By(owner, Evidence) && pendingKind == Grow && GrowShape(owner)
                           && pendingSlab == |slabs| && pendingOffset == o && Carried() && lock.Unlocked?
      ensures !w.mayDie ==> !r.Crashed?
    {
      var crashed := Persist(owner, |slabs|, 0, o, Grow, w);
      if crashed { assert HeldShape(owner, |entries|); return Crashed; }
      if { case w.mayDie => return Crashed; case true => }
      lock := Unlocked;
      return Ready;
    }

    /** Adds a slab to the chain. */
    method GrowChain(owner: nat, offered: Option<nat>, w: World) returns (r: Outcome)
      requires Accounts() && txn == By(owner, Held) && AllRest() && NoFlight() && lock != LockedBy(owner)
      requires offered.Some? ==> offered.value !in why && offered.value != 0
      modifies this
      ensures undone == old(undone)
      ensures r.Ready? || r.Failed? || r.Crashed?
      ensures r.Crashed? ==> Interrupted(owner)
      ensures !r.Crashed? ==> Accounts() && txn == By(owner, Held) && AllRest() && NoFlight() && lock != LockedBy(owner)
      ensures r.Ready? ==> offered.Some? && slabs == old(slabs) + [offered.value]
      ensures r.Ready? ==> |old(entries)| < |entries| && entries[|old(entries)|] == Entry(Vacant, 0, 0)
      ensures w.alone && old(lock).Unlocked? && !r.Crashed? ==> lock.Unlocked?
      ensures r.Failed? ==> slabs == old(slabs) && entries == old(entries) && why == old(why)
      ensures issued == old(issued) && old(entries) <= entries
      ensures forall o :: o in old(why) ==> o in why && why[o] == old(why[o])
      ensures r.Failed? ==> !r.error.Busy? && !r.error.RolledBack?
      ensures r.Ready? ==> why == old(why)[offered.value := BySlab(|old(slabs)|)]
      ensures w.alone && r.Failed? ==> !old(lock).Unlocked? || offered.None? || |old(slabs)| > 0xffff_ffff
      ensures !w.mayDie ==> !r.Crashed?
    {
      if |slabs| - 1 >= 0xffff_ffff { return Failed(Full); }
      r := PrepareSlab(owner, offered, w);
      if !r.Ready? { return; }
      if { case w.mayDie => return Crashed; case true => }
      Others(owner, w);
      if { case w.mayDie => return Crashed; case true => }
      r := EndGrowth(owner, w);
    }

    /** Links the prepared slab and clears the evidence. */
    method EndGrowth(owner: nat, w: World) returns (r: Outcome)
      requires Accounts() && txn == By(owner, Evidence) && pendingKind == Grow && lock != LockedBy(owner)
      requires AllRest() && Carried() && pendingSlab == |slabs|
      modifies this`slabs, this`entries, this`why, this`txn
      ensures r.Ready? || r.Crashed?
      ensures r.Crashed? ==> Interrupted(owner)
      ensures r.Ready? ==> Accounts() && txn == By(owner, Held) && AllRest() && NoFlight()
      ensures slabs == old(slabs) + [pendingOffset] && why == old(why)[pendingOffset := BySlab(|old(slabs)|)]
      ensures old(entries) <= entries && |old(entries)| < |entries| && entries[|old(entries)|] == Entry(Vacant, 0, 0)
      ensures !w.mayDie ==> !r.Crashed?
    {
      LinkSlab(pendingOffset);
      if { case w.mayDie => return Crashed; case true => }
      txn := By(owner, Held);
      if { case w.mayDie => assert HeldShape(owner, |entries|); return Crashed; case true => }
      return Ready;
    }

    /** Stores the link to the new slab, all of whose entries are vacant. */
    method LinkSlab(o: nat)
      requires Accounts() && o in why && why[o] == InFlight
      modifies this`slabs, this`entries, this`why
      ensures slabs == old(slabs) + [o]
      ensures |entries| == |old(entries)| + CAPACITY && old(entries) <= entries
      ensures forall j :: |old(entries)| <= j < |entries| ==> entries[j] == Entry(Vacant, 0, 0)
      ensures why == old(why)[o := BySlab(|old(slabs)|)] && Accounts()
    {
      slabs := slabs + [o];
      entries := entries + seq(CAPACITY, _ => Entry(Vacant, 0, 0));
      why := why[o := BySlab(|slabs| - 1)];
      forall i | 0 <= i < |entries|
        ensures EntryAccounted(i)
      {
        if i < |old(entries)| { assert old(EntryAccounted(i)); }
      }
      forall x | x in why
        ensures BlockAccounted(x)
      {
        assert old(BlockAccounted(x));
      }
    }

    /** Marks entry i pending, allocates its block and records it. */
    method PrepareEntry(owner: nat, i: nat, offered: Option<nat>, w: World) returns (r: Outcome)
      requires Accounts() && txn == By(owner, Held) && AllRest() && NoFlight() && lock != LockedBy(owner)
      requires i < |entries| && entries[i].phase.Vacant?
      requires offered.Some? ==> offered.value !in why && offered.value != 0
      modifies this`entries, this`lock, this`torn, this`why, this`members, this`closed, this`txn,
               this`pendingSlab, this`pendingEntry, this`pendingKind, this`pendingOffset
      ensures r.Ready? || r.Failed? || r.Crashed?
      ensures r.Crashed? ==> Interrupted(owner)
      ensures r.Failed? ==> Quiet() && entries == old(entries) && why == old(why)
      ensures !r.Crashed? ==>
                lock != LockedBy(owner) && (w.alone && (r.Ready? || old(lock).Unlocked?) ==> lock.Unlocked?)
      ensures r.Ready? ==>
                && offered.Some? && Accounts() && txn == By(owner, Evidence) && pendingKind == Create
                && pendingOffset == offered.value && Located() == i && Placed() && Carried()
                && why == old(why)[offered.value := InFlight] && offered.value !in members && offered.value !in closed
                && entries == old(entries)[i := Entry(Pending, old(entries)[i].generation + 1, old(entries)[i].offset)]
      ensures forall o :: o in old(why) && old(why[o]) != InFlight ==> o in why && why[o] == old(why[o])
      ensures r.Failed? ==> !r.error.Busy? && !r.error.RolledBack?
      ensures w.alone && r.Failed? ==> !old(lock).Unlocked? || offered.None?
      ensures !w.mayDie ==> !r.Crashed?
    {
      var was := entries[i];
      assert EntryAccounted(i);
      StoreEntry(i, Entry(Pending, was.generation + 1, was.offset));
      if { case w.mayDie => assert HeldShape(owner, i); return Crashed; case true => }
      Others(owner, w);
      var e := BeginMutation(owner);
      if e.Some? {
        var crashed := RestoreEntry(owner, i, was, w);
        return if crashed then Crashed else Failed(e.value);
      }
      if { case w.mayDie => assert HeldShape(owner, i); return Crashed; case true => }
      r := AllocateEntry(owner, i, was, offered, w);
    }

    /** Allocates the block for pending entry i under the heap's lock. */
    method AllocateEntry(owner: nat, i: nat, was: Entry, offered: Option<nat>, w: World) returns (r: Outcome)
      requires Accounts() && txn == By(owner, Held) && NoFlight() && lock == LockedBy(owner) && i < |entries|
               && RestBut(i)
      requires entries[i].phase.Pending? && entries[i].generation == was.generation + 1 && was.phase.Vacant?
      requires offered.Some? ==> offered.value !in why && offered.value != 0
      modifies this`entries, this`lock, this`torn, this`why, this`members, this`closed, this`txn,
               this`pendingSlab, this`pendingEntry, this`pendingKind, this`pendingOffset
      ensures r.Ready? || r.Failed? || r.Crashed?
      ensures r.Crashed? ==> Interrupted(owner)
      ensures r.Failed? ==> Quiet() && entries == old(entries)[i := was] && why == old(why)
      ensures !r.Crashed? ==> lock != LockedBy(owner) && (w.alone ==> lock.Unlocked?)
      ensures r.Ready? ==>
                && offered.Some? && Accounts() && txn == By(owner, Evidence) && pendingKind == Create
                && pendingOffset == offered.value && Located() == i && Placed() && Carried()
                && why == old(why)[offered.value := InFlight] && offered.value !in members && offered.value !in closed
                && entries == old(entries)
      ensures forall o :: o in old(why) && old(why[o]) != InFlight ==> o in why && why[o] == old(why[o])
      ensures r.Failed? ==> !r.error.Busy? && !r.error.RolledBack?
      ensures r.Failed? ==> offered.None?
      ensures !w.mayDie ==> !r.Crashed?
    {
      torn := true;
      if { case w.mayDie => assert HeldShape(owner, i); return Crashed; case true => }
      if offered.None? {
        torn := false;
        lock := Unlocked;
        assert HeldShape(owner, i);
        Others(owner, w);
        if { case w.mayDie => return Crashed; case true => }
        var crashed := RestoreEntry(owner, i, was, w);
        return if crashed then Crashed else Failed(HeapExhausted);
      }
      TakeBlock(offered.value);
      if { case w.mayDie => assert HeldShape(owner, i); return Crashed; case true => }
      r := RecordEntry(owner, i, offered.value, w);
    }

    /** Puts a reserved entry back to the vacant word it had and ends the transaction. */
    method RestoreEntry(owner: nat, i: nat, was: Entry, w: World) returns (crashed: bool)
      requires Accounts() && txn == By(owner, Held) && NoFlight() && i < |entries| && RestBut(i)
      requires entries[i].phase.Pending? && entries[i].generation == was.generation + 1 && was.phase.Vacant?
      modifies this`entries, this`txn
      ensures crashed ==> Interrupted(owner)
      ensures !crashed ==> Quiet() && entries == old(entries)[i := was]
      ensures !w.mayDie ==> !crashed
    {
      assert EntryAccounted(i);
      StoreEntry(i, was);
      if { case w.mayDie => assert HeldShape(owner, i); return true; case true => }
      txn := Clean;
      return false;
    }

    /** Records the block allocated for pending entry i and lets the heap go. */
    method RecordEntry(owner: nat, i: nat, o: nat, w: World) returns (r: Outcome)
      requires Accounts() && txn == By(owner, Held) && lock == LockedBy(owner) && !torn
      requires i < |entries| && RestBut(i) && entries[i].phase.Pending? && entries[i].generation >= 1
      requires o in why && why[o] == InFlight && OnlyFlight(o)
      modifies this`lock, this`txn, this`pendingSlab, this`pendingEntry, this`pendingKind, this`pendingOffset
      ensures r.Ready? || r.Crashed?
      ensures r.Crashed? ==> Interrupted(owner)
      ensures r.Ready? ==> Accounts() && txn == By(owner, Evidence) && pendingKind == Create && pendingOffset == o
                             && Located() == i && Placed() && Carried() && lock.Unlocked?
      ensures !w.mayDie ==> !r.Crashed?
    {
      var crashed := Persist(owner, i / CAPACITY, i % CAPACITY, o, Create, w);
      if crashed { assert HeldShape(owner, i); return Crashed; }
      assert Located() == i;
      if { case w.mayDie => return Crashed; case true => }
      lock := Unlocked;
      return Ready;
    }

    /** Admits the header, then publishes; or undoes the creation when admission fails. */
    method FinishCreate(owner: nat, i: nat, admitted: bool, w: World) returns (r: Outcome)
      requires Accounts() && txn == By(owner, Evidence) && RollbackDue() && Located() == i && lock != LockedBy(owner)
      modifies this
      ensures undone == old(undone)
      ensures r.Done? || r.Failed? || r.Stalled? || r.Crashed?
      ensures r.Crashed? ==> Interrupted(owner)
      ensures r.Done? ==> admitted && Quiet() && r == Done(i, old(entries)[i].generation) && r.generation >= 1
                          && (!undone ==> (i, r.generation) !in old(issued))
                             && issued == old(issued) + {(i, r.generation)}
                          && entries == old(entries)[i := Entry(Published, r.generation, old(pendingOffset))]
                          && why == old(why)[old(pendingOffset) := ByEntry(i)]
                          && Joined(owner, old(pendingOffset), w)
      ensures r.Failed? ==> !admitted && Quiet() && why == old(why) - {old(pendingOffset)} && issued == old(issued)
                            && entries == old(entries)[i := Entry(Vacant, old(entries)[i].generation - 1,
                                                                  old(entries)[i].offset)]
      ensures r.Stalled? ==> !admitted && txn == By(owner, RollingBack) && Accounts() && RollbackDue()
                             && entries == old(entries) && issued == old(issued)
      ensures slabs == old(slabs) && (!r.Crashed? ==> lock != LockedBy(owner))
      ensures forall o :: o in old(why) && old(why[o]) != InFlight ==> o in why && why[o] == old(why[o])
      ensures r.Failed? ==> !r.error.Busy? && !r.error.RolledBack?
      ensures w.alone && old(lock).Unlocked? ==> !r.Stalled? && (!r.Crashed? ==> lock.Unlocked?)
      ensures old(issued) <= issued
      ensures !w.mayDie ==> !r.Crashed?
    {
      Others(owner, w);
      if { case w.mayDie => return Crashed; case true => }
      if !admitted {
        r := UndoCreate(owner, i, w);
        return;
      }
      r := Publish(owner, i, w);
    }

    method Publish(owner: nat, i: nat, w: World) returns (r: Outcome)
      requires Accounts() && txn == By(owner, Evidence) && RollbackDue() && Located() == i && lock != LockedBy(owner)
      modifies this`members, this`entries, this`why, this`issued, this`txn, this`lock, this`torn
      ensures lock != LockedBy(owner) && (w.alone ==> lock == old(lock))
      ensures r.Done? || r.Crashed?
      ensures r.Crashed? ==> Interrupted(owner)
      ensures r.Done? ==> Quiet() && r == Done(i, old(entries)[i].generation)
                          && (!undone ==> (i, r.generation) !in old(issued))
                             && issued == old(issued) + {(i, r.generation)}
                          && entries == old(entries)[i := Entry(Published, r.generation, pendingOffset)]
                          && why == old(why)[pendingOffset := ByEntry(i)]
                          && Joined(owner, pendingOffset, w)
      ensures forall o :: o in old(why) && old(why[o]) != InFlight ==> o in why && why[o] == old(why[o])
      ensures old(issued) <= issued
      ensures !w.mayDie ==> !r.Crashed?
    {
      r := Announce(owner, i, w);
      if !r.Ready? { return; }
      var g := entries[i].generation;
      Others(owner, w);
      var crashed := Finish(owner, w);
      return if crashed then Crashed else Done(i, g);
    }

    /** The entry's offset word. */
    method NameBlock(owner: nat, i: nat)
      requires Accounts() && txn == By(owner, Evidence) && RollbackDue() && Located() == i && lock != LockedBy(owner)
      modifies this`entries
      ensures Interrupted(owner) && RollbackDue()
              && entries == old(entries)[i := old(entries)[i].(offset := pendingOffset)]
    {
      assert EntryAccounted(i);
      StoreEntry(i, entries[i].(offset := pendingOffset));
    }

    /** The header is admitted: publishes entry i. */
    method Announce(owner: nat, i: nat, w: World) returns (r: Outcome)
      requires Accounts() && txn == By(owner, Evidence) && RollbackDue() && Located() == i && lock != LockedBy(owner)
      modifies this`members, this`entries, this`why, this`issued
      ensures r.Ready? || r.Crashed?
      ensures Interrupted(owner)
      ensures r.Ready? ==> Accounts() && AllRest() && NoFlight()
                           && (!undone ==> (i, old(entries)[i].generation) !in old(issued))
                           && issued == old(issued) + {(i, old(entries)[i].generation)}
                           && entries == old(entries)[i := Entry(Published, old(entries)[i].generation, pendingOffset)]
                           && why == old(why)[pendingOffset := ByEntry(i)]
                           && members == old(members)[pendingOffset := {owner}]
      ensures forall o :: o in old(why) && old(why[o]) != InFlight ==> o in why && why[o] == old(why[o])
      ensures old(issued) <= issued
      ensures !w.mayDie ==> !r.Crashed?
    {
      members := members[pendingOffset := {owner}];
      NameBlock(owner, i);
      if { case w.mayDie => return Crashed; case true => }
      assert EntryAccounted(i);
      PublishEntry(i, pendingOffset);
      if { case w.mayDie => return Crashed; case true => }
      return Ready;
    }

    /**
     Undoes a creation: when its header was not admitted, or, as `resume_rollback`, when the owner comes back to one
     it had to leave.  A quarantined entry goes back behind the generation it was published with.
     */
    method UndoCreate(owner: nat, i: nat, w: World) returns (r: Outcome)
      requires Accounts() && txn.By? && txn.owner == owner && !txn.phase.Held? && lock != LockedBy(owner)
      requires RollbackDue() || (pendingKind == Create && Aside())
      requires Located() == i
      modifies this`lock, this`txn, this`torn, this`members, this`why, this`entries, this`undone
      ensures r.Failed? || r.Stalled? || r.Crashed?
      ensures r.Crashed? ==> Interrupted(owner)
      ensures r.Failed? ==>
                Quiet() && (w.alone ==> old(lock).Unlocked? && lock.Unlocked?) && why == old(why) - {pendingOffset}
                            && entries == old(entries)[i := Rewound(old(entries)[i])]
      ensures r.Stalled? ==>
                && txn == By(owner, RollingBack) && Accounts() && Parked(owner)
                && (w.alone ==> !old(lock).Unlocked? && lock == old(lock))
                             && entries == old(entries) && why == old(why)
                             && (old(RollbackDue()) ==> RollbackDue())
      ensures !r.Crashed? ==> lock != LockedBy(owner)
      ensures forall o :: o in old(why) && old(why[o]) != InFlight && o != pendingOffset ==>
                o in why && why[o] == old(why[o])
      ensures old(RollbackDue()) ==> undone == old(undone)
      ensures undone ==> old(undone) || (i, old(entries)[i].generation) in issued
      ensures r.Failed? ==> !r.error.Busy? && !r.error.RolledBack?
      ensures !w.mayDie ==> !r.Crashed?
    {
      Others(owner, w);
      r := UndoNow(owner, i, w);
    }

    method UndoNow(owner: nat, i: nat, w: World) returns (r: Outcome)
      requires Accounts() && txn.By? && txn.owner == owner && !txn.phase.Held? && lock != LockedBy(owner)
      requires RollbackDue() || (pendingKind == Create && Aside())
      requires Located() == i
      modifies this`lock, this`txn, this`torn, this`members, this`why, this`entries, this`undone
      ensures r.Failed? || r.Stalled? || r.Crashed?
      ensures r.Crashed? ==> Interrupted(owner)
      ensures r.Failed? ==>
                Quiet() && old(lock).Unlocked? && (w.alone ==> lock.Unlocked?) && why == old(why) - {pendingOffset}
                            && entries == old(entries)[i := Rewound(old(entries)[i])]
      ensures r.Stalled? ==> txn == By(owner, RollingBack) && Accounts() && Parked(owner) && !old(lock).Unlocked?
                             && lock == old(lock) && entries == old(entries) && why == old(why)
                             && (old(RollbackDue()) ==> RollbackDue())
      ensures !r.Crashed? ==> lock != LockedBy(owner)
      ensures forall o :: o in old(why) && old(why[o]) != InFlight && o != pendingOffset ==>
                o in why && why[o] == old(why[o])
      ensures old(RollbackDue()) ==> undone == old(undone)
      ensures undone ==> old(undone) || (i, old(entries)[i].generation) in issued
      ensures r.Failed? ==> r.error.NotAdmitted?
      ensures !w.mayDie ==> !r.Crashed?
    {
      var e := BeginMutation(owner);
      if e.Some? {
        txn := By(owner, RollingBack);  // the transaction is dropped uncommitted
        return Stalled;
      }
      if { case w.mayDie => return Crashed; case true => }
      var crashed := FreeAndVacate(owner, w);
      return if crashed then Crashed else Failed(NotAdmitted);
    }

    /** Frees the block of a creation and takes its entry back, under the heap's lock. */
    method FreeAndVacate(owner: nat, w: World) returns (crashed: bool)
      requires Accounts() && txn.By? && txn.owner == owner && !txn.phase.Held? && lock == LockedBy(owner) && !torn
      requires RollbackDue() || (pendingKind == Create && Aside())
      modifies this`txn, this`entries, this`why, this`lock, this`torn, this`members, this`undone
      ensures crashed ==> w.mayDie && Interrupted(owner)
      ensures !crashed ==>
                Quiet() && lock != LockedBy(owner) && (w.alone ==> lock.Unlocked?) && why == old(why) - {pendingOffset}
                           && entries == old(entries)[Located() := Rewound(old(entries)[Located()])]
      ensures forall o :: o in old(why) && old(why[o]) != InFlight && o != pendingOffset ==>
                o in why && why[o] == old(why[o])
      ensures old(RollbackDue()) ==> undone == old(undone)
      ensures undone ==> old(undone) || (Located(), old(entries)[Located()].generation) in issued
    {
      crashed := FreeCarried(w);
      if crashed { return; }
      crashed := VacateEntry(owner, Located(), w);
    }

    /** Frees the block the evidence names; between the two steps the heap is torn. */
    method FreeCarried(w: World) returns (crashed: bool)
      requires Accounts() && (Carried() || (Forfeited() && NoFlight())) && !lock.Unlocked?
      modifies this`why, this`torn
      ensures Accounts() && (old(NoFlight()) ==> NoFlight())
      ensures !crashed ==> !torn && NoFlight() && why == old(why) - {pendingOffset}
      ensures torn || pendingOffset !in why
      ensures forall o :: o in old(why) && old(why[o]) != InFlight && o != pendingOffset ==>
                o in why && why[o] == old(why[o])
      ensures !w.mayDie ==> !crashed
    {
      torn := true;
      if { case w.mayDie => return true; case true => }
      GiveBlock(pendingOffset);
      if { case w.mayDie => return true; case true => return false; }
    }

    /** Takes an entry back to the generation before and ends the transaction. */
    method VacateEntry(owner: nat, i: nat, w: World) returns (crashed: bool)
      requires Accounts() && txn.By? && txn.owner == owner && !txn.phase.Held? && pendingKind == Create
               && lock == LockedBy(owner)
      requires Located() == i && Placed() && NoFlight() && !torn
      requires (entries[i].phase.Pending? && entries[i].generation >= 1) || entries[i].phase.Quarantined?
      modifies this`lock, this`torn, this`members, this`txn, this`entries, this`undone
      ensures crashed ==> Interrupted(owner)
      ensures !crashed ==>
                && Quiet() && lock != LockedBy(owner) && (w.alone ==> lock.Unlocked?)
                && entries == old(entries)[i := Rewound(old(entries)[i])]
      ensures undone == (old(undone) || (old(entries)[i].phase.Quarantined? && old(entries)[i].generation >= 1
                                         && (i, old(entries)[i].generation) in issued))
      ensures !w.mayDie ==> !crashed
    {
      assert EntryAccounted(i);
      ghost var again := entries[i].phase.Quarantined? && entries[i].generation >= 1
      && (i, entries[i].generation) in issued;
      MarkUndone(again);
      StoreEntry(i, Rewound(entries[i]));
      if { case w.mayDie => return true; case true => }
      crashed := EndLocked(owner, w);
    }

    /** Notes in the books that an entry goes back behind a published generation. */
    ghost method MarkUndone(again: bool)
      requires Accounts()
      modifies this`undone
      ensures Accounts() && undone == (old(undone) || again)
    {
      undone := undone || again;
      forall j | 0 <= j < |entries|
        ensures EntryAccounted(j)
      {
        assert old(EntryAccounted(j));
      }
    }

    /** `create_in`: a new layout under a fresh identity; or first the end of a rollback the owner had to leave. */
    method CreateIn(owner: nat, offered: Option<nat>, slab: Option<nat>, admitted: bool, w: World) returns (r: Outcome)
      requires Accounts() && lock != LockedBy(owner)
      requires txn.Clean? ==> Quiet()
      requires txn.By? && txn.owner == owner ==> Parked(owner)
      requires offered.Some? ==> offered.value !in why && offered.value != 0
      requires slab.Some? ==> slab.value !in why && slab.value != 0 && slab != offered
      modifies this
      ensures r.Done? ==> old(txn).Clean? && Created(owner, offered, admitted, r, w)
      ensures r.Failed? ==> if r.error.Busy? then unchanged(this) else Quiet()
      ensures old(txn).By? && !old(Resumes(owner)) ==> r == Failed(Busy(old(txn).owner))
      ensures r.Failed? && old(Resumes(owner)) ==> r.error.RolledBack?
      ensures r.Failed? && r.error.Busy? ==> old(txn).By?
      ensures r.Failed? && !r.error.Busy? && old(txn).Clean? ==> old(entries) <= entries && issued == old(issued)
      ensures r.Failed? && r.error.RolledBack? ==> old(Resumes(owner)) && (w.alone ==> old(lock).Unlocked?)
                                                   && why == old(why) - {old(pendingOffset)} && issued == old(issued)
                                                   && entries == old(RewoundEntries())
      ensures r.Stalled? ==> txn == By(owner, RollingBack) && Accounts() && Parked(owner)
      ensures r.Stalled? && old(txn).By? ==> old(Resumes(owner)) && entries == old(entries) && why == old(why)
      ensures w.alone && r.Stalled? && old(txn).By? ==> !old(lock).Unlocked?
      ensures r.Stalled? && old(txn).Clean? ==> !admitted && RollbackDue()
      ensures r.Stalled? && old(RollbackDue()) ==> RollbackDue()
      ensures r.Crashed? ==> Interrupted(owner)
      ensures !r.Removed? && !r.Ready?
      ensures old(issued) <= issued
      ensures old(txn).Clean? || old(RollbackDue()) ==> undone == old(undone)
      ensures undone ==>
                old(undone) || old(Located() < |entries| && (Located(), entries[Located()].generation) in issued)
      ensures old(txn).Clean? ==> forall o :: o in old(why) ==> o in why && why[o] == old(why[o])
      ensures w.alone && old(txn).Clean? && admitted && offered.Some? && old(lock).Unlocked? && r.Failed? ==>
                FirstOpen(old(entries)) == |old(entries)| && !(slab.Some? && |old(slabs)| <= 0xffff_ffff)
      ensures w.alone && old(lock).Unlocked? ==> !r.Stalled? && (!r.Crashed? ==> lock.Unlocked?)
      ensures !r.Crashed? ==> lock != LockedBy(owner)
      ensures !w.mayDie ==> !r.Crashed?
    {
      if txn.By? {
        if txn == By(owner, RollingBack) && pendingKind == Create {
          r := UndoCreate(owner, Located(), w);
          if r.Failed? { r := Failed(RolledBack); }
          return;
        }
        return Failed(Busy(txn.owner));
      }
      r := CreateFresh(owner, offered, slab, admitted, w);
    }

    /** No transaction is open: claims one, reserves an entry, and grows the chain when there is none. */
    method CreateFresh(owner: nat, offered: Option<nat>, slab: Option<nat>, admitted: bool,
                       w: World) returns (r: Outcome)
      requires Quiet() && lock != LockedBy(owner)
      requires offered.Some? ==> offered.value !in why && offered.value != 0
      requires slab.Some? ==> slab.value !in why && slab.value != 0 && slab != offered
      modifies this
      ensures undone == old(undone)
      ensures r.Done? || r.Failed? || r.Stalled? || r.Crashed?
      ensures r.Done? ==> Created(owner, offered, admitted, r, w)
      ensures r.Failed? ==>
                Quiet() && !r.error.Busy? && !r.error.RolledBack? && old(entries) <= entries && issued == old(issued)
      ensures r.Stalled? ==>
                txn == By(owner, RollingBack) && Accounts() && RollbackDue() && lock != LockedBy(owner) && !admitted
      ensures r.Crashed? ==> Interrupted(owner)
      ensures old(issued) <= issued
      ensures forall o :: o in old(why) ==> o in why && why[o] == old(why[o])
      ensures w.alone && admitted && offered.Some? && old(lock).Unlocked? && r.Failed? ==>
                FirstOpen(old(entries)) == |old(entries)| && !(slab.Some? && |old(slabs)| <= 0xffff_ffff)
      ensures w.alone && old(lock).Unlocked? ==> !r.Stalled? && (!r.Crashed? ==> lock.Unlocked?)
      ensures !r.Crashed? ==> lock != LockedBy(owner)
      ensures !w.mayDie ==> !r.Crashed?
    {
      txn := By(owner, Held);
      if { case w.mayDie => assert HeldShape(owner, 0); return Crashed; case true => }
      var place := Reserve();
      if place.Some? {
        r := CreateAt(owner, place.value, offered, admitted, w);
      } else {
        r := CreateGrown(owner, offered, slab, admitted, w);
      }
    }

    /** The entries with the one a rollback concerns taken back. */
    ghost function RewoundEntries(): seq<Entry>
      reads `entries, `pendingSlab, `pendingEntry
    {
      if Located() < |entries| then entries[Located() := Rewound(entries[Located()])] else entries
    }

    /** The owner is a member of its new layout, and the only one unless others have joined since. */
    ghost predicate Joined(owner: nat, o: nat, w: World)
      reads `members
    {
      o in members && owner in members[o] && (w.alone ==> members[o] == {owner})
    }

    /** The owner's next creation first ends a rollback of its own. */
    ghost predicate Resumes(owner: nat)
      reads `txn, `pendingKind
    {
      txn == By(owner, RollingBack) && pendingKind == Create
    }

    /** What a creation that answers r has done: the first open entry is published with its next generation. */
    twostate predicate Created(owner: nat, offered: Option<nat>, admitted: bool, r: Outcome, w: World)
      reads this
    {
      && admitted && offered.Some? && Quiet()
      && r == Done(FirstOpen(old(entries)), NextGeneration(old(entries)))
      && r.id < |entries| && entries[r.id] == Entry(Published, r.generation, offered.value)
      && StillThere(r.id, old(entries), entries)
      && (!undone ==> (r.id, r.generation) !in old(issued)) && issued == old(issued) + {(r.id, r.generation)}
      && offered.value in why && why[offered.value] == ByEntry(r.id)
      && Joined(owner, offered.value, w)
    }

    /** No entry is left: grow the chain, then create. */
    method CreateGrown(owner: nat, offered: Option<nat>, slab: Option<nat>, admitted: bool,
                       w: World) returns (r: Outcome)
      requires Accounts() && txn == By(owner, Held) && AllRest() && NoFlight() && lock != LockedBy(owner)
      requires offered.Some? ==> offered.value !in why && offered.value != 0
      requires slab.Some? ==> slab.value !in why && slab.value != 0 && slab != offered
      requires FirstOpen(entries) == |entries|
      modifies this
      ensures undone == old(undone)
      ensures r.Done? || r.Failed? || r.Stalled? || r.Crashed?
      ensures r.Done? ==> Created(owner, offered, admitted, r, w)
      ensures r.Failed? ==>
                Quiet() && !r.error.Busy? && !r.error.RolledBack? && old(entries) <= entries && issued == old(issued)
      ensures r.Stalled? ==>
                txn == By(owner, RollingBack) && Accounts() && RollbackDue() && lock != LockedBy(owner) && !admitted
      ensures r.Crashed? ==> Interrupted(owner)
      ensures old(issued) <= issued
      ensures forall o :: o in old(why) ==> o in why && why[o] == old(why[o])
      ensures w.alone && r.Failed? && admitted && offered.Some? && old(lock).Unlocked? ==>
                !(slab.Some? && |old(slabs)| <= 0xffff_ffff)
      ensures w.alone && old(lock).Unlocked? ==> !r.Stalled? && (!r.Crashed? ==> lock.Unlocked?)
      ensures !r.Crashed? ==> lock != LockedBy(owner)
      ensures !w.mayDie ==> !r.Crashed?
    {
      r := GrowChain(owner, slab, w);
      if r.Failed? { txn := Clean; }
      if !r.Ready? { return; }
      var place := Reserve();  // finds the first entry of the new slab
      r := CreateAt(owner, place.value, offered, admitted, w);
    }

    method CreateAt(owner: nat, i: nat, offered: Option<nat>, admitted: bool, w: World) returns (r: Outcome)
      requires Accounts() && txn == By(owner, Held) && AllRest() && NoFlight() && lock != LockedBy(owner)
      requires i < |entries| && i == FirstOpen(entries)
      requires offered.Some? ==> offered.value !in why && offered.value != 0
      modifies this
      ensures undone == old(undone)
      ensures r.Done? || r.Failed? || r.Stalled? || r.Crashed?
      ensures r.Done? ==> Created(owner, offered, admitted, r, w)
      ensures r.Failed? ==> Quiet() && entries == old(entries) && why == old(why) && issued == old(issued)
      ensures r.Stalled? ==> txn == By(owner, RollingBack) && Accounts() && RollbackDue() && lock != LockedBy(owner)
                             && issued == old(issued) && !admitted
      ensures r.Crashed? ==> Interrupted(owner)
      ensures old(issued) <= issued && slabs == old(slabs)
      ensures forall o :: o in old(why) ==> o in why && why[o] == old(why[o])
      ensures r.Failed? ==> !r.error.Busy? && !r.error.RolledBack?
      ensures w.alone && (r.Failed? || r.Stalled?) ==> !admitted || offered.None? || !old(lock).Unlocked?
      ensures w.alone && old(lock).Unlocked? ==> !r.Stalled? && (!r.Crashed? ==> lock.Unlocked?)
      ensures !r.Crashed? ==> lock != LockedBy(owner)
      ensures !w.mayDie ==> !r.Crashed?
    {
      r := PrepareEntry(owner, i, offered, w);
      if !r.Ready? { return; }
      r := FinishCreate(owner, i, admitted, w);
    }

    /** `remove_in`: ends the layout's lifetime if the caller is its only member. */
    method RemoveIn(owner: nat, i: nat, generation: nat, mapped: nat, w: World) returns (r: Outcome)
      requires Accounts() && lock != LockedBy(owner) && (txn.Clean? ==> Quiet())
      modifies this
      ensures undone == old(undone)
      ensures r.Removed? || r.Failed? || r.Crashed?
      ensures r.Removed? ==>
                && old(txn).Clean? && i < |old(entries)| && old(entries)[i] == Entry(Published, generation, mapped)
                && mapped in old(members) && owner in old(members)[mapped] && mapped !in old(closed)
                && (w.alone ==> old(Sole(owner, mapped)))
                && Quiet() && mapped in old(why) && why == old(why) - {mapped}
                && entries == old(entries)[i := Entry(Vacant, generation, mapped)]
      ensures r.Failed? ==>
                entries == old(entries) && why == old(why) && txn == old(txn) && closed == old(closed) && Accounts()
      ensures r.Crashed? ==> Interrupted(owner)
      ensures issued == old(issued) && slabs == old(slabs)
      ensures r.Failed? ==> unchanged(this) || Quiet()
      ensures w.alone && r.Failed? ==>
                !(old(txn).Clean? && old(lock).Unlocked? && i < |old(entries)|
                  && old(entries)[i] == Entry(Published, generation, mapped) && old(Sole(owner, mapped)))
      ensures !r.Crashed? ==> lock != LockedBy(owner)
      ensures w.alone && !r.Crashed? ==> lock == old(lock)
      ensures !w.mayDie ==> !r.Crashed?
    {
      if !(i < |entries| && entries[i].phase.Published? && entries[i].generation == generation
           && entries[i].offset == mapped) {
        return Failed(Stale);
      }
      if txn.By? { return Failed(Busy(txn.owner)); }
      txn := By(owner, Held);
      if { case w.mayDie => assert HeldShape(owner, i); return Crashed; case true => }
      Others(owner, w);
      var e := BeginMutation(owner);
      if e.Some? {
        txn := Clean;
        return Failed(e.value);
      }
      if { case w.mayDie => assert HeldShape(owner, i); return Crashed; case true => }
      r := RemoveLocked(owner, i, w);
    }

    /** `close_unique` would succeed: p is the only member of the layout at o. */
    predicate Sole(p: nat, o: nat)
      reads `members, `closed
    {
      o in members && members[o] == {p} && o !in closed
    }

    /**
     What a successful close says about the membership word found: p is a member, and the only one if no one left
     since.
     */
    ghost predicate CloseLeft(p: nat, o: nat, w: World)
      reads `members, `closed
    {
      o in members && p in members[o] && o !in closed && (w.alone ==> Sole(p, o))
    }

    /** The removal of published entry i under the heap's lock. */
    method RemoveLocked(owner: nat, i: nat, w: World) returns (r: Outcome)
      requires Accounts() && txn == By(owner, Held) && AllRest() && NoFlight() && lock == LockedBy(owner) && !torn
      requires i < |entries| && entries[i].phase.Published?
      modifies this`entries, this`why, this`issued, this`txn, this`lock, this`torn, this`members, this`closed,
               this`pendingSlab, this`pendingEntry, this`pendingKind, this`pendingOffset
      ensures r.Removed? || r.Failed? || r.Crashed?
      ensures r.Crashed? ==> Interrupted(owner)
      ensures r.Failed? ==> (w.alone ==> !old(Sole(owner, entries[i].offset)))
                            && Quiet() && entries == old(entries) && why == old(why) && closed == old(closed)
      ensures r.Removed? ==> old(CloseLeft(owner, entries[i].offset, w)) && Quiet()
                             && entries == old(entries)[i := old(entries)[i].(phase := Vacant)]
                             && old(entries)[i].offset in old(why) && why == old(why) - {old(entries)[i].offset}
      ensures issued == old(issued)
      ensures !r.Crashed? && !r.Ready? ==> lock != LockedBy(owner) && (w.alone ==> lock.Unlocked?)
      ensures !w.mayDie ==> !r.Crashed?
    {
      r := CloseEntry(owner, i, w);
      if !r.Ready? { return; }
      r := ReleaseEntry(owner, i, w);
    }

    /** Closes the membership word of published entry i, or backs out when others are members. */
    method CloseEntry(owner: nat, i: nat, w: World) returns (r: Outcome)
      requires Accounts() && txn == By(owner, Held) && AllRest() && NoFlight() && lock == LockedBy(owner) && !torn
      requires i < |entries| && entries[i].phase.Published?
      modifies this`entries, this`why, this`issued, this`txn, this`lock, this`torn, this`members, this`closed,
               this`pendingSlab, this`pendingEntry, this`pendingKind, this`pendingOffset
      ensures r.Ready? || r.Failed? || r.Crashed?
      ensures r.Crashed? ==> Interrupted(owner)
      ensures r.Failed? ==> Quiet() && entries == old(entries) && why == old(why) && closed == old(closed)
      ensures r.Ready? ==>
                && Accounts() && txn == By(owner, Evidence) && pendingKind == Remove && Placed() && Carried()
                && Located() == i && pendingOffset == old(entries)[i].offset && lock == LockedBy(owner) && !torn
                && entries == old(entries)[i := old(entries)[i].(phase := Closing)]
                && pendingOffset in old(why) && why == old(why)[pendingOffset := InFlight]
                && old(CloseLeft(owner, entries[i].offset, w))
                && closed == old(closed) + {pendingOffset}
      ensures issued == old(issued)
      ensures w.alone && r.Failed? ==> !old(Sole(owner, entries[i].offset))
      ensures !r.Crashed? && !r.Ready? ==> lock != LockedBy(owner) && (w.alone ==> lock.Unlocked?)
      ensures !w.mayDie ==> !r.Crashed?
    {
      var o := entries[i].offset;
      assert EntryAccounted(i);
      var crashed := BeginClose(owner, i, w);
      if crashed { return Crashed; }
      r := TryClose(owner, i, w);
    }

    method TryClose(owner: nat, i: nat, w: World) returns (r: Outcome)
      requires Interrupted(owner) && txn.phase.Evidence? && pendingKind == Remove && Located() == i
      requires lock == LockedBy(owner) && entries[i].phase.Closing? && (i, entries[i].generation) in issued
      modifies this`entries, this`why, this`issued, this`txn, this`lock, this`torn, this`members, this`closed
      ensures r.Ready? || r.Failed? || r.Crashed?
      ensures r.Crashed? ==> Interrupted(owner)
      ensures r.Ready? ==>
                && old(CloseLeft(owner, pendingOffset, w)) && closed == old(closed) + {pendingOffset}
                && Interrupted(owner) && lock == old(lock) && torn == old(torn) && txn == old(txn)
                && entries == old(entries) && why == old(why)
      ensures r.Failed? ==>
                && (w.alone ==> !old(Sole(owner, pendingOffset))) && closed == old(closed) && Quiet()
                && entries == old(entries)[i := old(entries)[i].(phase := Published)]
                && why == old(why)[pendingOffset := ByEntry(i)]
      ensures issued == old(issued)
      ensures !r.Crashed? && !r.Ready? ==> lock != LockedBy(owner) && (w.alone ==> lock.Unlocked?)
      ensures !w.mayDie ==> !r.Crashed?
    {
      Others(owner, w);
      r := CloseWord(owner, i, w);
    }

    /** `close_unique`, and back to published when it fails. */
    method CloseWord(owner: nat, i: nat, w: World) returns (r: Outcome)
      requires Interrupted(owner) && txn.phase.Evidence? && pendingKind == Remove && Located() == i
      requires lock == LockedBy(owner) && entries[i].phase.Closing? && (i, entries[i].generation) in issued
      modifies this`entries, this`why, this`issued, this`txn, this`lock, this`torn, this`members, this`closed
      ensures r.Ready? || r.Failed? || r.Crashed?
      ensures r.Crashed? ==> Interrupted(owner)
      ensures r.Ready? ==>
                && old(Sole(owner, pendingOffset)) && closed == old(closed) + {pendingOffset}
                && Interrupted(owner) && lock == old(lock) && torn == old(torn) && txn == old(txn)
                && entries == old(entries) && why == old(why)
      ensures r.Failed? ==>
                && !old(Sole(owner, pendingOffset)) && closed == old(closed) && Quiet()
                && entries == old(entries)[i := old(entries)[i].(phase := Published)]
                && why == old(why)[pendingOffset := ByEntry(i)]
      ensures issued == old(issued)
      ensures !r.Crashed? && !r.Ready? ==> lock != LockedBy(owner) && (w.alone ==> lock.Unlocked?)
      ensures !w.mayDie ==> !r.Crashed?
    {
      if Sole(owner, pendingOffset) {
        closed := closed + {pendingOffset};
        if { case w.mayDie => return Crashed; case true => }
        return Ready;
      }
      r := ReopenEntry(owner, i, w);
    }

    /** CLOSING, then the evidence of the removal. */
    method BeginClose(owner: nat, i: nat, w: World) returns (crashed: bool)
      requires Accounts() && txn == By(owner, Held) && AllRest() && NoFlight() && lock == LockedBy(owner) && !torn
      requires i < |entries| && entries[i].phase.Published?
      modifies this`entries, this`why, this`txn,
               this`pendingSlab, this`pendingEntry, this`pendingKind, this`pendingOffset
      ensures crashed ==> Interrupted(owner)
      ensures !crashed ==>
                && Accounts() && txn == By(owner, Evidence) && pendingKind == Remove && Placed() && Carried()
                && Located() == i && pendingOffset == old(entries)[i].offset
                && entries == old(entries)[i := old(entries)[i].(phase := Closing)]
                && pendingOffset in old(why) && why == old(why)[pendingOffset := InFlight]
      ensures !w.mayDie ==> !crashed
    {
      var o := entries[i].offset;
      UnpublishEntry(i, Closing, InFlight);
      if { case w.mayDie => assert HeldShape(owner, i); return true; case true => }
      crashed := Persist(owner, i / CAPACITY, i % CAPACITY, o, Remove, w);
      if crashed { assert HeldShape(owner, i); return; }
      assert Located() == i;
      if { case w.mayDie => return true; case true => }
    }

    method ReopenEntry(owner: nat, i: nat, w: World) returns (r: Outcome)
      requires Accounts() && txn == By(owner, Evidence) && pendingKind == Remove && Placed() && Carried()
               && Located() == i
      requires lock == LockedBy(owner) && !torn && entries[i].phase.Closing? && entries[i].offset == pendingOffset
      requires (i, entries[i].generation) in issued
      modifies this`entries, this`why, this`issued, this`txn, this`lock, this`torn, this`members
      ensures r.Failed? || r.Crashed?
      ensures r.Crashed? ==> Interrupted(owner)
      ensures r.Failed? ==> Quiet() && entries == old(entries)[i := old(entries)[i].(phase := Published)]
                            && why == old(why)[pendingOffset := ByEntry(i)]
      ensures issued == old(issued)
      ensures !r.Crashed? && !r.Ready? ==> lock != LockedBy(owner) && (w.alone ==> lock.Unlocked?)
      ensures !w.mayDie ==> !r.Crashed?
    {
      PublishEntry(i, pendingOffset);
      if { case w.mayDie => return Crashed; case true => }
      var crashed := EndLocked(owner, w);
      return if crashed then Crashed else Failed(CloseRefused);
    }

    /** Frees the closed layout of entry i and vacates the entry, whose generation stays. */
    method ReleaseEntry(owner: nat, i: nat, w: World) returns (r: Outcome)
      requires Accounts() && txn == By(owner, Evidence) && pendingKind == Remove && Placed() && Carried()
               && Located() == i
      requires lock == LockedBy(owner) && !torn && entries[i].phase.Closing?
      modifies this`entries, this`why, this`txn, this`lock, this`torn, this`members
      ensures r.Removed? || r.Crashed?
      ensures r.Crashed? ==> Interrupted(owner)
      ensures r.Removed? ==> Quiet() && entries == old(entries)[i := old(entries)[i].(phase := Vacant)]
                             && why == old(why) - {pendingOffset}
      ensures !r.Crashed? && !r.Ready? ==> lock != LockedBy(owner) && (w.alone ==> lock.Unlocked?)
      ensures !w.mayDie ==> !r.Crashed?
    {
      assert EntryAccounted(i);
      StoreEntry(i, entries[i].(phase := Removing));
      if { case w.mayDie => return Crashed; case true => }
      var crashed := FreeCarried(w);
      if crashed { return Crashed; }
      r := RetireEntry(owner, i, w);
    }

    /** The block is free and the heap consistent: RELEASED, unlock, VACANT, end. */
    method RetireEntry(owner: nat, i: nat, w: World) returns (r: Outcome)
      requires Accounts() && txn.By? && txn.owner == owner && !txn.phase.Held? && pendingKind == Remove
      requires Placed() && NoFlight() && Located() == i && lock == LockedBy(owner) && !torn
      requires entries[i].phase.Removing? || entries[i].phase.Closing?
      modifies this`entries, this`txn, this`lock, this`torn, this`members
      ensures r.Removed? || r.Crashed?
      ensures r.Crashed? ==> Interrupted(owner)
      ensures r.Removed? ==>
                && Quiet() && (w.alone ==> lock.Unlocked?)
                && entries == old(entries)[i := old(entries)[i].(phase := Vacant)]
      ensures !r.Crashed? && !r.Ready? ==> lock != LockedBy(owner) && (w.alone ==> lock.Unlocked?)
      ensures !w.mayDie ==> !r.Crashed?
    {
      var crashed := MarkReleased(owner, i, w);
      if crashed { return Crashed; }
      Others(owner, w);
      if { case w.mayDie => return Crashed; case true => }
      assert EntryAccounted(i);
      StoreEntry(i, entries[i].(phase := Vacant));
      if { case w.mayDie => return Crashed; case true => }
      crashed := Finish(owner, w);
      return if crashed then Crashed else Removed;
    }

    /** RELEASED, and the heap is let go. */
    method MarkReleased(owner: nat, i: nat, w: World) returns (crashed: bool)
      requires Accounts() && txn.By? && txn.owner == owner && !txn.phase.Held? && pendingKind == Remove
      requires Placed() && NoFlight() && Located() == i && lock == LockedBy(owner) && !torn
      requires entries[i].phase.Removing? || entries[i].phase.Closing?
      modifies this`entries, this`lock
      ensures Interrupted(owner) && entries == old(entries)[i := old(entries)[i].(phase := Released)]
      ensures !crashed ==> lock.Unlocked?
      ensures !w.mayDie ==> !crashed
    {
      assert EntryAccounted(i);
      StoreEntry(i, entries[i].(phase := Released));
      if { case w.mayDie => return true; case true => }
      lock := Unlocked;
      return false;
    }

    // Recovery: `dead` holds the transaction, `live` recovers and may itself die at any point.

    /** The entry the interrupted operation concerns; past the end when there is none. */
    ghost function At(): nat
      reads `txn, `entries, `pendingKind, `pendingSlab, `pendingEntry
    {
      if txn.By? && !txn.phase.Held? then if pendingKind == Grow then |entries| else Located() else FirstBusy(entries)
    }

    /** Whether recovery quarantines that entry, the heap's word being l. */
    ghost predicate QuarantinesUnder(dead: nat, l: Lock)
      reads `txn, `entries, `pendingKind, `pendingSlab, `pendingEntry
    {
      At() < |entries| &&
      var e := entries[At()];
      if (txn.By? && txn.phase.Held?) then !Reserved(e)
      else if pendingKind == Create then !Reserved(e) || l == LockedBy(dead) || l.Poisoned?
      else
        match e.phase
        case Closing => l.Poisoned?
        case Released => l.Poisoned?
        case Removing => l == LockedBy(dead) || l.Poisoned?
        case Vacant => false
        case _ => true
    }

    ghost predicate Quarantines(dead: nat)
      reads `txn, `entries, `lock, `pendingKind, `pendingSlab, `pendingEntry
    {
      QuarantinesUnder(dead, lock)
    }

    /** A removal that closed its layout and has not begun to free it. */
    ghost predicate ClosedRemoval()
      reads this
    {
      txn.By? && !txn.phase.Held? && pendingKind == Remove && Placed() && entries[Located()].phase.Closing?
      && pendingOffset in closed
    }

    /** What recovery makes of the entry. */
    ghost function Mended(dead: nat, l: Lock): Entry
      requires At() < |entries|
      reads this
    {
      var e := entries[At()];
      if QuarantinesUnder(dead, l) then e.(phase := Quarantined)
      else if (txn.By? && txn.phase.Held?) || pendingKind == Create then Rewound(e)
      else if e.phase.Closing? && !ClosedRemoval() then e.(phase := Published)
      else e.(phase := Vacant)
    }

    /** The answer of a recovery that settles. */
    ghost function Verdict(dead: nat, l: Lock): Recovery
      reads this
    {
      if QuarantinesUnder(dead, l) then SetAside
      else if txn.By? && txn.phase.Held? then if At() == |entries| && l == LockedBy(dead) then SetAside else Undone
      else if pendingKind == Grow then
        if pendingSlab < |slabs| then Retained else if l == LockedBy(dead) || l.Poisoned? then SetAside else Undone
      else if pendingKind == Create then Undone
      else if At() < |entries| && entries[At()].phase.Closing? && !ClosedRemoval() then Undone
      else Freed
    }

    ghost function PlanUnder(dead: nat, l: Lock): Plan
      reads this
    {
      Plan(if At() < |entries| then Mended(dead, l) else Entry(Vacant, 0, 0), QuarantinesUnder(dead, l),
           Verdict(dead, l))
    }

    ghost function See(dead: nat): Seen
      reads this
    {
      Seen(slabs, entries, why, issued, txn, At(), PlanUnder(dead, lock), PlanUnder(dead, Poisoned),
           lock.Poisoned?, lock.LockedBy? && lock.slot != dead,
           lock.Unlocked? || (lock == LockedBy(dead) && Sure()), Sure(), ClosedRemoval())
    }

    /** Evidence that the heap is consistent whoever holds it. */
    ghost predicate Sure()
      reads `txn, `entries, `pendingKind, `pendingSlab, `pendingEntry
    {
      && txn.By? && !txn.phase.Held? && pendingKind == Remove && Located() < |entries|
      && (entries[Located()].phase.Closing? || entries[Located()].phase.Released?)
    }

    /**
     What answer r of a recovery that found b means.  A refusal leaves everything for the next attempt and comes only
     from a heap someone else has; a panic leaves everything too and comes only where someone else had the heap; a
     death leaves the directory recoverable, except in the middle of freeing a closed layout; any other answer follows
     the plan for what was found, or the plan for a poisoned heap if others poisoned it meanwhile.
     */
    ghost predicate Means(b: Seen, dead: nat, live: nat, r: Recovery, w: World)
      reads this
    {
      && slabs == b.slabs && b.issued <= issued && (b.poisoned ==> lock.Poisoned?)
      && match r
         case Refused(e) =>
           && e != Stale && Interrupted(dead) && entries == b.entries && why == b.why && txn == b.txn
           && !lock.Unlocked? && lock != LockedBy(live) && (w.alone ==> b.taken)
         case Panicked =>
           && !w.alone && b.sure && !b.poisoned && lock.Unlocked?
           && Interrupted(dead) && entries == b.entries && why == b.why && txn == b.txn
         case Halted => w.mayDie && (Interrupted(dead) || Interrupted(live))
         case HaltedFreeing => w.mayDie && b.closing && FreesAgain(live)
         case _ =>
           && Accounts() && AllRest() && NoFlight() && lock != LockedBy(live) && (w.alone ==> lock != LockedBy(dead))
           && SameBut(b.at, b.entries, entries) && KeptBut(b.at, b.why, why)
           && (Follows(b, b.plan, live, r) || (!w.alone && lock.Poisoned? && Follows(b, b.spoiled, live, r)))
           && (w.alone && b.free ==> lock.Unlocked?)
    }

    /**
     The answer is the plan's, the entry is as planned, and a block is lost only to a poisoned heap or a quarantine.
     */
    ghost predicate Follows(b: Seen, plan: Plan, live: nat, r: Recovery)
      reads this
    {
      && r == plan.verdict && (b.at < |entries| ==> entries[b.at] == plan.after)
      && (if plan.quarantines && !debugAssertions then Parked(live) && txn.phase == Dropped(b.txn) else txn.Clean?)
      && (plan.quarantines || lock.Poisoned? || LosesNone(b.why, why))
    }

    /** What an answer means to one who found c it means to one who found b before. */
    lemma StillMeans(b: Seen, c: Seen, dead: nat, live: nat, r: Recovery, w: World)
      requires Since(b, c, w.alone) && Means(c, dead, live, r, w)
      ensures Means(b, dead, live, r, w)
    {}

    /** Gives up the blocks in flight. */
    method Forfeit()
      requires Accounts()
      modifies this`why
      ensures Accounts() && NoFlight() && why.Keys == old(why).Keys
      ensures forall o :: o in why ==> why[o] == if old(why)[o] == InFlight then Lost else old(why)[o]
    {
      why := map o | o in why :: if why[o] == InFlight then Lost else why[o];
      forall i | 0 <= i < |entries|
        ensures EntryAccounted(i)
      {
        assert old(EntryAccounted(i));
      }
      forall x | x in why
        ensures BlockAccounted(x)
      {
        assert old(BlockAccounted(x));
      }
    }

    /** `poison_owner`: a heap the dead participant was changing is given up. */
    method PoisonDead(dead: nat)
      requires Interrupted(dead)
      modifies this`lock
      ensures Interrupted(dead) && lock == if old(lock) == LockedBy(dead) then Poisoned else old(lock)
      ensures old(At() < |entries| || (pendingKind == Grow && !txn.phase.Held?)) && !old(Sure()) ==>
                Since(old(See(dead)), See(dead), true)
    {
      if lock == LockedBy(dead) {
        if txn.phase.Held? {
          ghost var i: nat :| HeldShape(dead, i);
          lock := Poisoned;
          assert HeldShape(dead, i);
        } else {
          lock := Poisoned;
        }
      }
    }

    /** `clear_dead_owner`: the evidence says the heap is consistent, so it is unlocked. */
    method ClearDead(dead: nat) returns (ok: bool)
      requires Sure() && Placed()
      modifies this`lock
      ensures old(Interrupted(dead)) ==> Interrupted(dead)
      ensures ok == lock.Unlocked? && lock == if old(lock) == LockedBy(dead) then Unlocked else old(lock)
      ensures See(dead) == old(See(dead))
    {
      if lock == LockedBy(dead) { lock := Unlocked; }
      return lock.Unlocked?;
    }

    /** The transaction passes to the recovering participant with its phase. */
    method Transfer(dead: nat, live: nat)
      requires Interrupted(dead) && lock != LockedBy(dead) && lock != LockedBy(live)
      modifies this`txn
      ensures Interrupted(live) && txn == By(live, old(txn).phase)
    {
      if txn.phase.Held? {
        ghost var i: nat :| HeldShape(dead, i);
        txn := By(live, txn.phase);
        assert HeldShape(live, i);
      } else {
        txn := By(live, txn.phase);
      }
    }

    /** `claim_heap_and_transfer`, as far as the words go. */
    method Seize(live: nat, w: World) returns (e: Option<Error>, crashed: bool)
      requires txn.By?
      modifies this`lock, this`txn
      ensures e.Some? <==> !old(lock).Unlocked?
      ensures e.Some? ==>
                && !crashed && txn == old(txn) && lock == old(lock)
                && e.value == if lock.Poisoned? then HeapPoisoned else HeapBusy
      ensures e.None? ==> lock == LockedBy(live) && (txn == By(live, old(txn).phase) || (crashed && txn == old(txn)))
      ensures !w.mayDie ==> !crashed
    {
      crashed := false;
      e := BeginMutation(live);
      if e.Some? { return; }
      if { case w.mayDie => return None, true; case true => }
      txn := By(live, txn.phase);
      if { case w.mayDie => return None, true; case true => }
    }

    /** `claim_heap_and_transfer`. */
    method ClaimAndTransfer(dead: nat, live: nat, w: World) returns (e: Option<Error>, crashed: bool)
      requires Interrupted(dead) && !txn.phase.Held? && Carried() && live != dead
      requires lock != LockedBy(dead) && lock != LockedBy(live) && !lock.Poisoned?
      modifies this`lock, this`torn, this`members, this`txn
      ensures e.Some? ==> !crashed && Interrupted(dead) && txn == old(txn) && !lock.Unlocked? && lock != LockedBy(live)
                          && e.value != Stale
                          && (w.alone ==> old(lock).LockedBy?)
      ensures crashed ==> w.mayDie && (Interrupted(dead) || Interrupted(live))
      ensures e.None? && !crashed ==>
                Interrupted(live) && txn == By(live, old(txn).phase) && lock == LockedBy(live) && !torn
    {
      Meanwhile(dead, live, w);
      e, crashed := Seize(live, w);
    }

    /** `quarantine`: the entry and its block are set aside; only a debug build ends the transaction. */
    method Quarantine(dead: nat, live: nat, i: nat, w: World) returns (r: Recovery)
      requires Interrupted(dead) && lock != LockedBy(dead) && lock != LockedBy(live)
      requires i == At() && Quarantines(dead) && RestBut(i)
      modifies this`txn, this`entries, this`why
      ensures r.SetAside? || r.Halted?
      ensures Means(old(See(dead)), dead, live, r, w)
    {
      ghost var b := See(dead);
      Transfer(dead, live);
      if { case w.mayDie => return Halted; case true => }
      r := SetEntryAside(dead, live, i, w, b);
    }

    method SetEntryAside(dead: nat, live: nat, i: nat, w: World, ghost b: Seen) returns (r: Recovery)
      requires lock != LockedBy(dead)
      requires Interrupted(live) && lock != LockedBy(live) && i == At() && i < |entries| && RestBut(i)
      requires b.slabs == slabs && b.entries == entries && b.why == why && b.issued == issued && b.at == i
      requires b.txn.By? && b.txn.phase == txn.phase
      requires b.plan == Plan(entries[i].(phase := Quarantined), true, SetAside) && (b.poisoned ==> lock.Poisoned?)
      requires b.free ==> lock.Unlocked?
      modifies this`txn, this`entries, this`why
      ensures r.SetAside? || r.Halted?
      ensures Means(b, dead, live, r, w)
    {
      SealHeld(live, i);
      if { case w.mayDie => return Halted; case true => }
      if debugAssertions {
        txn := Clean;
      } else if txn.phase.Evidence? {
        txn := By(live, RollingBack);
      }
      return SetAside;
    }

    /** Quarantines entry i in a transaction of p. */
    method SealHeld(p: nat, i: nat)
      requires Interrupted(p) && lock != LockedBy(p) && i == At() && i < |entries| && RestBut(i)
      modifies this`entries, this`why
      ensures Interrupted(p) && AllRest() && NoFlight() && KeptBut(i, old(why), why)
      ensures entries == old(entries)[i := old(entries)[i].(phase := Quarantined)]
      ensures !txn.phase.Held? ==> Aside()
    {
      InReach(p);
      SealEntry(i);
      assert HeldShape(p, i);
    }

    /** A recorded creation's block is in flight, published or given up already, unless the heap is poisoned. */
    lemma InReach(p: nat)
      requires Interrupted(p) && lock != LockedBy(p)
      ensures !txn.phase.Held? && pendingKind == Create && !lock.Poisoned? ==>
                pendingOffset in why
                && (why[pendingOffset] == InFlight || why[pendingOffset] == Lost
                    || why[pendingOffset] == ByEntry(Located()))
    {
      if !txn.phase.Held? && pendingKind == Create { assert EntryAccounted(Located()); }
    }

    /** The one store that quarantines entry i. */
    method SealEntry(i: nat)
      requires Accounts() && i < |entries| && RestBut(i)
      modifies this`entries, this`why
      ensures Accounts() && AllRest() && NoFlight() && KeptBut(i, old(why), why)
      ensures entries == old(entries)[i := old(entries)[i].(phase := Quarantined)]
      ensures forall o :: o in old(why) && old(why)[o] in {InFlight, ByEntry(i), Lost} ==>
                o in why && why[o] == Lost
    {
      assert EntryAccounted(i);
      assert forall o :: o in why && why[o] == ByEntry(i) ==> BlockAccounted(o);
      if entries[i].phase.Published? {
        UnpublishEntry(i, Quarantined, Lost);
      } else {
        StoreEntry(i, entries[i].(phase := Quarantined));
      }
      Forfeit();
    }

    /** No transaction evidence and no entry in transition. */
    method RecoverIdle(dead: nat, live: nat, w: World) returns (r: Recovery)
      requires Interrupted(dead) && txn.phase.Held? && At() == |entries| && live != dead && lock != LockedBy(live)
      modifies this`txn, this`lock, this`why
      ensures Means(old(See(dead)), dead, live, r, w) && !r.Panicked?
      ensures r.SetAside? ==> lock.Poisoned?
    {
      var held := lock == LockedBy(dead);
      PoisonDead(dead);
      if { case w.mayDie => return Halted; case true => }
      var crashed := EndIdle(dead, live, w);
      return if crashed then Halted else if held then SetAside else Undone;
    }

    method EndIdle(dead: nat, live: nat, w: World) returns (crashed: bool)
      requires Interrupted(dead) && txn.phase.Held? && At() == |entries| && lock != LockedBy(dead)
               && lock != LockedBy(live)
      modifies this`txn, this`why
      ensures crashed ==> w.mayDie && Interrupted(live)
      ensures !crashed ==> Quiet() && KeptBut(|entries|, old(why), why) && (lock.Poisoned? || LosesNone(old(why), why))
    {
      Transfer(dead, live);
      if { case w.mayDie => return true; case true => }
      Forfeit();
      txn := Clean;
      return false;
    }

    /** A reserved entry with nothing recorded goes back one generation. */
    method RecoverReserved(dead: nat, live: nat, i: nat, w: World) returns (r: Recovery)
      requires Interrupted(dead) && txn.phase.Held? && live != dead && lock != LockedBy(dead) && lock != LockedBy(live)
      requires i == At() && i < |entries| && RestBut(i) && Reserved(entries[i])
      modifies this`txn, this`entries, this`why
      ensures Means(old(See(dead)), dead, live, r, w) && !r.Panicked?
    {
      Transfer(dead, live);
      if { case w.mayDie => return Halted; case true => }
      var crashed := RewindReserved(live, i, w);
      return if crashed then Halted else Undone;
    }

    method RewindReserved(live: nat, i: nat, w: World) returns (crashed: bool)
      requires Interrupted(live) && txn.phase.Held? && lock != LockedBy(live)
      requires i < |entries| && RestBut(i) && Reserved(entries[i])
      modifies this`txn, this`entries, this`why
      ensures crashed ==> w.mayDie && Interrupted(live)
      ensures !crashed ==> Quiet() && entries == old(entries)[i := Rewound(old(entries)[i])]
                           && KeptBut(i, old(why), why) && (lock.Poisoned? || LosesNone(old(why), why))
    {
      assert EntryAccounted(i);
      assert !lock.Poisoned? ==> NoFlight();
      StoreEntry(i, Rewound(entries[i]));
      Forfeit();
      if { case w.mayDie => assert HeldShape(live, i); return true; case true => }
      txn := Clean;
      return false;
    }

    /** A creation with evidence: its block is freed and the entry goes back one generation. */
    method RecoverCreate(dead: nat, live: nat, w: World) returns (r: Recovery)
      requires Interrupted(dead) && !txn.phase.Held? && pendingKind == Create && Reserved(entries[Located()])
      requires live != dead && lock.Unlocked?
      modifies this`txn, this`entries, this`why, this`lock, this`torn, this`members, this`undone
      ensures undone == old(undone)
      ensures Means(old(See(dead)), dead, live, r, w) && !r.Panicked?
      ensures r.Undone? ==> pendingOffset !in why
    {
      var e, crashed := ClaimAndTransfer(dead, live, w);
      if e.Some? { return Refused(e.value); }
      if crashed { return Halted; }
      crashed := FreeAndVacate(live, w);
      return if crashed then Halted else Undone;
    }

    /** A removal past its close: the block is freed and the entry vacated, its generation kept. */
    method RecoverRemoving(dead: nat, live: nat, w: World) returns (r: Recovery)
      requires Interrupted(dead) && !txn.phase.Held? && pendingKind == Remove && entries[Located()].phase.Removing?
      requires live != dead && lock.Unlocked?
      modifies this`txn, this`entries, this`why, this`lock, this`torn, this`members
      ensures Means(old(See(dead)), dead, live, r, w) && !r.Panicked?
      ensures r.Freed? ==> pendingOffset !in why
    {
      var e, crashed := ClaimAndTransfer(dead, live, w);
      if e.Some? { return Refused(e.value); }
      if crashed { return Halted; }
      crashed := FreeAndRetire(live, w);
      return if crashed then Halted else Freed;
    }

    /** Frees the block of a removal and vacates its entry. */
    method FreeAndRetire(live: nat, w: World) returns (crashed: bool)
      requires Interrupted(live) && !txn.phase.Held? && pendingKind == Remove && entries[Located()].phase.Removing?
      requires Carried() && lock == LockedBy(live) && !torn
      modifies this`txn, this`entries, this`why, this`lock, this`torn, this`members
      ensures crashed ==> w.mayDie && Interrupted(live)
      ensures !crashed ==> Quiet() && lock != LockedBy(live) && (w.alone ==> lock.Unlocked?)
                           && why == old(why) - {pendingOffset}
                           && entries == old(entries)[Located() := old(entries)[Located()].(phase := Vacant)]
    {
      crashed := FreeCarried(w);
      if crashed { return; }
      var end := RetireEntry(live, Located(), w);
      crashed := end.Crashed?;
    }

    /** The evidence of p still says CLOSING although the free has begun. */
    ghost predicate FreesAgain(p: nat)
      reads this
    {
      && Books() && ClosedRemoval() && txn.owner == p && lock == LockedBy(p)
      && (torn || pendingOffset !in why)
    }

    /**
     What recovering p from there does, up to its free: the heap is unlocked on the evidence, claimed, and about to
     free the block over torn words or a second time.
     */
    method FreeTwice(p: nat, live: nat)
      requires FreesAgain(p) && live != p
      modifies this`lock, this`txn
      ensures lock == LockedBy(live) && txn == By(live, old(txn).phase)
      ensures torn || pendingOffset !in why
    {
      var cleared := ClearDead(p);
      assert cleared && pendingOffset in closed;
      var e, crashed := Seize(live, CALM);
    }

    /** The clear failed: what others did meanwhile decides. */
    method GiveUp(dead: nat, live: nat, w: World) returns (r: Recovery, ghost read: Lock)
      requires Interrupted(dead) && Sure() && !lock.Unlocked? && lock != LockedBy(dead) && lock != LockedBy(live)
      modifies this`txn, this`entries, this`why, this`lock, this`torn, this`members
      ensures r.SetAside? || r.Refused? || r.Halted? || r.Panicked?
      ensures Means(old(See(dead)), dead, live, r, w)
      ensures (r.Panicked? <==> read.Unlocked?) && (old(lock).Poisoned? ==> read.Poisoned?)
    {
      ghost var b := See(dead);
      Between(dead, live, w);
      read := lock;
      ghost var c := See(dead);
      if lock.Unlocked? {
        r := Resolve(dead, live, w);
      } else {
        r := Resolve(dead, live, w);
        StillMeans(b, c, dead, live, r, w);
      }
    }

    /** The heap is another participant's, poisoned, or free again: try later, set the entry aside, or panic. */
    method Resolve(dead: nat, live: nat, w: World) returns (r: Recovery)
      requires Interrupted(dead) && Sure() && lock != LockedBy(dead) && lock != LockedBy(live)
      modifies this`txn, this`entries, this`why
      ensures r.SetAside? || r.Refused? || r.Halted? || r.Panicked?
      ensures r.Panicked? <==> old(lock).Unlocked?
      ensures r.Panicked? ==> Interrupted(dead) && entries == old(entries) && why == old(why) && txn == old(txn)
      ensures !r.Panicked? ==> Means(old(See(dead)), dead, live, r, w)
    {
      match lock
      case LockedBy(s) => return Refused(Busy(s));
      case Poisoned => r := Quarantine(dead, live, Located(), w);
      case Unlocked => return Panicked;
    }

    /** A removal whose close may not have happened: reopened if not, finished if so. */
    method RecoverClosing(dead: nat, live: nat, w: World) returns (r: Recovery, ghost read: Lock)
      requires Interrupted(dead) && !txn.phase.Held? && pendingKind == Remove && entries[Located()].phase.Closing?
      requires live != dead && lock != LockedBy(live)
      modifies this`txn, this`entries, this`why, this`lock, this`torn, this`members, this`issued
      ensures Means(old(See(dead)), dead, live, r, w)
      ensures r.Panicked? <==> old(lock).LockedBy? && old(lock).slot != dead && read.Unlocked?
    {
      var cleared := ClearDead(dead);
      if !cleared {
        r, read := GiveUp(dead, live, w);
        return;
      }
      read := Poisoned;  // not read
      if { case w.mayDie => return Halted, read; case true => }
      if pendingOffset !in closed {
        r := Reopen(dead, live, w);
        return;
      }
      r := FinishClosed(dead, live, w);
    }

    /** The layout was closed: the removal is finished. */
    method FinishClosed(dead: nat, live: nat, w: World) returns (r: Recovery)
      requires Interrupted(dead) && ClosedRemoval() && live != dead && lock.Unlocked?
      modifies this`txn, this`entries, this`why, this`lock, this`torn, this`members
      ensures Means(old(See(dead)), dead, live, r, w) && !r.Panicked?
      ensures r.Freed? ==> pendingOffset !in why
    {
      var e, crashed := ClaimAndTransfer(dead, live, w);
      if e.Some? { return Refused(e.value); }
      if crashed { return Halted; }
      r := RetireClosed(live, w);
    }

    /** Frees the block of a closed removal and vacates its entry. */
    method RetireClosed(live: nat, w: World) returns (r: Recovery)
      requires Interrupted(live) && ClosedRemoval() && lock == LockedBy(live)
      modifies this`txn, this`entries, this`why, this`lock, this`torn, this`members
      ensures r.Freed? || (w.mayDie && Halts(r))
      ensures r.Halted? ==> Interrupted(live)
      ensures r.HaltedFreeing? ==> FreesAgain(live)
      ensures r.Freed? ==> Quiet() && lock != LockedBy(live) && (w.alone ==> lock.Unlocked?)
                           && why == old(why) - {pendingOffset}
                           && entries == old(entries)[Located() := old(entries)[Located()].(phase := Vacant)]
    {
      var crashed := FreeClosed(live, w);
      if crashed { return HaltedFreeing; }
      var end := RetireEntry(live, Located(), w);
      return if end.Crashed? then Halted else Freed;
    }

    /** The layout was not closed: entry and block are what they were before the removal. */
    method Reopen(dead: nat, live: nat, w: World) returns (r: Recovery)
      requires Interrupted(dead) && !txn.phase.Held? && pendingKind == Remove && entries[Located()].phase.Closing?
      requires lock.Unlocked? && pendingOffset !in closed
      modifies this`txn, this`entries, this`why, this`issued
      ensures Means(old(See(dead)), dead, live, r, w) && !r.Panicked?
    {
      Transfer(dead, live);
      if { case w.mayDie => return Halted; case true => }
      var crashed := PublishAgain(live, w);
      return if crashed then Halted else Undone;
    }

    method PublishAgain(live: nat, w: World) returns (crashed: bool)
      requires Interrupted(live) && !txn.phase.Held? && pendingKind == Remove && entries[Located()].phase.Closing?
      requires lock != LockedBy(live)
      modifies this`txn, this`entries, this`why, this`issued
      ensures old(issued) <= issued
      ensures crashed ==> w.mayDie && Interrupted(live)
      ensures !crashed ==> Quiet() && why == old(why)[pendingOffset := ByEntry(Located())]
                           && old(Carried())
                           && entries == old(entries)[Located() := old(entries)[Located()].(phase := Published)]
    {
      PublishEntry(Located(), pendingOffset);
      if { case w.mayDie => return true; case true => }
      crashed := Finish(live, w);
    }

    /** The free that runs while the entry still says CLOSING: until the next store, the evidence would free again. */
    method FreeClosed(live: nat, w: World) returns (crashed: bool)
      requires Interrupted(live) && ClosedRemoval() && lock == LockedBy(live)
      modifies this`why, this`torn
      ensures FreesAgain(live)
      ensures !crashed ==> Accounts() && !torn && NoFlight() && why == old(why) - {pendingOffset}
      ensures !w.mayDie ==> !crashed
    {
      crashed := FreeCarried(w);
    }

    /** The block is freed already: the entry is vacated. */
    method RecoverReleased(dead: nat, live: nat, w: World) returns (r: Recovery, ghost read: Lock)
      requires Interrupted(dead) && !txn.phase.Held? && pendingKind == Remove && entries[Located()].phase.Released?
      requires live != dead && lock != LockedBy(live)
      modifies this`txn, this`entries, this`why, this`lock, this`torn, this`members
      ensures Means(old(See(dead)), dead, live, r, w)
      ensures r.Panicked? <==> old(lock).LockedBy? && old(lock).slot != dead && read.Unlocked?
      ensures r.Freed? ==> why == old(why)
    {
      var cleared := ClearDead(dead);
      if !cleared {
        r, read := GiveUp(dead, live, w);
        return;
      }
      read := Poisoned;  // not read
      if { case w.mayDie => return Halted, read; case true => }
      r := VacateReleased(dead, live, w);
    }

    method VacateReleased(dead: nat, live: nat, w: World) returns (r: Recovery)
      requires Interrupted(dead) && !txn.phase.Held? && pendingKind == Remove && entries[Located()].phase.Released?
      requires lock.Unlocked?
      modifies this`txn, this`entries
      ensures r.Freed? || r.Halted?
      ensures Means(old(See(dead)), dead, live, r, w) && !r.Panicked?
    {
      Transfer(dead, live);
      if { case w.mayDie => return Halted; case true => }
      assert EntryAccounted(Located());
      StoreEntry(Located(), entries[Located()].(phase := Vacant));
      if { case w.mayDie => return Halted; case true => }
      var crashed := Finish(live, w);
      return if crashed then Halted else Freed;
    }

    /** Only the end of a removal is missing. */
    method RecoverVacated(dead: nat, live: nat, w: World) returns (r: Recovery)
      requires Interrupted(dead) && !txn.phase.Held? && pendingKind == Remove && entries[Located()].phase.Vacant?
      requires live != dead && lock != LockedBy(live)
      modifies this`txn
      ensures Means(old(See(dead)), dead, live, r, w) && !r.Panicked?
    {
      if lock.LockedBy? && lock.slot != dead { return Refused(Busy(lock.slot)); }
      Transfer(dead, live);
      if { case w.mayDie => return Halted; case true => }
      var crashed := Finish(live, w);
      return if crashed then Halted else Freed;
    }

    /** `recover_growth`: a linked slab is kept; an unlinked one is freed, or lost with a poisoned heap. */
    method RecoverGrowth(dead: nat, live: nat, w: World) returns (r: Recovery)
      requires Interrupted(dead) && !txn.phase.Held? && pendingKind == Grow && live != dead && lock != LockedBy(live)
      modifies this`txn, this`why, this`lock, this`torn, this`members
      ensures Means(old(See(dead)), dead, live, r, w) && !r.Panicked?
      ensures r.Retained? ==> why == old(why) && pendingOffset in why && why[pendingOffset] == BySlab(pendingSlab)
      ensures r.Undone? ==> why == old(why) - {pendingOffset}
      ensures r.SetAside? ==> lock.Poisoned?
    {
      var link := if pendingSlab < |slabs| then slabs[pendingSlab] else 0;
      if link != 0 {
        Transfer(dead, live);
        if { case w.mayDie => return Halted; case true => }
        var crashed := Finish(live, w);
        return if crashed then Halted else if link == pendingOffset then Retained else SetAside;
      }
      ghost var b := See(dead);
      PoisonDead(dead);
      ghost var c := See(dead);
      if { case w.mayDie => return Halted; case true => }
      r := RecoverLoose(dead, live, w);
      StillMeans(b, c, dead, live, r, w);
    }

    method RecoverLoose(dead: nat, live: nat, w: World) returns (r: Recovery)
      requires Interrupted(dead) && !txn.phase.Held? && pendingKind == Grow && pendingSlab == |slabs|
      requires live != dead && lock != LockedBy(live) && lock != LockedBy(dead)
      modifies this`txn, this`why, this`lock, this`torn, this`members
      ensures Means(old(See(dead)), dead, live, r, w)
      ensures !r.Retained? && !r.Panicked?
      ensures r.Undone? ==> why == old(why) - {pendingOffset}
      ensures r.SetAside? ==> lock.Poisoned?
    {
      ghost var b := See(dead);
      Between(dead, live, w);
      ghost var c := See(dead);
      r := RecoverUnlinked(dead, live, w);
      StillMeans(b, c, dead, live, r, w);
    }

    /** The new slab is not in the chain yet. */
    method RecoverUnlinked(dead: nat, live: nat, w: World) returns (r: Recovery)
      requires Interrupted(dead) && !txn.phase.Held? && pendingKind == Grow && pendingSlab == |slabs|
      requires live != dead && lock != LockedBy(live) && lock != LockedBy(dead)
      modifies this`txn, this`why, this`lock, this`torn, this`members
      ensures Means(old(See(dead)), dead, live, r, w)
      ensures !r.Retained? && !r.Panicked?
      ensures r.Undone? ==> why == old(why) - {pendingOffset}
      ensures r.SetAside? ==> lock.Poisoned?
    {
      match lock
      case LockedBy(s) => return Refused(Busy(s));
      case Poisoned => r := ForfeitGrowth(dead, live, w);
      case Unlocked =>
        var e, crashed := ClaimAndTransfer(dead, live, w);
        if e.Some? { return Refused(e.value); }
        if crashed { return Halted; }
        r := UnwindGrowth(live, w);
    }

    /** The heap is poisoned: the block is lost and the chain is as it was. */
    method ForfeitGrowth(dead: nat, live: nat, w: World) returns (r: Recovery)
      requires Interrupted(dead) && !txn.phase.Held? && pendingKind == Grow && lock.Poisoned? && pendingSlab == |slabs|
      modifies this`txn, this`why
      ensures r.SetAside? || r.Halted?
      ensures Means(old(See(dead)), dead, live, r, w)
    {
      Transfer(dead, live);
      if { case w.mayDie => return Halted; case true => }
      Forfeit();
      var crashed := Finish(live, w);
      return if crashed then Halted else SetAside;
    }

    method UnwindGrowth(live: nat, w: World) returns (r: Recovery)
      requires Interrupted(live) && !txn.phase.Held? && pendingKind == Grow && Carried() && lock == LockedBy(live)
               && !torn
      modifies this`txn, this`why, this`lock, this`torn, this`members
      ensures r.Undone? || r.Halted?
      ensures r.Halted? ==> w.mayDie && Interrupted(live)
      ensures r.Undone? ==>
                Quiet() && lock != LockedBy(live) && (w.alone ==> lock.Unlocked?) && why == old(why) - {pendingOffset}
    {
      var crashed := FreeCarried(w);
      if crashed { return Halted; }
      crashed := EndLocked(live, w);
      return if crashed then Halted else Undone;
    }

    /** A transaction without evidence and an entry in transition. */
    method RecoverHeld(dead: nat, live: nat, i: nat, w: World) returns (r: Recovery)
      requires Interrupted(dead) && txn.phase.Held? && live != dead && lock != LockedBy(live)
      requires i == At() && i < |entries|
      modifies this`txn, this`entries, this`why, this`lock
      ensures Means(old(See(dead)), dead, live, r, w) && !r.Panicked?
    {
      assert RestBut(i) by {
        ghost var j: nat :| HeldShape(dead, j);
        assert j == i;
      }
      PoisonDead(dead);
      if { case w.mayDie => return Halted; case true => }
      if entries[i].phase.Pending? && entries[i].generation != 0 {
        r := RecoverReserved(dead, live, i, w);
      } else {
        r := Quarantine(dead, live, i, w);
      }
    }

    /** The rows of the table that first poison a heap the dead participant was changing. */
    method RecoverDisturbed(dead: nat, live: nat, w: World) returns (r: Recovery)
      requires Interrupted(dead) && !txn.phase.Held? && !pendingKind.Grow? && live != dead && lock != LockedBy(live)
      requires !Sure() && (pendingKind == Remove ==> !entries[Located()].phase.Vacant?)
      modifies this`txn, this`entries, this`why, this`lock, this`torn, this`members, this`undone
      ensures undone == old(undone)
      ensures Means(old(See(dead)), dead, live, r, w) && !r.Panicked?
    {
      ghost var b := See(dead);
      PoisonDead(dead);
      ghost var c := See(dead);
      if { case w.mayDie => return Halted; case true => }
      r := RecoverUndisturbed(dead, live, w);
      StillMeans(b, c, dead, live, r, w);
    }

    method RecoverUndisturbed(dead: nat, live: nat, w: World) returns (r: Recovery)
      requires Interrupted(dead) && !txn.phase.Held? && !pendingKind.Grow? && live != dead
      requires lock != LockedBy(live) && lock != LockedBy(dead)
      requires !Sure() && (pendingKind == Remove ==> !entries[Located()].phase.Vacant?)
      modifies this`txn, this`entries, this`why, this`lock, this`torn, this`members, this`undone
      ensures undone == old(undone)
      ensures Means(old(See(dead)), dead, live, r, w) && !r.Panicked?
    {
      ghost var b := See(dead);
      Between(dead, live, w);
      ghost var c := See(dead);
      r := RecoverPoisoned(dead, live, w);
      StillMeans(b, c, dead, live, r, w);
    }

    method RecoverPoisoned(dead: nat, live: nat, w: World) returns (r: Recovery)
      requires Interrupted(dead) && !txn.phase.Held? && !pendingKind.Grow? && live != dead
      requires lock != LockedBy(live) && lock != LockedBy(dead)
      requires !Sure() && (pendingKind == Remove ==> !entries[Located()].phase.Vacant?)
      modifies this`txn, this`entries, this`why, this`lock, this`torn, this`members, this`undone
      ensures undone == old(undone)
      ensures Means(old(See(dead)), dead, live, r, w) && !r.Panicked?
    {
      var e := entries[Located()];
      var freeing := (pendingKind == Create && e.phase.Pending?) || (pendingKind == Remove && e.phase.Removing?);
      if freeing && lock.LockedBy? { return Refused(Busy(lock.slot)); }
      if !freeing || lock.Poisoned? || (pendingKind == Create && e.generation == 0) {
        r := Quarantine(dead, live, Located(), w);
      } else if pendingKind == Create {
        r := RecoverCreate(dead, live, w);
      } else {
        r := RecoverRemoving(dead, live, w);
      }
    }

    /** A creation or removal whose evidence is recorded. */
    method RecoverRecorded(dead: nat, live: nat, w: World) returns (r: Recovery, ghost read: Lock)
      requires Interrupted(dead) && !txn.phase.Held? && !pendingKind.Grow? && live != dead && lock != LockedBy(live)
      modifies this`txn, this`entries, this`why, this`lock, this`torn, this`members, this`issued, this`undone
      ensures undone == old(undone)
      ensures Means(old(See(dead)), dead, live, r, w)
      ensures r.Panicked? <==> old(Sure()) && old(lock).LockedBy? && old(lock).slot != dead && read.Unlocked?
    {
      var phase := entries[Located()].phase;
      read := Poisoned;
      if pendingKind == Remove && phase.Closing? {
        r, read := RecoverClosing(dead, live, w);
      } else if pendingKind == Remove && phase.Released? {
        r, read := RecoverReleased(dead, live, w);
      } else if pendingKind == Remove && phase.Vacant? {
        r := RecoverVacated(dead, live, w);
      } else {
        r := RecoverDisturbed(dead, live, w);
      }
    }

    /** `found` is the heap's word at the first look, `read` at the one after a failed clear. */
    method RecoverOwned(dead: nat, live: nat, w: World) returns (r: Recovery, ghost found: Lock, ghost read: Lock)
      requires Interrupted(dead) && live != dead && lock != LockedBy(live)
      modifies this`txn, this`entries, this`why, this`lock, this`torn, this`members, this`issued, this`undone
      ensures undone == old(undone)
      ensures Means(old(See(dead)), dead, live, r, w)
      ensures r.Panicked? <==> old(Sure()) && found.LockedBy? && found.slot != dead && read.Unlocked?
    {
      ghost var b := See(dead);
      Between(dead, live, w);
      ghost var c := See(dead);
      found, read := lock, Poisoned;
      if !txn.phase.Held? && pendingKind != Grow {
        r, read := RecoverRecorded(dead, live, w);
      } else {
        r := RecoverOther(dead, live, w);
      }
      StillMeans(b, c, dead, live, r, w);
    }

    /** A transaction without evidence, or a growth. */
    method RecoverOther(dead: nat, live: nat, w: World) returns (r: Recovery)
      requires Interrupted(dead) && live != dead && lock != LockedBy(live) && (txn.phase.Held? || pendingKind == Grow)
      modifies this`txn, this`entries, this`why, this`lock, this`torn, this`members
      ensures Means(old(See(dead)), dead, live, r, w) && !r.Panicked?
    {
      if !txn.phase.Held? {
        r := RecoverGrowth(dead, live, w);
        return;
      }
      var found := Transition();
      if found.None? {
        r := RecoverIdle(dead, live, w);
      } else {
        r := RecoverHeld(dead, live, found.value, w);
      }
    }

    /**
     `recover`.  Whatever point `dead` died at, the directory is between transactions again afterwards, unless an
     entry is quarantined in a build without debug assertions; see `Means` for the rest.
     */
    method Recover(dead: nat, live: nat, w: World) returns (r: Recovery, ghost found: Lock, ghost read: Lock)
      requires Accounts() && live != dead && lock != LockedBy(live)
      requires txn.By? && txn.owner == dead ==> Interrupted(dead)
      modifies this`txn, this`entries, this`why, this`lock, this`torn, this`members, this`issued, this`undone
      ensures undone == old(undone)
      ensures old(txn).By? && old(txn).owner == dead ==> Means(old(See(dead)), dead, live, r, w)
      ensures r.Panicked? <==>
                old(txn.By? && txn.owner == dead && Sure()) && found.LockedBy? && found.slot != dead && read.Unlocked?
      ensures old(txn).Clean? ==> r == Refused(Stale) && unchanged(this)
      ensures old(txn).By? && old(txn).owner != dead ==> r == Refused(Busy(old(txn).owner)) && unchanged(this)
    {
      found, read := lock, Poisoned;
      if txn.Clean? { r := Refused(Stale); return; }
      if txn.owner != dead { r := Refused(Busy(txn.owner)); return; }
      r, found, read := RecoverOwned(dead, live, w);
    }
  }
}
