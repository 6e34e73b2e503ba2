/**
 Reaping a dead participant.  Shared words carry only a slot number, so before the slot may be given to a new
 incarnation every word must have lost that number: the directory's transaction, the heap's lock, membership bits,
 pool words, queue control words (as source or as repairer) and role words.  Everyone else goes on meanwhile: between
 any two accesses of the reaper they may change every word, create layouts and remove them (`Others`), but no word
 comes to carry the dead participant's number; ReapSteps proves that of their steps.
 */
module Reap {
  import opened Common
  import opened ControlWord
  import Participants
  import PoolWord
  import Repair
  import Roles

  datatype Lock = Clean | Owned(slot: nat) | Poisoned

  // A queue token; `pool` is the place of the layout the block is in.
  datatype Token = Token(pool: nat, block: nat, generation: nat)

  datatype Slot = Slot(cell: Repair.Cell, token: Token)

  datatype Queue = Queue(cap: nat, head: nat, tail: nat, slots: seq<Slot>)

  // A layout with its membership word; `sound`: its record passes the checks of `recover_layout`.
  datatype Layout =
    | PoolLayout(members: set<nat>, sound: bool, words: seq<PoolWord.Word>)
    | ChannelLayout(members: set<nat>, sound: bool, left: Queue, right: Queue, roles: seq<Roles.Role>)
    | OtherLayout(members: set<nat>, sound: bool)

  // A directory entry: vacant or quarantined, in transition, or published.
  datatype Place = Void | Busy(layout: Layout) | There(layout: Layout)

  // How many recovery handlers match each kind of layout.
  datatype Handlers = Handlers(pool: nat, channel: nat, other: nat)

  function Matching(h: Handlers, l: Layout): nat {
    match l
    case PoolLayout(_, _, _) => h.pool
    case ChannelLayout(_, _, _, _, _) => h.channel
    case OtherLayout(_, _) => h.other
  }

  predicate Has(w: PoolWord.Word, p: nat) { w.Local? && w.owner == p }

  predicate PoolClear(words: seq<PoolWord.Word>, p: nat) {
    forall b :: 0 <= b < |words| ==> !Has(words[b], p)
  }

  predicate QueueClear(q: Queue, p: nat) {
    forall i :: 0 <= i < |q.slots| ==> !q.slots[i].cell.control.Names(p)
  }

  predicate RolesClear(roles: seq<Roles.Role>, p: nat) {
    forall i :: 0 <= i < |roles| ==> roles[i].owner != Some(p)
  }

  /** No word of the layout carries p's number. */
  predicate Clear(l: Layout, p: nat) {
    && p !in l.members
    && match l
       case PoolLayout(_, _, words) => PoolClear(words, p)
       case ChannelLayout(_, _, left, right, roles) => QueueClear(left, p) && QueueClear(right, p)
                                                       && RolesClear(roles, p)
       case OtherLayout(_, _) => true
  }

  predicate PlaceClear(x: Place, p: nat) { x.Void? || Clear(x.layout, p) }

  // What others may do: a word that names p did so before.

  predicate WordsNoWorse(a: seq<PoolWord.Word>, b: seq<PoolWord.Word>, p: nat) {
    |b| == |a| && forall i :: 0 <= i < |b| ==> Has(b[i], p) ==> Has(a[i], p)
  }

  predicate QueueNoWorse(a: Queue, b: Queue, p: nat) {
    && |b.slots| == |a.slots|
    && forall i :: 0 <= i < |b.slots| ==> b.slots[i].cell.control.Names(p) ==> a.slots[i].cell.control.Names(p)
  }

  predicate RolesNoWorse(a: seq<Roles.Role>, b: seq<Roles.Role>, p: nat) {
    |b| == |a| && forall i :: 0 <= i < |b| ==> b[i].owner == Some(p) ==> a[i].owner == Some(p)
  }

  /** From a to b the layout kept its kind and no word or membership came to name p. */
  predicate NoWorse(a: Layout, b: Layout, p: nat) {
    && (p in b.members ==> p in a.members) && b.sound == a.sound
    && match a
       case PoolLayout(_, _, words) => b.PoolLayout? && WordsNoWorse(words, b.words, p)
       case ChannelLayout(_, _, left, right, roles) =>
         b.ChannelLayout? && QueueNoWorse(left, b.left, p) && QueueNoWorse(right, b.right, p)
         && RolesNoWorse(roles, b.roles, p)
       case OtherLayout(_, _) => b.OtherLayout?
  }

  /** The layout of an entry may also have gone, or have given way to one that never named p. */
  predicate PlaceNoWorse(x: Place, y: Place, p: nat) {
    PlaceClear(y, p) || (!x.Void? && NoWorse(x.layout, y.layout, p))
  }

  function PlaceAt(places: seq<Place>, k: nat): Place { if k < |places| then places[k] else Void }

  predicate AllNoWorse(a: seq<Place>, b: seq<Place>, p: nat) {
    |a| <= |b| && forall k {:trigger PlaceAt(b, k)} :: 0 <= k < |b| ==> PlaceNoWorse(PlaceAt(a, k), PlaceAt(b, k), p)
  }

  /** The published layout at c, which is being recovered, stays. */
  predicate Stays(a: seq<Place>, b: seq<Place>, c: nat, p: nat) {
    c < |a| && a[c].There? ==> c < |b| && b[c].There? && NoWorse(a[c].layout, b[c].layout, p)
  }

  lemma NoWorseChain(a: Layout, b: Layout, c: Layout, p: nat)
    requires NoWorse(a, b, p) && NoWorse(b, c, p)
    ensures NoWorse(a, c, p)
  {}

  lemma NoWorseClear(a: Layout, b: Layout, p: nat)
    requires NoWorse(a, b, p) && Clear(a, p)
    ensures Clear(b, p)
  {}

  lemma AllChain(a: seq<Place>, b: seq<Place>, c: seq<Place>, p: nat)
    requires AllNoWorse(a, b, p) && AllNoWorse(b, c, p)
    ensures AllNoWorse(a, c, p)
  {
    forall k | 0 <= k < |c| ensures PlaceNoWorse(PlaceAt(a, k), PlaceAt(c, k), p) {
      var x, y, z := PlaceAt(a, k), PlaceAt(b, k), PlaceAt(c, k);
      if !PlaceClear(z, p) {
        assert NoWorse(y.layout, z.layout, p);
        assert k < |b|;
        if Clear(y.layout,
                 p) { NoWorseClear(y.layout, z.layout, p); } else { NoWorseChain(x.layout, y.layout, z.layout, p); }
      }
    }
  }

  lemma StaysChain(a: seq<Place>, b: seq<Place>, c: seq<Place>, at: nat, p: nat)
    requires Stays(a, b, at, p) && Stays(b, c, at, p)
    ensures Stays(a, c, at, p)
  {
    if at < |a| && a[at].There? { NoWorseChain(a[at].layout, b[at].layout, c[at].layout, p); }
  }

  /** Changing the published layout at c for one that is no worse. */
  lemma Replaced(a: seq<Place>, c: nat, l: Layout, p: nat)
    requires c < |a| && a[c].There? && NoWorse(a[c].layout, l, p)
    ensures AllNoWorse(a, a[c := There(l)], p) && Stays(a, a[c := There(l)], c, p)
  {
    var b := a[c := There(l)];
    forall k | 0 <= k < |b| ensures PlaceNoWorse(PlaceAt(a, k), PlaceAt(b, k), p) {
      if !a[k].Void? { Itself(a[k].layout, p); }
    }
  }

  lemma StaysElsewhere(a: seq<Place>, c: nat, l: Layout, d: nat, p: nat)
    requires c < |a| && c != d
    ensures Stays(a, a[c := There(l)], d, p)
  {
    if d < |a| && a[d].There? { Itself(a[d].layout, p); }
  }

  lemma Itself(l: Layout, p: nat)
    ensures NoWorse(l, l, p)
  {}

  lemma AllThemselves(a: seq<Place>, c: nat, p: nat)
    ensures AllNoWorse(a, a, p) && Stays(a, a, c, p)
  {
    forall k | 0 <= k < |a| ensures PlaceNoWorse(PlaceAt(a, k), PlaceAt(a, k), p) {
      if !a[k].Void? { Itself(a[k].layout, p); }
    }
    if c < |a| && a[c].There? { Itself(a[c].layout, p); }
  }

  /** What is clear stays clear. */
  lemma StillClear(a: seq<Place>, b: seq<Place>, k: nat, p: nat)
    requires AllNoWorse(a, b, p) && k < |b| && PlaceClear(PlaceAt(a, k), p)
    ensures PlaceClear(b[k], p)
  {
    assert PlaceAt(b, k) == b[k];
    if !PlaceClear(b[k], p) { NoWorseClear(a[k].layout, b[k].layout, p); }
  }

  function QueueOf(l: Layout, left: bool): Queue
    requires l.ChannelLayout?
  {
    if left then l.left else l.right
  }

  function WithSlot(l: Layout, left: bool, i: nat, x: Slot): Layout
    requires l.ChannelLayout? && i < |QueueOf(l, left).slots|
  {
    var q := QueueOf(l, left);
    var r := q.(slots := q.slots[i := x]);
    if left then l.(left := r) else l.(right := r)
  }

  /** A slot may be given a word that does not name p, or that names it where it did before. */
  lemma SlotNoWorse(l: Layout, left: bool, i: nat, x: Slot, p: nat)
    requires l.ChannelLayout? && i < |QueueOf(l, left).slots|
    requires x.cell.control.Names(p) ==> QueueOf(l, left).slots[i].cell.control.Names(p)
    ensures NoWorse(l, WithSlot(l, left, i, x), p)
  {}

  predicate AnyBusy(places: seq<Place>) { exists k :: 0 <= k < |places| && places[k].Busy? }

  /** No block is allocated under the token any more. */
  predicate Gone(places: seq<Place>, t: Token) {
    || t.generation == 0
    || (t.pool < |places| && places[t.pool].There? && places[t.pool].layout.PoolLayout?
        && t.block < |places[t.pool].layout.words|
        && var w := places[t.pool].layout.words[t.block];
           w.generation > t.generation || (w.generation == t.generation && w.Free?))
  }

  // When a reaper that nobody disturbs succeeds.

  /** `release_token` answers true. */
  predicate Answers(places: seq<Place>, t: Token, source: nat) {
    && !AnyBusy(places) && t.pool < |places| && places[t.pool].There? && places[t.pool].layout.PoolLayout?
    && (t.generation == 0
        || (t.generation <= PoolWord.MAX_GENERATION && t.block < |places[t.pool].layout.words|
            && PoolWord.Release(places[t.pool].layout.words[t.block], t.generation, Some(source)).0))
  }

  /** The second half of the repair of a slot with these words goes through. */
  predicate Resolves(places: seq<Place>, q: Queue, x: Slot) {
    && (x.cell.control.Producer? || x.cell.control.Consumer?)
    && var plan := Repair.PlanFor(x.cell, q.head, q.tail, q.cap);
       plan.Plan? && (plan.release ==> Answers(places, x.token, x.cell.control.source))
  }

  /**
   Slot i does not name `dead`, or `live` may repair it: nobody else is at it, and its token, if any, can be released.
   */
  predicate Fixable(places: seq<Place>, q: Queue, i: nat, dead: nat, live: nat)
    requires i < |q.slots|
  {
    var x := q.slots[i];
    var tag := Repair.TagFor(x.cell.control, dead, live);
    x.cell.control.Names(dead) ==> tag.Tagged? && Resolves(places, q, x.(cell := x.cell.(control := tag.next)))
  }

  predicate AllFixable(places: seq<Place>, q: Queue, dead: nat, live: nat) {
    forall i {:trigger q.slots[i]} :: 0 <= i < |q.slots| ==> Fixable(places, q, i, dead, live)
  }

  /** The layout at x can be recovered. */
  predicate Mendable(places: seq<Place>, x: Place, h: Handlers, dead: nat, live: nat) {
    x.Void? || (x.There? && x.layout.sound && Matching(h, x.layout) == 1
                && (x.layout.ChannelLayout? ==>
                      AllFixable(places, x.layout.left, dead, live) && AllFixable(places, x.layout.right, dead, live)))
  }

  predicate AllMendable(places: seq<Place>, h: Handlers, dead: nat, live: nat) {
    forall k {:trigger places[k]} :: 0 <= k < |places| ==> Mendable(places, places[k], h, dead, live)
  }

  // What the reaper itself does, and no more: it frees the words that name p and those of the tokens it resolves, gives
  // the slots that name p the words of their repair, releases p's roles and takes p from the members.

  predicate IsSlot(places: seq<Place>, c: nat, left: bool, j: nat) {
    && c < |places| && places[c].There? && places[c].layout.ChannelLayout?
    && j < |QueueOf(places[c].layout, left).slots|
  }

  function SlotAt(places: seq<Place>, c: nat, left: bool, j: nat): Slot
    requires IsSlot(places, c, left, j)
  {
    QueueOf(places[c].layout, left).slots[j]
  }

  /** How `live` repairs the slot on behalf of p. */
  function RepairOf(q: Queue, x: Slot, p: nat, live: nat): Repair.Plan {
    match Repair.TagFor(x.cell.control, p, live)
    case Tagged(next) =>
      if next.Producer? || next.Consumer? then
        Repair.PlanFor(x.cell.(control := next), q.head, q.tail, q.cap)
      else Repair.Corrupted
    case _ => Repair.Corrupted
  }

  /** The repair of slot j, which names p, resolves its token. */
  predicate Releases(places: seq<Place>, c: nat, left: bool, j: nat, p: nat, live: nat)
    requires IsSlot(places, c, left, j)
  {
    var x := SlotAt(places, c, left, j);
    var plan := RepairOf(QueueOf(places[c].layout, left), x, p, live);
    x.cell.control.Names(p) && plan.Plan? && plan.release
  }

  /** Slot j has a token to resolve, for that block and generation, and word w is detached or the slot's source's. */
  predicate Tokened(places: seq<Place>, c: nat, left: bool, j: nat, pool: nat, block: nat, w: PoolWord.Word, p: nat,
                    live: nat)
  {
    && IsSlot(places, c, left, j) && Releases(places, c, left, j, p, live)
    && var x := SlotAt(places, c, left, j);
       x.token == Token(pool, block, w.generation) && (w.Detached? || Has(w, x.cell.control.source))
  }

  ghost predicate WordOnward(places: seq<Place>, pool: nat, block: nat, w: PoolWord.Word, v: PoolWord.Word, p: nat,
                             live: nat)
  {
    || v == w
    || (v == PoolWord.Free(w.generation)
        && (Has(w, p) || exists c, left, j :: Tokened(places, c, left, j, pool, block, w, p, live)))
  }

  /** The slot with the words its repair by `live` stores. */
  function MendedSlot(q: Queue, x: Slot, p: nat, live: nat): Slot {
    match RepairOf(q, x, p, live)
    case Plan(_, turn, control) => x.(cell := Repair.Cell(turn, control))
    case Corrupted => x
  }

  predicate QueueOnward(a: Queue, b: Queue, p: nat, live: nat) {
    && b.cap == a.cap && b.head == a.head && b.tail == a.tail && |b.slots| == |a.slots|
    && forall i :: 0 <= i < |b.slots| ==>
         || b.slots[i] == a.slots[i]
         || (a.slots[i].cell.control.Names(p) && !b.slots[i].cell.control.Names(p)
             && b.slots[i] == MendedSlot(a, a.slots[i], p, live))
  }

  predicate RolesOnward(a: seq<Roles.Role>, b: seq<Roles.Role>, p: nat) {
    |b| == |a| && forall i :: 0 <= i < |a| ==>
                    b[i] == a[i] || (a[i].owner == Some(p) && b[i] == Roles.Released(a[i]))
  }

  ghost predicate LayoutOnward(places: seq<Place>, k: nat, a: Layout, b: Layout, p: nat, live: nat) {
    && b.sound == a.sound && (b.members == a.members || b.members == a.members - {p})
    && match a
       case PoolLayout(_, _, words) =>
         && b.PoolLayout? && |b.words| == |words|
         && forall i :: 0 <= i < |words| ==> WordOnward(places, k, i, words[i], b.words[i], p, live)
       case ChannelLayout(_, _, left, right, roles) =>
         && b.ChannelLayout? && QueueOnward(left, b.left, p, live) && QueueOnward(right, b.right, p, live)
         && RolesOnward(roles, b.roles, p)
       case OtherLayout(_, _) => b.OtherLayout?
  }

  ghost predicate PlaceOnward(places: seq<Place>, k: nat, y: Place, p: nat, live: nat)
    requires k < |places|
  {
    if places[k].There? then y.There? && LayoutOnward(places, k, places[k].layout, y.layout, p, live)
    else y == places[k]
  }

  ghost predicate Touched(a: seq<Place>, b: seq<Place>, p: nat, live: nat) {
    |b| == |a| && forall k {:trigger b[k]} {:trigger a[k]} :: 0 <= k < |a| ==> PlaceOnward(a, k, b[k], p, live)
  }

  /** The token of every slot that has been repaired is resolved. */
  ghost predicate Settled(a: seq<Place>, b: seq<Place>, p: nat, live: nat) {
    forall c: nat, left, j: nat :: Repaired(a, b, c, left, j) && Releases(a, c, left, j, p, live) ==>
                                     Gone(b, SlotAt(a, c, left, j).token)
  }

  predicate Repaired(a: seq<Place>, b: seq<Place>, c: nat, left: bool, j: nat) {
    IsSlot(a, c, left, j) && IsSlot(b, c, left, j) && SlotAt(b, c, left, j) != SlotAt(a, c, left, j)
  }

  ghost predicate Onward(a: seq<Place>, b: seq<Place>, p: nat, live: nat) {
    Touched(a, b, p, live) && Settled(a, b, p, live)
  }

  lemma OnwardItself(a: seq<Place>, p: nat, live: nat)
    ensures Onward(a, a, p, live)
  {}

  /** A slot that still names p has not been touched, nor has its repair changed. */
  lemma SlotBack(a: seq<Place>, b: seq<Place>, c: nat, left: bool, j: nat, p: nat, live: nat)
    requires Touched(a, b, p, live) && IsSlot(b, c, left, j)
    ensures IsSlot(a, c, left, j)
    ensures SlotAt(b, c, left, j).cell.control.Names(p) || SlotAt(b, c, left, j) == SlotAt(a, c, left, j) ==>
              SlotAt(b, c, left, j) == SlotAt(a, c, left, j)
              && Releases(b, c, left, j, p, live) == Releases(a, c, left, j, p, live)
  {
    assert PlaceOnward(a, c, b[c], p, live);
  }

  lemma WordChain(a: seq<Place>, b: seq<Place>, pool: nat, block: nat, u: PoolWord.Word, v: PoolWord.Word,
                  w: PoolWord.Word, p: nat, live: nat)
    requires Touched(a, b, p, live)
    requires WordOnward(a, pool, block, u, v, p, live) && WordOnward(b, pool, block, v, w, p, live)
    ensures WordOnward(a, pool, block, u, w, p, live)
  {
    if w != v && v == u && !Has(v, p) {
      var c, left, j :| Tokened(b, c, left, j, pool, block, v, p, live);
      SlotBack(a, b, c, left, j, p, live);
      assert Tokened(a, c, left, j, pool, block, v, p, live);
    }
  }

  lemma QueueChain(a: Queue, b: Queue, c: Queue, p: nat, live: nat)
    requires QueueOnward(a, b, p, live) && QueueOnward(b, c, p, live)
    ensures QueueOnward(a, c, p, live)
  {}

  lemma LayoutChain(a: seq<Place>, b: seq<Place>, k: nat, x: Layout, y: Layout, z: Layout, p: nat, live: nat)
    requires Touched(a, b, p, live) && LayoutOnward(a, k, x, y, p, live) && LayoutOnward(b, k, y, z, p, live)
    ensures LayoutOnward(a, k, x, z, p, live)
  {
    if x.PoolLayout? {
      forall i | 0 <= i < |x.words| ensures WordOnward(a, k, i, x.words[i], z.words[i], p, live) {
        WordChain(a, b, k, i, x.words[i], y.words[i], z.words[i], p, live);
      }
    } else if x.ChannelLayout? {
      QueueChain(x.left, y.left, z.left, p, live);
      QueueChain(x.right, y.right, z.right, p, live);
    }
  }

  lemma TouchedChain(a: seq<Place>, b: seq<Place>, c: seq<Place>, p: nat, live: nat)
    requires Touched(a, b, p, live) && Touched(b, c, p, live)
    ensures Touched(a, c, p, live)
  {
    forall k | 0 <= k < |a| ensures PlaceOnward(a, k, c[k], p, live) {
      assert PlaceOnward(a, k, b[k], p, live) && PlaceOnward(b, k, c[k], p, live);
      if a[k].There? { LayoutChain(a, b, k, a[k].layout, b[k].layout, c[k].layout, p, live); }
    }
  }

  lemma StillGone(a: seq<Place>, b: seq<Place>, t: Token, p: nat, live: nat)
    requires Touched(a, b, p, live) && Gone(a, t)
    ensures Gone(b, t)
  {
    if t.generation > 0 { assert PlaceOnward(a, t.pool, b[t.pool], p, live); }
  }

  lemma OnwardChain(a: seq<Place>, b: seq<Place>, c: seq<Place>, p: nat, live: nat)
    requires Onward(a, b, p, live) && Onward(b, c, p, live)
    ensures Onward(a, c, p, live)
  {
    TouchedChain(a, b, c, p, live);
    forall k: nat, left, j: nat | Repaired(a, c, k, left, j) && Releases(a, k, left, j, p, live)
      ensures Gone(c, SlotAt(a, k, left, j).token)
    {
      SlotForth(a, b, k, left, j, p, live);
      SlotBack(a, b, k, left, j, p, live);
      if SlotAt(b, k, left, j) == SlotAt(a, k, left, j) {
        assert Repaired(b, c, k, left, j);
      } else {
        assert Repaired(a, b, k, left, j);
        StillGone(b, c, SlotAt(a, k, left, j).token, p, live);
      }
    }
  }

  lemma SlotForth(a: seq<Place>, b: seq<Place>, c: nat, left: bool, j: nat, p: nat, live: nat)
    requires Touched(a, b, p, live) && IsSlot(a, c, left, j)
    ensures IsSlot(b, c, left, j)
  {
    assert PlaceOnward(a, c, b[c], p, live);
  }

  lemma OnwardAt(a: seq<Place>, c: nat, l: Layout, p: nat, live: nat)
    requires c < |a| && a[c].There? && LayoutOnward(a, c, a[c].layout, l, p, live)
    requires l.ChannelLayout? ==> l.left == a[c].layout.left && l.right == a[c].layout.right
    ensures Onward(a, a[c := There(l)], p, live)
  {
    var b := a[c := There(l)];
    forall k: nat, left, j: nat | IsSlot(a, k, left, j) && IsSlot(b, k, left, j)
      ensures SlotAt(b, k, left, j) == SlotAt(a, k, left, j)
    {}
  }

  /** Freeing words turns no release down. */
  lemma StillAnswers(a: seq<Place>, b: seq<Place>, t: Token, source: nat, p: nat, live: nat)
    requires Touched(a, b, p, live) && Answers(a, t, source)
    ensures Answers(b, t, source)
  {
    assert PlaceOnward(a, t.pool, b[t.pool], p, live);
    forall k | 0 <= k < |b| ensures !b[k].Busy? { assert PlaceOnward(a, k, b[k], p, live); }
  }

  lemma StillFixable(a: seq<Place>, b: seq<Place>, q: Queue, r: Queue, i: nat, dead: nat, live: nat)
    requires Onward(a, b, dead, live) && QueueOnward(q, r, dead, live) && i < |q.slots| && Fixable(a, q, i, dead, live)
    ensures Fixable(b, r, i, dead, live)
  {
    var x := q.slots[i];
    var tag := Repair.TagFor(x.cell.control, dead, live);
    if r.slots[i].cell.control.Names(dead) {
      var y := x.(cell := x.cell.(control := tag.next));
      var plan := Repair.PlanFor(y.cell, q.head, q.tail, q.cap);
      if plan.release { StillAnswers(a, b, y.token, y.cell.control.source, dead, live); }
    }
  }

  lemma StillAllFixable(a: seq<Place>, b: seq<Place>, q: Queue, r: Queue, dead: nat, live: nat)
    requires Onward(a, b, dead, live) && QueueOnward(q, r, dead, live) && AllFixable(a, q, dead, live)
    ensures AllFixable(b, r, dead, live)
  {
    forall i | 0 <= i < |r.slots| ensures Fixable(b, r, i, dead, live) {
      assert q.slots[i] == q.slots[i];
      StillFixable(a, b, q, r, i, dead, live);
    }
  }

  lemma StillQueue(a: seq<Place>, b: seq<Place>, c: nat, left: bool, dead: nat, live: nat)
    requires Onward(a, b, dead, live) && c < |a| && a[c].There? && a[c].layout.ChannelLayout?
    ensures b[c].There? && b[c].layout.ChannelLayout?
    ensures AllFixable(a, QueueOf(a[c].layout, left), dead, live) ==>
              AllFixable(b, QueueOf(b[c].layout, left), dead, live)
  {
    assert PlaceOnward(a, c, b[c], dead, live);
    if AllFixable(a, QueueOf(a[c].layout, left), dead, live) {
      StillAllFixable(a, b, QueueOf(a[c].layout, left), QueueOf(b[c].layout, left), dead, live);
    }
  }

  lemma StillMendable(a: seq<Place>, b: seq<Place>, h: Handlers, dead: nat, live: nat)
    requires Onward(a, b, dead, live) && AllMendable(a, h, dead, live)
    ensures AllMendable(b, h, dead, live)
  {
    forall k | 0 <= k < |b| ensures Mendable(b, b[k], h, dead, live) {
      assert PlaceOnward(a, k, b[k], dead, live) && Mendable(a, a[k], h, dead, live);
      if a[k].There? && a[k].layout.ChannelLayout? {
        StillAllFixable(a, b, a[k].layout.left, b[k].layout.left, dead, live);
        StillAllFixable(a, b, a[k].layout.right, b[k].layout.right, dead, live);
      }
    }
  }

  /** From a to b the token's word was freed, if it was allocated under that generation to nobody or to the source. */
  ghost predicate TokenFreed(a: seq<Place>, b: seq<Place>, t: Token, source: nat) {
    || b == a
    || (t.pool < |a| && a[t.pool].There? && a[t.pool].layout.PoolLayout? && t.block < |a[t.pool].layout.words|
        && var l := a[t.pool].layout;
           && l.words[t.block].generation == t.generation
           && (l.words[t.block].Detached? || Has(l.words[t.block], source))
           && b == a[t.pool := There(l.(words := l.words[t.block := PoolWord.Free(t.generation)]))])
  }

  /** From a to z the token of slot x was resolved and slot i of a queue of channel c given the words of its plan. */
  ghost predicate Finished(a: seq<Place>, z: seq<Place>, c: nat, left: bool, i: nat, x: Slot) {
    exists b :: FinishedBy(a, b, z, c, left, i, x)
  }

  ghost predicate FinishedBy(a: seq<Place>, b: seq<Place>, z: seq<Place>, c: nat, left: bool, i: nat, x: Slot) {
    && IsSlot(a, c, left, i) && |b| == |a| && b[c] == a[c]
    && (x.cell.control.Producer? || x.cell.control.Consumer?)
    && var q := QueueOf(a[c].layout, left);
       var plan := Repair.PlanFor(x.cell, q.head, q.tail, q.cap);
       && plan.Plan?
       && (if plan.release then TokenFreed(a, b, x.token, x.cell.control.source) && Gone(b, x.token) else b == a)
       && z == b[c := There(WithSlot(a[c].layout, left, i, x.(cell := Repair.Cell(plan.turn, plan.control))))]
  }

  /** Once slot i is marked for repair, its second half goes through as it would have before. */
  lemma TaggedResolves(a: seq<Place>, b: seq<Place>, c: nat, left: bool, i: nat, next: Control, dead: nat)
    requires c < |a| && a[c].There? && a[c].layout.ChannelLayout? && i < |QueueOf(a[c].layout, left).slots|
    requires var x := QueueOf(a[c].layout, left).slots[i];
             b == a[c := There(WithSlot(a[c].layout, left, i, x.(cell := x.cell.(control := next))))]
    ensures var x := QueueOf(a[c].layout, left).slots[i];
            var y := x.(cell := x.cell.(control := next));
            Resolves(a, QueueOf(a[c].layout, left), y) ==> Resolves(b, QueueOf(b[c].layout, left), y)
  {
    var x := QueueOf(a[c].layout, left).slots[i];
    var y := x.(cell := x.cell.(control := next));
    if Resolves(a, QueueOf(a[c].layout, left), y) && Answers(a, y.token, y.cell.control.source) {
      assert forall k :: 0 <= k < |b| ==> (b[k].Busy? <==> a[k].Busy?);
      assert Answers(b, y.token, y.cell.control.source);
    }
  }

  /** A repair that went through changed nothing but the slot and the word of its token. */
  lemma RepairedOnward(a: seq<Place>, b: seq<Place>, z: seq<Place>, c: nat, left: bool, i: nat, y: Slot, p: nat,
                       live: nat)
    requires IsSlot(a, c, left, i) && b == a[c := There(WithSlot(a[c].layout, left, i, y))]
    requires Finished(b, z, c, left, i, y)
    requires var x := SlotAt(a, c, left, i);
             && x.cell.control.Names(p) && Repair.TagFor(x.cell.control, p, live) == Repair.Tagged(y.cell.control)
             && y == x.(cell := x.cell.(control := y.cell.control))
    ensures Onward(a, z, p, live)
  {
    var d :| FinishedBy(b, d, z, c, left, i, y);
    assert WithSlot(b[c].layout, left, i, SlotAt(z, c, left, i))
        == WithSlot(a[c].layout, left, i, SlotAt(z, c, left, i));
    forall k | 0 <= k < |a| ensures PlaceOnward(a, k, z[k], p, live) {
      if k == c {
        MendedOnward(a, z, c, left, i, p, live);
      } else if d != b && k == y.token.pool {
        FreedOnward(a, c, left, i, z[k].layout, p, live);
      }
    }
    forall k: nat, side, j: nat | Repaired(a, z, k, side, j) && Releases(a, k, side, j, p, live)
      ensures Gone(z, SlotAt(a, k, side, j).token)
    {
      assert k == c && side == left && j == i && Gone(d, y.token);
    }
  }

  lemma MendedOnward(a: seq<Place>, z: seq<Place>, c: nat, left: bool, i: nat, p: nat, live: nat)
    requires IsSlot(a, c, left, i) && |z| == |a| && SlotAt(a, c, left, i).cell.control.Names(p)
    requires var x := MendedSlot(QueueOf(a[c].layout, left), SlotAt(a, c, left, i), p, live);
             !x.cell.control.Names(p) && z[c] == There(WithSlot(a[c].layout, left, i, x))
    ensures PlaceOnward(a, c, z[c], p, live)
  {}

  lemma FreedOnward(a: seq<Place>, c: nat, left: bool, i: nat, l: Layout, p: nat, live: nat)
    requires IsSlot(a, c, left, i) && Releases(a, c, left, i, p, live)
    requires var x := SlotAt(a, c, left, i);
             var t := x.token;
             && t.pool < |a| && a[t.pool].There? && a[t.pool].layout.PoolLayout?
             && var m := a[t.pool].layout;
                && t.block < |m.words| && m.words[t.block].generation == t.generation
                && (m.words[t.block].Detached? || Has(m.words[t.block], x.cell.control.source))
                && l == m.(words := m.words[t.block := PoolWord.Free(t.generation)])
    ensures PlaceOnward(a, SlotAt(a, c, left, i).token.pool, There(l), p, live)
  {
    var t := SlotAt(a, c, left, i).token;
    assert Tokened(a, c, left, i, t.pool, t.block, a[t.pool].layout.words[t.block], p, live);
  }

  /** Of the first n words those that name p are free at their generation, and nothing else differs. */
  predicate Swept(a: Layout, b: Layout, p: nat, n: nat) {
    && a.PoolLayout? && b.PoolLayout? && |b.words| == |a.words| && b == a.(words := b.words)
    && forall i :: 0 <= i < |a.words| ==>
         b.words[i] == if i < n && Has(a.words[i], p) then PoolWord.Free(a.words[i].generation) else a.words[i]
  }

  class Session {
    const self: nat    // the slot of the participant that reaps
    const alone: bool  // nobody else acts
    const limit: nat   // the most entries the directory can have
    const root: Participants.Root
    var txn: Option<nat>
    var lock: Lock
    var directoryMembers: set<nat>
    var heapMembers: set<nat>
    var places: seq<Place>

    constructor (self: nat, alone: bool, root: Participants.Root, txn: Option<nat>, lock: Lock, places: seq<Place>,
                 limit: nat)
      ensures this.self == self && this.root == root && this.txn == txn && this.lock == lock && this.places == places
      ensures this.alone == alone && this.limit == limit
    {
      this.self, this.alone, this.root, this.limit := self, alone, root, limit;
      this.txn, this.lock, this.places := txn, lock, places;
      directoryMembers, heapMembers := {}, {};
    }

    /** Nothing shared names slot p. */
    ghost predicate Forgotten(p: nat)
      reads this
    {
      && txn != Some(p) && lock != Owned(p) && p !in directoryMembers && p !in heapMembers
      && forall k :: 0 <= k < |places| ==> PlaceClear(places[k], p)
    }

    /** Everyone else acts: anything may change, but nothing comes to name `dead`, and the layout at c stays. */
    method Others(dead: nat, c: nat)
      requires |places| <= limit
      modifies this`txn, this`lock, this`directoryMembers, this`heapMembers, this`places
      ensures Meanwhile(dead) && Stays(old(places), places, c, dead)
      ensures alone ==> places == old(places)
    {
      AllThemselves(places, c, dead);
      if alone { return; }
      var t: Option<nat>, l: Lock, d: set<nat>, h: set<nat>, next: seq<Place> := *, *, *, *, *;
      if t != Some(dead) { txn := t; }
      if l != Owned(dead) { lock := l; }
      directoryMembers := if dead in directoryMembers then d else d - {dead};
      heapMembers := if dead in heapMembers then h else h - {dead};
      if |next| <= limit && AllNoWorse(places, next, dead) && Stays(places, next, c, dead) { places := next; }
    }

    /** Others acted, and the reaper's own changes were no worse: nothing came to name `dead`. */
    twostate predicate Meanwhile(dead: nat)
      reads this
    {
      && (txn == Some(dead) ==> old(txn) == Some(dead)) && (lock == Owned(dead) ==> old(lock) == Owned(dead))
      && (dead in directoryMembers ==> dead in old(directoryMembers))
         && (dead in heapMembers ==> dead in old(heapMembers))
      && |places| <= limit && AllNoWorse(old(places), places, dead)
      && (alone ==>
            && txn == old(txn) && lock == old(lock) && |places| == |old(places)|
            && directoryMembers == old(directoryMembers) && heapMembers == old(heapMembers))
    }

    /** `release_token` for the block a queue token names. */
    method ReleaseToken(k: Token, source: nat, ghost dead: nat, ghost c: nat) returns (ok: bool)
      requires |places| <= limit
      requires c < |places| && places[c].There? && places[c].layout.ChannelLayout?
      modifies this`places
      ensures Meanwhile(dead) && Stays(old(places), places, c, dead) && places[c] == old(places)[c]
      ensures ok <==> old(Answers(places, k, source))
      ensures TokenFreed(old(places), places, k, source)
      ensures ok ==> Gone(places, k)
      ensures !ok || k.generation == 0 ==> places == old(places)
    {
      AllThemselves(places, c, dead);
      if AnyBusy(places) || k.pool >= |places| || !places[k.pool].There?
         || !places[k.pool].layout.PoolLayout? { return false; }
      if k.generation == 0 { return true; }
      var l := places[k.pool].layout;
      if k.generation > PoolWord.MAX_GENERATION || k.block >= |l.words| { return false; }
      var (answer, word) := PoolWord.Release(l.words[k.block], k.generation, Some(source));
      if !answer { return false; }
      Replaced(places, k.pool, l.(words := l.words[k.block := word]), dead);
      StaysElsewhere(places, k.pool, l.(words := l.words[k.block := word]), c, dead);
      places := places[k.pool := There(l.(words := l.words[k.block := word]))];
      assert word == l.words[k.block] ==> places[k.pool] == There(l) && places == old(places);
      return true;
    }

    /** `repair_slot_with` on slot i of one queue of channel c. */
    method RepairSlot(c: nat, left: bool, i: nat, dead: nat) returns (ok: bool)
      requires |places| <= limit && dead != self
      requires c < |places| && places[c].There? && places[c].layout.ChannelLayout?
               && i < |QueueOf(places[c].layout, left).slots|
      modifies this`txn, this`lock, this`directoryMembers, this`heapMembers, this`places
      ensures Meanwhile(dead) && Stays(old(places), places, c, dead)
      ensures ok ==> !QueueOf(places[c].layout, left).slots[i].cell.control.Names(dead)
      ensures !old(QueueOf(places[c].layout, left).slots[i].cell.control.Names(dead)) ==> ok && places == old(places)
      ensures alone && old(Fixable(places, QueueOf(places[c].layout, left), i, dead, self)) ==> ok
      ensures alone && ok ==> Onward(old(places), places, dead, self)
    {
      AllThemselves(places, c, dead);
      OnwardItself(places, dead, self);
      var x := QueueOf(places[c].layout, left).slots[i];
      Repair.RefusalMeans(x.cell.control, dead, self);
      match Repair.TagFor(x.cell.control, dead, self)
      case Nothing => return true;
      case Busy(_) => return false;
      case Tagged(next) =>
        Others(dead, c);
        ghost var p1 := places;
        var now := QueueOf(places[c].layout, left).slots[i];
        if now.cell.control != x.cell.control { return false; }  // the exchange lost a race
        PutSlot(c, left, i, now.(cell := now.cell.(control := next)), dead);
        ghost var p2 := places;
        AllChain(old(places), p1, p2, dead);
        StaysChain(old(places), p1, p2, c, dead);
        if alone { TaggedResolves(old(places), p2, c, left, i, next, dead); }
        ok := FinishSlot(c, left, i, x.(cell := x.cell.(control := next)), dead);
        AllChain(old(places), p2, places, dead);
        StaysChain(old(places), p2, places, c, dead);
        if alone && ok {
          RepairedOnward(old(places), p2, places, c, left, i, x.(cell := x.cell.(control := next)), dead, self);
        }
    }

    /** One store to a slot's words. */
    method PutSlot(c: nat, left: bool, i: nat, x: Slot, ghost dead: nat)
      requires |places| <= limit
      requires c < |places| && places[c].There? && places[c].layout.ChannelLayout?
               && i < |QueueOf(places[c].layout, left).slots|
      requires x.cell.control.Names(dead) ==> QueueOf(places[c].layout, left).slots[i].cell.control.Names(dead)
      modifies this`places
      ensures Meanwhile(dead) && Stays(old(places), places, c, dead)
      ensures places == old(places)[c := There(WithSlot(old(places)[c].layout, left, i, x))]
      ensures QueueOf(places[c].layout, left).slots[i] == x
    {
      SlotNoWorse(places[c].layout, left, i, x, dead);
      Replaced(places, c, WithSlot(places[c].layout, left, i, x), dead);
      places := places[c := There(WithSlot(places[c].layout, left, i, x))];
    }

    /** The second half of a repair: the token, then the slot's new words; x is what the reaper read. */
    method FinishSlot(c: nat, left: bool, i: nat, x: Slot, dead: nat) returns (ok: bool)
      requires |places| <= limit
      requires c < |places| && places[c].There? && places[c].layout.ChannelLayout?
               && i < |QueueOf(places[c].layout, left).slots|
      requires x.cell.control.Producer? || x.cell.control.Consumer?
      modifies this`txn, this`lock, this`directoryMembers, this`heapMembers, this`places
      ensures Meanwhile(dead) && Stays(old(places), places, c, dead)
      ensures ok ==> !QueueOf(places[c].layout, left).slots[i].cell.control.Names(dead)
      ensures alone && old(Resolves(places, QueueOf(places[c].layout, left), x)) ==> ok
      ensures alone && ok ==> Finished(old(places), places, c, left, i, x)
    {
      Others(dead, c);
      ghost var p1 := places;
      var q := QueueOf(places[c].layout, left);
      match Repair.PlanFor(x.cell, q.head, q.tail, q.cap)
      case Corrupted => return false;
      case Plan(release, turn, control) =>
        ok := ResolveToken(c, x, release, dead);
        ghost var p2 := places;
        AllChain(old(places), p1, p2, dead);
        StaysChain(old(places), p1, p2, c, dead);
        if !ok { return; }
        Others(dead, c);
        ghost var p3 := places;
        AllChain(old(places), p2, p3, dead);
        StaysChain(old(places), p2, p3, c, dead);
        PutSlot(c, left, i, x.(cell := Repair.Cell(turn, control)), dead);
        assert alone ==> FinishedBy(old(places), p2, places, c, left, i, x);
        AllChain(old(places), p3, places, dead);
        StaysChain(old(places), p3, places, c, dead);
    }

    /** The token, if the plan releases it. */
    method ResolveToken(c: nat, x: Slot, release: bool, dead: nat) returns (ok: bool)
      requires |places| <= limit && c < |places| && places[c].There? && places[c].layout.ChannelLayout?
      requires x.cell.control.Producer? || x.cell.control.Consumer?
      modifies this`places
      ensures Meanwhile(dead) && Stays(old(places), places, c, dead)
      ensures ok <==> !release || old(Answers(places, x.token, x.cell.control.source))
      ensures |places| == |old(places)| && places[c] == old(places)[c]
      ensures release ==> TokenFreed(old(places), places, x.token, x.cell.control.source)
      ensures ok && release ==> Gone(places, x.token)
      ensures !release ==> places == old(places)
    {
      ok := true;
      AllThemselves(places, c, dead);
      if release { ok := ReleaseToken(x.token, x.cell.control.source, dead, c); }
    }

    /** Every slot of one queue. */
    method RepairQueue(c: nat, left: bool, dead: nat) returns (ok: bool)
      requires |places| <= limit && dead != self && c < |places| && places[c].There? && places[c].layout.ChannelLayout?
      modifies this`txn, this`lock, this`directoryMembers, this`heapMembers, this`places
      ensures Meanwhile(dead) && Stays(old(places), places, c, dead)
      ensures ok ==> QueueClear(QueueOf(places[c].layout, left), dead)
      ensures alone && old(QueueClear(QueueOf(places[c].layout, left), dead)) ==> ok && places == old(places)
      ensures alone && old(AllFixable(places, QueueOf(places[c].layout, left), dead, self)) ==> ok
      ensures alone && ok ==> Onward(old(places), places, dead, self)
    {
      AllThemselves(places, c, dead);
      OnwardItself(places, dead, self);
      var i := 0;
      while i < |QueueOf(places[c].layout, left).slots|
        invariant Meanwhile(dead) && Stays(old(places), places, c, dead)
        invariant i <= |QueueOf(places[c].layout, left).slots|
        invariant forall j :: 0 <= j < i ==> !QueueOf(places[c].layout, left).slots[j].cell.control.Names(dead)
        invariant alone && old(QueueClear(QueueOf(places[c].layout, left), dead)) ==> places == old(places)
        invariant alone ==> Onward(old(places), places, dead, self)
        decreases |QueueOf(old(places)[c].layout, left).slots| - i
      {
        ghost var p1 := places;
        if alone { StillQueue(old(places), places, c, left, dead, self); }
        ok := RepairNext(c, left, i, dead);
        if alone && ok { OnwardChain(old(places), p1, places, dead, self); }
        AllChain(old(places), p1, places, dead);
        StaysChain(old(places), p1, places, c, dead);
        if !ok { return; }
        i := i + 1;
      }
      return true;
    }

    /** One slot, and what others do before the next. */
    method RepairNext(c: nat, left: bool, i: nat, dead: nat) returns (ok: bool)
      requires |places| <= limit && dead != self
      requires c < |places| && places[c].There? && places[c].layout.ChannelLayout?
               && i < |QueueOf(places[c].layout, left).slots|
      modifies this`txn, this`lock, this`directoryMembers, this`heapMembers, this`places
      ensures Meanwhile(dead) && Stays(old(places), places, c, dead)
      ensures ok ==> !QueueOf(places[c].layout, left).slots[i].cell.control.Names(dead)
      ensures alone && !old(QueueOf(places[c].layout, left).slots[i].cell.control.Names(dead)) ==>
                ok && places == old(places)
      ensures alone && old(Fixable(places, QueueOf(places[c].layout, left), i, dead, self)) ==> ok
      ensures alone && ok ==> Onward(old(places), places, dead, self)
    {
      ok := RepairSlot(c, left, i, dead);
      if !ok { return; }
      ghost var p1 := places;
      Others(dead, c);
      AllChain(old(places), p1, places, dead);
      StaysChain(old(places), p1, places, c, dead);
    }

    /** `recover_role` on both words; each exchange is retried until it meets the word it loaded. */
    method RecoverRoles(c: nat, dead: nat)
      requires |places| <= limit && c < |places| && places[c].There? && places[c].layout.ChannelLayout?
      modifies this`txn, this`lock, this`directoryMembers, this`heapMembers, this`places
      ensures Meanwhile(dead) && Stays(old(places), places, c, dead) && RolesClear(places[c].layout.roles, dead)
      ensures alone ==> Onward(old(places), places, dead, self)
    {
      AllThemselves(places, c, dead);
      OnwardItself(places, dead, self);
      var i := 0;
      while i < |places[c].layout.roles|
        invariant Meanwhile(dead) && Stays(old(places), places, c, dead)
        invariant i <= |places[c].layout.roles|
        invariant forall j :: 0 <= j < i ==> places[c].layout.roles[j].owner != Some(dead)
        invariant alone ==> Onward(old(places), places, dead, self)
        decreases |old(places)[c].layout.roles| - i
      {
        ghost var p1 := places;
        Others(dead, c);
        ghost var p2 := places;
        AllChain(old(places), p1, p2, dead);
        StaysChain(old(places), p1, p2, c, dead);
        ReleaseRole(c, i, dead);
        AllChain(old(places), p2, places, dead);
        StaysChain(old(places), p2, places, c, dead);
        if alone { OnwardChain(old(places), p2, places, dead, self); }
        i := i + 1;
      }
    }

    /** `Duplex::recover`. */
    method RecoverChannel(c: nat, dead: nat) returns (ok: bool)
      requires |places| <= limit && dead != self && c < |places| && places[c].There? && places[c].layout.ChannelLayout?
      modifies this`txn, this`lock, this`directoryMembers, this`heapMembers, this`places
      ensures Meanwhile(dead) && Stays(old(places), places, c, dead)
      ensures ok ==>
                && QueueClear(places[c].layout.left, dead) && QueueClear(places[c].layout.right, dead)
                && RolesClear(places[c].layout.roles, dead)
      ensures alone && old(AllFixable(places, places[c].layout.left, dead, self))
              && old(AllFixable(places, places[c].layout.right, dead, self))
              ==> ok
      ensures alone && ok ==> Onward(old(places), places, dead, self)
    {
      ok := RepairQueue(c, true, dead);
      if !ok { return; }
      ghost var p1 := places;
      if alone { StillQueue(old(places), places, c, false, dead, self); }
      ok := RepairQueue(c, false, dead);
      ghost var p2 := places;
      if alone && ok { OnwardChain(old(places), p1, p2, dead, self); }
      AllChain(old(places), p1, p2, dead);
      StaysChain(old(places), p1, p2, c, dead);
      if !ok { return; }
      RecoverRoles(c, dead);
      if alone { OnwardChain(old(places), p2, places, dead, self); }
      AllChain(old(places), p2, places, dead);
      StaysChain(old(places), p2, places, c, dead);
    }

    /** The exchange on one role word: a word of someone else is left as it is. */
    method ReleaseRole(c: nat, i: nat, dead: nat)
      requires |places| <= limit && c < |places| && places[c].There? && places[c].layout.ChannelLayout?
      requires i < |places[c].layout.roles|
      modifies this`places
      ensures Meanwhile(dead) && Stays(old(places), places, c, dead) && Onward(old(places), places, dead, self)
      ensures var l := old(places)[c].layout;
              var r := if l.roles[i].owner == Some(dead) then Roles.Released(l.roles[i]) else l.roles[i];
              places == old(places)[c := There(l.(roles := l.roles[i := r]))]
    {
      var l := places[c].layout;
      var r := if l.roles[i].owner == Some(dead) then Roles.Released(l.roles[i]) else l.roles[i];
      Replaced(places, c, l.(roles := l.roles[i := r]), dead);
      OnwardAt(places, c, l.(roles := l.roles[i := r]), dead, self);
      places := places[c := There(l.(roles := l.roles[i := r]))];
    }

    /** The exchange on one pool word: freed at its generation if it names `dead`, and otherwise left as it is. */
    method ReapWord(c: nat, b: nat, dead: nat)
      requires |places| <= limit && c < |places| && places[c].There? && places[c].layout.PoolLayout?
      requires b < |places[c].layout.words|
      modifies this`places
      ensures Meanwhile(dead) && Stays(old(places), places, c, dead) && Onward(old(places), places, dead, self)
      ensures var l := old(places)[c].layout;
              var w := if Has(l.words[b], dead) then PoolWord.Free(l.words[b].generation) else l.words[b];
              places == old(places)[c := There(l.(words := l.words[b := w]))]
    {
      var l := places[c].layout;
      var w := PoolWord.Reap(l.words[b], dead);
      Replaced(places, c, l.(words := l.words[b := w]), dead);
      OnwardAt(places, c, l.(words := l.words[b := w]), dead, self);
      places := places[c := There(l.(words := l.words[b := w]))];
    }

    /** `Storage::recover`; each exchange is retried until it meets the word it loaded. */
    method RecoverPool(c: nat, dead: nat)
      requires |places| <= limit && c < |places| && places[c].There? && places[c].layout.PoolLayout?
      modifies this`txn, this`lock, this`directoryMembers, this`heapMembers, this`places
      ensures Meanwhile(dead) && Stays(old(places), places, c, dead) && PoolClear(places[c].layout.words, dead)
      ensures alone ==> Swept(old(places)[c].layout, places[c].layout, dead, |places[c].layout.words|)
      ensures alone ==> places == old(places)[c := places[c]]
      ensures alone ==> Onward(old(places), places, dead, self)
    {
      AllThemselves(places, c, dead);
      OnwardItself(places, dead, self);
      var b := 0;
      while b < |places[c].layout.words|
        invariant Meanwhile(dead) && Stays(old(places), places, c, dead)
        invariant b <= |places[c].layout.words|
        invariant forall j :: 0 <= j < b ==> !Has(places[c].layout.words[j], dead)
        invariant alone ==> Swept(old(places)[c].layout, places[c].layout, dead, b)
        invariant alone ==> places == old(places)[c := places[c]]
        invariant alone ==> Onward(old(places), places, dead, self)
        decreases |old(places)[c].layout.words| - b
      {
        ghost var p1 := places;
        Others(dead, c);
        ghost var p2 := places;
        AllChain(old(places), p1, p2, dead);
        StaysChain(old(places), p1, p2, c, dead);
        ReapWord(c, b, dead);
        AllChain(old(places), p2, places, dead);
        StaysChain(old(places), p2, places, c, dead);
        if alone { OnwardChain(old(places), p2, places, dead, self); }
        b := b + 1;
      }
    }

    /** `recover_layout`: the layout's own recovery, then its membership bit. */
    method RecoverLayout(c: nat, h: Handlers, dead: nat) returns (ok: bool)
      requires |places| <= limit && dead != self && c < |places| && places[c].There?
      modifies this`txn, this`lock, this`directoryMembers, this`heapMembers, this`places
      ensures Meanwhile(dead) && Stays(old(places), places, c, dead)
      ensures ok ==> Clear(places[c].layout, dead)
      ensures alone && old(Mendable(places, places[c], h, dead, self)) ==> ok
      ensures alone && ok ==> Onward(old(places), places, dead, self)
    {
      AllThemselves(places, c, dead);
      OnwardItself(places, dead, self);
      if !places[c].layout.sound { return false; }
      match places[c].layout {
        case PoolLayout(_, _, _) => RecoverPool(c, dead);
        case ChannelLayout(_, _, _, _, _) =>
          ok := RecoverChannel(c, dead);
          if !ok { return; }
        case OtherLayout(_, _) =>
      }
      ghost var p1 := places;
      var l := places[c].layout;
      Replaced(places, c, l.(members := l.members - {dead}), dead);
      OnwardAt(places, c, l.(members := l.members - {dead}), dead, self);
      places := places[c := There(l.(members := l.members - {dead}))];
      ghost var p2 := places;
      if alone { OnwardChain(old(places), p1, p2, dead, self); }
      AllChain(old(places), p1, p2, dead);
      StaysChain(old(places), p1, p2, c, dead);
      assert Clear(places[c].layout, dead);
      Others(dead, c);
      AllChain(old(places), p2, places, dead);
      StaysChain(old(places), p2, places, c, dead);
      NoWorseClear(p2[c].layout, places[c].layout, dead);
      return dead !in places[c].layout.members;
    }

    /**
     `scan_recovery`: every published layout, each by exactly one matching handler.  A layout that turns up behind the
     scan, or comes back there, does not name `dead`.
     */
    method Scan(dead: nat, h: Handlers) returns (ok: bool)
      requires |places| <= limit && dead != self
      modifies this`txn, this`lock, this`directoryMembers, this`heapMembers, this`places
      ensures Meanwhile(dead)
      ensures ok ==> forall k :: 0 <= k < |places| ==> PlaceClear(places[k], dead)
      ensures alone && old(AllMendable(places, h, dead, self)) ==> ok && AllMendable(places, h, dead, self)
      ensures alone && ok ==> Onward(old(places), places, dead, self)
    {
      AllThemselves(places, limit, dead);
      OnwardItself(places, dead, self);
      var k := 0;
      while k < |places|
        invariant k <= |places| && Meanwhile(dead)
        invariant forall j :: 0 <= j < k ==> PlaceClear(places[j], dead)
        invariant alone && old(AllMendable(places, h, dead, self)) ==> AllMendable(places, h, dead, self)
        invariant alone ==> Onward(old(places), places, dead, self)
        decreases limit - k
      {
        ghost var p1 := places;
        ok := Visit(k, dead, h);
        if alone && ok {
          OnwardChain(old(places), p1, places, dead, self);
          if AllMendable(p1, h, dead, self) { StillMendable(p1, places, h, dead, self); }
        }
        AllChain(old(places), p1, places, dead);
        if !ok { return; }
        forall j | 0 <= j < k ensures PlaceClear(places[j], dead) { StillClear(p1, places, j, dead); }
        k := k + 1;
      }
      return true;
    }

    /** What the first scan cleared others keep clear; the second only confirms. */
    method ScanTwice(dead: nat, h: Handlers) returns (ok: bool)
      requires |places| <= limit && dead != self
      modifies this`txn, this`lock, this`directoryMembers, this`heapMembers, this`places
      ensures Meanwhile(dead)
      ensures ok ==> forall k :: 0 <= k < |places| ==> PlaceClear(places[k], dead)
      ensures alone && old(AllMendable(places, h, dead, self)) ==> ok
      ensures alone && ok ==> Onward(old(places), places, dead, self)
    {
      ok := Scan(dead, h);
      if !ok { return; }
      ghost var p1 := places;
      ok := Scan(dead, h);
      AllChain(old(places), p1, places, dead);
      if alone && ok { OnwardChain(old(places), p1, places, dead, self); }
    }

    /** One entry of the scan. */
    method Visit(k: nat, dead: nat, h: Handlers) returns (ok: bool)
      requires |places| <= limit && dead != self && k < |places|
      modifies this`txn, this`lock, this`directoryMembers, this`heapMembers, this`places
      ensures Meanwhile(dead) && k < |places|
      ensures ok ==> PlaceClear(places[k], dead)
      ensures alone && old(Mendable(places, places[k], h, dead, self)) ==> ok
      ensures alone && ok ==> Onward(old(places), places, dead, self)
    {
      Others(dead, limit);
      OnwardItself(places, dead, self);
      ghost var p1 := places;
      match places[k]
      case Void => return true;
      case Busy(_) => return false;
      case There(l) =>
        if Matching(h, l) != 1 { return false; }
        ok := RecoverLayout(k, h, dead);
        AllChain(old(places), p1, places, dead);
    }

    /** `recover` of the directory, as its own contract promises it: the transaction is over, or the reaper keeps it. */
    method RecoverDirectory(dead: nat) returns (ok: bool)
      requires txn == Some(dead) && dead != self
      modifies this`txn, this`places, this`lock
      ensures ok ==> (txn == None || txn == Some(self)) && |places| <= limit
      ensures !ok ==> txn == old(txn)
    {
      ok := *;
      places := *;  // an interrupted creation or removal may have been finished or undone
      lock := *;
      if |places| > limit { ok := false; }
      var kept: bool := *;  // a quarantine without debug assertions
      if ok { txn := if kept then Some(self) else None; }
    }

    /** `finish_recovery` of the heap. */
    method FinishHeap(dead: nat) returns (ok: bool)
      requires |places| <= limit
      modifies this`txn, this`lock, this`directoryMembers, this`heapMembers, this`places
      ensures ok ==> lock != Owned(dead) && dead !in heapMembers
      ensures old(lock).Owned? && old(lock).slot != dead ==> !ok
      ensures |places| <= limit && (txn == Some(dead) ==> old(txn) == Some(dead))
      ensures alone ==> (ok <==> !(old(lock).Owned? && old(lock).slot != dead)) && places == old(places)
                        && txn == old(txn) && lock == if old(lock) == Owned(dead) then Poisoned else old(lock)
      ensures alone ==> directoryMembers == old(directoryMembers)
      ensures alone && ok ==> heapMembers == old(heapMembers) - {dead}
    {
      if lock.Owned? {
        if lock.slot != dead { return false; }
        Others(dead, limit);
        if lock == Owned(dead) {
          lock := Poisoned;
        } else if lock != Poisoned {
          return false;
        }
      }
      heapMembers := heapMembers - {dead};
      Others(dead, limit);
      return dead !in heapMembers;
    }

    /** Nothing stands in the way of reaping the member: every layout can be recovered and nobody else has the heap. */
    ghost predicate Reapable(member: Participants.Member, h: Handlers)
      reads this, root
    {
      && txn == None && (lock.Owned? ==> lock.slot == member.slot) && AllMendable(places, h, member.slot, self)
      && member.slot != self && member.slot < |root.members|
      && root.members[member.slot] == Participants.Word(member.generation, Participants.Dead)
    }

    /**
     `reap_with`.  If it succeeds, nothing shared names the slot any more and the slot is free or retired, whatever
     everyone else did meanwhile; it cannot succeed for the caller itself, for a participant not marked dead, or while
     another holds the directory.
     */
    method ReapWith(member: Participants.Member, h: Handlers) returns (ok: bool)
      requires root.Valid() && |places| <= limit
      modifies this`txn, this`lock, this`directoryMembers, this`heapMembers, this`places, root
      ensures root.Valid()
      ensures ok ==> member.slot != self && Forgotten(member.slot)
      ensures ok ==> old(txn) == None || old(txn) == Some(member.slot)
      ensures ok ==>
                && member.slot < |root.members|
                && old(root.members)[member.slot] == Participants.Word(member.generation, Participants.Dead)
                     && root.members[member.slot].status != Participants.Dead
                        && root.members[member.slot].status != Participants.Live
      ensures !ok && member.slot < |root.members| ==> root.members[member.slot] == old(root.members)[member.slot]
      ensures alone ==>
                root.members ==
                if ok then
                  var last := member.generation == Participants.MAX_GENERATION;
                  var status := if last then Participants.Retired else Participants.Free;
                  old(root.members)[member.slot := Participants.Word(member.generation, status)]
                else old(root.members)
      ensures alone && old(Reapable(member, h)) ==> ok
      ensures alone && ok && old(txn) == None ==> Onward(old(places), places, member.slot, self)
      ensures alone && ok ==>
                && directoryMembers == old(directoryMembers) - {member.slot}
                && heapMembers == old(heapMembers) - {member.slot}
      ensures alone && ok && old(txn) == None ==>
                txn == None && lock == if old(lock) == Owned(member.slot) then Poisoned else old(lock)
    {
      var dead := member.slot;
      if dead == self { return false; }
      if txn.Some? {
        if txn.value != dead { return false; }
        var recovered := RecoverDirectory(dead);
        if !recovered { return false; }
      }
      Others(dead, limit);
      ok := FinishHeap(dead);
      if !ok { return; }
      ok := ScanTwice(dead, h);
      if !ok { return; }
      directoryMembers := directoryMembers - {dead};
      root.OthersBut(member.slot, alone);
      ok := root.ReleaseDead(member);
    }
  }
}
