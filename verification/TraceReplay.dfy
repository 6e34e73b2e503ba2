/**
 Replaying an allocation trace against fixed size classes and against a bound that compacts.  The cells of all
 classes are kept in one sequence in class order, so sizes never decrease along it.
 */
module TraceReplay {
  import opened Common
  import opened Powers

  const SMALLEST: nat := 64

  datatype Event =
    | Reserve(id: nat, owner: nat, bytes: nat) | Release(id: nat) | Transfer(id: nat, to: nat)
    | Crash(owner: nat) | Reap(owner: nat)

  datatype Rejection = BlockTooLarge | Unavailable

  datatype Outcome = Reserved | Rejected(why: Rejection)

  datatype Allocation = Allocation(id: nat, owner: nat, requested: nat)

  datatype Cell = Cell(bytes: nat, used: Option<Allocation>)

  /** `from_classes` accepts power-of-two sizes of at least 64 bytes, in ascending order, at least one cell each. */
  predicate Sizes(cells: seq<Cell>) {
    && |cells| > 0
    && (forall i {:trigger cells[i]} :: 0 <= i < |cells| ==> cells[i].bytes >= SMALLEST && IsPow2(cells[i].bytes))
    && (forall i, j {:trigger cells[i], cells[j]} :: 0 <= i <= j < |cells| ==> cells[i].bytes <= cells[j].bytes)
  }

  function Largest(cells: seq<Cell>): nat
    requires |cells| > 0
  {
    cells[|cells| - 1].bytes
  }

  // The fixed classes.

  datatype Static = Static(cells: seq<Cell>, at: map<nat, nat>, dead: set<nat>)

  predicate Takes(c: Cell, bytes: nat) { c.bytes >= bytes && c.used == None }

  /** The first free cell of a large enough class, from index n on. */
  function FirstFrom(cells: seq<Cell>, bytes: nat, n: nat): (r: Option<nat>)
    requires n <= |cells|
    ensures r.Some? ==> n <= r.value < |cells| && Takes(cells[r.value], bytes)
    ensures r.None? ==> forall i :: n <= i < |cells| ==> !Takes(cells[i], bytes)
    decreases |cells| - n
  {
    if n == |cells| then None
    else if Takes(cells[n], bytes) then Some(n)
    else FirstFrom(cells, bytes, n + 1)
  }

  function Vacated(cells: seq<Cell>, owner: nat): seq<Cell> {
    seq(|cells|, i requires 0 <= i < |cells| =>
      if cells[i].used.Some? && cells[i].used.value.owner == owner then cells[i].(used := None) else cells[i])
  }

  function StaticOutcome(s: Static, bytes: nat): Outcome
    requires |s.cells| > 0
  {
    if FirstFrom(s.cells, bytes, 0).Some? then Reserved
    else if Largest(s.cells) < bytes then Rejected(BlockTooLarge)
    else Rejected(Unavailable)
  }

  predicate Placed(s: Static) { forall id :: id in s.at ==> s.at[id] < |s.cells| }

  function StaticStep(s: Static, e: Event): (u: Static)
    requires Placed(s)
    ensures Placed(u) && |u.cells| == |s.cells|
  {
    match e
    case Reserve(id, owner, bytes) =>
      var f := FirstFrom(s.cells, bytes, 0);
      if f.None? then s
      else Static(s.cells[f.value := s.cells[f.value].(used := Some(Allocation(id, owner, bytes)))],
                  s.at[id := f.value], s.dead)
    case Release(id) =>
      if id !in s.at then s
      else Static(s.cells[s.at[id] := s.cells[s.at[id]].(used := None)], s.at - {id}, s.dead)
    case Transfer(id, to) =>
      if id !in s.at || s.cells[s.at[id]].used == None then s
      else
        var c := s.cells[s.at[id]];
        s.(cells := s.cells[s.at[id] := c.(used := Some(c.used.value.(owner := to)))])
    case Crash(owner) => s.(dead := s.dead + {owner})
    case Reap(owner) =>
      if owner !in s.dead then s
      else s.(cells := Vacated(s.cells, owner), at := s.at - Evicted(s.cells, owner))
  }

  function Evicted(cells: seq<Cell>, owner: nat): set<nat> {
    set i | 0 <= i < |cells| && OwnedBy(cells[i], owner) :: cells[i].used.value.id
  }

  predicate OwnedBy(c: Cell, owner: nat) { c.used.Some? && c.used.value.owner == owner }

  // The compacting bound.

  datatype Live = Live(owner: nat, bytes: nat, physical: nat)

  datatype Compact = Compact(live: map<nat, Live>, dead: set<nat>)

  function Physical(bytes: nat): nat { NextPow2(if bytes < SMALLEST then SMALLEST else bytes) }

  /** The physical bytes of all live allocations. */
  ghost function Used(m: map<nat, Live>): nat
    decreases |m|
  {
    if m == map[] then 0
    else
      var id :| id in m;
      assert m - {id} != m;
      m[id].physical + Used(m - {id})
  }

  function Capacity(cells: seq<Cell>): nat {
    if cells == [] then 0 else Capacity(cells[..|cells| - 1]) + cells[|cells| - 1].bytes
  }

  ghost function CompactOutcome(cells: seq<Cell>, c: Compact, bytes: nat): Outcome
    requires |cells| > 0
  {
    if Physical(bytes) > Largest(cells) then Rejected(BlockTooLarge)
    else if Used(c.live) + Physical(bytes) > Capacity(cells) then Rejected(Unavailable)
    else Reserved
  }

  ghost function CompactStep(cells: seq<Cell>, c: Compact, e: Event): Compact
    requires |cells| > 0
  {
    match e
    case Reserve(id, owner, bytes) =>
      if CompactOutcome(cells, c,
                        bytes) == Reserved then c.(live := c.live[id := Live(owner, bytes, Physical(bytes))]) else c
    case Release(id) => c.(live := c.live - {id})
    case Transfer(id, to) => if id in c.live then c.(live := c.live[id := c.live[id].(owner := to)]) else c
    case Crash(owner) => c.(dead := c.dead + {owner})
    case Reap(owner) => if owner !in c.dead then c else c.(live := map id | id in c.live
                                                           && c.live[id].owner != owner :: c.live[id])
  }

  // Sums.

  lemma {:induction false} UsedWithout(m: map<nat, Live>, id: nat)
    requires id in m
    ensures Used(m) == m[id].physical + Used(m - {id})
    decreases |m|
  {
    var k :| k in m && Used(m) == m[k].physical + Used(m - {k});
    if k != id {
      assert |(m - {k}).Keys| < |m.Keys|;
      UsedWithout(m - {k}, id);
      assert |(m - {id}).Keys| < |m.Keys|;
      UsedWithout(m - {id}, k);
      assert m - {k} - {id} == m - {id} - {k};
    }
  }

  function Occupied(cells: seq<Cell>): nat {
    if cells == [] then 0
    else Occupied(cells[..|cells| - 1]) + (if cells[|cells| - 1].used.Some? then cells[|cells| - 1].bytes else 0)
  }

  lemma {:induction false} OccupiedWithin(cells: seq<Cell>)
    ensures Occupied(cells) <= Capacity(cells)
  {
    if cells != [] { OccupiedWithin(cells[..|cells| - 1]); }
  }

  /** A free cell is room the occupied ones leave. */
  lemma {:induction false} FreeCellIsRoom(cells: seq<Cell>, i: nat)
    requires i < |cells| && cells[i].used == None
    ensures Occupied(cells) + cells[i].bytes <= Capacity(cells)
  {
    var rest := cells[..|cells| - 1];
    if i < |rest| {
      assert rest[i] == cells[i];
      FreeCellIsRoom(rest, i);
    } else {
      OccupiedWithin(rest);
    }
  }

  // The two models side by side.

  /** Same live allocations, each in a cell of its own that is at least as large as the compact bound charges. */
  predicate Agree(s: Static, c: Compact) {
    && Placed(s) && s.dead == c.dead && s.at.Keys == c.live.Keys
    && (forall id {:trigger s.at[id]} {:trigger c.live[id]} :: id in s.at ==>
          && s.cells[s.at[id]].used == Some(Allocation(id, c.live[id].owner, c.live[id].bytes))
          && c.live[id].physical <= s.cells[s.at[id]].bytes)
    && (forall i {:trigger s.cells[i]} :: 0 <= i < |s.cells| && s.cells[i].used.Some? ==>
          s.cells[i].used.value.id in s.at && s.at[s.cells[i].used.value.id] == i)
  }

  function Below(s: Static, c: Compact, n: nat): map<nat, Live> {
    map id | id in c.live && id in s.at && s.at[id] < n :: c.live[id]
  }

  lemma {:induction false} UsedBelow(s: Static, c: Compact, n: nat)
    requires Agree(s, c) && n <= |s.cells|
    ensures Used(Below(s, c, n)) <= Occupied(s.cells[..n])
  {
    if n == 0 {
      assert Below(s, c, 0) == map[];
    } else {
      UsedBelow(s, c, n - 1);
      BelowStep(s, c, n);
    }
  }

  lemma OccupiedStep(cells: seq<Cell>, n: nat)
    requires 0 < n <= |cells|
    ensures Occupied(cells[..n])
            == Occupied(cells[..n - 1]) + (if cells[n - 1].used.Some? then cells[n - 1].bytes else 0)
  {
    var front := cells[..n];
    assert front[..n - 1] == cells[..n - 1] && front[n - 1] == cells[n - 1];
  }

  lemma BelowFree(s: Static, c: Compact, n: nat)
    requires Agree(s, c) && 0 < n <= |s.cells| && s.cells[n - 1].used == None
    ensures Below(s, c, n) == Below(s, c, n - 1)
  {}

  lemma BelowUsed(s: Static, c: Compact, n: nat, id: nat)
    requires Agree(s, c) && 0 < n <= |s.cells| && s.cells[n - 1].used.Some? && s.cells[n - 1].used.value.id == id
    ensures id in Below(s, c, n) && Below(s, c, n) - {id} == Below(s, c, n - 1)
    ensures Below(s, c, n)[id].physical <= s.cells[n - 1].bytes
  {
    assert s.at[id] == n - 1;
  }

  lemma BelowStep(s: Static, c: Compact, n: nat)
    requires Agree(s, c) && 0 < n <= |s.cells| && Used(Below(s, c, n - 1)) <= Occupied(s.cells[..n - 1])
    ensures Used(Below(s, c, n)) <= Occupied(s.cells[..n])
  {
    OccupiedStep(s.cells, n);
    if s.cells[n - 1].used.Some? {
      var id := s.cells[n - 1].used.value.id;
      BelowUsed(s, c, n, id);
      UsedWithout(Below(s, c, n), id);
    } else {
      BelowFree(s, c, n);
    }
  }

  /** The compact bound never charges more than the fixed classes occupy. */
  lemma CompactUsesNoMore(s: Static, c: Compact)
    requires Agree(s, c)
    ensures Used(c.live) <= Occupied(s.cells)
  {
    UsedBelow(s, c, |s.cells|);
    assert s.cells[..|s.cells|] == s.cells && Below(s, c, |s.cells|) == c.live;
  }

  lemma PhysicalFits(bytes: nat, size: nat)
    requires IsPow2(size) && size >= SMALLEST
    ensures Physical(bytes) <= size <==> bytes <= size
  {
    var n := if bytes < SMALLEST then SMALLEST else bytes;
    if bytes <= size { NextPow2Least(n, size); }
  }

  /**
   While they agree, a request that the fixed classes and the bound answer differently is turned down only by the
   classes.
   */
  lemma OnlyUnavailableDiffers(s: Static, c: Compact, bytes: nat)
    requires Agree(s, c) && Sizes(s.cells)
    ensures || StaticOutcome(s, bytes) == CompactOutcome(s.cells, c, bytes)
            || (StaticOutcome(s, bytes) == Rejected(Unavailable) && CompactOutcome(s.cells, c, bytes) == Reserved)
  {
    CompactUsesNoMore(s, c);
    PhysicalFits(bytes, Largest(s.cells));
    var f := FirstFrom(s.cells, bytes, 0);
    if f.Some? {
      assert s.cells[f.value].bytes <= Largest(s.cells);
      FreeCellIsRoom(s.cells, f.value);
      PhysicalFits(bytes, s.cells[f.value].bytes);
    }
  }

  predicate SameSizes(a: seq<Cell>, b: seq<Cell>) {
    |a| == |b| && forall i {:trigger b[i]} :: 0 <= i < |a| ==> a[i].bytes == b[i].bytes
  }

  lemma ReserveAgrees(s: Static, c: Compact, id: nat, owner: nat, bytes: nat)
    requires Agree(s, c) && Sizes(s.cells) && id !in s.at
             && StaticOutcome(s, bytes) == CompactOutcome(s.cells, c, bytes)
    ensures Agree(StaticStep(s, Reserve(id, owner, bytes)), CompactStep(s.cells, c, Reserve(id, owner, bytes)))
    ensures SameSizes(s.cells, StaticStep(s, Reserve(id, owner, bytes)).cells)
  {
    if StaticOutcome(s, bytes) == Reserved {
      var f := FirstFrom(s.cells, bytes, 0).value;
      assert IsPow2(s.cells[f].bytes);
      PhysicalFits(bytes, s.cells[f].bytes);
      TakeAgrees(s, c, f, id, owner, bytes);
    }
  }

  lemma TakeAgrees(s: Static, c: Compact, f: nat, id: nat, owner: nat, bytes: nat)
    requires Agree(s, c) && id !in s.at && f < |s.cells| && s.cells[f].used == None
             && Physical(bytes) <= s.cells[f].bytes
    ensures Agree(Static(s.cells[f := s.cells[f].(used := Some(Allocation(id, owner, bytes)))], s.at[id := f], s.dead),
                  c.(live := c.live[id := Live(owner, bytes, Physical(bytes))]))
  {}

  lemma ReleaseAgrees(s: Static, c: Compact, id: nat)
    requires Agree(s, c)
    ensures Agree(StaticStep(s, Release(id)), c.(live := c.live - {id}))
  {}

  lemma TransferAgrees(s: Static, c: Compact, id: nat, to: nat)
    requires Agree(s, c)
    ensures Agree(StaticStep(s, Transfer(id, to)),
                  if id in c.live then c.(live := c.live[id := c.live[id].(owner := to)]) else c)
  {}

  lemma ReapAgrees(s: Static, c: Compact, owner: nat)
    requires Agree(s, c) && owner in s.dead
    ensures Agree(StaticStep(s, Reap(owner)), c.(live := map id | id in c.live
                                                 && c.live[id].owner != owner :: c.live[id]))
  {
    var u := StaticStep(s, Reap(owner));
    forall id | id in s.at ensures id in Evicted(s.cells, owner) <==> c.live[id].owner == owner {
      if c.live[id].owner == owner {
        assert OwnedBy(s.cells[s.at[id]], owner);
      }
    }
    forall i | 0 <= i < |u.cells| && u.cells[i].used.Some?
      ensures u.cells[i].used.value.id in u.at && u.at[u.cells[i].used.value.id] == i
    {
      assert s.cells[i] == u.cells[i];
    }
  }

  /** A step that both answer alike keeps them in agreement; a reserved id must be new. */
  lemma StepAgrees(s: Static, c: Compact, e: Event)
    requires Agree(s, c) && Sizes(s.cells)
    requires e.Reserve? ==> e.id !in s.at && StaticOutcome(s, e.bytes) == CompactOutcome(s.cells, c, e.bytes)
    ensures Agree(StaticStep(s, e), CompactStep(s.cells, c, e))
    ensures SameSizes(s.cells, StaticStep(s, e).cells)
  {
    match e
    case Reserve(id, owner, bytes) => ReserveAgrees(s, c, id, owner, bytes);
    case Release(id) => ReleaseAgrees(s, c, id);
    case Transfer(id, to) => TransferAgrees(s, c, id, to);
    case Crash(_) =>
    case Reap(owner) => if owner in s.dead { ReapAgrees(s, c, owner); }
  }

  // Whole traces.

  predicate Fresh(cells: seq<Cell>) { Sizes(cells) && forall i :: 0 <= i < |cells| ==> cells[i].used == None }

  function StaticRun(cells: seq<Cell>, events: seq<Event>): (s: Static)
    ensures Placed(s) && |s.cells| == |cells|
  {
    if events == [] then Static(cells, map[], {})
    else StaticStep(StaticRun(cells, events[..|events| - 1]), events[|events| - 1])
  }

  ghost function CompactRun(cells: seq<Cell>, events: seq<Event>): Compact
    requires |cells| > 0
  {
    if events == [] then Compact(map[], {})
    else CompactStep(cells, CompactRun(cells, events[..|events| - 1]), events[|events| - 1])
  }

  /** What the fixed classes answer to the reservation at index k. */
  function StaticAt(cells: seq<Cell>, events: seq<Event>, k: nat): Outcome
    requires |cells| > 0 && k < |events| && events[k].Reserve?
  {
    StaticOutcome(StaticRun(cells, events[..k]), events[k].bytes)
  }

  ghost function CompactAt(cells: seq<Cell>, events: seq<Event>, k: nat): Outcome
    requires |cells| > 0 && k < |events| && events[k].Reserve?
  {
    CompactOutcome(cells, CompactRun(cells, events[..k]), events[k].bytes)
  }

  predicate DistinctIds(events: seq<Event>) {
    forall i, j {:trigger events[i], events[j]} :: 0 <= i < j < |events| && events[i].Reserve? && events[j].Reserve? ==>
      events[i].id != events[j].id
  }

  /** No reservation takes an id that is live. */
  predicate NoLiveReuse(cells: seq<Cell>, events: seq<Event>)
    requires |cells| > 0
  {
    forall k {:trigger StaticAt(cells, events, k)} ::
      0 <= k < |events| && events[k].Reserve? && StaticAt(cells, events, k) == Reserved ==>
        events[k].id !in StaticRun(cells, events[..k]).at
  }

  ghost predicate AlikeBefore(cells: seq<Cell>, events: seq<Event>, k: nat)
    requires |cells| > 0 && k <= |events|
  {
    forall j {:trigger StaticAt(cells, events, j)} :: 0 <= j < k && events[j].Reserve? ==>
      StaticAt(cells, events, j) == CompactAt(cells, events, j)
  }

  lemma {:induction false} SizesDecide(a: seq<Cell>, b: seq<Cell>)
    requires SameSizes(a, b)
    ensures Capacity(a) == Capacity(b) && (|a| > 0 ==> Largest(a) == Largest(b))
  {
    if |a| > 0 {
      var a', b' := a[..|a| - 1], b[..|b| - 1];
      forall i | 0 <= i < |a'| ensures a'[i].bytes == b'[i].bytes { assert a[i].bytes == b[i].bytes; }
      SizesDecide(a', b');
      assert a[|a| - 1].bytes == b[|a| - 1].bytes;
    }
  }

  predicate ReservedBefore(events: seq<Event>, k: nat, id: nat) {
    exists j {:trigger events[j]} :: 0 <= j < k && j < |events| && events[j].Reserve? && events[j].id == id
  }

  /** Up to the first different answer the two models have the same live allocations. */
  lemma {:induction false} AgreeUntilDivergence(cells: seq<Cell>, events: seq<Event>, k: nat)
    requires Fresh(cells) && NoLiveReuse(cells, events) && k <= |events| && AlikeBefore(cells, events, k)
    ensures Agree(StaticRun(cells, events[..k]), CompactRun(cells, events[..k]))
    ensures SameSizes(cells, StaticRun(cells, events[..k]).cells)
  {
    if k == 0 {
      assert events[..0] == [];
    } else {
      AgreeUntilDivergence(cells, events, k - 1);
      Prefix(events, k);
      if events[k - 1].Reserve? { assert StaticAt(cells, events, k - 1) == CompactAt(cells, events, k - 1); }
      AgreeStep(cells, StaticRun(cells, events[..k - 1]), CompactRun(cells, events[..k - 1]), events[k - 1]);
    }
  }

  lemma AgreeStep(cells: seq<Cell>, s: Static, c: Compact, e: Event)
    requires Sizes(cells) && Agree(s, c) && SameSizes(cells, s.cells) && |cells| > 0 && |s.cells| > 0
    requires e.Reserve? ==> StaticOutcome(s, e.bytes) == CompactOutcome(cells, c, e.bytes)
    requires e.Reserve? && StaticOutcome(s, e.bytes) == Reserved ==> e.id !in s.at
    ensures Agree(StaticStep(s, e), CompactStep(cells, c, e)) && SameSizes(cells, StaticStep(s, e).cells)
  {
    SizesDecide(cells, s.cells);
    SizesKept(cells, s.cells);
    if !e.Reserve? || StaticOutcome(s, e.bytes) == Reserved { StepAgrees(s, c, e); }
    forall i | 0 <= i < |cells| ensures cells[i].bytes == StaticStep(s, e).cells[i].bytes {
      assert cells[i].bytes == s.cells[i].bytes;
    }
  }

  lemma SizesKept(a: seq<Cell>, b: seq<Cell>)
    requires SameSizes(a, b) && Sizes(a)
    ensures Sizes(b)
  {
    forall i | 0 <= i < |b| ensures b[i].bytes >= SMALLEST && IsPow2(b[i].bytes) { assert a[i].bytes == b[i].bytes; }
    forall i, j | 0 <= i <= j < |b| ensures b[i].bytes <= b[j].bytes {
      assert a[i].bytes == b[i].bytes && a[j].bytes == b[j].bytes;
    }
  }

  lemma KnownIds(s: Static, events: seq<Event>, k: nat)
    requires 0 < k <= |events| && Placed(s) && forall id :: id in s.at ==> ReservedBefore(events, k - 1, id)
    ensures forall id :: id in StaticStep(s, events[k - 1]).at ==> ReservedBefore(events, k, id)
  {
    forall id | id in StaticStep(s, events[k - 1]).at ensures ReservedBefore(events, k, id) {
      if id in s.at {
        var j :| 0 <= j < k - 1 && j < |events| && events[j].Reserve? && events[j].id == id;
      } else {
        assert events[k - 1].Reserve?;
      }
    }
  }

  lemma {:induction false} LiveWasReserved(cells: seq<Cell>, events: seq<Event>, k: nat)
    requires k <= |events|
    ensures forall id :: id in StaticRun(cells, events[..k]).at ==> ReservedBefore(events, k, id)
  {
    if k > 0 {
      LiveWasReserved(cells, events, k - 1);
      Prefix(events, k);
      KnownIds(StaticRun(cells, events[..k - 1]), events, k);
    } else {
      assert events[..0] == [];
    }
  }

  /** A trace that reserves each id once never takes a live one. */
  lemma DistinctIsEnough(cells: seq<Cell>, events: seq<Event>)
    requires |cells| > 0 && DistinctIds(events)
    ensures NoLiveReuse(cells, events)
  {
    forall k | 0 <= k < |events| && events[k].Reserve? ensures events[k].id !in StaticRun(cells, events[..k]).at {
      LiveWasReserved(cells, events, k);
    }
  }

  /**
   For every trace that takes no live id, the first reservation the two models answer differently is one the fixed
   classes turn down as unavailable and the compacting bound accepts.
   */
  lemma FirstDivergence(cells: seq<Cell>, events: seq<Event>, k: nat)
    requires Fresh(cells) && NoLiveReuse(cells, events) && k < |events| && events[k].Reserve?
             && AlikeBefore(cells, events, k)
    ensures || StaticAt(cells, events, k) == CompactAt(cells, events, k)
            || (StaticAt(cells, events, k) == Rejected(Unavailable) && CompactAt(cells, events, k) == Reserved)
  {
    AgreeUntilDivergence(cells, events, k);
    var s, c := StaticRun(cells, events[..k]), CompactRun(cells, events[..k]);
    SizesDecide(cells, s.cells);
    SizesKept(cells, s.cells);
    OnlyUnavailableDiffers(s, c, events[k].bytes);
  }

  // Why no live id may be taken: the first time one is, some continuation turns the order of the answers round.

  /** The first reservation of a continuation that is answered differently, and the two answers. */
  ghost function FirstDifference(cells: seq<Cell>, s: Static, c: Compact, more: seq<Event>): Option<(Outcome, Outcome)>
    requires |cells| > 0 && |s.cells| > 0 && Placed(s)
    decreases |more|
  {
    if more == [] then None
    else
      var e := more[0];
      if e.Reserve? && StaticOutcome(s, e.bytes) != CompactOutcome(cells, c, e.bytes)
      then Some((StaticOutcome(s, e.bytes), CompactOutcome(cells, c, e.bytes)))
      else FirstDifference(cells, StaticStep(s, e), CompactStep(cells, c, e), more[1..])
  }

  /** The continuation takes no live id. */
  predicate TakesNoLive(s: Static, more: seq<Event>)
    requires |s.cells| > 0 && Placed(s)
    decreases |more|
  {
    more == [] || (var e := more[0];
                   (e.Reserve? && StaticOutcome(s, e.bytes) == Reserved ==> e.id !in s.at)
                   && TakesNoLive(StaticStep(s, e), more[1..]))
  }

  const REVERSED: Option<(Outcome, Outcome)> := Some((Reserved, Rejected(Unavailable)))

  ghost predicate Reverses(cells: seq<Cell>, s: Static, c: Compact, more: seq<Event>)
    requires |cells| > 0 && |s.cells| > 0 && Placed(s)
  {
    TakesNoLive(s, more) && FirstDifference(cells, s, c, more) == REVERSED
  }

  /** One more step in front that is not a reservation answered differently. */
  lemma Precede(cells: seq<Cell>, s: Static, c: Compact, e: Event, more: seq<Event>)
    requires |cells| > 0 && |s.cells| > 0 && Placed(s)
             && Reverses(cells, StaticStep(s, e), CompactStep(cells, c, e), more)
    requires e.Reserve? ==> StaticOutcome(s, e.bytes) == CompactOutcome(cells, c, e.bytes) && e.id !in s.at
    ensures Reverses(cells, s, c, [e] + more)
  {
    var all := [e] + more;
    assert all[0] == e && all[1..] == more;
    assert FirstDifference(cells, s, c, all) == FirstDifference(cells, StaticStep(s, e), CompactStep(cells, c, e),
                                                                more);
    assert TakesNoLive(s, all);
  }

  lemma {:induction false} NewNumber(s: set<nat>) returns (n: nat)
    ensures forall x :: x in s ==> x < n
    decreases |s|
  {
    n := 0;
    if s != {} {
      var x :| x in s;
      var m := NewNumber(s - {x});
      n := Max(m, x + 1);
      forall y | y in s ensures y < n { assert y == x || y in s - {x}; }
    }
  }

  lemma CapacityStep(cells: seq<Cell>, n: nat)
    requires n < |cells|
    ensures Capacity(cells[..n + 1]) == Capacity(cells[..n]) + cells[n].bytes
  {
    Prefix(cells, n + 1);
  }

  /** Cell j is the first free one and takes a request of its own size whole. */
  lemma FirstFree(cells: seq<Cell>, j: nat, n: nat)
    requires n <= j < |cells| && cells[j].used == None && forall i :: 0 <= i < j ==> cells[i].used.Some?
    ensures FirstFrom(cells, cells[j].bytes, n) == Some(j)
    decreases j - n
  {
    if n < j { FirstFree(cells, j, n + 1); }
  }

  lemma PhysicalExact(bytes: nat)
    requires IsPow2(bytes) && bytes >= SMALLEST
    ensures Physical(bytes) == bytes
  {
    PhysicalFits(bytes, bytes);
  }

  /**
   The cells before j are taken whole and the bound still counts `ghost` bytes more: filling the rest turns it over.
   */
  lemma {:induction false} Fill(cells: seq<Cell>, s: Static, c: Compact, j: nat, extra: nat) returns (more: seq<Event>)
    requires Sizes(cells) && SameSizes(cells, s.cells) && Placed(s) && j <= |cells| && extra > 0
    requires forall i :: 0 <= i < |cells| ==> (s.cells[i].used.Some? <==> i < j)
    requires Used(c.live) == extra + Capacity(cells[..j]) <= Capacity(cells)
    ensures Reverses(cells, s, c, more)
    decreases |cells| - j
  {
    assert cells[..|cells|] == cells;
    assert j < |cells|;
    var id := NewNumber(s.at.Keys + c.live.Keys);
    var e := Reserve(id, 0, cells[j].bytes);
    assert cells[j].bytes == s.cells[j].bytes;
    FirstFree(s.cells, j, 0);
    PhysicalExact(cells[j].bytes);
    CapacityStep(cells, j);
    assert cells[j].bytes <= cells[|cells| - 1].bytes;
    if Used(c.live) + cells[j].bytes > Capacity(cells) {
      more := [e];
    } else {
      var t, d := StaticStep(s, e), CompactStep(cells, c, e);
      UsedWithout(d.live, id);
      assert d.live - {id} == c.live;
      forall i | 0 <= i < |cells| ensures cells[i].bytes == t.cells[i].bytes && (t.cells[i].used.Some? <==> i < j + 1) {
        assert cells[i].bytes == s.cells[i].bytes;
      }
      var rest := Fill(cells, t, d, j + 1, extra);
      Precede(cells, s, c, e, rest);
      more := [e] + rest;
    }
  }

  /** The bound counts `id`, which the classes have forgotten; otherwise they agree. */
  predicate Phantom(s: Static, c: Compact, id: nat) {
    id !in s.at && id in c.live && c.live[id].physical > 0 && Agree(s, c.(live := c.live - {id}))
  }

  lemma ReleasePhantom(cells: seq<Cell>, s: Static, c: Compact, id: nat, k: nat)
    requires |cells| > 0 && SameSizes(cells, s.cells) && Phantom(s, c, id) && k in s.at
    ensures var t, d := StaticStep(s, Release(k)), CompactStep(cells, c, Release(k));
            Phantom(t, d, id) && SameSizes(cells, t.cells) && |t.at| < |s.at| && d.live[id] == c.live[id]
  {
    var t, d := StaticStep(s, Release(k)), CompactStep(cells, c, Release(k));
    ReleaseAgrees(s, c.(live := c.live - {id}), k);
    assert (c.live - {id}) - {k} == d.live - {id};
    assert |t.at.Keys| < |s.at.Keys|;
    forall i | 0 <= i < |cells| ensures cells[i].bytes == t.cells[i].bytes { assert cells[i].bytes
                                                                            == s.cells[i].bytes; }
  }

  /** Everything else is released, then the cells are filled. */
  lemma {:induction false} ReleaseRest(cells: seq<Cell>, s: Static, c: Compact, id: nat) returns (more: seq<Event>)
    requires Sizes(cells) && SameSizes(cells, s.cells) && Phantom(s, c, id) && c.live[id].physical <= Capacity(cells)
    ensures Reverses(cells, s, c, more)
    decreases |s.at|
  {
    if s.at == map[] {
      assert c.live - {id} == map[];
      UsedWithout(c.live, id);
      assert cells[..0] == [];
      more := Fill(cells, s, c, 0, c.live[id].physical);
    } else {
      var k :| k in s.at;
      var t, d := StaticStep(s, Release(k)), CompactStep(cells, c, Release(k));
      ReleasePhantom(cells, s, c, id, k);
      var rest := ReleaseRest(cells, t, d, id);
      Precede(cells, s, c, Release(k), rest);
      more := [Release(k)] + rest;
    }
  }

  function Without(s: Static, i: nat): Static
    requires i < |s.cells|
  {
    s.(cells := s.cells[i := s.cells[i].(used := None)])
  }

  /** Cell g is a second one of id. */
  predicate Twice(s: Static, c: Compact, id: nat, g: nat) {
    && g < |s.cells| && s.cells[g].used.Some? && s.cells[g].used.value.id == id
    && id in s.at && s.at[id] != g && id in c.live && c.live[id].physical > 0 && Agree(Without(s, g), c)
  }

  /** Cell g is a second one of id, under another owner than the one both models know it by. */
  predicate Doubled(s: Static, c: Compact, id: nat, g: nat) {
    Twice(s, c, id, g) && c.live[id].owner != s.cells[g].used.value.owner
  }

  /** Cell f still has id for `owner`, but the classes have forgotten where it is. */
  predicate Stray(s: Static, c: Compact, id: nat, f: nat, owner: nat) {
    && f < |s.cells| && s.cells[f].used.Some? && s.cells[f].used.value.id == id && s.cells[f].used.value.owner == owner
    && Phantom(Without(s, f), c, id)
  }

  /** Reaping the owner of the second cell makes the classes forget the first. */
  lemma ReapDoubled(s: Static, c: Compact, id: nat, g: nat, a: nat)
    requires Doubled(s, c, id, g) && a == s.cells[g].used.value.owner && a in s.dead && |s.cells| > 0
    ensures var t, d := StaticStep(s, Reap(a)), CompactStep(s.cells, c, Reap(a));
            Stray(t, d, id, s.at[id], c.live[id].owner) && d.live[id] == c.live[id] && SameSizes(s.cells, t.cells)
  {
    var w, f := Without(s, g), s.at[id];
    ReapAgrees(w, c, a);
    var t, d := StaticStep(s, Reap(a)), CompactStep(s.cells, c, Reap(a));
    var u := StaticStep(w, Reap(a));
    EvictedBy(s, c, id, g, a);
    ReleaseAgrees(u, d, id);
    assert t.cells == u.cells;
    assert t.at == u.at - {id};
    assert StaticStep(u, Release(id)) == Without(t, f);
  }

  lemma EvictedBy(s: Static, c: Compact, id: nat, g: nat, a: nat)
    requires Doubled(s, c, id, g) && a == s.cells[g].used.value.owner
    ensures Evicted(s.cells, a) == Evicted(Without(s, g).cells, a) + {id}
    ensures id !in Evicted(Without(s, g).cells, a)
  {
    var w := Without(s, g);
    forall i | 0 <= i < |s.cells|
           && OwnedBy(s.cells[i], a) ensures s.cells[i].used.value.id in Evicted(w.cells, a) + {id} {
      if i != g { assert w.cells[i] == s.cells[i]; }
    }
    assert OwnedBy(s.cells[g], a);
    forall i | 0 <= i < |w.cells| && OwnedBy(w.cells[i], a) ensures w.cells[i].used.value.id in Evicted(s.cells, a)
           && w.cells[i].used.value.id != id {
      assert i != g && w.cells[i] == s.cells[i];
      assert w.at[w.cells[i].used.value.id] == i;
    }
  }

  /** Reaping an owner that has only the stray cell leaves the bound counting what the classes have freed. */
  lemma ReapStray(s: Static, c: Compact, id: nat, f: nat, y: nat)
    requires Stray(s, c, id, f, y) && y in s.dead && |s.cells| > 0 && forall k :: k in c.live ==> c.live[k].owner != y
    ensures var t, d := StaticStep(s, Reap(y)), CompactStep(s.cells, c, Reap(y));
            Phantom(t, d, id) && d.live == c.live && SameSizes(s.cells, t.cells)
  {
    var w := Without(s, f);
    var t, d := StaticStep(s, Reap(y)), CompactStep(s.cells, c, Reap(y));
    assert d.live == c.live;
    forall i | 0 <= i < |s.cells| && i != f ensures !OwnedBy(s.cells[i], y) {
      assert w.cells[i] == s.cells[i];
    }
    assert OwnedBy(s.cells[f], y);
    assert t.cells == w.cells;
    assert Evicted(s.cells, y) == {id};
    assert t.at == w.at;
  }

  /** Taking a live id once more, but for its first cell, is releasing it and taking it anew. */
  lemma TakenAs(s: Static, id: nat, owner: nat, bytes: nat)
    requires Placed(s) && id in s.at && s.cells[s.at[id]].used.Some? && FirstFrom(s.cells, bytes, 0).Some?
    ensures var t, v := StaticStep(s, Reserve(id, owner, bytes)), StaticStep(s, Release(id));
            var f := FirstFrom(s.cells, bytes, 0).value;
            && t.at[id] == f != s.at[id] && t.cells[s.at[id]] == s.cells[s.at[id]] && v.cells[f] == s.cells[f]
            && Static(v.cells[f := v.cells[f].(used := Some(Allocation(id, owner, bytes)))], v.at[id := f],
                      v.dead) == Without(t, s.at[id])
  {}

  /** Taking a live id puts it into two cells. */
  lemma TakenTwice(cells: seq<Cell>, s: Static, c: Compact, e: Event)
    requires Sizes(cells) && SameSizes(cells, s.cells) && Agree(s, c) && e.Reserve? && e.id in s.at
    requires StaticOutcome(s, e.bytes) == Reserved == CompactOutcome(cells, c, e.bytes)
    ensures Twice(StaticStep(s, e), CompactStep(cells, c, e), e.id, s.at[e.id])
  {
    var id, f := e.id, FirstFrom(s.cells, e.bytes, 0).value;
    assert cells[f].bytes == s.cells[f].bytes;
    PhysicalFits(e.bytes, s.cells[f].bytes);
    var v, b := StaticStep(s, Release(id)), c.(live := c.live - {id});
    ReleaseAgrees(s, c, id);
    TakenAs(s, id, e.owner, e.bytes);
    TakeAgrees(v, b, f, id, e.owner, e.bytes);
    assert b.live[id := Live(e.owner, e.bytes, Physical(e.bytes))] == CompactStep(cells, c, e).live;
  }

  lemma TakenSizes(cells: seq<Cell>, s: Static, e: Event)
    requires Sizes(cells) && SameSizes(cells, s.cells) && e.Reserve? && Placed(s)
             && StaticOutcome(s, e.bytes) == Reserved
    ensures SameSizes(cells, StaticStep(s, e).cells) && Physical(e.bytes) <= Capacity(cells)
  {
    var f := FirstFrom(s.cells, e.bytes, 0).value;
    assert cells[f].bytes == s.cells[f].bytes;
    PhysicalFits(e.bytes, s.cells[f].bytes);
    SizesDecide(cells, s.cells);
    FreeCellIsRoom(s.cells, f);
    forall i | 0 <= i < |cells| ensures cells[i].bytes == StaticStep(s, e).cells[i].bytes { assert cells[i].bytes
                                                                                           == s.cells[i].bytes; }
  }

  /** Passing the id on gives the two cells different owners. */
  lemma PassedOn(cells: seq<Cell>, s: Static, c: Compact, id: nat, g: nat, y: nat)
    requires Twice(s, c, id, g) && y != s.cells[g].used.value.owner && |cells| > 0 && SameSizes(cells, s.cells)
             && Placed(s)
    ensures var t, d := StaticStep(s, Transfer(id, y)), CompactStep(cells, c, Transfer(id, y));
            Doubled(t, d, id, g) && SameSizes(cells, t.cells) && d.live == c.live[id := c.live[id].(owner := y)]
  {
    var t := StaticStep(s, Transfer(id, y));
    TransferAgrees(Without(s, g), c, id, y);
    assert Without(s, g).cells[s.at[id]] == s.cells[s.at[id]];
    assert StaticStep(Without(s, g), Transfer(id, y)) == Without(t, g);
    forall i | 0 <= i < |cells| ensures cells[i].bytes == t.cells[i].bytes { assert cells[i].bytes
                                                                            == s.cells[i].bytes; }
  }

  /** The classes have lost the cell: pass the id on where they cannot follow, then reap its former owner. */
  lemma PassBehind(cells: seq<Cell>, s: Static, c: Compact, id: nat, f: nat, y: nat, z: nat) returns (more: seq<Event>)
    requires Sizes(cells) && SameSizes(cells, s.cells) && Stray(s, c, id, f, y)
             && c.live[id].physical <= Capacity(cells)
    requires forall k :: k in c.live && k != id ==> c.live[k].owner != y
    requires z != y && Placed(s)
    ensures Reverses(cells, s, c, more)
  {
    var c1 := CompactStep(cells, c, Transfer(id, z));
    assert StaticStep(s, Transfer(id, z)) == s;
    assert c1.live - {id} == c.live - {id};
    var s2, c2 := StaticStep(s, Crash(y)), CompactStep(cells, c1, Crash(y));
    assert Without(s2, f) == Without(s, f).(dead := s.dead + {y});
    assert c2.(live := c2.live - {id}) == c.(live := c.live - {id}, dead := c.dead + {y});
    assert Stray(s2, c2, id, f, y);
    ReapStray(s2, c2, id, f, y);
    var s3, c3 := StaticStep(s2, Reap(y)), CompactStep(cells, c2, Reap(y));
    forall i | 0 <= i < |cells| ensures cells[i].bytes == s3.cells[i].bytes { assert cells[i].bytes
                                                                             == s2.cells[i].bytes; }
    var m3 := ReleaseRest(cells, s3, c3, id);
    Precede(cells, s2, c2, Reap(y), m3);
    var m2 := [Reap(y)] + m3;
    Precede(cells, s, c1, Crash(y), m2);
    var m1 := [Crash(y)] + m2;
    Precede(cells, s, c, Transfer(id, z), m1);
    more := [Transfer(id, z)] + m1;
  }

  /** Two cells under two owners: reap the second one's. */
  lemma Forget(cells: seq<Cell>, s: Static, c: Compact, id: nat, g: nat) returns (more: seq<Event>)
    requires Sizes(cells) && SameSizes(cells, s.cells) && Doubled(s, c, id, g) && c.live[id].physical <= Capacity(cells)
    requires Placed(s) && forall k :: k in c.live && k != id ==> c.live[k].owner != c.live[id].owner
    ensures Reverses(cells, s, c, more)
  {
    var a, y, f := s.cells[g].used.value.owner, c.live[id].owner, s.at[id];
    var s1, c1 := StaticStep(s, Crash(a)), CompactStep(cells, c, Crash(a));
    assert Without(s1, g) == Without(s, g).(dead := s.dead + {a});
    assert Doubled(s1, c1, id, g);
    ReapDoubled(s1, c1, id, g, a);
    var s2, c2 := StaticStep(s1, Reap(a)), CompactStep(cells, c1, Reap(a));
    forall i | 0 <= i < |cells| ensures cells[i].bytes == s2.cells[i].bytes { assert cells[i].bytes
                                                                             == s1.cells[i].bytes; }
    var m2 := PassBehind(cells, s2, c2, id, f, y, y + 1);
    Precede(cells, s1, c1, Reap(a), m2);
    var m1 := [Reap(a)] + m2;
    Precede(cells, s, c, Crash(a), m1);
    more := [Crash(a)] + m1;
  }

  /** An id in two cells is enough. */
  lemma Spread(cells: seq<Cell>, s: Static, c: Compact, id: nat, g: nat) returns (more: seq<Event>)
    requires Sizes(cells) && SameSizes(cells, s.cells) && Placed(s) && Twice(s, c, id, g)
             && c.live[id].physical <= Capacity(cells)
    ensures Reverses(cells, s, c, more)
  {
    var owners := (set k | k in c.live :: c.live[k].owner) + {s.cells[g].used.value.owner};
    var y := NewNumber(owners);
    assert forall k :: k in c.live ==> c.live[k].owner in owners;
    PassedOn(cells, s, c, id, g, y);
    var rest := Forget(cells, StaticStep(s, Transfer(id, y)), CompactStep(cells, c, Transfer(id, y)), id, g);
    Precede(cells, s, c, Transfer(id, y), rest);
    more := [Transfer(id, y)] + rest;
  }

  lemma ReuseIsFatal(cells: seq<Cell>, s: Static, c: Compact, e: Event) returns (more: seq<Event>)
    requires Sizes(cells) && SameSizes(cells, s.cells) && Agree(s, c) && e.Reserve? && e.id in s.at
    requires StaticOutcome(s, e.bytes) == Reserved == CompactOutcome(cells, c, e.bytes)
    ensures Reverses(cells, StaticStep(s, e), CompactStep(cells, c, e), more)
  {
    TakenTwice(cells, s, c, e);
    TakenSizes(cells, s, e);
    more := Spread(cells, StaticStep(s, e), CompactStep(cells, c, e), e.id, s.at[e.id]);
  }

  lemma {:induction false} NeverReversed(cells: seq<Cell>, s: Static, c: Compact, more: seq<Event>)
    requires Sizes(cells) && SameSizes(cells, s.cells) && Agree(s, c) && TakesNoLive(s, more)
    ensures FirstDifference(cells, s, c, more) != REVERSED
    decreases |more|
  {
    if more != [] {
      var e := more[0];
      SizesDecide(cells, s.cells);
      SizesKept(cells, s.cells);
      if e.Reserve? && StaticOutcome(s, e.bytes) != CompactOutcome(cells, c, e.bytes) {
        OnlyUnavailableDiffers(s, c, e.bytes);
      } else {
        AgreeStep(cells, s, c, e);
        NeverReversed(cells, StaticStep(s, e), CompactStep(cells, c, e), more[1..]);
      }
    }
  }

  /**
   After any trace the models answered alike and that took no live id, one more reservation both accept can be
   continued to a reversed first difference, without taking a live id again, exactly when it takes one itself.
   */
  lemma ReuseDecides(cells: seq<Cell>, events: seq<Event>, e: Event)
    requires Fresh(cells) && NoLiveReuse(cells, events) && AlikeBefore(cells, events, |events|) && e.Reserve?
    requires StaticOutcome(StaticRun(cells, events), e.bytes) == Reserved == CompactOutcome(cells,
                                                                                            CompactRun(cells,
                                                                                                       events), e.bytes)
    ensures var s, c := StaticRun(cells, events), CompactRun(cells, events);
            (exists more :: Reverses(cells, StaticStep(s, e), CompactStep(cells, c, e), more)) <==> e.id in s.at
  {
    AgreeUntilDivergence(cells, events, |events|);
    assert events[..|events|] == events;
    var s, c := StaticRun(cells, events), CompactRun(cells, events);
    if e.id in s.at {
      var more := ReuseIsFatal(cells, s, c, e);
    } else {
      AgreeStep(cells, s, c, e);
      forall more | TakesNoLive(StaticStep(s, e), more) ensures !Reverses(cells, StaticStep(s, e),
                                                                          CompactStep(cells, c, e), more) {
        NeverReversed(cells, StaticStep(s, e), CompactStep(cells, c, e), more);
      }
    }
  }

  // The loops.

  /** `outcomes` for one reservation. */
  function OutcomeOf(rejections: map<nat, Rejection>, k: nat): Outcome {
    if k in rejections then Rejected(rejections[k]) else Reserved
  }

  method FirstFit(cells: seq<Cell>, bytes: nat) returns (r: Option<nat>)
    ensures r == FirstFrom(cells, bytes, 0)
  {
    var i := 0;
    while i < |cells|
      invariant i <= |cells| && FirstFrom(cells, bytes, 0) == FirstFrom(cells, bytes, i)
    {
      if Takes(cells[i], bytes) { return Some(i); }
      i := i + 1;
    }
    return None;
  }

  /** `replay`: the rejections by event. */
  method Replay(cells: seq<Cell>, events: seq<Event>) returns (rejections: map<nat, Rejection>)
    requires |cells| > 0
    ensures forall k {:trigger OutcomeOf(rejections, k)} :: 0 <= k < |events| && events[k].Reserve? ==>
              OutcomeOf(rejections, k) == StaticAt(cells, events, k)
    ensures forall k :: k in rejections ==> k < |events| && events[k].Reserve?
  {
    var s := Static(cells, map[], {});
    rejections := map[];
    var at := 0;
    assert events[..0] == [];
    while at < |events|
      invariant at <= |events| && s == StaticRun(cells, events[..at])
      invariant forall k {:trigger OutcomeOf(rejections, k)} :: 0 <= k < at && events[k].Reserve? ==>
                  OutcomeOf(rejections, k) == StaticAt(cells, events, k)
      invariant forall k :: k in rejections ==> k < at && events[k].Reserve?
    {
      assert events[..at + 1][..at] == events[..at] && events[..at + 1][at] == events[at];
      ghost var before := rejections;
      if events[at].Reserve? {
        var f := FirstFit(s.cells, events[at].bytes);
        if f.None? {
          rejections := rejections[at := if Largest(s.cells) < events[at].bytes then BlockTooLarge else Unavailable];
        }
      }
      assert forall k {:trigger OutcomeOf(rejections, k)} :: 0 <= k < at ==>
               OutcomeOf(rejections, k) == OutcomeOf(before, k);
      s := StaticStep(s, events[at]);
      at := at + 1;
    }
  }

  method Sum(m: map<nat, Live>) returns (used: nat)
    ensures used == Used(m)
  {
    used := 0;
    var rest := m;
    while rest != map[]
      invariant used + Used(rest) == Used(m)
      decreases |rest|
    {
      var id :| id in rest;
      UsedWithout(rest, id);
      assert |(rest - {id}).Keys| < |rest.Keys|;
      used := used + rest[id].physical;
      rest := rest - {id};
    }
  }

  /** `compact_replay`: the rejections by event. */
  method CompactReplay(cells: seq<Cell>, events: seq<Event>) returns (rejections: map<nat, Rejection>)
    requires |cells| > 0
    ensures forall k {:trigger OutcomeOf(rejections, k)} :: 0 <= k < |events| && events[k].Reserve? ==>
              OutcomeOf(rejections, k) == CompactAt(cells, events, k)
    ensures forall k :: k in rejections ==> k < |events| && events[k].Reserve?
  {
    var live: map<nat, Live>, dead: set<nat> := map[], {};
    rejections := map[];
    var at := 0;
    assert events[..0] == [];
    while at < |events|
      invariant at <= |events| && Compact(live, dead) == CompactRun(cells, events[..at])
      invariant forall k {:trigger OutcomeOf(rejections, k)} :: 0 <= k < at && events[k].Reserve? ==>
                  OutcomeOf(rejections, k) == CompactAt(cells, events, k)
      invariant forall k :: k in rejections ==> k < at && events[k].Reserve?
    {
      assert events[..at + 1][..at] == events[..at] && events[..at + 1][at] == events[at];
      ghost var before := rejections;
      match events[at] {
        case Reserve(id, owner, bytes) =>
          var used := Sum(live);
          if Physical(bytes) > Largest(cells) {
            rejections := rejections[at := BlockTooLarge];
          } else if used + Physical(bytes) > Capacity(cells) {
            rejections := rejections[at := Unavailable];
          } else {
            live := live[id := Live(owner, bytes, Physical(bytes))];
          }
        case Release(id) => live := live - {id};
        case Transfer(id, to) => if id in live { live := live[id := live[id].(owner := to)]; }
        case Crash(owner) => dead := dead + {owner};
        case Reap(owner) => if owner in dead { live := map id | id in live && live[id].owner != owner :: live[id]; }
      }
      assert forall k {:trigger OutcomeOf(rejections, k)} :: 0 <= k < at ==>
               OutcomeOf(rejections, k) == OutcomeOf(before, k);
      at := at + 1;
    }
  }

  datatype Divergence = Divergence(event: nat, fixed: Outcome, bound: Outcome)

  lemma StillAlike(cells: seq<Cell>, events: seq<Event>, k: nat)
    requires |cells| > 0 && k < |events| && AlikeBefore(cells, events, k)
    requires events[k].Reserve? ==> StaticAt(cells, events, k) == CompactAt(cells, events, k)
    ensures AlikeBefore(cells, events, k + 1)
  {}

  /** `compare_compacting`: the first reservation answered differently. */
  method Compare(cells: seq<Cell>, events: seq<Event>) returns (d: Option<Divergence>)
    requires Fresh(cells)
    ensures d.None? ==> AlikeBefore(cells, events, |events|)
    ensures d.Some? ==>
              && d.value.event < |events| && events[d.value.event].Reserve? && AlikeBefore(cells, events, d.value.event)
              && d.value.fixed == StaticAt(cells, events, d.value.event)
                 && d.value.bound == CompactAt(cells, events, d.value.event)
              && d.value.fixed != d.value.bound
    ensures d.Some? && NoLiveReuse(cells, events) ==>
              d.value.fixed == Rejected(Unavailable) && d.value.bound == Reserved
  {
    var fixed := Replay(cells, events);
    var bound := CompactReplay(cells, events);
    var k := 0;
    while k < |events|
      invariant k <= |events| && AlikeBefore(cells, events, k)
    {
      if events[k].Reserve? && OutcomeOf(fixed, k) != OutcomeOf(bound, k) {
        if NoLiveReuse(cells, events) { FirstDivergence(cells, events, k); }
        return Some(Divergence(k, OutcomeOf(fixed, k), OutcomeOf(bound, k)));
      }
      StillAlike(cells, events, k);
      k := k + 1;
    }
    return None;
  }
}
