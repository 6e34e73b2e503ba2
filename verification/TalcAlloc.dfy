/**
 The general heap: allocation and release over one shared buffer of words.  The buffer and the bitmap are the
 program's state; `tiles` and `lists` are what they mean.
 */
module TalcAlloc {
  import opened Common
  import opened Powers
  import opened TalcGeometry
  import opened TalcTiles
  import opened TalcLists
  import opened TalcHeap
  import opened TalcMoves
  import opened TalcBits
  import opened TalcPlans

  datatype Outcome = Dangling | Exhausted | At(user: nat)

  /** No word of another chunk that is handed out or in hand differs. */
  ghost predicate Undisturbed(v: View, m: Memory, x: nat) {
    && |m| == |v.mem|
    && (forall c, w {:trigger v.tiles[c], m[w]} ::
          (c in v.tiles && c != x && (v.tiles[c].kind.Used? || v.tiles[c].kind.Limbo?)
           && c <= w < v.tiles[c].acme && w < |m|) ==> m[w] == v.mem[w])
  }

  /** No payload word of a chunk handed out in ts differs. */
  ghost predicate PayloadsKept(ts: Tiles, m0: Memory, m: Memory) {
    && |m| == |m0|
    && (forall c, w {:trigger ts[c], m[w]} ::
          (c in ts && ts[c].kind.Used? && ts[c].kind.user <= w < ts[c].kind.user + PayloadWords(ts[c].kind.bytes)
           && w < |m|) ==> m[w] == m0[w])
  }

  ghost predicate SameUsers(ts: Tiles, us: Tiles) {
    forall c {:trigger ts[c]} {:trigger us[c]} :: c in ts && ts[c].kind.Used? ==> c in us && us[c].kind == ts[c].kind
  }

  lemma PayloadsChain(ts: Tiles, us: Tiles, m0: Memory, m1: Memory, m2: Memory)
    requires PayloadsKept(ts, m0, m1) && SameUsers(ts, us) && PayloadsKept(us, m1, m2)
    ensures PayloadsKept(ts, m0, m2)
  {
    forall c, w | c in ts && ts[c].kind.Used? && w < |m2|
                  && ts[c].kind.user <= w < ts[c].kind.user + PayloadWords(ts[c].kind.bytes)
      ensures m2[w] == m0[w]
    {
      assert us[c].kind == ts[c].kind;
      assert m1[w] == m0[w];
    }
  }

  lemma UndisturbedPayloads(v: View, l: Site, m: Memory, x: nat)
    requires Inv(v, l) && Undisturbed(v, m, x) && x in v.tiles && !v.tiles[x].kind.Used?
    ensures PayloadsKept(v.tiles, v.mem, m)
  {
    forall c, w | c in v.tiles && v.tiles[c].kind.Used? && w < |m|
                  && v.tiles[c].kind.user <= w < v.tiles[c].kind.user + PayloadWords(v.tiles[c].kind.bytes)
      ensures m[w] == v.mem[w]
    {
      assert WordsOk(v, l, c);
    }
  }

  /** Writing a word that is a tag, or a word of a chunk in hand, touches no payload. */
  lemma PokePayloads(v: View, l: Site, x: nat, w: nat, val: nat)
    requires Inv(v, l) && x in v.tiles && x <= w < v.tiles[x].acme && w < |v.mem|
    requires v.tiles[x].kind.Limbo? || w == v.tiles[x].acme - 1
    ensures PayloadsKept(v.tiles, v.mem, v.mem[w := val])
  {
    forall c | c in v.tiles && v.tiles[c].kind.Used?
      ensures !(v.tiles[c].kind.user <= w < v.tiles[c].kind.user + PayloadWords(v.tiles[c].kind.bytes))
    {
      assert WordsOk(v, l, c) && TileOk(v.tiles, l.lo, l.hi, x);
      if c != x && v.tiles[c].kind.user <= w < v.tiles[c].acme { DifferentWords(v.tiles, c, x, w, w); }
    }
  }

  lemma SurgeryUndisturbed(v: View, m: Memory, l: Site, i: nat, x: nat)
    requires Inv(v, l) && i < l.geo.bins && x in v.tiles && Surgery(v, m, l, i, x)
    ensures Undisturbed(v, m, x)
  {
    forall c, w | c in v.tiles && c != x && (v.tiles[c].kind.Used? || v.tiles[c].kind.Limbo?)
                  && c <= w < v.tiles[c].acme && w < |m|
      ensures m[w] == v.mem[w]
    {
      assert TileOk(v.tiles, l.lo, l.hi, c) && TileOk(v.tiles, l.lo, l.hi, l.lo);
      WordKept(v, m, l, i, x, c, w);
    }
  }

  /** Everything about putting x into its bin. */
  lemma AttachDone(v: View, l: Site, x: nat)
    requires Inv(v, l) && x in v.tiles && v.tiles[x].kind == Limbo(true)
    ensures x + 4 <= v.tiles[x].acme <= |v.mem|
    ensures Cell(l, BinOf(l, v.tiles, x)) < |v.mem|
    ensures v.mem[Cell(l, BinOf(l, v.tiles, x))] / 8 + PREV_NEXT < |v.mem|
    ensures Inv(Attach(v, l, x), l) && Undisturbed(v, Attach(v, l, x).mem, x)
    ensures v.mem[Cell(l, BinOf(l, v.tiles, x))] == 0 <==> v.lists[BinOf(l, v.tiles, x)] == []
  {
    var i := BinOf(l, v.tiles, x);
    AttachReads(v, l, x);
    AttachInv(v, l, x);
    AttachSurgery(v, l, x);
    SurgeryUndisturbed(v, Attach(v, l, x).mem, l, i, x);
    assert BinListOk(v, l, i);
    HeadLink(v.mem, Cell(l, i), v.lists[i]);
  }

  lemma AttachAvail(a: Avail, lists: seq<seq<nat>>, i: nat, x: nat)
    requires Agrees(a, Full(lists)) && i < |lists|
    ensures i / 64 < |a.words| && i / 64 < |a.summary| && IsWord(a.words[i / 64])
    ensures Agrees(if lists[i] == [] then Toggle(a, i) else a, Full(lists[i := [x] + lists[i]]))
  {
    ToggleAgrees(a, Full(lists), i);
    var after := Full(lists[i := [x] + lists[i]]);
    assert after == if lists[i] == [] then Full(lists)[i := !Full(lists)[i]] else Full(lists);
  }

  /** The words of another chunk in hand are as they were. */
  lemma UndisturbedChunk(v: View, m: Memory, x: nat, b: nat)
    requires Undisturbed(v, m, x) && b in v.tiles && b != x && v.tiles[b].kind.Limbo?
    ensures forall w :: b <= w < v.tiles[b].acme && w < |m| ==> m[w] == v.mem[w]
  {
    forall w | b <= w < v.tiles[b].acme && w < |m| ensures m[w] == v.mem[w] {
      assert v.tiles[b] == v.tiles[b];
    }
  }

  /** The tag below a chunk in hand, before and after its flag changes. */
  lemma MarkReady(v: View, l: Site, x: nat, open: bool)
    requires Inv(v, l) && x in v.tiles && v.tiles[x].kind == Limbo(!open) && TaggedBelow(v.tiles, x)
    ensures 0 < x <= |v.mem| && v.tiles[x].prev <= |v.mem|
    ensures v.mem[x - 1] == 8 * v.tiles[x].prev + 1 + (if open then 0 else 2)
    ensures PayloadsKept(v.tiles, v.mem, Flag(v, x, open).mem)
  {
    var p := v.tiles[x].prev;
    assert TileOk(v.tiles, l.lo, l.hi, x) && TileOk(v.tiles, l.lo, l.hi, l.lo);
    assert TileOk(v.tiles, l.lo, l.hi, p);
    assert WordsOk(v, l, p);
    PokePayloads(v, l, p, x - 1, 8 * p + 1 + (if open then 2 else 0));
  }

  lemma DetachAvail(a: Avail, lists: seq<seq<nat>>, after: seq<seq<nat>>, i: nat)
    requires Agrees(a, Full(lists)) && i < |lists| == |after| && lists[i] != [] && after == lists[i := after[i]]
    ensures i / 64 < |a.words| && i / 64 < |a.summary| && IsWord(a.words[i / 64])
    ensures Agrees(if after[i] == [] then Toggle(a, i) else a, Full(after))
  {
    ToggleAgrees(a, Full(lists), i);
    assert Full(after) == if after[i] == [] then Full(lists)[i := !Full(lists)[i]] else Full(lists);
  }

  /**
   Taking chunk x out: the heap stays in order, nothing handed out is touched, and the list head tells if it is empty.
   */
  lemma DetachDone(v: View, l: Site, x: nat)
    requires Inv(v, l) && x in v.tiles && v.tiles[x].kind.Free?
    requires x + 4 <= |v.mem| && v.mem[x] / 8 + PREV_NEXT < |v.mem| && v.mem[x + PREV_NEXT] / 8 < |v.mem|
    ensures var u, i := Detach(v, l, x), BinOf(l, v.tiles, x);
            && Inv(u, l) && Undisturbed(v, u.mem, x) && i < |v.lists| == |u.lists| && v.lists[i] != []
            && Cell(l, i) < |u.mem| && (u.mem[Cell(l, i)] == 0 <==> u.lists[i] == [])
  {
    var u, i := Detach(v, l, x), BinOf(l, v.tiles, x);
    DetachInv(v, l, x);
    DetachSurgery(v, l, x);
    SurgeryUndisturbed(v, u.mem, l, i, x);
    assert Listed(v, l, x);
    assert BinListOk(u, l, i);
    HeadLink(u.mem, Cell(l, i), u.lists[i]);
    if u.lists[i] != [] { NodeAboveZero(u, l, i); }
  }

  lemma NodeAboveZero(v: View, l: Site, i: nat)
    requires Inv(v, l) && i < |v.lists| && v.lists[i] != []
    ensures v.lists[i][0] > 0
  {
    assert BinListOk(v, l, i);
    assert TileOk(v.tiles, l.lo, l.hi, v.lists[i][0]) && TileOk(v.tiles, l.lo, l.hi, l.lo);
  }

  /** A bin's chunks do not hold the request. */
  ghost predicate BinRefuses(v: View, l: Site, i: nat, bytes: nat, align: nat)
    requires align > 8 ==> align % 8 == 0
    requires i < |v.lists|
  {
    forall j :: 0 <= j < |v.lists[i]| ==> !Fits(l, v.tiles, v.lists[i][j], bytes, align)
  }

  ghost predicate LinearBins(geo: Geometry) {
    geo.linearShift <= geo.exponentialLog && geo.linear == Pow(geo.exponentialLog - geo.linearShift)
  }

  /** A chunk that holds the request is listed in the starting bin or above it. */
  lemma FitsAbove(v: View, l: Site, b: nat, bytes: nat, align: nat) returns (k: nat)
    requires Inv(v, l) && bytes > 0 && (align > 8 ==> align % 8 == 0) && Fits(l, v.tiles, b, bytes, align)
    requires LinearBins(l.geo)
    ensures l.geo.Bin(8 * RequestWords(bytes)) <= k < |v.lists| && !BinRefuses(v, l, k, bytes, align)
  {
    k := BinOf(l, v.tiles, b);
    FitsLength(l, v.tiles, b, bytes, align);
    l.geo.RawBinMonotone(8 * RequestWords(bytes), 8 * Length(v.tiles, b));
    assert Listed(v, l, b);
    var j :| 0 <= j < |v.lists[k]| && v.lists[k][j] == b;
  }

  lemma FitsLength(l: Site, ts: Tiles, b: nat, bytes: nat, align: nat)
    requires (align > 8 ==> align % 8 == 0) && Fits(l, ts, b, bytes, align)
    ensures Length(ts, b) >= RequestWords(bytes) && b + RequestWords(bytes) <= ts[b].acme
  {}

  lemma NoneFits(v: View, l: Site, bytes: nat, align: nat, b: nat)
    requires Inv(v, l) && bytes > 0 && (align > 8 ==> align % 8 == 0) && LinearBins(l.geo)
    requires forall k :: l.geo.Bin(8 * RequestWords(bytes)) <= k < |v.lists| ==> BinRefuses(v, l, k, bytes, align)
    ensures !Fits(l, v.tiles, b, bytes, align)
  {
    if Fits(l, v.tiles, b, bytes, align) {
      var k := FitsAbove(v, l, b, bytes, align);
      assert false;
    }
  }

  ghost predicate BinsRefuse(v: View, l: Site, from: nat, to: nat, bytes: nat, align: nat)
    requires to <= |v.lists| && (align > 8 ==> align % 8 == 0)
  {
    forall k :: from <= k < to ==> BinRefuses(v, l, k, bytes, align)
  }

  lemma NothingFits(v: View, l: Site, bytes: nat, align: nat)
    requires Inv(v, l) && bytes > 0 && (align > 8 ==> align % 8 == 0) && LinearBins(l.geo)
    requires BinsRefuse(v, l, l.geo.Bin(8 * RequestWords(bytes)), |v.lists|, bytes, align)
    ensures forall b :: !Fits(l, v.tiles, b, bytes, align)
  {
    forall b ensures !Fits(l, v.tiles, b, bytes, align) { NoneFits(v, l, bytes, align, b); }
  }

  /** Skipped bins are empty. */
  lemma SkippedRefuse(v: View, l: Site, start: nat, from: nat, to: nat, bytes: nat, align: nat)
    requires align > 8 ==> align % 8 == 0
    requires from <= to <= |v.lists| && (forall k :: from <= k < to ==> !Full(v.lists)[k])
    requires BinsRefuse(v, l, start, from, bytes, align)
    ensures BinsRefuse(v, l, start, to, bytes, align)
  {
    forall k | start <= k < to
      ensures BinRefuses(v, l, k, bytes, align)
    {
      if k >= from { assert !Full(v.lists)[k]; }
    }
  }

  lemma SearchedRefuse(v: View, l: Site, start: nat, i: nat, bytes: nat, align: nat)
    requires i < |v.lists| && (align > 8 ==> align % 8 == 0)
    requires BinsRefuse(v, l, start, i, bytes, align) && BinRefuses(v, l, i, bytes, align)
    ensures BinsRefuse(v, l, start, i + 1, bytes, align)
  {}

  /** Cutting a chunk in hand and freeing its lower part is cutting the free chunk and taking its upper part. */
  lemma PrefixTiles(ts: Tiles, x: nat, m: nat)
    requires x in ts && ts[x].kind.Free? && m !in ts && m != x && ts[x].acme != m && ts[x].acme != x
    ensures var t1 := Split(SetKind(ts, x, Limbo(true)), x, m, Limbo(false));
            && x in t1 && m in Split(ts, x, m, TalcTiles.Free)
            && SetKind(t1, x, TalcTiles.Free) == SetKind(Split(ts, x, m, TalcTiles.Free), m, Limbo(false))
  {}

  lemma SplitUsers(ts: Tiles, x: nat, m: nat, k: Kind)
    requires x in ts && !ts[x].kind.Used? && m !in ts
    ensures SameUsers(ts, Split(ts, x, m, k))
  {}

  lemma SuffixTiles(ts: Tiles, f: nat, s: nat, k: Kind)
    requires f in ts && ts[f].kind.Free? && s !in ts && s != f && ts[f].acme != s && ts[f].acme != f
    ensures var t1 := Split(SetKind(ts, f, Limbo(false)), f, s, Limbo(true));
            && s in t1 && f in t1 && f in Split(ts, f, s, TalcTiles.Free)
            && SetKind(SetKind(t1, s, TalcTiles.Free), f, k) == SetKind(Split(ts, f, s, TalcTiles.Free), f, k)
            && t1[f].kind == Limbo(false) && t1[f].acme == s && t1[s].kind == Limbo(true)
  {}

  lemma SealPayloads(v: View, l: Site, x: nat, user: nat, bytes: nat, align: nat)
    requires Inv(v, l) && x in v.tiles && v.tiles[x].kind.Limbo? && x <= user
    requires user + PayloadWords(bytes) < v.tiles[x].acme <= |v.mem|
    ensures PayloadsKept(v.tiles, v.mem, Seal(v, l, x, user, bytes, align).mem)
  {
    var m := Seal(v, l, x, user, bytes, align).mem;
    forall c, w | c in v.tiles && v.tiles[c].kind.Used? && w < |m|
                  && v.tiles[c].kind.user <= w < v.tiles[c].kind.user + PayloadWords(v.tiles[c].kind.bytes)
      ensures m[w] == v.mem[w]
    {
      assert WordsOk(v, l, c) && TileOk(v.tiles, l.lo, l.hi, x);
      if x <= w < v.tiles[x].acme { assert false; }
    }
  }

  /** The chunk below a free chunk is tagged, the one above is not open. */
  lemma FreeNeighbours(ts: Tiles, lo: nat, hi: nat, x: nat)
    requires Shape(ts, lo, hi) && Settled(ts) && x in ts && ts[x].kind.Free?
    ensures TaggedBelow(SetKind(ts, x, Limbo(true)), x) && !NextOpen(ts, hi, x) && x != lo
  {
    assert TileOk(ts, lo, hi, x) && Calm(ts, x) && Calm(ts, ts[x].prev);
    if ts[x].acme in ts { assert Calm(ts, ts[x].acme); }
  }

  lemma CutPrefixAbove(ts: Tiles, lo: nat, hi: nat, x: nat, user: nat, bytes: nat)
    requires Shape(ts, lo, hi) && Settled(ts) && Carvable(ts, x, user, bytes)
    ensures var f, t := CarvedBase(x, user), CutPrefix(ts, x, user);
            f in t && t[f].kind.Free? && t[f].acme == ts[x].acme && !NextOpen(SetKind(t, f, Limbo(false)), hi, f)
  {
    PrefixShape(ts, lo, hi, x, user, bytes);
    FreeNeighbours(ts, lo, hi, x);
    assert TileOk(ts, lo, hi, x);
    if user >= x + MIN_CHUNK { InsideIsNoBase(ts, x, user); }
  }

  /** Kinds of the two joined chunks do not matter beyond the kind the joined chunk gets. */
  lemma JoinKinds(ts: Tiles, p: nat, b: nat, k: Kind, kp: Kind, kb: Kind)
    requires p in ts && b in ts && p != b && ts[p].acme == b && ts[b].acme != p && ts[b].acme != b
    ensures SetKind(Join(SetKind(SetKind(ts, b, kb), p, kp), p), p,
                    k) == SetKind(Join(SetKind(SetKind(ts, b, k), p, k), p), p, k)
  {}

  lemma MergeBelowTiles(ts: Tiles, lo: nat, hi: nat, b: nat)
    requires Shape(ts, lo, hi) && b in ts && FreeBelow(ts, b)
    ensures var p := ts[b].prev;
            && p in Join(SetKind(SetKind(ts, b, Limbo(false)), p, Limbo(true)), p)
            && SetKind(Join(SetKind(SetKind(ts, b, Limbo(false)), p, Limbo(true)), p), p, TalcTiles.Free) ==
               MergeBelow(SetKind(ts, b, TalcTiles.Free), b)
  {
    var p := ts[b].prev;
    assert TileOk(ts, lo, hi, b) && TileOk(ts, lo, hi, p);
    JoinKinds(ts, p, b, TalcTiles.Free, Limbo(true), Limbo(false));
    assert SetKind(SetKind(ts, b, TalcTiles.Free), p, TalcTiles.Free) == SetKind(ts, b, TalcTiles.Free);
    assert SetKind(Join(SetKind(ts, b, TalcTiles.Free), p), p, TalcTiles.Free) == Join(SetKind(ts, b, TalcTiles.Free),
                                                                                       p);
  }

  lemma OpenIsFree(ts: Tiles, lo: nat, hi: nat, b: nat)
    requires Shape(ts, lo, hi) && Settled(ts) && b in ts
    ensures NextOpen(ts, hi, b) <==> FreeAbove(ts, b)
  {
    assert TileOk(ts, lo, hi, b);
    if ts[b].acme in ts { assert Calm(ts, ts[b].acme) && TileOk(ts, lo, hi, ts[b].acme); }
  }

  lemma FreedPayloads(ts: Tiles, b: nat, m0: Memory, m: Memory)
    requires b in ts && PayloadsKept(SetKind(ts, b, Limbo(false)), m0, m)
    ensures PayloadsKept(SetKind(ts, b, TalcTiles.Free), m0, m)
  {
    var us, ws := SetKind(ts, b, TalcTiles.Free), SetKind(ts, b, Limbo(false));
    forall c, w | c in us && us[c].kind.Used? && w < |m|
                  && us[c].kind.user <= w < us[c].kind.user + PayloadWords(us[c].kind.bytes)
      ensures m[w] == m0[w]
    {
      assert ws[c] == us[c];
    }
  }

  /** The chunk above is as it was. */
  lemma AboveKept(ts: Tiles, us: Tiles, lo: nat, hi: nat, b: nat, f: nat)
    requires Shape(ts, lo, hi) && b in ts && f == MergedBase(ts, b) && f in us
    requires SetKind(us, f, TalcTiles.Free) == MergeBelow(SetKind(ts, b, TalcTiles.Free), b)
    requires ts[b].acme in ts
    ensures ts[b].acme in us && us[ts[b].acme].kind == ts[ts[b].acme].kind
  {
    assert TileOk(ts, lo, hi, b) && TileOk(ts, lo, hi, ts[b].acme);
    if FreeBelow(ts, b) { assert TileOk(ts, lo, hi, f); }
    var n := ts[b].acme;
    assert n != f;
    var t := SetKind(us, f, TalcTiles.Free);
    assert n in t && t[n].kind == ts[n].kind;
  }

  lemma JoinUsers(ts: Tiles, x: nat)
    requires x in ts && ts[x].acme in ts && !ts[x].kind.Used? && !ts[ts[x].acme].kind.Used? && x != ts[x].acme
    ensures SameUsers(ts, Join(ts, x))
  {}

  /** The last word of every chunk, tag or size, is the same in both memories. */
  ghost predicate SameTags(ts: Tiles, m: Memory, n: Memory) {
    forall b {:trigger ts[b]} :: b in ts ==>
             0 < ts[b].acme <= |m| && ts[b].acme <= |n| && n[ts[b].acme - 1] == m[ts[b].acme - 1]
  }

  /** In a settled heap the last word of every chunk is determined by the tiling. */
  lemma TagsDecided(v: View, w: View, l: Site)
    requires Inv(v, l) && Inv(w, l) && v.tiles == w.tiles && Settled(v.tiles)
    ensures SameTags(v.tiles, v.mem, w.mem)
  {
    TilingDecides(v, w, l);
    forall b | b in v.tiles
      ensures 0 < v.tiles[b].acme <= |v.mem| && v.tiles[b].acme <= |w.mem|
              && w.mem[v.tiles[b].acme - 1] == v.mem[v.tiles[b].acme - 1]
    {
      assert WordsOk(v, l, b) && Calm(v.tiles, b);
    }
  }

  /** Joining over a chunk in hand gives the tiling that joining over the free chunk would. */
  lemma MergeUpTiles(ts: Tiles, us: Tiles, start: nat, acme: nat)
    requires start in ts && acme in ts && ts[start].acme == acme && start < acme < ts[acme].acme
    requires !ts[start].kind.Used? && !ts[acme].kind.Used? && us == SetKind(ts, acme, Limbo(true))
    ensures start in us && us[start].acme in us && SameUsers(ts, Join(us, start))
    ensures var j := Join(us, start);
            && start in j && j[start].kind == ts[start].kind && j[start].acme == ts[acme].acme
            && SetKind(j, start, TalcTiles.Free) == Join(SetKind(ts, start, TalcTiles.Free), start)
  {
    JoinUsers(us, start);
  }

  /** The word below a chunk is even exactly when the chunk below is free, and then gives that chunk's size. */
  lemma WordBelow(v: View, l: Site, b: nat)
    requires Inv(v, l) && b in v.tiles && b != l.lo
    requires v.tiles[b].prev in v.tiles && !v.tiles[v.tiles[b].prev].kind.Limbo?
    ensures 0 < b <= |v.mem| && v.tiles[v.tiles[b].prev].acme == b
    ensures v.mem[b - 1] % 2 == 0 <==> v.tiles[v.tiles[b].prev].kind.Free?
    ensures v.mem[b - 1] % 2 == 0 ==>
              && v.mem[b - 1] / 8 <= b && b - v.mem[b - 1] / 8 == v.tiles[b].prev
              && v.tiles[b].prev + 4 <= b && v.mem[v.tiles[b].prev + 3] == 8 * Length(v.tiles, v.tiles[b].prev)
  {
    var p := v.tiles[b].prev;
    assert TileOk(v.tiles, l.lo, l.hi, b) && TileOk(v.tiles, l.lo, l.hi, p);
    assert WordsOk(v, l, p);
  }

  // The heap header: the summary word and the places of the two metadata arrays.
  const HEADER_WORDS: nat := 3

  function ClaimSite(geo: Geometry, size: nat, forward: nat, origin: nat): Site {
    var lo := HEADER_WORDS + PayloadWords(forward);
    Site(geo, lo, lo + size / 8, lo + 1 + geo.AvailabilityWords(), origin)
  }

  /** The first word after the metadata and its tag. */
  function MetaAcme(l: Site): nat { l.cells + 2 * l.geo.bins + 1 }

  ghost function ClaimTiles(l: Site, k: Kind): Tiles {
    map[l.lo := Tile(0, MetaAcme(l), Meta), MetaAcme(l) := Tile(l.lo, l.hi, k)]
  }

  /** A validated geometry always leaves room for a free chunk behind the metadata. */
  lemma ClaimRoom(geo: Geometry, size: nat, forward: nat, origin: nat)
    requires geo.ValidFor(size)
    ensures var l := ClaimSite(geo, size, forward, origin);
            && l.lo + MIN_CHUNK <= MetaAcme(l) && MetaAcme(l) + MIN_CHUNK <= l.hi
            // the two tags, and between them the metadata: the availability words, then two words a bin
            && 8 * (MetaAcme(l) - l.lo - 2) == geo.MetadataBytes()
            && 64 * (l.cells - l.lo - 1) >= geo.bins > 64 * (l.cells - l.lo - 2)
            && 8 * l.lo >= 8 * HEADER_WORDS + forward > 8 * (l.lo - 1)
            && 8 * (l.hi - l.lo) <= size < 8 * (l.hi - l.lo + 1)
  {}

  lemma ClaimInv(mem: Memory, l: Site)
    requires l.geo.bins > 0 && 0 < l.lo < l.cells && l.lo + MIN_CHUNK <= MetaAcme(l) && MetaAcme(l) + MIN_CHUNK <= l.hi
    requires l.hi <= |mem| && mem[MetaAcme(l) - 1] == 8 * l.lo + 3
    requires forall i :: 0 <= i < l.geo.bins ==> mem[Cell(l, i)] == 0
    ensures Inv(View(mem, ClaimTiles(l, Limbo(true)), seq(l.geo.bins, _ => [])), l)
  {
    var ts := ClaimTiles(l, Limbo(true));
    var v := View(mem, ts, seq(l.geo.bins, _ => []));
    assert forall b :: b in ts ==> b == l.lo || b == MetaAcme(l);
    forall b | b in ts
      ensures TileOk(ts, l.lo, l.hi, b) && WordsOk(v, l, b) && Listed(v, l, b)
    {}
    forall i | 0 <= i < |v.lists|
      ensures BinListOk(v, l, i)
    {}
  }

  lemma ClaimSettled(l: Site)
    requires l.lo < MetaAcme(l) < l.hi
    ensures Settled(ClaimTiles(l, TalcTiles.Free))
  {}

  lemma NoneAvailable(bins: nat)
    requires WordCount(bins) <= 64
    ensures Agrees(Avail(seq(WordCount(bins), _ => ZeroWord()), ZeroWord()), Full(seq(bins, _ => [])))
  {}

  datatype Request = Take(bytes: nat, align: nat) | Give(k: nat)

  // An allocation a caller has.
  datatype Handle = Handle(user: nat, bytes: nat, align: nat)

  ghost predicate HeldAt(ts: Tiles, handles: seq<Handle>, bases: seq<nat>, i: nat)
    requires i < |handles| == |bases|
  {
    bases[i] in ts && ts[bases[i]].kind == Used(handles[i].user, handles[i].bytes, handles[i].align)
  }

  /** What a caller has: each handle is a live allocation with a chunk of its own. */
  ghost predicate Holding(ts: Tiles, handles: seq<Handle>, bases: seq<nat>) {
    && |handles| == |bases|
    && (forall i {:trigger HeldAt(ts, handles, bases, i)} :: 0 <= i < |handles| ==> HeldAt(ts, handles, bases, i))
    && (forall i, j :: 0 <= i < j < |bases| ==> bases[i] != bases[j])
  }

  ghost predicate Separate(l: Site, a: Handle, b: Handle) {
    && (a.user + PayloadWords(a.bytes) <= b.user || b.user + PayloadWords(b.bytes) <= a.user)
    && l.lo < a.user && a.user + PayloadWords(a.bytes) < l.hi && l.lo < b.user && b.user + PayloadWords(b.bytes) < l.hi
    && Aligned(l, a.user, a.align) && Aligned(l, b.user, b.align)
  }

  lemma HandlesApart(v: View, l: Site, handles: seq<Handle>, bases: seq<nat>)
    requires Inv(v, l) && Holding(v.tiles, handles, bases)
    ensures forall i, j :: 0 <= i < j < |handles| ==> Separate(l, handles[i], handles[j])
  {
    forall i, j | 0 <= i < j < |handles| ensures Separate(l, handles[i], handles[j]) {
      assert HeldAt(v.tiles, handles, bases, i) && HeldAt(v.tiles, handles, bases, j);
      LivePayloads(v, l, bases[i], bases[j]);
      LivePayloads(v, l, bases[j], bases[i]);
    }
  }

  function Dropped<T>(s: seq<T>, k: nat): seq<T>
    requires k < |s|
  {
    s[..k] + s[k + 1..]
  }

  /** An allocation leaves the other live chunks live. */
  lemma AllocKeeps(ts: Tiles, lo: nat, hi: nat, x: nat, user: nat, bytes: nat, align: nat, c: nat)
    requires Shape(ts, lo, hi) && Carvable(ts, x, user, bytes) && c in ts && ts[c].kind.Used?
    ensures var us := AllocTiles(ts, x, user, bytes, align);
            c != CarvedBase(x, user) && c in us && us[c].kind == ts[c].kind
  {
    assert TileOk(ts, lo, hi, x);
    CarvedFits(x, user, bytes, ts[x].acme);
    if user >= x + MIN_CHUNK { InsideIsNoBase(ts, x, user); }
    var s := TagAt(CarvedBase(x, user), user, bytes) + 1;
    if s + MIN_CHUNK <= ts[x].acme { InsideIsNoBase(ts, x, s); }
  }

  /** A release leaves the other live chunks live. */
  lemma FreeKeeps(ts: Tiles, lo: nat, hi: nat, b: nat, c: nat)
    requires Shape(ts, lo, hi) && b in ts && ts[b].kind.Used? && c in ts && ts[c].kind.Used? && c != b
    ensures c in FreeTiles(ts, b) && FreeTiles(ts, b)[c].kind == ts[c].kind
  {
    assert TileOk(ts, lo, hi, b) && TileOk(ts, lo, hi, c);
  }

  lemma HoldingTaken(ts: Tiles, lo: nat, hi: nat, x: nat, user: nat, bytes: nat, align: nat, handles: seq<Handle>,
                     bases: seq<nat>)
    requires Shape(ts, lo, hi) && Carvable(ts, x, user, bytes) && Holding(ts, handles, bases)
    ensures Holding(AllocTiles(ts, x, user, bytes, align), handles + [Handle(user, bytes, align)], bases
                    + [CarvedBase(x, user)])
  {
    var us, hs, bs := AllocTiles(ts, x, user, bytes,
                                 align), handles + [Handle(user, bytes, align)], bases + [CarvedBase(x, user)];
    forall i | 0 <= i < |handles| ensures HeldAt(us, hs, bs, i) && bases[i] != CarvedBase(x, user) {
      assert HeldAt(ts, handles, bases, i);
      AllocKeeps(ts, lo, hi, x, user, bytes, align, bases[i]);
    }
    assert HeldAt(us, hs, bs, |handles|);
  }

  lemma HoldingGiven(ts: Tiles, lo: nat, hi: nat, handles: seq<Handle>, bases: seq<nat>, k: nat)
    requires Shape(ts, lo, hi) && Holding(ts, handles, bases) && k < |handles|
    requires bases[k] in ts
    ensures Holding(FreeTiles(ts, bases[k]), Dropped(handles, k), Dropped(bases, k))
  {
    var us, hs, bs := FreeTiles(ts, bases[k]), Dropped(handles, k), Dropped(bases, k);
    assert HeldAt(ts, handles, bases, k);
    forall i | 0 <= i < |hs| ensures HeldAt(us, hs, bs, i) {
      var j := if i < k then i else i + 1;
      assert HeldAt(ts, handles, bases, j);
      FreeKeeps(ts, lo, hi, bases[k], bases[j]);
    }
  }

  predicate Sensible(r: Request) { r.Take? ==> r.align > 0 && (r.align > 8 ==> r.align % 8 == 0) }

  // `Gave`: the k-th handle is released; `Nothing`: there is none.
  datatype Reply = Took(outcome: Outcome) | Gave | Nothing

  /** The handles a caller has after one more request and its reply. */
  function NextHandles(handles: seq<Handle>, request: Request, reply: Reply): seq<Handle> {
    match request
    case Take(bytes, align) =>
      if reply.Took? && reply.outcome.At? then handles + [Handle(reply.outcome.user, bytes, align)] else handles
    case Give(k) => if k < |handles| then Dropped(handles, k) else handles
  }

  /** The handles a caller has after the first n requests. */
  function HandlesAt(requests: seq<Request>, replies: seq<Reply>, n: nat): seq<Handle>
    requires n <= |requests| && n <= |replies|
  {
    if n == 0 then [] else NextHandles(HandlesAt(requests, replies, n - 1), requests[n - 1], replies[n - 1])
  }

  lemma {:induction false} HandlesAtPrefix(requests: seq<Request>, replies: seq<Reply>, reply: Reply, n: nat)
    requires n <= |requests| && n <= |replies|
    ensures HandlesAt(requests, replies + [reply], n) == HandlesAt(requests, replies, n)
  {
    if n > 0 { HandlesAtPrefix(requests, replies, reply, n - 1); }
  }

  /** The heap between two requests of a run. */
  datatype Shot = Shot(tiles: Tiles, mem: Memory)

  /** An allocation answered at `user` is the plan's cut of some free chunk that fits. */
  ghost predicate Cut(l: Site, ts: Tiles, user: nat, bytes: nat, align: nat, us: Tiles)
    requires align > 8 ==> align % 8 == 0
  {
    exists x :: Fits(l, ts, x, bytes, align) && CutAt(l, ts, x, user, bytes, align, us)
  }

  ghost predicate CutAt(l: Site, ts: Tiles, x: nat, user: nat, bytes: nat, align: nat, us: Tiles)
    requires align > 8 ==> align % 8 == 0
  {
    user == AlignUp(l, x, align) && Carvable(ts, x, user, bytes) && us == AllocTiles(ts, x, user, bytes, align)
  }

  /** What an allocation answers on tiling ts: a place in some chunk that fits, failing exactly when there is none. */
  ghost predicate Granted(l: Site, ts: Tiles, bytes: nat, align: nat, r: Outcome)
    requires align > 8 ==> align % 8 == 0
  {
    match r
    case Dangling => bytes == 0
    case Exhausted => bytes > 0 && forall b :: !Fits(l, ts, b, bytes, align)
    case At(user) => bytes > 0 && exists x :: Fits(l, ts, x, bytes, align) && user == AlignUp(l, x, align)
  }

  /** A release of handle h frees its chunk and nothing else, and disturbs no other payload. */
  ghost predicate Returned(s: Shot, h: Handle, s': Shot) {
    exists b :: b in s.tiles && s.tiles[b].kind == Used(h.user, h.bytes, h.align) && s'.tiles == FreeTiles(s.tiles, b)
                && PayloadsKept(SetKind(s.tiles, b, TalcTiles.Free), s.mem, s'.mem)
  }

  /** What the reply to a request did to the heap, for a caller that has these handles. */
  ghost predicate Served(l: Site, s: Shot, handles: seq<Handle>, request: Request, reply: Reply, s': Shot)
    requires Sensible(request)
  {
    match request
    case Take(bytes, align) =>
      && reply.Took? && PayloadsKept(s.tiles, s.mem, s'.mem) && (reply.outcome.Dangling? <==> bytes == 0)
      && (match reply.outcome
          case At(user) => Cut(l, s.tiles, user, bytes, align, s'.tiles)
          case Exhausted => s' == s && forall b :: !Fits(l, s.tiles, b, bytes, align)
          case Dangling => s' == s)
    case Give(k) =>
      if k < |handles| then reply.Gave? && Returned(s, handles[k], s') else reply.Nothing? && s' == s
  }

  /** The k-th reply of a run explains the change from one state of the heap to the next. */
  ghost predicate ServedAt(l: Site, requests: seq<Request>, replies: seq<Reply>, shots: seq<Shot>, k: nat)
    requires k < |replies| <= |requests| && |shots| == |replies| + 1
  {
    Sensible(requests[k]) && Served(l, shots[k], HandlesAt(requests, replies, k), requests[k], replies[k], shots[k + 1])
  }

  ghost predicate Run(l: Site, requests: seq<Request>, replies: seq<Reply>, shots: seq<Shot>) {
    && |replies| <= |requests| && |shots| == |replies| + 1
    && forall k {:trigger ServedAt(l, requests, replies, shots, k)} :: 0 <= k < |replies| ==>
         ServedAt(l, requests, replies, shots, k)
  }

  lemma ServedStays(l: Site, requests: seq<Request>, replies: seq<Reply>, shots: seq<Shot>, reply: Reply, s: Shot,
                    k: nat)
    requires k < |replies| < |requests| && |shots| == |replies| + 1 && ServedAt(l, requests, replies, shots, k)
    ensures ServedAt(l, requests, replies + [reply], shots + [s], k)
  {
    HandlesAtPrefix(requests, replies, reply, k);
    assert (replies + [reply])[k] == replies[k] && (shots + [s])[k] == shots[k] && (shots + [s])[k + 1] == shots[k + 1];
  }

  lemma RunExtends(l: Site, requests: seq<Request>, replies: seq<Reply>, shots: seq<Shot>, reply: Reply, s: Shot)
    requires Run(l, requests, replies, shots) && |replies| < |requests| && Sensible(requests[|replies|])
    requires Served(l, shots[|replies|], HandlesAt(requests, replies, |replies|), requests[|replies|], reply, s)
    ensures Run(l, requests, replies + [reply], shots + [s])
  {
    var n := |replies|;
    forall k | 0 <= k < n ensures ServedAt(l, requests, replies + [reply], shots + [s], k) {
      ServedStays(l, requests, replies, shots, reply, s, k);
    }
    HandlesAtPrefix(requests, replies, reply, n);
    assert ServedAt(l, requests, replies + [reply], shots + [s], n);
  }

  class Heap {
    const site: Site
    const mem: array<nat>
    var avail: Avail
    ghost var tiles: Tiles
    ghost var lists: seq<seq<nat>>

    ghost function V(): View
      reads this, mem
    {
      View(mem[..], tiles, lists)
    }

    /** Words, lists, bitmap and tiling agree; chunks may be in hand. */
    ghost predicate Valid()
      reads this, mem
    {
      Inv(V(), site) && Agrees(avail, Full(lists))
    }

    /** The state between operations. */
    ghost predicate Ready()
      reads this, mem
    {
      Valid() && Settled(tiles)
    }

    /** Lays out a fresh heap: metadata with every bin empty, then one free chunk with the rest. */
    constructor Claim(geo: Geometry, size: nat, forward: nat, origin: nat)
      requires geo.ValidFor(size)
      ensures Ready() && LinearBins(site.geo) && fresh(mem) && site == ClaimSite(geo, size, forward, origin)
      ensures tiles == ClaimTiles(site, TalcTiles.Free)
    {
      var l := ClaimSite(geo, size, forward, origin);
      ClaimRoom(geo, size, forward, origin);
      site := l;
      mem := new nat[l.hi];
      avail := Avail(seq(geo.AvailabilityWords(), _ => ZeroWord()), ZeroWord());
      tiles := ClaimTiles(l, Limbo(true));
      lists := seq(geo.bins, _ => []);
      new;
      ClaimMetadata();
      ClaimInv(mem[..], l);
      NoneAvailable(geo.bins);
      assert Valid();
      InsertFree(MetaAcme(l), 8 * (l.hi - MetaAcme(l)));
      assert tiles == ClaimTiles(l, TalcTiles.Free);
      ClaimSettled(l);
    }

    /** Writes the head tag, the empty bins and the metadata's tag. */
    method ClaimMetadata()
      requires 0 < site.lo < site.cells && MetaAcme(site) < site.hi == mem.Length
      modifies mem
      ensures mem[MetaAcme(site) - 1] == 8 * site.lo + 3
      ensures forall k :: 0 <= k < site.geo.bins ==> mem[Cell(site, k)] == 0
    {
      mem[site.lo] := 3;
      var i := 0;
      while i < site.geo.bins
        invariant i <= site.geo.bins && forall k :: 0 <= k < i ==> mem[Cell(site, k)] == 0
      {
        mem[Cell(site, i)] := 0;
        i := i + 1;
      }
      mem[MetaAcme(site) - 1] := 8 * site.lo + 3;
    }

    method InsertNode(x: nat, cell: nat)
      requires cell < mem.Length && x + 4 <= mem.Length && mem[cell] / 8 + PREV_NEXT < mem.Length
      modifies mem
      ensures mem[..] == InsertMem(old(mem[..]), x, cell)
    {
      var next := mem[cell];
      mem[x] := next;
      mem[x + PREV_NEXT] := 8 * cell;
      mem[cell] := 8 * x;
      if next != 0 {
        mem[next / 8 + PREV_NEXT] := 8 * x;
      }
    }

    method RemoveNode(x: nat)
      requires x + 4 <= mem.Length && mem[x] / 8 + PREV_NEXT < mem.Length && mem[x + PREV_NEXT] / 8 < mem.Length
      modifies mem
      ensures mem[..] == RemoveMem(old(mem[..]), x)
    {
      var next, back := mem[x], mem[x + PREV_NEXT];
      mem[back / 8] := next;
      if next != 0 {
        mem[next / 8 + PREV_NEXT] := back;
      }
    }

    /** The head and the tail of a free chunk of `words` words. */
    method WriteFree(x: nat, cell: nat, words: nat)
      requires cell < mem.Length && words >= 4 && x + words <= mem.Length && mem[cell] / 8 + PREV_NEXT < mem.Length
      modifies mem
      ensures mem[..] == AttachMem(old(mem[..]), cell, x, x + words)
    {
      InsertNode(x, cell);
      mem[x + 3] := 8 * words;
      mem[x + words - 1] := 8 * words;
    }

    /** Puts a chunk in hand of this many bytes into its bin. */
    method InsertFree(x: nat, size: nat)
      requires Valid() && x in tiles && tiles[x].kind == Limbo(true) && size == 8 * Length(tiles, x)
      modifies this, mem
      ensures Valid() && tiles == SetKind(old(tiles), x, TalcTiles.Free)
      ensures Undisturbed(old(V()), mem[..], x)
    {
      ghost var v := V();
      AttachDone(v, site, x);
      ghost var v' := Attach(v, site, x);
      var i := site.geo.Bin(size);
      assert i == BinOf(site, v.tiles, x) && x + size / 8 == v.tiles[x].acme;
      assert v' == View(AttachMem(v.mem, Cell(site, i), x, x + size / 8), SetKind(v.tiles, x, TalcTiles.Free),
                        v.lists[i := [x] + v.lists[i]]);
      AttachAvail(avail, lists, i, x);
      if mem[Cell(site, i)] == 0 {
        avail := Toggle(avail, i);
      }
      WriteFree(x, Cell(site, i), size / 8);
      tiles := v'.tiles;
      lists := v'.lists;
      assert V() == v';
    }

    /** Takes a free chunk out of its bin. */
    method RemoveFree(x: nat, i: nat)
      requires Valid() && x in tiles && tiles[x].kind.Free? && i == BinOf(site, tiles, x)
      modifies this, mem
      ensures Valid() && tiles == SetKind(old(tiles), x, Limbo(true))
      ensures Undisturbed(old(V()), mem[..], x)
    {
      ghost var v := V();
      DetachReads(v, site, x);
      ghost var v' := Detach(v, site, x);
      DetachDone(v, site, x);
      DetachAvail(avail, v.lists, v'.lists, i);
      RemoveNode(x);
      tiles := v'.tiles;
      lists := v'.lists;
      assert mem[..] == v'.mem;
      if mem[Cell(site, i)] == 0 {
        avail := Toggle(avail, i);
      }
      assert V() == v';
    }

    /** Looks through one bin's list for a chunk that holds the request. */
    method SearchBin(i: nat, bytes: nat, align: nat) returns (found: bool, x: nat)
      requires Valid() && i < site.geo.bins && bytes > 0 && (align > 8 ==> align % 8 == 0)
      ensures found ==> x in lists[i] && x in tiles && tiles[x].kind.Free? && BinOf(site, tiles, x) == i
      ensures found ==> x + 4 <= mem.Length && mem[x + 3] == 8 * Length(tiles, x) && Fits(site, tiles, x, bytes, align)
      ensures !found ==> BinRefuses(V(), site, i, bytes, align)
    {
      assert BinListOk(V(), site, i);
      HeadLink(mem[..], Cell(site, i), lists[i]);
      var cur := mem[Cell(site, i)];
      ghost var j := 0;
      while cur != 0
        invariant j <= |lists[i]| && cur == LinkTo(lists[i], j)
        invariant forall k :: 0 <= k < j ==> !Fits(site, tiles, lists[i][k], bytes, align)
        decreases |lists[i]| - j
      {
        x := cur / 8;
        assert x == lists[i][j];
        assert WordsOk(V(), site, x);
        NodeLinks(mem[..], Cell(site, i), lists[i], j);
        var size := mem[x + 3];
        var acme := x + size / 8;
        if size >= 8 * RequestWords(bytes) && align <= 8 {
          return true, x;
        }
        if AlignUp(site, x, align) + RequestWords(bytes) <= acme {
          return true, x;
        }
        cur := mem[x];
        j := j + 1;
      }
      found, x := false, 0;
    }

    /** The least bin from i on that has a chunk. */
    method NextBin(i: nat) returns (r: Option<nat>)
      requires Valid()
      ensures r == Scan(Full(lists), i)
    {
      NextAvailIsScan(avail, Full(lists), i);
      r := NextAvail(avail, i, site.geo.bins);
    }

    /** Finds a free chunk for the request, bin by bin; fails exactly when no free chunk can hold it. */
    method FindChunk(bytes: nat, align: nat) returns (found: bool, i: nat, x: nat)
      requires Valid() && bytes > 0 && (align > 8 ==> align % 8 == 0) && LinearBins(site.geo)
      ensures found ==> Fits(site, tiles, x, bytes, align) && i == BinOf(site, tiles, x)
      ensures found ==> x + 4 <= mem.Length && mem[x + 3] == 8 * Length(tiles, x)
      ensures !found ==> forall b :: !Fits(site, tiles, b, bytes, align)
      ensures !found ==> forall b, u :: !Room(site, tiles, b, u, bytes, align)
      ensures found ==> exists u :: Room(site, tiles, x, u, bytes, align)
    {
      var start := site.geo.Bin(8 * RequestWords(bytes));
      ghost var v := V();
      var next := NextBin(start);
      ghost var done := start;
      while next.Some?
        invariant start <= done <= |lists| && next == Scan(Full(lists), done)
        invariant BinsRefuse(v, site, start, done, bytes, align)
        decreases |lists| - done
      {
        i := next.value;
        SkippedRefuse(v, site, start, done, i, bytes, align);
        found, x := SearchBin(i, bytes, align);
        if found {
          FitsMeans(site, tiles, x, bytes, align);
          return;
        }
        SearchedRefuse(v, site, start, i, bytes, align);
        done := i + 1;
        next := NextBin(i + 1);
      }
      found, i, x := false, 0, 0;
      assert forall b :: !Fits(site, v.tiles, b, bytes, align) by {
        SkippedRefuse(v, site, start, done, |lists|, bytes, align);
        NothingFits(v, site, bytes, align);
      }
      NoRoom(site, v.tiles, bytes, align);
    }

    /** Finds and takes a free chunk for the request. */
    method AcquireChunk(bytes: nat, align: nat) returns (found: bool, x: nat, acme: nat, user: nat)
      requires Valid() && bytes > 0 && (align > 8 ==> align % 8 == 0) && LinearBins(site.geo)
      modifies this, mem
      ensures Valid()
      ensures !found ==> forall b :: !old(Fits(site, tiles, b, bytes, align))
      ensures !found ==> tiles == old(tiles) && mem[..] == old(mem[..]) && avail == old(avail)
      ensures found ==> old(Fits(site, tiles, x, bytes, align)) && tiles == SetKind(old(tiles), x, Limbo(true))
      ensures found ==> x in old(tiles) && acme == old(tiles)[x].acme && user == AlignUp(site, x, align)
      ensures found ==> Undisturbed(old(V()), mem[..], x)
    {
      var i;
      found, i, x := FindChunk(bytes, align);
      acme, user := 0, 0;
      if found {
        acme := x + mem[x + 3] / 8;
        user := if mem[x + 3] >= 8 * RequestWords(bytes) && align <= 8 then x else AlignUp(site, x, align);
        RemoveFree(x, i);
      }
    }

    /** Sets or clears the above-free flag in the tag below a chunk in hand. */
    method MarkBelow(x: nat, open: bool)
      requires Valid() && x in tiles && tiles[x].kind == Limbo(!open) && TaggedBelow(tiles, x)
      modifies this, mem
      ensures Valid() && tiles == SetKind(old(tiles), x, Limbo(open)) && PayloadsKept(old(tiles), old(mem[..]), mem[..])
      ensures lists == old(lists) && avail == old(avail)
      ensures forall w :: x <= w < mem.Length ==> mem[w] == old(mem[w])
    {
      ghost var v := V();
      MarkReady(v, site, x, open);
      FlagInv(v, site, x, open);
      mem[x - 1] := if open then mem[x - 1] + 2 else mem[x - 1] - 2;
      tiles := SetKind(tiles, x, Limbo(open));
      assert V() == Flag(v, x, open);
    }

    /** Gives the words before an aligned payload back when they make a chunk. */
    method CarvePrefix(x: nat, acme: nat, user: nat, ghost ts: Tiles) returns (f: nat)
      requires Valid() && x in ts && ts[x].kind.Free? && tiles == SetKind(ts, x, Limbo(true)) && ts[x].acme == acme
      requires x <= user && user + MIN_CHUNK <= acme && TaggedBelow(tiles, x)
      modifies this, mem
      ensures Valid() && f == CarvedBase(x, user) && f in CutPrefix(ts, x, user)
      ensures tiles == SetKind(CutPrefix(ts, x, user), f, Limbo(false))
      ensures PayloadsKept(old(tiles), old(mem[..]), mem[..]) && SameUsers(old(tiles), tiles)
    {
      ghost var v := V();
      assert TileOk(tiles, site.lo, site.hi, x);
      var cut := if user <= acme - MIN_CHUNK then user else acme - MIN_CHUNK;
      if cut >= x + MIN_CHUNK {
        SplitInv(v, site, x, cut, false);
        tiles := Split(tiles, x, cut, Limbo(false));
        ghost var v1 := V();
        SplitUsers(v.tiles, x, cut, Limbo(false));
        PrefixTiles(ts, x, cut);
        InsertFree(x, 8 * (cut - x));
        UndisturbedPayloads(v1, site, mem[..], x);
        f := cut;
        PayloadsChain(v.tiles, v1.tiles, v.mem, v1.mem, mem[..]);
      } else {
        MarkBelow(x, false);
        f := x;
      }
    }

    /** Writes the tag of a chunk in hand, and its address after the payload when they are apart. */
    method SealChunk(f: nat, tag: nat, above: bool, user: nat, bytes: nat, align: nat)
      requires Valid() && f in tiles && tiles[f].kind == Limbo(false) && tiles[f].acme == tag + 1
      requires bytes > 0 && align > 0 && f <= user && user + PayloadWords(bytes) <= tag && Aligned(site, user, align)
      requires above <==> NextOpen(tiles, site.hi, f)
      modifies this, mem
      ensures Valid() && tiles == SetKind(old(tiles), f, Used(user, bytes, align))
      ensures PayloadsKept(old(tiles), old(mem[..]), mem[..])
    {
      ghost var v := V();
      SealInv(v, site, f, user, bytes, align);
      SealPayloads(v, site, f, user, bytes, align);
      ghost var v' := Seal(v, site, f, user, bytes, align);
      var after := user + PayloadWords(bytes);
      mem[tag] := if above then 8 * f + 3 else 8 * f + 1;
      if tag != after {
        mem[after] := 8 * tag;
      }
      tiles := v'.tiles;
      assert V() == v';
    }

    /** Gives the words from s on back as a free chunk. */
    method CarveSuffix(f: nat, s: nat, acme: nat, ghost ts: Tiles, ghost k: Kind)
      requires Valid() && f in ts && ts[f].kind.Free? && tiles == SetKind(ts, f, Limbo(false)) && ts[f].acme == acme
      requires f + MIN_CHUNK <= s && s + MIN_CHUNK <= acme
      modifies this, mem
      ensures Valid() && f in tiles && tiles[f].kind == Limbo(false) && tiles[f].acme == s
      ensures s in tiles && tiles[s].kind.Free? && s < site.hi
      ensures f in Split(ts, f, s, TalcTiles.Free)
      ensures SetKind(tiles, f, k) == SetKind(Split(ts, f, s, TalcTiles.Free), f, k)
      ensures PayloadsKept(old(tiles), old(mem[..]), mem[..]) && SameUsers(old(tiles), tiles)
    {
      ghost var v := V();
      assert TileOk(tiles, site.lo, site.hi, f);
      SplitInv(v, site, f, s, true);
      tiles := Split(tiles, f, s, Limbo(true));
      SplitUsers(v.tiles, f, s, Limbo(true));
      SuffixTiles(ts, f, s, k);
      ghost var v1 := V();
      InsertFree(s, 8 * (acme - s));
      UndisturbedPayloads(v1, site, mem[..], s);
      PayloadsChain(v.tiles, v1.tiles, v.mem, v1.mem, mem[..]);
    }

    /** Gives the words after the payload and its tag back when they make a chunk, then hands the chunk out. */
    method HandOut(f: nat, acme: nat, user: nat, bytes: nat, align: nat, ghost ts: Tiles)
      requires Valid() && f in ts && ts[f].kind.Free? && tiles == SetKind(ts, f, Limbo(false)) && ts[f].acme == acme
      requires bytes > 0 && align > 0 && f <= user && user + RequestWords(bytes) <= acme && Aligned(site, user, align)
      requires !NextOpen(tiles, site.hi, f)
      modifies this, mem
      ensures Valid() && f in CutSuffix(ts, f, user, bytes)
      ensures tiles == SetKind(CutSuffix(ts, f, user, bytes), f, Used(user, bytes, align))
      ensures PayloadsKept(old(tiles), old(mem[..]), mem[..])
    {
      ghost var ts0, m0 := tiles, mem[..];
      var tag := TagAt(f, user, bytes);
      var above := tag + 1 + MIN_CHUNK <= acme;
      if above {
        CarveSuffix(f, tag + 1, acme, ts, Used(user, bytes, align));
        assert NextOpen(tiles, site.hi, f);
      } else {
        tag := acme - 1;
      }
      assert f in CutSuffix(ts, f, user, bytes);
      assert SetKind(tiles, f, Used(user, bytes, align)) ==
             SetKind(CutSuffix(ts, f, user, bytes), f, Used(user, bytes, align));
      ghost var ts1, m1 := tiles, mem[..];
      SealChunk(f, tag, above, user, bytes, align);
      PayloadsChain(ts0, ts1, m0, m1, mem[..]);
    }

    /**
     Allocates.  Fails exactly when no free chunk can hold the aligned request and its tag; otherwise cuts one such
     chunk.  Layout alignments are powers of two; above one word only their being whole words matters here.
     */
    method Allocate(bytes: nat, align: nat) returns (r: Outcome, ghost x: nat)
      requires Ready() && align > 0 && (align > 8 ==> align % 8 == 0) && LinearBins(site.geo)
      modifies this, mem
      ensures Ready() && PayloadsKept(old(tiles), old(mem[..]), mem[..])
      ensures r.Dangling? <==> bytes == 0
      ensures !r.At? ==> tiles == old(tiles) && mem[..] == old(mem[..]) && avail == old(avail)
      ensures r.Exhausted? ==> forall b :: !old(Fits(site, tiles, b, bytes, align))
      ensures r.Exhausted? ==> forall b, u :: !old(Room(site, tiles, b, u, bytes, align))
      ensures r.At? ==>
                && old(Room(site, tiles, x, r.user, bytes, align))
                && forall u :: old(Room(site, tiles, x, u, bytes, align)) ==> r.user <= u
      ensures r.At? ==>
                && old(Fits(site, tiles, x, bytes, align)) && x in old(tiles) && r.user == AlignUp(site, x, align)
                && Carvable(old(tiles), x, r.user, bytes)
                && tiles == AllocTiles(old(tiles), x, r.user, bytes, align)
    {
      x := 0;
      if bytes == 0 {
        return Dangling, 0;
      }
      ghost var ts, m0 := tiles, mem[..];
      var found, base, acme, user := AcquireChunk(bytes, align);
      if !found {
        NoRoom(site, ts, bytes, align);
        return Exhausted, 0;
      }
      FirstRoom(site, ts, base, bytes, align);
      x := base;
      ghost var m1, ts1 := mem[..], tiles;
      UndisturbedPayloads(View(m0, ts, old(lists)), site, m1, x);
      FreeNeighbours(ts, site.lo, site.hi, x);
      CutPrefixAbove(ts, site.lo, site.hi, x, user, bytes);
      CarvedFits(x, user, bytes, acme);
      var f := CarvePrefix(base, acme, user, ts);
      PayloadsChain(ts, ts1, m0, m1, mem[..]);
      ghost var m2, ts2 := mem[..], tiles;
      HandOut(f, acme, user, bytes, align, CutPrefix(ts, x, user));
      PayloadsChain(ts, ts2, m0, m2, mem[..]);
      AllocSettled(ts, site.lo, site.hi, x, user, bytes, align);
      r := At(user);
    }

    /** Joins a chunk in hand with the free chunk p below it. */
    method JoinDown(p: nat, b: nat, ghost ts: Tiles)
      requires Valid() && b in ts && ts[b].kind.Used? && tiles == SetKind(ts, b, Limbo(false))
      requires p in ts && ts[b].prev == p && ts[p].kind.Free? && ts[p].acme == b
      requires p + 4 <= mem.Length && mem[p + 3] == 8 * Length(tiles, p)
      modifies this, mem
      ensures Valid() && p in tiles && tiles[p].kind == Limbo(true) && tiles[p].acme == ts[b].acme
      ensures tiles == Join(SetKind(SetKind(ts, b, Limbo(false)), p, Limbo(true)), p)
      ensures PayloadsKept(old(tiles), old(mem[..]), mem[..]) && SameUsers(old(tiles), tiles)
      ensures forall w :: b <= w < ts[b].acme && w < mem.Length ==> mem[w] == old(mem[w])
    {
      ghost var v := V();
      assert TileOk(v.tiles, site.lo, site.hi, b) && TileOk(v.tiles, site.lo, site.hi, p);
      var size := DetachChunk(p);
      JoinInv(V(), site, p);
      JoinUsers(tiles, p);
      tiles := Join(tiles, p);
      UndisturbedChunk(v, mem[..], p, b);
    }

    /** Joins a chunk in hand with a free chunk below it, or marks the tag below. */
    method MergeDown(b: nat, ghost ts: Tiles) returns (start: nat)
      requires Valid() && Settled(ts) && b in ts && ts[b].kind.Used? && tiles == SetKind(ts, b, Limbo(false))
      requires Shape(ts, site.lo, site.hi)
      modifies this, mem
      ensures Valid() && start == MergedBase(ts, b) && start in tiles && tiles[start].kind == Limbo(true)
      ensures tiles[start].acme == ts[b].acme
      ensures SetKind(tiles, start, TalcTiles.Free) == MergeBelow(SetKind(ts, b, TalcTiles.Free), b)
      ensures PayloadsKept(old(tiles), old(mem[..]), mem[..]) && SameUsers(old(tiles), tiles)
      ensures forall w :: b <= w < ts[b].acme && w < mem.Length ==> mem[w] == old(mem[w])
    {
      ghost var v := V();
      ghost var p := ts[b].prev;
      assert TileOk(ts, site.lo, site.hi, b) && TileOk(ts, site.lo, site.hi, site.lo);
      assert TileOk(ts, site.lo, site.hi, p);
      assert Calm(ts, p);
      WordBelow(v, site, b);
      if mem[b - 1] % 2 == 0 {
        start := b - mem[b - 1] / 8;
        MergeBelowTiles(ts, site.lo, site.hi, b);
        JoinDown(start, b, ts);
      } else {
        MarkBelow(b, true);
        start := b;
      }
    }

    /** Takes free chunk x out of its bin, read off its own size word. */
    method DetachChunk(x: nat) returns (size: nat)
      requires Valid() && x in tiles && tiles[x].kind.Free?
      modifies this, mem
      ensures Valid() && tiles == SetKind(old(tiles), x, Limbo(true)) && size == 8 * (old(tiles)[x].acme - x)
      ensures x < old(tiles)[x].acme && PayloadsKept(old(tiles), old(mem[..]), mem[..])
              && Undisturbed(old(V()), mem[..], x)
    {
      ghost var v := V();
      assert WordsOk(v, site, x);
      size := mem[x + 3];
      RemoveFree(x, site.geo.Bin(size));
      UndisturbedPayloads(v, site, mem[..], x);
    }

    /** Joins a chunk in hand with the free chunk above it. */
    method MergeUp(start: nat, acme: nat) returns (acme': nat)
      requires Valid() && start in tiles && tiles[start].kind == Limbo(true) && tiles[start].acme == acme
      requires acme in tiles && tiles[acme].kind.Free?
      modifies this, mem
      ensures Valid() && start in tiles && tiles[start].kind == Limbo(true) && tiles[start].acme == acme'
      ensures acme in old(tiles)
              && SetKind(tiles, start, TalcTiles.Free) == Join(SetKind(old(tiles), start, TalcTiles.Free), start)
      ensures PayloadsKept(old(tiles), old(mem[..]), mem[..]) && SameUsers(old(tiles), tiles)
    {
      ghost var ts := tiles;
      assert TileOk(ts, site.lo, site.hi, start) && TileOk(ts, site.lo, site.hi, acme);
      var size := DetachChunk(acme);
      MergeUpTiles(ts, tiles, start, acme);
      JoinInv(V(), site, start);
      tiles := Join(tiles, start);
      acme' := acme + size / 8;
    }

    /** The tag of the chunk whose payload this is, found in band. */
    method FromAllocBase(user: nat, bytes: nat, ghost b: nat) returns (tag: nat)
      requires Valid() && b in tiles && tiles[b].kind.Used? && tiles[b].kind.user == user
               && tiles[b].kind.bytes == bytes
      ensures tag + 1 == tiles[b].acme && tag < mem.Length && mem[tag] / 8 == b
      ensures (mem[tag] / 2) % 2 == 1 <==> NextOpen(tiles, site.hi, b)
    {
      TagFound(V(), site, b);
      var post := user + PayloadWords(bytes);
      tag := if mem[post] > 8 * post then mem[post] / 8 else post;
    }

    /** Joins a chunk in hand with the chunk above if that is free, and puts it into its bin. */
    method PutBack(start: nat, acme: nat, above: bool)
      requires Valid() && start in tiles && tiles[start].kind == Limbo(true) && tiles[start].acme == acme
      requires above ==> acme in tiles && tiles[acme].kind.Free?
      modifies this, mem
      ensures Valid()
      ensures above ==> acme in old(tiles)
      ensures tiles == if above then Join(SetKind(old(tiles), start, TalcTiles.Free), start)
                       else SetKind(old(tiles), start, TalcTiles.Free)
      ensures PayloadsKept(old(tiles), old(mem[..]), mem[..])
    {
      ghost var ts, m0 := tiles, mem[..];
      var top := acme;
      if above {
        top := MergeUp(start, acme);
      }
      ghost var v2 := V();
      assert TileOk(v2.tiles, site.lo, site.hi, start);
      InsertFree(start, 8 * (top - start));
      UndisturbedPayloads(v2, site, mem[..], start);
      PayloadsChain(ts, v2.tiles, m0, v2.mem, mem[..]);
    }

    /** Releases a live allocation, joining it with free neighbours. */
    method Deallocate(user: nat, bytes: nat, ghost b: nat)
      requires Ready() && b in tiles && tiles[b].kind.Used? && tiles[b].kind.user == user
               && tiles[b].kind.bytes == bytes
      modifies this, mem
      ensures Ready() && tiles == FreeTiles(old(tiles), b)
      ensures PayloadsKept(SetKind(old(tiles), b, TalcTiles.Free), old(mem[..]), mem[..])
    {
      ghost var ts, m0 := tiles, mem[..];
      var tag := FromAllocBase(user, bytes, b);
      var base, acme := mem[tag] / 8, tag + 1;
      UnsealInv(V(), site, b);
      tiles := SetKind(tiles, b, Limbo(false));
      ghost var ts0 := tiles;
      var start := MergeDown(base, ts);
      ghost var ts1, m1 := tiles, mem[..];
      assert TileOk(ts, site.lo, site.hi, b);
      OpenIsFree(ts, site.lo, site.hi, b);
      if ts[b].acme in ts {
        AboveKept(ts, ts1, site.lo, site.hi, b, start);
      }
      PutBack(start, acme, (mem[tag] / 2) % 2 == 1);
      PayloadsChain(ts0, ts1, m0, m1, mem[..]);
      assert PayloadsKept(SetKind(ts, b, TalcTiles.Free), m0, mem[..]) by { FreedPayloads(ts, b, m0, mem[..]); }
      FreeSettled(ts, site.lo, site.hi, b);
    }

    ghost function Now(): Shot
      reads this, mem
    {
      Shot(tiles, mem[..])
    }

    /** Answers one request of a run: an allocation, or the release of the k-th handle. */
    method ServeOne(request: Request, handles: seq<Handle>, ghost bases: seq<nat>) returns (reply: Reply,
                                                                                            ghost bases': seq<nat>)
      requires Ready() && LinearBins(site.geo) && Holding(tiles, handles, bases) && Sensible(request)
      modifies this, mem
      ensures Ready() && Served(site, old(Now()), handles, request, reply, Now())
      ensures Holding(tiles, NextHandles(handles, request, reply), bases')
    {
      bases' := bases;
      ghost var ts := tiles;
      match request
      case Take(bytes, align) =>
        ghost var x;
        var r;
        r, x := Allocate(bytes, align);
        if r.At? {
          bases' := bases + [CarvedBase(x, r.user)];
          assert CutAt(site, ts, x, r.user, bytes, align, tiles);
          HoldingTaken(ts, site.lo, site.hi, x, r.user, bytes, align, handles, bases);
        }
        reply := Took(r);
      case Give(k) =>
        if k >= |handles| { return Nothing, bases; }
        assert HeldAt(ts, handles, bases, k);
        Deallocate(handles[k].user, handles[k].bytes, bases[k]);
        bases' := Dropped(bases, k);
        HoldingGiven(ts, site.lo, site.hi, handles, bases, k);
        reply := Gave;
    }

    /**
     Every request of a run is answered, and each answer says how the heap changed.  At the end the heap is in order,
     the caller has the handles the answers gave it, each a live allocation, and their payloads are disjoint, aligned
     and within the arena.
     */
    method Serve(requests: seq<Request>) returns (replies: seq<Reply>, ghost shots: seq<Shot>, ghost bases: seq<nat>)
      requires Ready() && LinearBins(site.geo) && forall i :: 0 <= i < |requests| ==> Sensible(requests[i])
      modifies this, mem
      ensures |replies| == |requests| && Run(site, requests, replies, shots)
      ensures shots[0] == old(Now()) && shots[|requests|] == Now() && Ready()
      ensures Holding(tiles, HandlesAt(requests, replies, |requests|), bases)
      ensures var hs := HandlesAt(requests, replies, |requests|); forall i, j :: 0 <= i < j < |hs| ==>
                Separate(site, hs[i], hs[j])
    {
      replies, shots, bases := [], [Now()], [];
      var handles: seq<Handle> := [];
      while |replies| < |requests|
        invariant |replies| <= |requests| && Ready() && Run(site, requests, replies, shots)
        invariant shots[0] == old(Now()) && shots[|replies|] == Now()
        invariant handles == HandlesAt(requests, replies, |replies|) && Holding(tiles, handles, bases)
      {
        var k := |replies|;
        var reply;
        reply, bases := ServeOne(requests[k], handles, bases);
        RunExtends(site, requests, replies, shots, reply, Now());
        HandlesAtPrefix(requests, replies, reply, k);
        handles := NextHandles(handles, requests[k], reply);
        replies, shots := replies + [reply], shots + [Now()];
      }
      HandlesApart(V(), site, handles, bases);
    }

    /** Allocates and releases at once: the tiling comes back. */
    method RoundTrip(bytes: nat, align: nat) returns (r: Outcome)
      requires Ready() && align > 0 && (align > 8 ==> align % 8 == 0) && LinearBins(site.geo)
      modifies this, mem
      ensures Ready() && tiles == old(tiles)
      ensures Granted(site, tiles, bytes, align, r)
    {
      ghost var ts := tiles;
      ghost var x;
      r, x := Allocate(bytes, align);
      if r.At? {
        FreeUndoesAlloc(ts, site.lo, site.hi, x, r.user, bytes, align);
        Deallocate(r.user, bytes, CarvedBase(x, r.user));
      }
    }

    /**
     Releasing right after allocating, whatever the size, alignment and cuts: the tiling, every tag and size word and
     the whole bitmap are as before.
     */
    method AllocateAndRelease(bytes: nat, align: nat) returns (r: Outcome)
      requires Ready() && align > 0 && (align > 8 ==> align % 8 == 0) && LinearBins(site.geo)
      modifies this, mem
      ensures Ready() && tiles == old(tiles) && avail == old(avail) && SameTags(tiles, old(mem[..]), mem[..])
      ensures Granted(site, tiles, bytes, align, r)
    {
      ghost var v, bits := V(), avail;
      r := RoundTrip(bytes, align);
      TilingDecides(v, V(), site);
      BitmapDecided(bits, avail, Full(lists));
      TagsDecided(v, V(), site);
    }
  }
}
