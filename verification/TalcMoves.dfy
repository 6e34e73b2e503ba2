/** The elementary changes, each shown to keep the heap's words, lists and tiling in agreement. */
module TalcMoves {
  import opened TalcGeometry
  import opened TalcTiles
  import opened TalcLists
  import opened TalcHeap

  /** Where a free chunk stands in its bin's list. */
  ghost function Place(v: View, l: Site, b: nat): (j: nat)
    requires Inv(v, l) && b in v.tiles && v.tiles[b].kind.Free?
    ensures j < |v.lists[BinOf(l, v.tiles, b)]| && v.lists[BinOf(l, v.tiles, b)][j] == b
  {
    assert Listed(v, l, b);
    var list := v.lists[BinOf(l, v.tiles, b)];
    var j: nat :| j < |list| && list[j] == b;
    j
  }

  /** Kinds may change as long as what the chunk below records stays right. */
  ghost predicate SameOpen(ts: Tiles, us: Tiles, hi: nat, b: nat)
    requires b in ts && b in us
  {
    NextOpen(ts, hi, b) <==> NextOpen(us, hi, b)
  }

  lemma SetKindOpen(ts: Tiles, lo: nat, hi: nat, x: nat, k: Kind, b: nat)
    requires Shape(ts, lo, hi) && x in ts && b in ts
    requires (ts[x].kind.Free? || ts[x].kind == Limbo(true)) <==> (k.Free? || k == Limbo(true))
    ensures SameOpen(ts, SetKind(ts, x, k), hi, b)
  {}

  // ---- taking a free chunk out of its list

  ghost function Detach(v: View, l: Site, b: nat): View
    requires Inv(v, l) && b in v.tiles && v.tiles[b].kind.Free?
    requires b + 4 <= |v.mem| && v.mem[b] / 8 + PREV_NEXT < |v.mem| && v.mem[b + PREV_NEXT] / 8 < |v.mem|
  {
    var i := BinOf(l, v.tiles, b);
    View(RemoveMem(v.mem, b), SetKind(v.tiles, b, Limbo(true)), v.lists[i := Without(v.lists[i], Place(v, l, b))])
  }

  lemma DetachReads(v: View, l: Site, b: nat)
    requires Inv(v, l) && b in v.tiles && v.tiles[b].kind.Free?
    ensures b + 4 <= |v.mem| && v.mem[b] / 8 + PREV_NEXT < |v.mem| && v.mem[b + PREV_NEXT] / 8 < |v.mem|
  {
    var i := BinOf(l, v.tiles, b);
    assert BinListOk(v, l, i);
    NodeLinks(v.mem, Cell(l, i), v.lists[i], Place(v, l, b));
  }

  lemma DetachSurgery(v: View, l: Site, b: nat)
    requires Inv(v, l) && b in v.tiles && v.tiles[b].kind.Free?
    requires b + 4 <= |v.mem| && v.mem[b] / 8 + PREV_NEXT < |v.mem| && v.mem[b + PREV_NEXT] / 8 < |v.mem|
    ensures Surgery(v, RemoveMem(v.mem, b), l, BinOf(l, v.tiles, b), b)
  {
    var i, j := BinOf(l, v.tiles, b), Place(v, l, b);
    assert BinListOk(v, l, i);
    var m := RemoveMem(v.mem, b);
    forall w | 0 <= w < |m| && !ListWord(v, l, i, b, w)
      ensures m[w] == v.mem[w]
    {
      RemoveFrame(v.mem, Cell(l, i), v.lists[i], j, w);
    }
  }

  lemma DetachInv(v: View, l: Site, b: nat)
    requires Inv(v, l) && b in v.tiles && v.tiles[b].kind.Free?
    requires b + 4 <= |v.mem| && v.mem[b] / 8 + PREV_NEXT < |v.mem| && v.mem[b + PREV_NEXT] / 8 < |v.mem|
    ensures Inv(Detach(v, l, b), l)
  {
    var v' := Detach(v, l, b);
    assert TileOk(v.tiles, l.lo, l.hi, b);
    assert TileOk(v.tiles, l.lo, l.hi, l.lo);
    SetKindShape(v.tiles, l.lo, l.hi, b, Limbo(true));
    assert SiteOk(l, v'.mem, v'.tiles);
    forall c | c in v'.tiles
      ensures WordsOk(v', l, c) && Listed(v', l, c)
    {
      DetachTile(v, l, b, c);
    }
    forall k | 0 <= k < |v'.lists|
      ensures BinListOk(v', l, k)
    {
      DetachBin(v, l, b, k);
    }
  }

  lemma DetachTile(v: View, l: Site, b: nat, c: nat)
    requires Inv(v, l) && b in v.tiles && v.tiles[b].kind.Free? && b != l.lo && c in v.tiles
    requires b + 4 <= |v.mem| && v.mem[b] / 8 + PREV_NEXT < |v.mem| && v.mem[b + PREV_NEXT] / 8 < |v.mem|
    ensures WordsOk(Detach(v, l, b), l, c) && Listed(Detach(v, l, b), l, c)
  {
    var i, j := BinOf(l, v.tiles, b), Place(v, l, b);
    var v' := Detach(v, l, b);
    assert WordsOk(v, l, c);
    assert Listed(v, l, c);
    SetKindOpen(v.tiles, l.lo, l.hi, b, Limbo(true), c);
    DetachSurgery(v, l, b);
    if c != b { OthersKept(v, v'.mem, l, i, b, c); }
    if c != b && v.tiles[c].kind.Free? && BinOf(l, v.tiles, c) == i {
      WithoutKeeps(v.lists[i], j, c);
    }
  }

  lemma WithoutKeeps(nodes: seq<nat>, j: nat, c: nat)
    requires j < |nodes| && c in nodes && c != nodes[j]
    ensures c in Without(nodes, j)
  {
    var k :| 0 <= k < |nodes| && nodes[k] == c;
    assert Without(nodes, j)[if k < j then k else k - 1] == c;
  }

  lemma WithoutMembers(mem: Memory, cell: nat, nodes: seq<nat>, j: nat, k: nat)
    requires Placed(mem, cell, nodes) && j < |nodes| && k < |nodes| - 1
    ensures Without(nodes, j)[k] in nodes && Without(nodes, j)[k] != nodes[j]
  {
    var o := if k < j then k else k + 1;
    assert Without(nodes, j)[k] == nodes[o];
    SepPair(mem, cell, nodes, o, j);
  }

  lemma DetachBin(v: View, l: Site, b: nat, k: nat)
    requires Inv(v, l) && b in v.tiles && v.tiles[b].kind.Free? && b != l.lo && k < l.geo.bins
    requires b + 4 <= |v.mem| && v.mem[b] / 8 + PREV_NEXT < |v.mem| && v.mem[b + PREV_NEXT] / 8 < |v.mem|
    ensures BinListOk(Detach(v, l, b), l, k)
  {
    var i, j := BinOf(l, v.tiles, b), Place(v, l, b);
    var v' := Detach(v, l, b);
    assert BinListOk(v, l, k) && BinListOk(v, l, i);
    DetachSurgery(v, l, b);
    if k == i {
      RemoveList(v.mem, Cell(l, i), v.lists[i], j);
      forall n | 0 <= n < |v'.lists[i]|
        ensures v'.lists[i][n] in v'.tiles && v'.tiles[v'.lists[i][n]].kind.Free?
                && BinOf(l, v'.tiles, v'.lists[i][n]) == i
      {
        WithoutMembers(v.mem, Cell(l, i), v.lists[i], j, n);
      }
    } else {
      OtherListKept(v, v'.mem, l, i, b, k);
    }
  }

  // ---- putting a chunk in hand into its list

  ghost function AttachMem(mem: Memory, cell: nat, x: nat, acme: nat): Memory
    requires cell < |mem| && x + 4 <= acme <= |mem| && mem[cell] / 8 + PREV_NEXT < |mem|
  {
    InsertMem(mem, x, cell)[x + 3 := 8 * (acme - x)][acme - 1 := 8 * (acme - x)]
  }

  ghost function Attach(v: View, l: Site, x: nat): View
    requires Inv(v, l) && x in v.tiles && v.tiles[x].kind == Limbo(true)
    requires x + 4 <= v.tiles[x].acme <= |v.mem|
    requires Cell(l, BinOf(l, v.tiles, x)) < |v.mem|
    requires v.mem[Cell(l, BinOf(l, v.tiles, x))] / 8 + PREV_NEXT < |v.mem|
  {
    var i := BinOf(l, v.tiles, x);
    View(AttachMem(v.mem, Cell(l, i), x, v.tiles[x].acme), SetKind(v.tiles, x, TalcTiles.Free),
         v.lists[i := [x] + v.lists[i]])
  }

  lemma AttachReads(v: View, l: Site, x: nat)
    requires Inv(v, l) && x in v.tiles
    ensures x + 4 <= v.tiles[x].acme <= |v.mem|
    ensures Cell(l, BinOf(l, v.tiles, x)) < |v.mem|
    ensures v.mem[Cell(l, BinOf(l, v.tiles, x))] / 8 + PREV_NEXT < |v.mem|
  {
    var i := BinOf(l, v.tiles, x);
    assert TileOk(v.tiles, l.lo, l.hi, x);
    assert BinListOk(v, l, i);
    HeadLink(v.mem, Cell(l, i), v.lists[i]);
  }

  lemma AttachPlaced(v: View, l: Site, x: nat)
    requires Inv(v, l) && x in v.tiles && v.tiles[x].kind.Limbo?
    ensures Placed(v.mem, Cell(l, BinOf(l, v.tiles, x)), [x] + v.lists[BinOf(l, v.tiles, x)])
  {
    var i := BinOf(l, v.tiles, x);
    var nodes := v.lists[i];
    assert BinListOk(v, l, i);
    CellInMeta(v, l, i);
    assert TileOk(v.tiles, l.lo, l.hi, x) && TileOk(v.tiles, l.lo, l.hi, l.lo);
    assert v.tiles[x] == v.tiles[x] && v.tiles[l.lo] == v.tiles[l.lo];
    forall j | 0 <= j < |nodes|
      ensures Sep(x, nodes[j])
    {
      assert TileOk(v.tiles, l.lo, l.hi, nodes[j]);
      assert v.tiles[x] == v.tiles[x];
    }
  }

  lemma AttachSurgery(v: View, l: Site, x: nat)
    requires Inv(v, l) && x in v.tiles && v.tiles[x].kind == Limbo(true)
    requires x + 4 <= v.tiles[x].acme <= |v.mem|
    requires Cell(l, BinOf(l, v.tiles, x)) < |v.mem|
    requires v.mem[Cell(l, BinOf(l, v.tiles, x))] / 8 + PREV_NEXT < |v.mem|
    ensures Surgery(v, Attach(v, l, x).mem, l, BinOf(l, v.tiles, x), x)
  {
    var i := BinOf(l, v.tiles, x);
    assert BinListOk(v, l, i);
    var m := Attach(v, l, x).mem;
    forall w | 0 <= w < |m| && !ListWord(v, l, i, x, w) && !(x + 3 <= w < v.tiles[x].acme)
      ensures m[w] == v.mem[w]
    {
      InsertFrame(v.mem, Cell(l, i), v.lists[i], x, w);
    }
  }

  /** The size words lie outside every node, so the list is as the insertion left it. */
  lemma AttachList(v: View, l: Site, x: nat)
    requires Inv(v, l) && x in v.tiles && v.tiles[x].kind == Limbo(true)
    requires x + 4 <= v.tiles[x].acme <= |v.mem|
    requires Cell(l, BinOf(l, v.tiles, x)) < |v.mem|
    requires v.mem[Cell(l, BinOf(l, v.tiles, x))] / 8 + PREV_NEXT < |v.mem|
    ensures var i := BinOf(l, v.tiles, x); ListOk(Attach(v, l, x).mem, Cell(l, i), [x] + v.lists[i])
  {
    var i := BinOf(l, v.tiles, x);
    var cell, nodes := Cell(l, i), [x] + v.lists[i];
    assert BinListOk(v, l, i);
    AttachPlaced(v, l, x);
    InsertList(v.mem, cell, v.lists[i], x);
    var m1 := InsertMem(v.mem, x, cell);
    var m := Attach(v, l, x).mem;
    CellInMeta(v, l, i);
    assert TileOk(v.tiles, l.lo, l.hi, l.lo) && TileOk(v.tiles, l.lo, l.hi, x);
    DifferentWords(v.tiles, l.lo, x, cell, x + 3);
    DifferentWords(v.tiles, l.lo, x, cell, v.tiles[x].acme - 1);
    forall j | 0 <= j < |nodes|
      ensures m[nodes[j]] == m1[nodes[j]] && m[nodes[j] + PREV_NEXT] == m1[nodes[j] + PREV_NEXT]
    {
      if j > 0 {
        assert nodes[j] == v.lists[i][j - 1];
        NodeOutside(v, l, x, nodes[j]);
      }
    }
    ListFrame(m1, m, cell, nodes);
  }

  lemma NodeOutside(v: View, l: Site, x: nat, n: nat)
    requires Inv(v, l) && x in v.tiles && n in v.tiles && n != x
    ensures n + 4 <= v.tiles[n].acme && x + 4 <= v.tiles[x].acme
    ensures n + 4 <= x || v.tiles[x].acme <= n
  {
    assert TileOk(v.tiles, l.lo, l.hi, n) && TileOk(v.tiles, l.lo, l.hi, x);
    assert v.tiles[n] == v.tiles[n] && v.tiles[x] == v.tiles[x];
  }

  lemma AttachInv(v: View, l: Site, x: nat)
    requires Inv(v, l) && x in v.tiles && v.tiles[x].kind == Limbo(true)
    requires x + 4 <= v.tiles[x].acme <= |v.mem|
    requires Cell(l, BinOf(l, v.tiles, x)) < |v.mem|
    requires v.mem[Cell(l, BinOf(l, v.tiles, x))] / 8 + PREV_NEXT < |v.mem|
    ensures Inv(Attach(v, l, x), l)
  {
    var v' := Attach(v, l, x);
    assert TileOk(v.tiles, l.lo, l.hi, x) && TileOk(v.tiles, l.lo, l.hi, l.lo);
    SetKindShape(v.tiles, l.lo, l.hi, x, TalcTiles.Free);
    assert SiteOk(l, v'.mem, v'.tiles);
    forall c | c in v'.tiles
      ensures WordsOk(v', l, c) && Listed(v', l, c)
    {
      AttachTile(v, l, x, c);
    }
    forall k | 0 <= k < |v'.lists|
      ensures BinListOk(v', l, k)
    {
      AttachBin(v, l, x, k);
    }
  }

  lemma AttachTile(v: View, l: Site, x: nat, c: nat)
    requires Inv(v, l) && x in v.tiles && v.tiles[x].kind == Limbo(true) && x != l.lo && c in v.tiles
    requires x + 4 <= v.tiles[x].acme <= |v.mem|
    requires Cell(l, BinOf(l, v.tiles, x)) < |v.mem|
    requires v.mem[Cell(l, BinOf(l, v.tiles, x))] / 8 + PREV_NEXT < |v.mem|
    ensures WordsOk(Attach(v, l, x), l, c) && Listed(Attach(v, l, x), l, c)
  {
    if c != x { AttachOther(v, l, x, c); } else { AttachSelf(v, l, x); }
  }

  lemma AttachOther(v: View, l: Site, x: nat, c: nat)
    requires Inv(v, l) && x in v.tiles && v.tiles[x].kind == Limbo(true) && x != l.lo && c in v.tiles && c != x
    requires x + 4 <= v.tiles[x].acme <= |v.mem|
    requires Cell(l, BinOf(l, v.tiles, x)) < |v.mem|
    requires v.mem[Cell(l, BinOf(l, v.tiles, x))] / 8 + PREV_NEXT < |v.mem|
    ensures WordsOk(Attach(v, l, x), l, c) && Listed(Attach(v, l, x), l, c)
  {
    assert WordsOk(v, l, c);
    SetKindOpen(v.tiles, l.lo, l.hi, x, TalcTiles.Free, c);
    AttachSurgery(v, l, x);
    OthersKept(v, Attach(v, l, x).mem, l, BinOf(l, v.tiles, x), x, c);
    KeptWords(v, Attach(v, l, x), l, c);
    AttachKeepsListed(v, l, x, c);
  }

  /** The words of a chunk whose record and own words did not change still describe it. */
  lemma KeptWords(v: View, u: View, l: Site, c: nat)
    requires c in v.tiles && WordsOk(v, l, c) && c in u.tiles && u.tiles[c].kind == v.tiles[c].kind
             && u.tiles[c].acme == v.tiles[c].acme
    requires SameOpen(v.tiles, u.tiles, l.hi, c) && v.tiles[c].acme <= |u.mem|
    requires u.mem[v.tiles[c].acme - 1] == v.mem[v.tiles[c].acme - 1]
    requires v.tiles[c].kind.Free? ==> u.mem[c + 3] == v.mem[c + 3]
    requires match v.tiles[c].kind
             case Used(user, bytes, _) =>
               user + PayloadWords(bytes) < |u.mem|
               && u.mem[user + PayloadWords(bytes)] == v.mem[user + PayloadWords(bytes)]
             case _ => true
    ensures WordsOk(u, l, c)
  {}

  lemma AttachKeepsListed(v: View, l: Site, x: nat, c: nat)
    requires Inv(v, l) && x in v.tiles && v.tiles[x].kind == Limbo(true) && x != l.lo && c in v.tiles && c != x
    requires x + 4 <= v.tiles[x].acme <= |v.mem|
    requires Cell(l, BinOf(l, v.tiles, x)) < |v.mem|
    requires v.mem[Cell(l, BinOf(l, v.tiles, x))] / 8 + PREV_NEXT < |v.mem|
    ensures Listed(Attach(v, l, x), l, c)
  {
    assert Listed(v, l, c);
  }

  lemma AttachSelf(v: View, l: Site, x: nat)
    requires Inv(v, l) && x in v.tiles && v.tiles[x].kind == Limbo(true) && x != l.lo
    requires x + 4 <= v.tiles[x].acme <= |v.mem|
    requires Cell(l, BinOf(l, v.tiles, x)) < |v.mem|
    requires v.mem[Cell(l, BinOf(l, v.tiles, x))] / 8 + PREV_NEXT < |v.mem|
    ensures WordsOk(Attach(v, l, x), l, x) && Listed(Attach(v, l, x), l, x)
  {
    assert WordsOk(v, l, x) && TileOk(v.tiles, l.lo, l.hi, x);
    assert Attach(v, l, x).lists[BinOf(l, v.tiles, x)][0] == x;
  }

  lemma AttachBin(v: View, l: Site, x: nat, k: nat)
    requires Inv(v, l) && x in v.tiles && v.tiles[x].kind == Limbo(true) && x != l.lo && k < l.geo.bins
    requires x + 4 <= v.tiles[x].acme <= |v.mem|
    requires Cell(l, BinOf(l, v.tiles, x)) < |v.mem|
    requires v.mem[Cell(l, BinOf(l, v.tiles, x))] / 8 + PREV_NEXT < |v.mem|
    ensures BinListOk(Attach(v, l, x), l, k)
  {
    var i, v' := BinOf(l, v.tiles, x), Attach(v, l, x);
    assert BinListOk(v, l, k);
    AttachSurgery(v, l, x);
    if k != i { OtherListKept(v, v'.mem, l, i, x, k); } else { AttachList(v, l, x); }
  }

  // ---- changes that write no list word

  /** What the words say of chunk b in us they already said in ts. */
  ghost predicate Retold(ts: Tiles, us: Tiles, l: Site, b: nat)
    requires b in us
  {
    !us[b].kind.Limbo? ==>
      && b in ts && ts[b].acme == us[b].acme && ts[b].kind == us[b].kind
      && (us[b].kind.Free? || SameOpen(ts, us, l.hi, b))
  }

  ghost predicate StillFree(ts: Tiles, us: Tiles, b: nat)
    requires b in ts
  {
    ts[b].kind.Free? ==> b in us && us[b].acme == ts[b].acme && us[b].kind.Free?
  }

  /** The tiling may change where no word describes it: chunks in hand. */
  ghost predicate Retiling(ts: Tiles, us: Tiles, l: Site) {
    && Shape(us, l.lo, l.hi) && l.lo in ts && us[l.lo] == ts[l.lo]
    && (forall b {:trigger Retold(ts, us, l, b)} :: b in us ==> Retold(ts, us, l, b))
    && (forall b {:trigger StillFree(ts, us, b)} :: b in ts ==> StillFree(ts, us, b))
  }

  lemma RetileTile(v: View, l: Site, us: Tiles, b: nat)
    requires Inv(v, l) && Retiling(v.tiles, us, l) && b in us
    ensures WordsOk(v.(tiles := us), l, b) && Listed(v.(tiles := us), l, b)
  {
    assert TileOk(us, l.lo, l.hi, b);
    assert Retold(v.tiles, us, l, b);
    if !us[b].kind.Limbo? { assert WordsOk(v, l, b); assert Listed(v, l, b); }
  }

  lemma RetileInv(v: View, l: Site, us: Tiles)
    requires Inv(v, l) && Retiling(v.tiles, us, l)
    ensures Inv(v.(tiles := us), l)
  {
    var v' := v.(tiles := us);
    forall b | b in us
      ensures WordsOk(v', l, b) && Listed(v', l, b)
    {
      RetileTile(v, l, us, b);
    }
    forall i | 0 <= i < |v'.lists|
      ensures BinListOk(v', l, i)
    {
      RetileBin(v, l, us, i);
    }
  }

  lemma RetileBin(v: View, l: Site, us: Tiles, i: nat)
    requires Inv(v, l) && Retiling(v.tiles, us, l) && i < |v.lists|
    ensures BinListOk(v.(tiles := us), l, i)
  {
    assert BinListOk(v, l, i);
    forall j | 0 <= j < |v.lists[i]|
      ensures v.lists[i][j] in us && us[v.lists[i][j]].kind.Free? && BinOf(l, us, v.lists[i][j]) == i
    {
      assert StillFree(v.tiles, us, v.lists[i][j]);
    }
  }

  /** A handed-out chunk comes back into hand. */
  lemma UnsealInv(v: View, l: Site, b: nat)
    requires Inv(v, l) && b in v.tiles && v.tiles[b].kind.Used?
    ensures Inv(v.(tiles := SetKind(v.tiles, b, Limbo(false))), l)
  {
    var us := SetKind(v.tiles, b, Limbo(false));
    assert TileOk(v.tiles, l.lo, l.hi, b) && TileOk(v.tiles, l.lo, l.hi, l.lo);
    SetKindShape(v.tiles, l.lo, l.hi, b, Limbo(false));
    forall c | c in us
      ensures Retold(v.tiles, us, l, c)
    {
      SetKindOpen(v.tiles, l.lo, l.hi, b, Limbo(false), c);
    }
    RetileInv(v, l, us);
  }

  lemma SplitRetold(ts: Tiles, l: Site, x: nat, m: nat, k: bool, b: nat)
    requires Shape(ts, l.lo, l.hi) && x in ts && ts[x].kind.Limbo? && x != l.lo
    requires x + MIN_CHUNK <= m && m + MIN_CHUNK <= ts[x].acme && m !in ts
    requires b in Split(ts, x, m, Limbo(k))
    ensures Retold(ts, Split(ts, x, m, Limbo(k)), l, b)
  {
    if b != m { assert TileOk(ts, l.lo, l.hi, b); }
  }

  lemma SplitInv(v: View, l: Site, x: nat, m: nat, k: bool)
    requires Inv(v, l) && x in v.tiles && v.tiles[x].kind.Limbo?
    requires x + MIN_CHUNK <= m && m + MIN_CHUNK <= v.tiles[x].acme
    ensures m !in v.tiles && Inv(v.(tiles := Split(v.tiles, x, m, Limbo(k))), l)
  {
    assert TileOk(v.tiles, l.lo, l.hi, x) && TileOk(v.tiles, l.lo, l.hi, l.lo);
    SplitShape(v.tiles, l.lo, l.hi, x, m, Limbo(k));
    var us := Split(v.tiles, x, m, Limbo(k));
    forall b | b in us
      ensures Retold(v.tiles, us, l, b)
    {
      SplitRetold(v.tiles, l, x, m, k, b);
    }
    assert us[l.lo] == v.tiles[l.lo];
    RetileInv(v, l, us);
  }

  lemma JoinRetold(ts: Tiles, l: Site, x: nat, b: nat)
    requires Shape(ts, l.lo, l.hi) && x in ts && ts[x].kind.Limbo? && x != l.lo
    requires ts[x].acme < l.hi && ts[x].acme in ts && ts[ts[x].acme].kind.Limbo?
    requires b in Join(ts, x)
    ensures Retold(ts, Join(ts, x), l, b)
  {
    assert TileOk(ts, l.lo, l.hi, b) && TileOk(ts, l.lo, l.hi, x);
    if b != x && ts[b].acme < l.hi { assert ts[b].acme != ts[x].acme; }
  }

  lemma JoinInv(v: View, l: Site, x: nat)
    requires Inv(v, l) && x in v.tiles && v.tiles[x].kind.Limbo?
    requires v.tiles[x].acme < l.hi && v.tiles[x].acme in v.tiles && v.tiles[v.tiles[x].acme].kind.Limbo?
    ensures Inv(v.(tiles := Join(v.tiles, x)), l)
  {
    assert TileOk(v.tiles, l.lo, l.hi, x) && TileOk(v.tiles, l.lo, l.hi, l.lo);
    JoinShape(v.tiles, l.lo, l.hi, x);
    JoinRetiling(v.tiles, l, x);
    RetileInv(v, l, Join(v.tiles, x));
  }

  lemma JoinRetiling(ts: Tiles, l: Site, x: nat)
    requires Shape(ts, l.lo, l.hi) && x in ts && ts[x].kind.Limbo? && x != l.lo && l.lo in ts
    requires ts[x].acme < l.hi && ts[x].acme in ts && ts[ts[x].acme].kind.Limbo? && Shape(Join(ts, x), l.lo, l.hi)
    ensures Retiling(ts, Join(ts, x), l)
  {
    var us := Join(ts, x);
    assert TileOk(ts, l.lo, l.hi, x) && TileOk(ts, l.lo, l.hi, ts[x].acme) && TileOk(ts, l.lo, l.hi, l.lo);
    forall b | b in us ensures Retold(ts, us, l, b) { JoinRetold(ts, l, x, b); }
    forall b | b in ts ensures StillFree(ts, us, b) {}
  }

  /** A word of a chunk that is in no list may be written: everything else about the heap stays as it is. */
  lemma PokeKeeps(v: View, l: Site, x: nat, w: nat, val: nat)
    requires Inv(v, l) && x in v.tiles && !v.tiles[x].kind.Free? && x <= w < v.tiles[x].acme
    requires x == l.lo ==> w == v.tiles[x].acme - 1
    ensures w < |v.mem|
    ensures forall c {:trigger WordsOk(v.(mem := v.mem[w := val]), l, c)} :: c in v.tiles && c != x ==>
              WordsOk(v.(mem := v.mem[w := val]), l, c)
    ensures forall i {:trigger BinListOk(v.(mem := v.mem[w := val]), l, i)} :: 0 <= i < |v.lists| ==>
              BinListOk(v.(mem := v.mem[w := val]), l, i)
  {
    assert TileOk(v.tiles, l.lo, l.hi, x);
    var v' := v.(mem := v.mem[w := val]);
    forall c | c in v.tiles && c != x
      ensures WordsOk(v', l, c)
    {
      assert WordsOk(v, l, c);
      assert TileOk(v.tiles, l.lo, l.hi, c);
      assert v.tiles[x] == v.tiles[x] && v.tiles[c] == v.tiles[c];
    }
    forall i | 0 <= i < |v.lists|
      ensures BinListOk(v', l, i)
    {
      PokeList(v, l, x, w, val, i);
    }
  }

  lemma PokeList(v: View, l: Site, x: nat, w: nat, val: nat, i: nat)
    requires Inv(v, l) && x in v.tiles && !v.tiles[x].kind.Free? && x <= w < v.tiles[x].acme && w < |v.mem|
    requires x == l.lo ==> w == v.tiles[x].acme - 1
    requires i < |v.lists|
    ensures BinListOk(v.(mem := v.mem[w := val]), l, i)
  {
    assert BinListOk(v, l, i);
    CellInMeta(v, l, i);
    if x != l.lo { DifferentWords(v.tiles, x, l.lo, w, Cell(l, i)); }
    var m := v.mem[w := val];
    forall j | 0 <= j < |v.lists[i]|
      ensures m[v.lists[i][j]] == v.mem[v.lists[i][j]]
              && m[v.lists[i][j] + PREV_NEXT] == v.mem[v.lists[i][j] + PREV_NEXT]
    {
      NodeOutside(v, l, x, v.lists[i][j]);
    }
    ListFrame(v.mem, m, Cell(l, i), v.lists[i]);
  }

  /** The chunk below x is tagged: it is not free and not in hand. */
  ghost predicate TaggedBelow(ts: Tiles, x: nat)
    requires x in ts
  {
    ts[x].prev in ts && (ts[ts[x].prev].kind.Meta? || ts[ts[x].prev].kind.Used?)
  }

  ghost function Flag(v: View, x: nat, open: bool): View
    requires x in v.tiles && 0 < x <= |v.mem| && v.tiles[x].prev <= |v.mem|
  {
    View(v.mem[x - 1 := 8 * v.tiles[x].prev + 1 + (if open then 2 else 0)],
         SetKind(v.tiles, x, Limbo(open)), v.lists)
  }

  /** Setting or clearing the above-free flag of the chunk below a chunk in hand. */
  lemma FlagInv(v: View, l: Site, x: nat, open: bool)
    requires Inv(v, l) && x in v.tiles && v.tiles[x].kind.Limbo? && TaggedBelow(v.tiles, x)
    ensures 0 < x <= |v.mem| && v.tiles[x].prev <= |v.mem|
    ensures Inv(Flag(v, x, open), l)
  {
    var p := v.tiles[x].prev;
    assert TileOk(v.tiles, l.lo, l.hi, x) && TileOk(v.tiles, l.lo, l.hi, l.lo) && TileOk(v.tiles, l.lo, l.hi, p);
    SetKindShape(v.tiles, l.lo, l.hi, x, Limbo(open));
    var v' := Flag(v, x, open);
    forall c | c in v'.tiles
      ensures WordsOk(v', l, c) && Listed(v', l, c)
    {
      FlagTile(v, l, x, open, c);
    }
    forall i | 0 <= i < |v'.lists|
      ensures BinListOk(v', l, i)
    {
      FlagBin(v, l, x, open, i);
    }
  }

  lemma FlagBin(v: View, l: Site, x: nat, open: bool, i: nat)
    requires Inv(v, l) && x in v.tiles && v.tiles[x].kind.Limbo? && TaggedBelow(v.tiles, x) && i < |v.lists|
    requires 0 < x <= |v.mem| && v.tiles[x].prev <= |v.mem| && x != l.lo && v.tiles[v.tiles[x].prev].acme == x
    ensures BinListOk(Flag(v, x, open), l, i)
  {
    var p := v.tiles[x].prev;
    assert TileOk(v.tiles, l.lo, l.hi, p);
    var word := 8 * p + 1 + (if open then 2 else 0);
    PokeList(v, l, p, x - 1, word, i);
    LimboBin(v.(mem := v.mem[x - 1 := word]), l, x, Limbo(open), i);
  }

  lemma FlagTile(v: View, l: Site, x: nat, open: bool, c: nat)
    requires Inv(v, l) && x in v.tiles && v.tiles[x].kind.Limbo? && TaggedBelow(v.tiles, x) && c in v.tiles
    requires 0 < x <= |v.mem| && v.tiles[x].prev <= |v.mem| && x != l.lo && v.tiles[v.tiles[x].prev].acme == x
    ensures WordsOk(Flag(v, x, open), l, c) && Listed(Flag(v, x, open), l, c)
  {
    assert Listed(v, l, c);
    if c == v.tiles[x].prev { FlagBelow(v, l, x, open); } else { FlagOther(v, l, x, open, c); }
  }

  lemma FlagOther(v: View, l: Site, x: nat, open: bool, c: nat)
    requires Inv(v, l) && x in v.tiles && v.tiles[x].kind.Limbo? && TaggedBelow(v.tiles, x)
    requires 0 < x <= |v.mem| && v.tiles[x].prev <= |v.mem| && x != l.lo && v.tiles[v.tiles[x].prev].acme == x
    requires c in v.tiles && c != v.tiles[x].prev
    ensures WordsOk(Flag(v, x, open), l, c)
  {
    var p := v.tiles[x].prev;
    assert v.tiles[c].acme != x by { assert TileOk(v.tiles, l.lo, l.hi, c) && TileOk(v.tiles, l.lo, l.hi, x); }
    assert p < x by { assert TileOk(v.tiles, l.lo, l.hi, p); }
    var w := v.(mem := v.mem[x - 1 := 8 * p + 1 + (if open then 2 else 0)]);
    PokeKeeps(v, l, p, x - 1, 8 * p + 1 + (if open then 2 else 0));
    assert WordsOk(w, l, c);
    RekindTile(w, l, x, Limbo(open), c);
    assert Flag(v, x, open) == w.(tiles := SetKind(w.tiles, x, Limbo(open)));
  }

  lemma RekindTile(v: View, l: Site, x: nat, k: Kind, c: nat)
    requires x in v.tiles && v.tiles[x].kind.Limbo? && k.Limbo? && c in v.tiles && v.tiles[c].acme != x
    requires WordsOk(v, l, c)
    ensures WordsOk(v.(tiles := SetKind(v.tiles, x, k)), l, c)
  {}

  lemma FlagBelow(v: View, l: Site, x: nat, open: bool)
    requires Inv(v, l) && x in v.tiles && v.tiles[x].kind.Limbo? && TaggedBelow(v.tiles, x)
    requires 0 < x <= |v.mem| && v.tiles[x].prev <= |v.mem| && x != l.lo && v.tiles[v.tiles[x].prev].acme == x
    ensures WordsOk(Flag(v, x, open), l, v.tiles[x].prev)
  {
    var p := v.tiles[x].prev;
    assert WordsOk(v, l, p);
    assert TileOk(v.tiles, l.lo, l.hi, x);
    assert NextOpen(SetKind(v.tiles, x, Limbo(open)), l.hi, p) <==> open;
  }

  ghost function Seal(v: View, l: Site, x: nat, user: nat, bytes: nat, align: nat): View
    requires x in v.tiles && 0 < v.tiles[x].acme <= |v.mem| && user + PayloadWords(bytes) < |v.mem|
  {
    var acme, after := v.tiles[x].acme, user + PayloadWords(bytes);
    var m := v.mem[acme - 1 := TagWord(v.tiles, l.hi, x)];
    View(if after != acme - 1 then m[after := 8 * (acme - 1)] else m,
         SetKind(v.tiles, x, Used(user, bytes, align)), v.lists)
  }

  /** Handing a chunk out: its tag, and the address of the tag after the payload when they are apart. */
  lemma SealInv(v: View, l: Site, x: nat, user: nat, bytes: nat, align: nat)
    requires Inv(v, l) && x in v.tiles && v.tiles[x].kind == Limbo(false)
    requires bytes > 0 && align > 0 && x <= user && user + PayloadWords(bytes) < v.tiles[x].acme
             && Aligned(l, user, align)
    ensures 0 < v.tiles[x].acme <= |v.mem| && user + PayloadWords(bytes) < |v.mem|
    ensures Inv(Seal(v, l, x, user, bytes, align), l)
  {
    assert TileOk(v.tiles, l.lo, l.hi, x) && TileOk(v.tiles, l.lo, l.hi, l.lo);
    var acme, after := v.tiles[x].acme, user + PayloadWords(bytes);
    var tag := TagWord(v.tiles, l.hi, x);
    PokeKeeps(v, l, x, acme - 1, tag);
    var v1 := v.(mem := v.mem[acme - 1 := tag]);
    assert Inv(v1, l) by { LimboPoked(v, v1, l, x); }
    var v2 := if after != acme - 1 then v1.(mem := v1.mem[after := 8 * (acme - 1)]) else v1;
    assert Inv(v2, l) by {
      if after != acme - 1 {
        PokeKeeps(v1, l, x, after, 8 * (acme - 1));
        LimboPoked(v1, v2, l, x);
      }
    }
    SealKind(v2, l, x, user, bytes, align);
    assert Seal(v, l, x, user, bytes, align) == v2.(tiles := SetKind(v2.tiles, x, Used(user, bytes, align)));
  }

  lemma LimboPoked(v: View, v': View, l: Site, x: nat)
    requires Inv(v, l) && x in v.tiles && v.tiles[x].kind.Limbo?
    requires v' == v.(mem := v'.mem) && |v'.mem| == |v.mem|
    requires forall c :: c in v.tiles && c != x ==> WordsOk(v', l, c)
    requires forall i :: 0 <= i < |v.lists| ==> BinListOk(v', l, i)
    ensures Inv(v', l)
  {
    assert WordsOk(v, l, x);
    forall c | c in v'.tiles
      ensures WordsOk(v', l, c) && Listed(v', l, c)
    {
      assert Listed(v, l, c);
    }
  }

  lemma SealKind(v: View, l: Site, x: nat, user: nat, bytes: nat, align: nat)
    requires Inv(v, l) && x in v.tiles && v.tiles[x].kind == Limbo(false) && x != l.lo
    requires x + MIN_CHUNK <= v.tiles[x].acme <= |v.mem|
    requires PayloadOk(l, v.mem, x, v.tiles[x].acme, user, bytes, align)
    requires v.mem[v.tiles[x].acme - 1] == TagWord(v.tiles, l.hi, x)
    ensures Inv(v.(tiles := SetKind(v.tiles, x, Used(user, bytes, align))), l)
  {
    var k := Used(user, bytes, align);
    SetKindShape(v.tiles, l.lo, l.hi, x, k);
    var v' := v.(tiles := SetKind(v.tiles, x, k));
    forall c | c in v'.tiles
      ensures WordsOk(v', l, c) && Listed(v', l, c)
    {
      SealTile(v, l, x, k, c);
    }
    forall i | 0 <= i < |v'.lists|
      ensures BinListOk(v', l, i)
    {
      assert BinListOk(v, l, i);
      LimboBin(v, l, x, k, i);
    }
  }

  lemma SealTile(v: View, l: Site, x: nat, k: Kind, c: nat)
    requires Inv(v, l) && x in v.tiles && v.tiles[x].kind == Limbo(false) && x != l.lo && c in v.tiles
    requires x + MIN_CHUNK <= v.tiles[x].acme <= |v.mem| && k.Used?
    requires PayloadOk(l, v.mem, x, v.tiles[x].acme, k.user, k.bytes, k.align)
    requires v.mem[v.tiles[x].acme - 1] == TagWord(v.tiles, l.hi, x)
    ensures WordsOk(v.(tiles := SetKind(v.tiles, x, k)), l, c) && Listed(v.(tiles := SetKind(v.tiles, x, k)), l, c)
  {
    assert WordsOk(v, l, c);
    assert Listed(v, l, c);
    SetKindOpen(v.tiles, l.lo, l.hi, x, k, c);
  }

  lemma LimboBin(v: View, l: Site, x: nat, k: Kind, i: nat)
    requires x in v.tiles && v.tiles[x].kind.Limbo? && l.geo.bins > 0 && i < |v.lists| && BinListOk(v, l, i)
    ensures BinListOk(v.(tiles := SetKind(v.tiles, x, k)), l, i)
  {}
}
