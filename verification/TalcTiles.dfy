/**
 The heap as a tiling: every word of the heap belongs to exactly one chunk.  Addresses and lengths are in 8-byte
 words.  A chunk is keyed by its base; `Limbo` marks a chunk that an operation has in hand, `open` telling whether
 the chunk below still records it as free.
 */
module TalcTiles {
  const MIN_CHUNK: nat := 4  // a free node of three words and a tag

  datatype Kind =
    | Meta                                        // the heap's own metadata, never freed
    | Used(user: nat, bytes: nat, align: nat)     // handed out: payload at `user`
    | Free
    | Limbo(open: bool)

  datatype Tile = Tile(prev: nat, acme: nat, kind: Kind)

  type Tiles = map<nat, Tile>

  ghost predicate TileOk(ts: Tiles, lo: nat, hi: nat, b: nat)
    requires b in ts
  {
    && lo <= b && b + MIN_CHUNK <= ts[b].acme <= hi
    && (ts[b].kind.Meta? <==> b == lo)
    && (ts[b].acme < hi ==> ts[b].acme in ts && ts[ts[b].acme].prev == b)
    && (b != lo ==> ts[b].prev in ts && ts[ts[b].prev].acme == b)
  }

  ghost predicate Apart(ts: Tiles) {
    forall b, c {:trigger ts[b], ts[c]} :: b in ts && c in ts && b < c ==> ts[b].acme <= c
  }

  ghost predicate Shape(ts: Tiles, lo: nat, hi: nat) {
    && 0 < lo && lo in ts
    && (forall b {:trigger TileOk(ts, lo, hi, b)} :: b in ts ==> TileOk(ts, lo, hi, b))
    && Apart(ts)
  }

  ghost predicate NextOpen(ts: Tiles, hi: nat, b: nat)
    requires b in ts
  {
    && ts[b].acme < hi && ts[b].acme in ts
    && (ts[ts[b].acme].kind.Free? || ts[ts[b].acme].kind == Limbo(true))
  }

  ghost function SetKind(ts: Tiles, b: nat, k: Kind): Tiles
    requires b in ts
  {
    ts[b := ts[b].(kind := k)]
  }

  ghost function SetPrev(ts: Tiles, b: nat, p: nat): Tiles {
    if b in ts then ts[b := ts[b].(prev := p)] else ts
  }

  /** Cuts chunk x at m; the upper part gets kind k. */
  ghost function Split(ts: Tiles, x: nat, m: nat, k: Kind): Tiles
    requires x in ts
  {
    SetPrev(ts, ts[x].acme, m)[x := ts[x].(acme := m)][m := Tile(x, ts[x].acme, k)]
  }

  /** Joins chunk x with the chunk above it. */
  ghost function Join(ts: Tiles, x: nat): Tiles
    requires x in ts && ts[x].acme in ts
  {
    var y := ts[x].acme;
    (SetPrev(ts, ts[y].acme, x) - {y})[x := ts[x].(acme := ts[y].acme)]
  }

  lemma SetKindShape(ts: Tiles, lo: nat, hi: nat, b: nat, k: Kind)
    requires Shape(ts, lo, hi) && b in ts && b != lo && !k.Meta?
    ensures Shape(SetKind(ts, b, k), lo, hi)
  {
    var ts' := SetKind(ts, b, k);
    forall c | c in ts'
      ensures TileOk(ts', lo, hi, c)
    {
      assert TileOk(ts, lo, hi, c);
    }
  }

  /** m is strictly inside chunk x, so it is nobody's base. */
  lemma InsideIsNoBase(ts: Tiles, x: nat, m: nat)
    requires Apart(ts) && x in ts && x < m < ts[x].acme
    ensures m !in ts
  {
    if m in ts { assert false; }
  }

  lemma SplitAt(ts: Tiles, lo: nat, hi: nat, x: nat, m: nat, k: Kind, c: nat)
    requires Shape(ts, lo, hi) && x in ts && x != lo && !k.Meta?
    requires x + MIN_CHUNK <= m && m + MIN_CHUNK <= ts[x].acme && m !in ts
    requires c in Split(ts, x, m, k)
    ensures TileOk(Split(ts, x, m, k), lo, hi, c)
  {
    var a := ts[x].acme;
    assert TileOk(ts, lo, hi, x);
    if c != m {
      assert TileOk(ts, lo, hi, c);
    }
  }

  lemma SplitApart(ts: Tiles, x: nat, m: nat, k: Kind)
    requires Apart(ts) && x in ts && m !in ts
    requires x < m < ts[x].acme
    requires ts[x].acme !in ts || ts[x].acme > m
    ensures Apart(Split(ts, x, m, k))
  {
    var ts' := Split(ts, x, m, k);
    forall b, c | b in ts' && c in ts' && b < c
      ensures ts'[b].acme <= c
    {
      if b != m && c != m {
        assert ts[b].acme <= c by { assert ts[c] == ts[c]; }
      } else if b == m {
        assert ts[x].acme <= c by { assert ts[c] == ts[c]; }
      } else if b != x {
        assert ts[b] == ts[b] && ts[x] == ts[x];
      }
    }
  }

  lemma SplitShape(ts: Tiles, lo: nat, hi: nat, x: nat, m: nat, k: Kind)
    requires Shape(ts, lo, hi) && x in ts && x != lo && !k.Meta?
    requires x + MIN_CHUNK <= m && m + MIN_CHUNK <= ts[x].acme
    ensures m !in ts && Shape(Split(ts, x, m, k), lo, hi)
  {
    InsideIsNoBase(ts, x, m);
    SplitApart(ts, x, m, k);
    forall c | c in Split(ts, x, m, k)
      ensures TileOk(Split(ts, x, m, k), lo, hi, c)
    {
      SplitAt(ts, lo, hi, x, m, k, c);
    }
  }

  lemma JoinAt(ts: Tiles, lo: nat, hi: nat, x: nat, c: nat)
    requires Shape(ts, lo, hi) && x in ts && x != lo && ts[x].acme < hi && ts[x].acme in ts
    requires c in Join(ts, x)
    ensures TileOk(Join(ts, x), lo, hi, c)
  {
    var y := ts[x].acme;
    assert TileOk(ts, lo, hi, x);
    assert TileOk(ts, lo, hi, y);
    assert TileOk(ts, lo, hi, c);
    if ts[c].acme < hi { assert TileOk(ts, lo, hi, ts[c].acme); }
    if c != lo { assert TileOk(ts, lo, hi, ts[c].prev); }
  }

  lemma JoinApart(ts: Tiles, x: nat)
    requires Apart(ts) && x in ts && ts[x].acme in ts && x < ts[x].acme <= ts[ts[x].acme].acme
    ensures Apart(Join(ts, x))
  {
    var ts' := Join(ts, x);
    var y := ts[x].acme;
    forall b, c | b in ts' && c in ts' && b < c
      ensures ts'[b].acme <= c
    {
      assert ts[b].acme <= c by { assert ts[c] == ts[c]; }
      if b == x {
        assert y < c;
        assert ts[y].acme <= c by { assert ts[c] == ts[c]; }
      }
    }
  }

  lemma JoinShape(ts: Tiles, lo: nat, hi: nat, x: nat)
    requires Shape(ts, lo, hi) && x in ts && x != lo && ts[x].acme < hi
    ensures ts[x].acme in ts && Shape(Join(ts, x), lo, hi)
  {
    assert TileOk(ts, lo, hi, x);
    assert TileOk(ts, lo, hi, ts[x].acme);
    JoinApart(ts, x);
    forall c | c in Join(ts, x)
      ensures TileOk(Join(ts, x), lo, hi, c)
    {
      JoinAt(ts, lo, hi, x, c);
    }
  }

  /** Joining what was split gives the tiling back. */
  lemma JoinSplit(ts: Tiles, lo: nat, hi: nat, x: nat, m: nat, k: Kind)
    requires Shape(ts, lo, hi) && x in ts && x != lo && !k.Meta?
    requires x + MIN_CHUNK <= m && m + MIN_CHUNK <= ts[x].acme
    ensures m in Split(ts, x, m, k) && Join(Split(ts, x, m, k), x) == ts
  {
    InsideIsNoBase(ts, x, m);
    assert TileOk(ts, lo, hi, x);
    var a := ts[x].acme;
    if a in ts { assert TileOk(ts, lo, hi, a); }
    var ts1 := Split(ts, x, m, k);
    assert ts1[m] == Tile(x, a, k) && ts1[x].acme == m;
    assert a in ts ==> a in ts1 && ts1[a] == ts[a].(prev := m);
    assert Join(ts1, x).Keys == ts.Keys;
  }

  /** Every word of the heap lies in a chunk. */
  lemma {:induction false} Covered(ts: Tiles, lo: nat, hi: nat, w: nat, from: nat) returns (b: nat)
    requires Shape(ts, lo, hi) && from in ts && from <= w < hi
    ensures b in ts && b <= w < ts[b].acme
    decreases hi - from
  {
    assert TileOk(ts, lo, hi, from);
    if w < ts[from].acme {
      b := from;
    } else {
      b := Covered(ts, lo, hi, w, ts[from].acme);
    }
  }

  ghost predicate Calm(ts: Tiles, b: nat)
    requires b in ts
  {
    !ts[b].kind.Limbo? && (ts[b].kind.Free? && ts[b].acme in ts ==> !ts[ts[b].acme].kind.Free?)
  }

  /** No chunk in hand and no two free neighbours: the state between operations. */
  ghost predicate Settled(ts: Tiles) {
    forall b {:trigger Calm(ts, b)} :: b in ts ==> Calm(ts, b)
  }
}
