/** What an allocation and a release do to the tiling, and what that is worth to callers. */
module TalcPlans {
  import opened Powers
  import opened TalcGeometry
  import opened TalcTiles
  import opened TalcLists
  import opened TalcHeap
  import opened TalcMoves
  import opened TalcBits

  /** `Chunk::chunk_size`, in words: the payload and its tag, at least a minimal chunk. */
  function RequestWords(bytes: nat): (n: nat)
    ensures n >= MIN_CHUNK && n >= PayloadWords(bytes) + 1
  {
    if bytes <= 24 then MIN_CHUNK else PayloadWords(bytes) + 1
  }

  /** The first word from b on whose absolute address is a multiple of the alignment. */
  function AlignUp(l: Site, b: nat, align: nat): (r: nat)
    requires align > 8 ==> align % 8 == 0
    ensures r >= b && Aligned(l, r, align)
  {
    if align <= 8 then b
    else
      var a := align / 8;
      var up := ((l.origin + b + a - 1) / a) * a;
      RoundUp(l.origin + b, a);
      up - l.origin
  }

  lemma RoundUp(x: nat, a: nat)
    requires a > 0
    ensures x <= ((x + a - 1) / a) * a < x + a && (((x + a - 1) / a) * a) % a == 0
  {
    var q := (x + a - 1) / a;
    assert x + a - 1 == a * q + (x + a - 1) % a;
    MulMod(q, a);
  }

  /** The free chunk can hold the aligned request and its tag. */
  ghost predicate Fits(l: Site, ts: Tiles, b: nat, bytes: nat, align: nat)
    requires align > 8 ==> align % 8 == 0
  {
    b in ts && ts[b].kind.Free? && AlignUp(l, b, align) + RequestWords(bytes) <= ts[b].acme
  }

  /** A payload at word u of free chunk b has an aligned address, and room for its bytes, a tag and a minimal chunk. */
  ghost predicate Room(l: Site, ts: Tiles, b: nat, u: nat, bytes: nat, align: nat) {
    && b in ts && ts[b].kind.Free? && b <= u && (align > 8 ==> (8 * (l.origin + u)) % align == 0)
    && u + MIN_CHUNK <= ts[b].acme && bytes + 8 <= 8 * (ts[b].acme - u)
  }

  /** The alignment of a word is that of its address in bytes. */
  lemma AlignedMeans(l: Site, u: nat, align: nat)
    requires align > 8 ==> align % 8 == 0
    ensures Aligned(l, u, align) <==> (align > 8 ==> (8 * (l.origin + u)) % align == 0)
  {
    if align > 8 {
      var a, x := align / 8, l.origin + u;
      assert align == 8 * a;
      if x % a == 0 {
        var k := x / a;
        assert x == k * a;
        assert 8 * x == k * align by { assert 8 * (k * a) == k * (8 * a); }
        MulMod(k, align);
      }
      if (8 * x) % align == 0 {
        var k := 8 * x / align;
        assert 8 * x == k * align == k * (8 * a);
        assert k * (8 * a) == 8 * (k * a);
        assert x == k * a;
        MulMod(k, a);
      }
    }
  }

  /** No aligned word from b on comes before the one chosen. */
  lemma AlignUpLeast(l: Site, b: nat, align: nat, u: nat)
    requires (align > 8 ==> align % 8 == 0) && b <= u && Aligned(l, u, align)
    ensures AlignUp(l, b, align) <= u
  {
    if align > 8 {
      var a := align / 8;
      RoundUp(l.origin + b, a);
      var q, k := (l.origin + b + a - 1) / a, (l.origin + u) / a;
      assert l.origin + u == k * a;
      if k < q { MulLe(k + 1, q, a); } else { MulLe(q, k, a); }
    }
  }

  lemma MulLe(x: nat, y: nat, a: nat)
    requires x <= y
    ensures x * a <= y * a && x * a == (x - 1) * a + a
  {}

  /** The words asked for are those that leave room. */
  lemma RequestMeans(bytes: nat, n: nat)
    requires bytes > 0
    ensures n >= RequestWords(bytes) <==> n >= MIN_CHUNK && bytes + 8 <= 8 * n
  {}

  /** A free chunk fits a request exactly when some aligned word of it has room. */
  lemma FitsMeans(l: Site, ts: Tiles, b: nat, bytes: nat, align: nat)
    requires bytes > 0 && (align > 8 ==> align % 8 == 0)
    ensures Fits(l, ts, b, bytes, align) ==> Room(l, ts, b, AlignUp(l, b, align), bytes, align)
    ensures Fits(l, ts, b, bytes, align) <==> exists u :: Room(l, ts, b, u, bytes, align)
  {
    var at := AlignUp(l, b, align);
    AlignedMeans(l, at, align);
    if Fits(l, ts, b, bytes, align) {
      RequestMeans(bytes, ts[b].acme - at);
      assert Room(l, ts, b, at, bytes, align);
    }
    forall u | Room(l, ts, b, u, bytes, align) ensures Fits(l, ts, b, bytes, align) {
      AlignedMeans(l, u, align);
      AlignUpLeast(l, b, align, u);
      RequestMeans(bytes, ts[b].acme - u);
    }
  }

  /** The word chosen in a chunk that fits has room, and is the first that has. */
  lemma FirstRoom(l: Site, ts: Tiles, b: nat, bytes: nat, align: nat)
    requires bytes > 0 && (align > 8 ==> align % 8 == 0) && Fits(l, ts, b, bytes, align)
    ensures Room(l, ts, b, AlignUp(l, b, align), bytes, align)
    ensures forall u :: Room(l, ts, b, u, bytes, align) ==> AlignUp(l, b, align) <= u
  {
    FitsMeans(l, ts, b, bytes, align);
    forall u | Room(l, ts, b, u, bytes, align) ensures AlignUp(l, b, align) <= u {
      AlignedMeans(l, u, align);
      AlignUpLeast(l, b, align, u);
    }
  }

  /** Nothing fits exactly when no aligned word of any free chunk has room. */
  lemma NoRoom(l: Site, ts: Tiles, bytes: nat, align: nat)
    requires bytes > 0 && (align > 8 ==> align % 8 == 0)
    ensures (forall b :: !Fits(l, ts, b, bytes, align)) <==> forall b, u :: !Room(l, ts, b, u, bytes, align)
  {
    forall b, u | Room(l, ts, b, u, bytes, align) ensures Fits(l, ts, b, bytes, align) {
      FitsMeans(l, ts, b, bytes, align);
    }
    forall b | Fits(l, ts, b, bytes, align) ensures Room(l, ts, b, AlignUp(l, b, align), bytes, align) {
      FitsMeans(l, ts, b, bytes, align);
    }
  }

  /** The base of the chunk handed out when chunk x is cut for a payload at user. */
  function CarvedBase(x: nat, user: nat): nat { if user >= x + MIN_CHUNK then user else x }

  function TagAt(f: nat, user: nat, bytes: nat): nat {
    if f + 3 >= user + PayloadWords(bytes) then f + 3 else user + PayloadWords(bytes)
  }

  ghost function CutPrefix(ts: Tiles, x: nat, user: nat): Tiles
    requires x in ts
  {
    if user >= x + MIN_CHUNK then Split(ts, x, user, TalcTiles.Free) else ts
  }

  ghost function CutSuffix(ts: Tiles, f: nat, user: nat, bytes: nat): Tiles
    requires f in ts
  {
    var s := TagAt(f, user, bytes) + 1;
    if s + MIN_CHUNK <= ts[f].acme then Split(ts, f, s, TalcTiles.Free) else ts
  }

  /** Free chunk x becomes: a free prefix if large enough, the chunk handed out, a free suffix if large enough. */
  ghost function AllocTiles(ts: Tiles, x: nat, user: nat, bytes: nat, align: nat): Tiles
    requires x in ts
  {
    var f := CarvedBase(x, user);
    SetKind(CutSuffix(CutPrefix(ts, x, user), f, user, bytes), f, Used(user, bytes, align))
  }

  ghost predicate FreeBelow(ts: Tiles, b: nat)
    requires b in ts
  {
    ts[b].prev in ts && ts[ts[b].prev].kind.Free? && ts[ts[b].prev].acme == b
  }

  ghost predicate FreeAbove(ts: Tiles, b: nat)
    requires b in ts
  {
    ts[b].acme in ts && ts[ts[b].acme].kind.Free?
  }

  ghost function MergedBase(ts: Tiles, b: nat): nat
    requires b in ts
  {
    if FreeBelow(ts, b) then ts[b].prev else b
  }

  ghost function MergeBelow(ts: Tiles, b: nat): Tiles
    requires b in ts
  {
    if FreeBelow(ts, b) then Join(ts, ts[b].prev) else ts
  }

  /** Chunk b becomes free, together with its free neighbours. */
  ghost function FreeTiles(ts: Tiles, b: nat): Tiles
    requires b in ts
  {
    var f, t := MergedBase(ts, b), MergeBelow(SetKind(ts, b, TalcTiles.Free), b);
    if FreeAbove(ts, b) && f in t && t[f].acme in t then Join(t, f) else t
  }

  ghost predicate Carvable(ts: Tiles, x: nat, user: nat, bytes: nat) {
    && x in ts && ts[x].kind.Free? && bytes > 0 && x <= user && user + RequestWords(bytes) <= ts[x].acme
  }

  lemma CarvedFits(x: nat, user: nat, bytes: nat, acme: nat)
    requires x <= user && user + RequestWords(bytes) <= acme
    ensures var f := CarvedBase(x, user);
            && x <= f <= user && f + MIN_CHUNK <= acme && user + PayloadWords(bytes) <= TagAt(f, user, bytes) < acme
            && TagAt(f, user, bytes) + 1 >= f + MIN_CHUNK
            && (user >= x + MIN_CHUNK ==> user + MIN_CHUNK <= acme)
  {}

  lemma PrefixShape(ts: Tiles, lo: nat, hi: nat, x: nat, user: nat, bytes: nat)
    requires Shape(ts, lo, hi) && Carvable(ts, x, user, bytes)
    ensures var f, t1 := CarvedBase(x, user), CutPrefix(ts, x, user);
            Shape(t1, lo, hi) && f in t1 && f != lo && t1[f].acme == ts[x].acme && t1[f].kind.Free? && f <= user
  {
    CarvedFits(x, user, bytes, ts[x].acme);
    assert TileOk(ts, lo, hi, x) && TileOk(ts, lo, hi, lo);
    if user >= x + MIN_CHUNK { SplitShape(ts, lo, hi, x, user, TalcTiles.Free); }
  }

  lemma SuffixShape(ts: Tiles, lo: nat, hi: nat, f: nat, user: nat, bytes: nat)
    requires Shape(ts, lo, hi) && f in ts && f != lo && f <= user && user + RequestWords(bytes) <= ts[f].acme
    ensures f in CutSuffix(ts, f, user, bytes) && Shape(CutSuffix(ts, f, user, bytes), lo, hi)
  {
    var s := TagAt(f, user, bytes) + 1;
    if s + MIN_CHUNK <= ts[f].acme { SplitShape(ts, lo, hi, f, s, TalcTiles.Free); }
  }

  lemma AllocShape(ts: Tiles, lo: nat, hi: nat, x: nat, user: nat, bytes: nat, align: nat)
    requires Shape(ts, lo, hi) && Carvable(ts, x, user, bytes)
    ensures Shape(AllocTiles(ts, x, user, bytes, align), lo, hi)
  {
    var f, t1 := CarvedBase(x, user), CutPrefix(ts, x, user);
    PrefixShape(ts, lo, hi, x, user, bytes);
    SuffixShape(t1, lo, hi, f, user, bytes);
    SetKindShape(CutSuffix(t1, f, user, bytes), lo, hi, f, Used(user, bytes, align));
  }

  /** Splitting twice and joining the lower two is splitting once. */
  lemma JoinLowerTwo(ts: Tiles, lo: nat, hi: nat, x: nat, m: nat, s: nat, k: Kind)
    requires Shape(ts, lo, hi) && x in ts && x != lo && !k.Meta?
    requires x + MIN_CHUNK <= m && m + MIN_CHUNK <= s && s + MIN_CHUNK <= ts[x].acme
    ensures m in Split(ts, x, m, k)
    ensures Join(Split(Split(ts, x, m, k), m, s, k), x) == Split(ts, x, s, k)
  {
    InsideIsNoBase(ts, x, m);
    InsideIsNoBase(ts, x, s);
    assert TileOk(ts, lo, hi, x);
    var a := ts[x].acme;
    if a in ts { assert TileOk(ts, lo, hi, a); }
    var t1 := Split(ts, x, m, k);
    assert t1[m] == Tile(x, a, k) && t1[x].acme == m;
    var t2 := Split(t1, m, s, k);
    assert t2[x] == t1[x] && t2[m] == Tile(x, s, k) && t2[s] == Tile(m, a, k);
    assert Join(t2, x).Keys == Split(ts, x, s, k).Keys;
  }

  /** Releasing what was just allocated gives back the very same tiling. */
  lemma FreeUndoesAlloc(ts: Tiles, lo: nat, hi: nat, x: nat, user: nat, bytes: nat, align: nat)
    requires Shape(ts, lo, hi) && Settled(ts) && Carvable(ts, x, user, bytes)
    ensures CarvedBase(x, user) in AllocTiles(ts, x, user, bytes, align)
    ensures FreeTiles(AllocTiles(ts, x, user, bytes, align), CarvedBase(x, user)) == ts
  {
    CarvedFits(x, user, bytes, ts[x].acme);
    BackToFree(ts, lo, hi, x, user, bytes, align);
    assert TileOk(ts, lo, hi, x) && TileOk(ts, lo, hi, lo);
    if user >= x + MIN_CHUNK {
      InsideIsNoBase(ts, x, user);
      UndoWithPrefix(ts, lo, hi, x, user, bytes, align);
    } else {
      UndoWithoutPrefix(ts, lo, hi, x, user, bytes, align);
    }
  }

  lemma BackToFree(ts: Tiles, lo: nat, hi: nat, x: nat, user: nat, bytes: nat, align: nat)
    requires Shape(ts, lo, hi) && Carvable(ts, x, user, bytes)
    ensures var f, t1 := CarvedBase(x, user), CutPrefix(ts, x, user);
            && f in t1 && f in CutSuffix(t1, f, user, bytes)
            && SetKind(AllocTiles(ts, x, user, bytes, align), f, TalcTiles.Free) == CutSuffix(t1, f, user, bytes)
  {
    var f, t1 := CarvedBase(x, user), CutPrefix(ts, x, user);
    PrefixShape(ts, lo, hi, x, user, bytes);
    var t2, s := CutSuffix(t1, f, user, bytes), TagAt(f, user, bytes) + 1;
    assert f in t2 && t2[f].kind == t1[f].kind == TalcTiles.Free;
    assert t2[f := t2[f].(kind := TalcTiles.Free)] == t2;
  }

  lemma UndoWithPrefix(ts: Tiles, lo: nat, hi: nat, x: nat, user: nat, bytes: nat, align: nat)
    requires Shape(ts, lo, hi) && Settled(ts) && Carvable(ts, x, user, bytes) && x != lo && user >= x + MIN_CHUNK
    requires user !in ts && user + MIN_CHUNK <= ts[x].acme
    requires var t2 := CutSuffix(CutPrefix(ts, x, user), user, user, bytes);
             user in t2 && SetKind(AllocTiles(ts, x, user, bytes, align), user, TalcTiles.Free) == t2
    ensures user in AllocTiles(ts, x, user, bytes, align)
    ensures FreeTiles(AllocTiles(ts, x, user, bytes, align), user) == ts
  {
    var t1, s := CutPrefix(ts, x, user), TagAt(user, user, bytes) + 1;
    var a := AllocTiles(ts, x, user, bytes, align);
    JoinSplit(ts, lo, hi, x, user, TalcTiles.Free);
    assert TileOk(ts, lo, hi, x) && Calm(ts, x);
    assert t1[user] == Tile(x, ts[x].acme, TalcTiles.Free);
    if s + MIN_CHUNK <= ts[x].acme {
      InsideIsNoBase(ts, x, s);
      JoinLowerTwo(ts, lo, hi, x, user, s, TalcTiles.Free);
      JoinSplit(ts, lo, hi, x, s, TalcTiles.Free);
      assert a[user].prev == x && a[x].kind.Free? && a[x].acme == user && a[user].acme == s && a[s].kind.Free?;
    } else {
      assert a[user].prev == x && a[x].kind.Free? && a[x].acme == user;
    }
  }

  lemma UndoWithoutPrefix(ts: Tiles, lo: nat, hi: nat, x: nat, user: nat, bytes: nat, align: nat)
    requires Shape(ts, lo, hi) && Settled(ts) && Carvable(ts, x, user, bytes) && x != lo && user < x + MIN_CHUNK
    requires var t2 := CutSuffix(ts, x, user, bytes);
             x in t2 && SetKind(AllocTiles(ts, x, user, bytes, align), x, TalcTiles.Free) == t2
    requires TagAt(x, user, bytes) + 1 >= x + MIN_CHUNK
    ensures x in AllocTiles(ts, x, user, bytes, align)
    ensures FreeTiles(AllocTiles(ts, x, user, bytes, align), x) == ts
  {
    var s := TagAt(x, user, bytes) + 1;
    assert TileOk(ts, lo, hi, x) && Calm(ts, x) && Calm(ts, ts[x].prev);
    assert !ts[ts[x].prev].kind.Free?;
    if s + MIN_CHUNK <= ts[x].acme {
      InsideIsNoBase(ts, x, s);
      JoinSplit(ts, lo, hi, x, s, TalcTiles.Free);
    }
  }

  /** An allocation leaves no two free neighbours. */
  lemma AllocSettled(ts: Tiles, lo: nat, hi: nat, x: nat, user: nat, bytes: nat, align: nat)
    requires Shape(ts, lo, hi) && Settled(ts) && Carvable(ts, x, user, bytes)
    ensures Settled(AllocTiles(ts, x, user, bytes, align))
  {
    var a := AllocTiles(ts, x, user, bytes, align);
    CarvedFits(x, user, bytes, ts[x].acme);
    assert TileOk(ts, lo, hi, x);
    var f, s := CarvedBase(x, user), TagAt(CarvedBase(x, user), user, bytes) + 1;
    if user >= x + MIN_CHUNK { InsideIsNoBase(ts, x, user); }
    if s + MIN_CHUNK <= ts[x].acme { InsideIsNoBase(ts, x, s); }
    forall b | b in a
      ensures Calm(a, b)
    {
      AllocCalm(ts, lo, hi, x, user, bytes, align, b);
    }
  }

  lemma AllocCalm(ts: Tiles, lo: nat, hi: nat, x: nat, user: nat, bytes: nat, align: nat, b: nat)
    requires Shape(ts, lo, hi) && Settled(ts) && Carvable(ts, x, user, bytes)
    requires user >= x + MIN_CHUNK ==> user !in ts
    requires TagAt(CarvedBase(x, user), user, bytes) + 1 + MIN_CHUNK <= ts[x].acme ==>
               TagAt(CarvedBase(x, user), user, bytes) + 1 !in ts
    requires b in AllocTiles(ts, x, user, bytes, align)
    ensures Calm(AllocTiles(ts, x, user, bytes, align), b)
  {
    if b in ts && b != x {
      AllocCalmOther(ts, lo, hi, x, user, bytes, align, b);
    } else {
      assert TileOk(ts, lo, hi, x) && Calm(ts, x);
    }
  }

  lemma AllocCalmOther(ts: Tiles, lo: nat, hi: nat, x: nat, user: nat, bytes: nat, align: nat, b: nat)
    requires Shape(ts, lo, hi) && Settled(ts) && Carvable(ts, x, user, bytes) && b in ts && b != x
    requires user >= x + MIN_CHUNK ==> user !in ts
    requires TagAt(CarvedBase(x, user), user, bytes) + 1 + MIN_CHUNK <= ts[x].acme ==>
               TagAt(CarvedBase(x, user), user, bytes) + 1 !in ts
    requires b in AllocTiles(ts, x, user, bytes, align)
    ensures Calm(AllocTiles(ts, x, user, bytes, align), b)
  {
    assert TileOk(ts, lo, hi, x) && Calm(ts, x) && TileOk(ts, lo, hi, b) && Calm(ts, b);
    if ts[b].acme in ts { assert TileOk(ts, lo, hi, ts[b].acme); }
  }

  /** Joining chunk x with the one above leaves every other chunk as calm as it was. */
  lemma JoinCalm(ts: Tiles, lo: nat, hi: nat, x: nat, c: nat)
    requires Shape(ts, lo, hi) && x in ts && x != lo && ts[x].acme in ts
    requires c in Join(ts, x) && c != x && (ts[c].kind.Free? && ts[c].acme in ts ==> !ts[ts[c].acme].kind.Free?)
    requires !ts[c].kind.Limbo?
    ensures Calm(Join(ts, x), c)
  {
    assert TileOk(ts, lo, hi, c) && TileOk(ts, lo, hi, x) && TileOk(ts, lo, hi, ts[x].acme);
    if ts[c].acme in ts { assert TileOk(ts, lo, hi, ts[c].acme); }
  }

  /** A release leaves no two free neighbours. */
  lemma FreeSettled(ts: Tiles, lo: nat, hi: nat, b: nat)
    requires Shape(ts, lo, hi) && Settled(ts) && b in ts && b != lo && !ts[b].kind.Free?
    ensures Settled(FreeTiles(ts, b))
  {
    assert TileOk(ts, lo, hi, b);
    var t1 := SetKind(ts, b, TalcTiles.Free);
    SetKindShape(ts, lo, hi, b, TalcTiles.Free);
    var f, t2 := MergedBase(ts, b), MergeBelow(t1, b);
    var r := FreeTiles(ts, b);
    if FreeBelow(ts, b) {
      assert TileOk(ts, lo, hi, f) && TileOk(ts, lo, hi, lo);
      JoinShape(t1, lo, hi, f);
    }
    assert Shape(t2, lo, hi) && f in t2 && f != lo && t2[f].acme == ts[b].acme;
    forall c | c in t2 && c != f
      ensures !t2[c].kind.Limbo? && (t2[c].kind.Free? && t2[c].acme in t2 ==> !t2[t2[c].acme].kind.Free?)
    {
      BelowCalm(ts, lo, hi, b, c);
    }
    if FreeAbove(ts, b) {
      AboveCalm(ts, t2, lo, hi, b, f);
    } else {
      assert Calm(t2, f);
      forall c | c in t2
        ensures Calm(t2, c)
      {}
    }
  }

  lemma BelowCalm(ts: Tiles, lo: nat, hi: nat, b: nat, c: nat)
    requires Shape(ts, lo, hi) && Settled(ts) && b in ts && b != lo && !ts[b].kind.Free?
    requires Shape(SetKind(ts, b, TalcTiles.Free), lo, hi)
    requires c in MergeBelow(SetKind(ts, b, TalcTiles.Free), b) && c != MergedBase(ts, b)
    ensures var t := MergeBelow(SetKind(ts, b, TalcTiles.Free), b);
            !t[c].kind.Limbo? && (t[c].kind.Free? && t[c].acme in t ==> !t[t[c].acme].kind.Free?)
  {
    var t1 := SetKind(ts, b, TalcTiles.Free);
    assert TileOk(ts, lo, hi, b) && TileOk(ts, lo, hi, c) && Calm(ts, c);
    if ts[c].acme in ts { assert TileOk(ts, lo, hi, ts[c].acme); }
    if FreeBelow(ts, b) {
      var p := ts[b].prev;
      assert TileOk(ts, lo, hi, p) && TileOk(ts, lo, hi, lo);
      JoinCalm(t1, lo, hi, p, c);
      assert Calm(Join(t1, p), c);
    }
  }

  lemma AboveCalm(ts: Tiles, t: Tiles, lo: nat, hi: nat, b: nat, f: nat)
    requires Shape(ts, lo, hi) && Settled(ts) && b in ts && FreeAbove(ts, b)
    requires Shape(t, lo, hi) && f in t && f != lo && t[f].acme == ts[b].acme && t[f].kind.Free?
    requires t == MergeBelow(SetKind(ts, b, TalcTiles.Free), b) && f == MergedBase(ts, b)
    requires forall c :: c in t && c != f ==>
               !t[c].kind.Limbo? && (t[c].kind.Free? && t[c].acme in t ==> !t[t[c].acme].kind.Free?)
    ensures t[f].acme in t && Settled(Join(t, f))
  {
    var n := ts[b].acme;
    assert TileOk(t, lo, hi, f);
    assert TileOk(ts, lo, hi, n) && Calm(ts, n);
    assert n in t && t[n].acme == ts[n].acme && t[n].kind == ts[n].kind;
    forall c | c in Join(t, f)
      ensures Calm(Join(t, f), c)
    {
      if c != f { JoinCalm(t, lo, hi, f, c); }
    }
  }

  // ---- what callers may rely on

  /** Two live payloads never share a word, and each lies in the heap, inside its chunk, aligned as asked. */
  lemma LivePayloads(v: View, l: Site, b: nat, c: nat)
    requires Inv(v, l) && b in v.tiles && c in v.tiles && b != c
    requires v.tiles[b].kind.Used? && v.tiles[c].kind.Used?
    ensures var p, q := v.tiles[b].kind, v.tiles[c].kind;
            && (p.user + PayloadWords(p.bytes) <= q.user || q.user + PayloadWords(q.bytes) <= p.user)
            && l.lo < p.user && p.user + PayloadWords(p.bytes) < v.tiles[b].acme <= l.hi
            && Aligned(l, p.user, p.align)
  {
    assert TileOk(v.tiles, l.lo, l.hi, b) && TileOk(v.tiles, l.lo, l.hi, c);
    assert WordsOk(v, l, b) && WordsOk(v, l, c);
    assert v.tiles[b] == v.tiles[b] && v.tiles[c] == v.tiles[c];
  }

  /** The owner of a live payload may write any of its words. */
  lemma PayloadWrite(v: View, l: Site, b: nat, w: nat, val: nat)
    requires Inv(v, l) && b in v.tiles && v.tiles[b].kind.Used?
    requires v.tiles[b].kind.user <= w < v.tiles[b].kind.user + PayloadWords(v.tiles[b].kind.bytes)
    ensures w < |v.mem| && Inv(v.(mem := v.mem[w := val]), l)
  {
    assert TileOk(v.tiles, l.lo, l.hi, b) && TileOk(v.tiles, l.lo, l.hi, l.lo);
    assert WordsOk(v, l, b);
    PokeKeeps(v, l, b, w, val);
    var v' := v.(mem := v.mem[w := val]);
    forall c | c in v'.tiles
      ensures WordsOk(v', l, c) && Listed(v', l, c)
    {
      assert Listed(v, l, c);
    }
  }

  /**
   In band, a tag and the address of a tag cannot be confused: the word after a payload names an address above itself
   exactly when it is such an address, and either way leads to the chunk's tag, which names the chunk's base.
   */
  lemma TagFound(v: View, l: Site, b: nat)
    requires Inv(v, l) && b in v.tiles && v.tiles[b].kind.Used?
    ensures var acme, after := v.tiles[b].acme, v.tiles[b].kind.user + PayloadWords(v.tiles[b].kind.bytes);
            && after < acme <= |v.mem|
            && (v.mem[after] > 8 * after <==> after != acme - 1)
            && (if v.mem[after] > 8 * after then v.mem[after] == 8 * (acme - 1) else after == acme - 1)
            && v.mem[acme - 1] / 8 == b && v.mem[acme - 1] % 2 == 1
            && ((v.mem[acme - 1] / 2) % 2 == 1 <==> NextOpen(v.tiles, l.hi, b))
  {
    assert WordsOk(v, l, b);
    TagBits(b, NextOpen(v.tiles, l.hi, b));
  }

  lemma TagBits(b: nat, open: bool)
    ensures var w := 8 * b + 1 + (if open then 2 else 0); w / 8 == b && w % 2 == 1 && ((w / 2) % 2 == 1 <==> open)
  {
    var k := if open then 1 else 0;
    RemainderUnique(8 * b + 1 + 2 * k, b, 8, 1 + 2 * k);
    RemainderUnique(8 * b + 1 + 2 * k, 4 * b + k, 2, 1);
    RemainderUnique(4 * b + k, 2 * b, 2, k);
  }

  ghost function Full(lists: seq<seq<nat>>): (f: seq<bool>)
    ensures |f| == |lists|
  {
    seq(|lists|, i requires 0 <= i < |lists| => lists[i] != [])
  }

  /** Words, flags and bin occupancy are determined by the tiling. */
  lemma TilingDecides(v: View, w: View, l: Site)
    requires Inv(v, l) && Inv(w, l) && v.tiles == w.tiles
    ensures Full(v.lists) == Full(w.lists)
    ensures forall b {:trigger WordsOk(v, l, b)} :: b in v.tiles && !v.tiles[b].kind.Limbo? ==>
              0 < v.tiles[b].acme <= |v.mem| && v.tiles[b].acme <= |w.mem|
              && v.mem[v.tiles[b].acme - 1] == w.mem[v.tiles[b].acme - 1]
  {
    forall b | b in v.tiles && !v.tiles[b].kind.Limbo?
      ensures 0 < v.tiles[b].acme <= |v.mem| && v.tiles[b].acme <= |w.mem|
              && v.mem[v.tiles[b].acme - 1] == w.mem[v.tiles[b].acme - 1]
    {
      assert WordsOk(v, l, b) && WordsOk(w, l, b);
    }
    forall i | 0 <= i < l.geo.bins
      ensures v.lists[i] != [] <==> w.lists[i] != []
    {
      Occupied(v, w, l, i);
      Occupied(w, v, l, i);
    }
  }

  lemma Occupied(v: View, w: View, l: Site, i: nat)
    requires Inv(v, l) && Inv(w, l) && v.tiles == w.tiles && i < l.geo.bins
    ensures v.lists[i] != [] ==> w.lists[i] != []
  {
    assert BinListOk(v, l, i);
    if v.lists[i] != [] { assert Listed(w, l, v.lists[i][0]); }
  }

  /** The bitmap is determined by which bins have chunks. */
  lemma BitmapDecided(a: Avail, b: Avail, full: seq<bool>)
    requires Agrees(a, full) && Agrees(b, full)
    ensures a == b
  {
    forall w | 0 <= w < |a.words|
      ensures a.words[w] == b.words[w]
    {
      forall k | 0 <= k < 64
        ensures a.words[w][k] == b.words[w][k]
      {
        assert BitAgrees(a, full, w, k) && BitAgrees(b, full, w, k);
      }
    }
    assert a.words == b.words;
    assert a.summary == b.summary;
  }
}
