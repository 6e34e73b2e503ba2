/**
 What the words of the heap say about its tiling, and the elementary changes an allocation or a release is made of.
 A tag is eight times the chunk's base plus flag bits: 1 for allocated, 2 for "the chunk above is free".
 */
module TalcHeap {
  import opened TalcGeometry
  import opened TalcTiles
  import opened TalcLists

  // `cells` is the first bin head, two words each; `origin` the absolute address of word 0, in words.
  datatype Site = Site(geo: Geometry, lo: nat, hi: nat, cells: nat, origin: nat)

  datatype View = View(mem: Memory, tiles: Tiles, lists: seq<seq<nat>>)

  function Cell(l: Site, i: nat): nat { l.cells + 2 * i }

  ghost function Length(ts: Tiles, b: nat): nat
    requires b in ts
  {
    if ts[b].acme >= b then ts[b].acme - b else 0
  }

  ghost function BinOf(l: Site, ts: Tiles, b: nat): nat
    requires b in ts && l.geo.bins > 0
  {
    l.geo.Bin(8 * Length(ts, b))
  }

  ghost predicate SiteOk(l: Site, mem: Memory, ts: Tiles) {
    && l.lo in ts && l.geo.bins > 0 && l.hi <= |mem| && 4 <= |mem|
    && l.lo < l.cells && l.cells + 2 * l.geo.bins < ts[l.lo].acme
  }

  /** The words needed for a payload of this many bytes. */
  function PayloadWords(bytes: nat): nat { (bytes + 7) / 8 }

  ghost predicate Aligned(l: Site, user: nat, align: nat) {
    align > 8 ==> align % 8 == 0 && (l.origin + user) % (align / 8) == 0
  }

  /** The payload lies inside the chunk below its tag, aligned; the word after it is the tag or points to the tag. */
  ghost predicate PayloadOk(l: Site, mem: Memory, b: nat, acme: nat, user: nat, bytes: nat, align: nat) {
    var after := user + PayloadWords(bytes);
    && bytes > 0 && align > 0 && b <= user && after < acme <= |mem| && Aligned(l, user, align)
    && (after != acme - 1 ==> mem[after] == 8 * (acme - 1))
  }

  ghost function TagWord(ts: Tiles, hi: nat, b: nat): nat
    requires b in ts
  {
    8 * b + 1 + (if NextOpen(ts, hi, b) then 2 else 0)
  }

  ghost predicate WordsOk(v: View, l: Site, b: nat)
    requires b in v.tiles
  {
    var t := v.tiles[b];
    && b + MIN_CHUNK <= t.acme <= |v.mem|
    && match t.kind
       case Meta => v.mem[t.acme - 1] == TagWord(v.tiles, l.hi, b)
       case Used(user, bytes, align) =>
         v.mem[t.acme - 1] == TagWord(v.tiles, l.hi, b) && PayloadOk(l, v.mem, b, t.acme, user, bytes, align)
       case Free => v.mem[b + 3] == 8 * (t.acme - b) && v.mem[t.acme - 1] == 8 * (t.acme - b)
       case Limbo(_) => true
  }

  ghost predicate BinListOk(v: View, l: Site, i: nat)
    requires i < |v.lists| && l.geo.bins > 0
  {
    && ListOk(v.mem, Cell(l, i), v.lists[i])
    && (forall j :: 0 <= j < |v.lists[i]| ==>
          v.lists[i][j] in v.tiles && v.tiles[v.lists[i][j]].kind.Free? && BinOf(l, v.tiles, v.lists[i][j]) == i)
  }

  ghost predicate Listed(v: View, l: Site, b: nat)
    requires b in v.tiles && l.geo.bins > 0 && |v.lists| == l.geo.bins
  {
    v.tiles[b].kind.Free? ==> b in v.lists[BinOf(l, v.tiles, b)]
  }

  ghost predicate Inv(v: View, l: Site) {
    && Shape(v.tiles, l.lo, l.hi) && SiteOk(l, v.mem, v.tiles) && |v.lists| == l.geo.bins
    && (forall b {:trigger WordsOk(v, l, b)} :: b in v.tiles ==> WordsOk(v, l, b))
    && (forall i {:trigger BinListOk(v, l, i)} :: 0 <= i < |v.lists| ==> BinListOk(v, l, i))
    && (forall b {:trigger Listed(v, l, b)} :: b in v.tiles ==> Listed(v, l, b))
  }

  /** Words of different chunks are different words. */
  lemma DifferentWords(ts: Tiles, b: nat, c: nat, x: nat, y: nat)
    requires Apart(ts) && b in ts && c in ts && b != c && b <= x < ts[b].acme && c <= y < ts[c].acme
    ensures x != y
  {
    assert ts[b] == ts[b] && ts[c] == ts[c];
  }

  lemma CellInMeta(v: View, l: Site, i: nat)
    requires Inv(v, l) && i < l.geo.bins
    ensures l.lo < Cell(l, i) && Cell(l, i) + 1 < v.tiles[l.lo].acme - 1
  {}

  /** Two bin heads are different words. */
  lemma CellsDiffer(l: Site, i: nat, j: nat)
    requires i != j
    ensures Cell(l, i) != Cell(l, j)
  {}

  /** The words list surgery on bin i may write: its head cell and the nodes of its free chunks. */
  ghost predicate ListWord(v: View, l: Site, i: nat, x: nat, w: nat) {
    || w == Cell(l, i)
    || w == x || w == x + PREV_NEXT
    || (i < |v.lists| && exists j :: 0 <= j < |v.lists[i]| && (w == v.lists[i][j] || w == v.lists[i][j] + PREV_NEXT))
  }

  /** No word that describes another chunk is written by list surgery on bin i around node x. */
  lemma SurgeryMisses(v: View, l: Site, i: nat, x: nat, b: nat, w: nat, y: nat)
    requires Inv(v, l) && i < l.geo.bins && b in v.tiles && x in v.tiles
    requires ListWord(v, l, i, x, y)
    requires b <= w < v.tiles[b].acme
    requires b == l.lo ==> w != Cell(l, i)
    requires b == x ==> w != x && w != x + PREV_NEXT
    requires v.tiles[b].kind.Free? ==> w != b && w != b + PREV_NEXT
    ensures w != y
  {
    CellInMeta(v, l, i);
    assert TileOk(v.tiles, l.lo, l.hi, x);
    if y == Cell(l, i) {
      if b != l.lo { DifferentWords(v.tiles, b, l.lo, w, y); }
    } else if y == x || y == x + PREV_NEXT {
      if b != x { DifferentWords(v.tiles, b, x, w, y); }
    } else {
      assert BinListOk(v, l, i);
      var j :| 0 <= j < |v.lists[i]| && (y == v.lists[i][j] || y == v.lists[i][j] + PREV_NEXT);
      var n := v.lists[i][j];
      assert TileOk(v.tiles, l.lo, l.hi, n);
      if b != n { DifferentWords(v.tiles, b, n, w, y); }
    }
  }

  /** Only list words of bin i around x, and words of x above its node, differ from the view's memory. */
  ghost predicate Surgery(v: View, m: Memory, l: Site, i: nat, x: nat)
    requires x in v.tiles
  {
    && |m| == |v.mem|
    && (forall w {:trigger m[w]} :: 0 <= w < |m| && !ListWord(v, l, i, x, w) && !(x + 3 <= w < v.tiles[x].acme) ==>
          m[w] == v.mem[w])
  }

  lemma WordKept(v: View, m: Memory, l: Site, i: nat, x: nat, b: nat, w: nat)
    requires Inv(v, l) && i < l.geo.bins && x in v.tiles && Surgery(v, m, l, i, x)
    requires b in v.tiles && b != x && b <= w < v.tiles[b].acme
    requires b == l.lo ==> w != Cell(l, i)
    requires v.tiles[b].kind.Free? ==> w != b && w != b + PREV_NEXT
    ensures w < |m| && m[w] == v.mem[w]
  {
    assert TileOk(v.tiles, l.lo, l.hi, b);
    assert TileOk(v.tiles, l.lo, l.hi, x);
    if ListWord(v, l, i, x, w) { SurgeryMisses(v, l, i, x, b, w, w); assert false; }
    if x + 3 <= w < v.tiles[x].acme { DifferentWords(v.tiles, b, x, w, w); assert false; }
  }

  /** The words describing another chunk are as before. */
  lemma OthersKept(v: View, m: Memory, l: Site, i: nat, x: nat, b: nat)
    requires Inv(v, l) && i < l.geo.bins && x in v.tiles && Surgery(v, m, l, i, x)
    requires b in v.tiles && b != x
    ensures v.tiles[b].acme <= |m| && v.tiles[b].acme >= b + MIN_CHUNK
    ensures m[v.tiles[b].acme - 1] == v.mem[v.tiles[b].acme - 1]
    ensures v.tiles[b].kind.Free? ==> m[b + 3] == v.mem[b + 3]
    ensures match v.tiles[b].kind
            case Used(user, bytes, _) =>
              user + PayloadWords(bytes) < |m| && m[user + PayloadWords(bytes)] == v.mem[user + PayloadWords(bytes)]
            case _ => true
  {
    assert TileOk(v.tiles, l.lo, l.hi, b);
    assert WordsOk(v, l, b);
    if b == l.lo { CellInMeta(v, l, i); }
    WordKept(v, m, l, i, x, b, v.tiles[b].acme - 1);
    match v.tiles[b].kind
    case Used(user, bytes, _) => WordKept(v, m, l, i, x, b, user + PayloadWords(bytes));
    case Free => WordKept(v, m, l, i, x, b, b + 3);
    case _ =>
  }

  /** The list of another bin is as before. */
  lemma OtherListKept(v: View, m: Memory, l: Site, i: nat, x: nat, k: nat)
    requires Inv(v, l) && i < l.geo.bins && x in v.tiles && Surgery(v, m, l, i, x)
    requires k < l.geo.bins && k != i && (v.tiles[x].kind.Free? ==> BinOf(l, v.tiles, x) == i) && x != l.lo
    ensures ListOk(m, Cell(l, k), v.lists[k])
  {
    assert BinListOk(v, l, k);
    CellInMeta(v, l, k);
    CellsDiffer(l, i, k);
    assert TileOk(v.tiles, l.lo, l.hi, l.lo);
    WordKept(v, m, l, i, x, l.lo, Cell(l, k));
    forall j | 0 <= j < |v.lists[k]|
      ensures m[v.lists[k][j]] == v.mem[v.lists[k][j]]
              && m[v.lists[k][j] + PREV_NEXT] == v.mem[v.lists[k][j] + PREV_NEXT]
    {
      OtherNodeKept(v, m, l, i, x, k, j);
    }
    ListFrame(v.mem, m, Cell(l, k), v.lists[k]);
  }

  lemma OtherNodeKept(v: View, m: Memory, l: Site, i: nat, x: nat, k: nat, j: nat)
    requires Inv(v, l) && i < l.geo.bins && x in v.tiles && Surgery(v, m, l, i, x)
    requires k < l.geo.bins && k != i && (v.tiles[x].kind.Free? ==> BinOf(l, v.tiles, x) == i) && x != l.lo
    requires j < |v.lists[k]|
    ensures var n := v.lists[k][j]; n + 4 <= |m| && m[n] == v.mem[n] && m[n + PREV_NEXT] == v.mem[n + PREV_NEXT]
  {
    assert BinListOk(v, l, k);
    var n := v.lists[k][j];
    assert TileOk(v.tiles, l.lo, l.hi, n);
    forall w | w == n || w == n + PREV_NEXT
      ensures m[w] == v.mem[w]
    {
      assert !ListWord(v, l, i, x, w) by { NodeNotListWord(v, l, i, x, n, w); }
      if x + 3 <= w < v.tiles[x].acme { DifferentWords(v.tiles, n, x, w, w); }
    }
  }

  lemma NodeNotListWord(v: View, l: Site, i: nat, x: nat, n: nat, w: nat)
    requires Inv(v, l) && i < l.geo.bins && x in v.tiles && n in v.tiles && n != x && n <= w < n + 4
    requires v.tiles[n].kind.Free? && BinOf(l, v.tiles, n) != i
    ensures !ListWord(v, l, i, x, w)
  {
    assert BinListOk(v, l, i);
    CellInMeta(v, l, i);
    assert TileOk(v.tiles, l.lo, l.hi, n) && TileOk(v.tiles, l.lo, l.hi, x) && TileOk(v.tiles, l.lo, l.hi, l.lo);
    if w == Cell(l, i) { DifferentWords(v.tiles, n, l.lo, w, w); }
    if w == x || w == x + PREV_NEXT { DifferentWords(v.tiles, n, x, w, w); }
    forall j | 0 <= j < |v.lists[i]|
      ensures w != v.lists[i][j] && w != v.lists[i][j] + PREV_NEXT
    {
      var p := v.lists[i][j];
      assert TileOk(v.tiles, l.lo, l.hi, p);
      DifferentWords(v.tiles, n, p, w, p);
      DifferentWords(v.tiles, n, p, w, p + PREV_NEXT);
    }
  }
}
