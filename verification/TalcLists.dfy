/**
 Free lists in memory.  A free chunk's first words are its node: the link to the next node and, two words up, the
 address of the link that points to it.  A link holds eight times the address it names, or zero.
 */
module TalcLists {
  type Memory = seq<nat>

  const PREV_NEXT: nat := 2  // offset of the back address; a link takes two words, of which one carries it

  ghost predicate Sep(a: nat, b: nat) { a + 4 <= b || b + 4 <= a }

  ghost predicate Outside(cell: nat, a: nat) { cell < a || a + 4 <= cell }

  /** The nodes are separate from each other and from the list head cell, and lie in memory. */
  ghost predicate Placed(mem: Memory, cell: nat, nodes: seq<nat>) {
    && cell < |mem| && 0 < cell && 4 <= |mem|
    && (forall j :: 0 <= j < |nodes| ==> 0 < nodes[j] && nodes[j] + 4 <= |mem| && Outside(cell, nodes[j]))
    && (forall j, k :: 0 <= j < k < |nodes| ==> Sep(nodes[j], nodes[k]))
  }

  ghost function LinkTo(nodes: seq<nat>, j: nat): nat {
    if j < |nodes| then 8 * nodes[j] else 0
  }

  ghost function Back(cell: nat, nodes: seq<nat>, j: nat): nat
    requires j < |nodes|
  {
    if j == 0 then cell else nodes[j - 1]
  }

  ghost predicate NodeOk(mem: Memory, cell: nat, nodes: seq<nat>, j: nat)
    requires j < |nodes| && nodes[j] + 4 <= |mem|
  {
    mem[nodes[j]] == LinkTo(nodes, j + 1) && mem[nodes[j] + PREV_NEXT] == 8 * Back(cell, nodes, j)
  }

  /** The memory holds this doubly linked list at this head cell. */
  ghost predicate ListOk(mem: Memory, cell: nat, nodes: seq<nat>) {
    && Placed(mem, cell, nodes)
    && mem[cell] == LinkTo(nodes, 0)
    && (forall j :: 0 <= j < |nodes| ==> NodeOk(mem, cell, nodes, j))
  }

  /** `FreeNode::insert_by` at the head cell. */
  function InsertMem(mem: Memory, x: nat, cell: nat): (m: Memory)
    requires cell < |mem| && x + 4 <= |mem| && mem[cell] / 8 + PREV_NEXT < |mem|
    ensures |m| == |mem|
  {
    var next := mem[cell];
    var m1 := mem[x := next][x + PREV_NEXT := 8 * cell][cell := 8 * x];
    if next != 0 then m1[next / 8 + PREV_NEXT := 8 * x] else m1
  }

  /** `FreeNode::remove`. */
  function RemoveMem(mem: Memory, x: nat): (m: Memory)
    requires x + 4 <= |mem| && mem[x] / 8 + PREV_NEXT < |mem| && mem[x + PREV_NEXT] / 8 < |mem|
    ensures |m| == |mem|
  {
    var next, back := mem[x], mem[x + PREV_NEXT];
    var m1 := mem[back / 8 := next];
    if next != 0 then m1[next / 8 + PREV_NEXT := back] else m1
  }

  lemma HeadLink(mem: Memory, cell: nat, nodes: seq<nat>)
    requires ListOk(mem, cell, nodes)
    ensures nodes == [] ==> mem[cell] == 0
    ensures nodes != [] ==> mem[cell] == 8 * nodes[0] && mem[cell] / 8 == nodes[0] && nodes[0] + 4 <= |mem|
    ensures mem[cell] / 8 + PREV_NEXT < |mem|
  {}

  /** Inserting at the head gives the list with the new node in front. */
  lemma InsertList(mem: Memory, cell: nat, nodes: seq<nat>, x: nat)
    requires ListOk(mem, cell, nodes) && Placed(mem, cell, [x] + nodes) && x + 4 <= |mem|
    ensures mem[cell] / 8 + PREV_NEXT < |mem|
    ensures ListOk(InsertMem(mem, x, cell), cell, [x] + nodes)
  {
    HeadLink(mem, cell, nodes);
    var all := [x] + nodes;
    assert all[0] == x;
    var m := InsertMem(mem, x, cell);
    assert m[cell] == 8 * x;
    forall j | 0 <= j < |all|
      ensures NodeOk(m, cell, all, j)
    {
      if j == 0 {
        if nodes != [] { assert Sep(all[0], all[1]); }
      } else {
        assert all[j] == nodes[j - 1];
        assert Sep(all[0], all[j]);
        assert NodeOk(mem, cell, nodes, j - 1);
        if j > 1 {
          assert all[j - 1] == nodes[j - 2];
          assert Sep(nodes[0], nodes[j - 1]);
        }
      }
    }
  }

  /** Inserting writes only the new node, the head cell and the back address of the old first node. */
  lemma InsertFrame(mem: Memory, cell: nat, nodes: seq<nat>, x: nat, a: nat)
    requires ListOk(mem, cell, nodes) && x + 4 <= |mem| && a < |mem|
    requires a != x && a != x + PREV_NEXT && a != cell && (nodes != [] ==> a != nodes[0] + PREV_NEXT)
    ensures mem[cell] / 8 + PREV_NEXT < |mem| && InsertMem(mem, x, cell)[a] == mem[a]
  {
    HeadLink(mem, cell, nodes);
  }

  ghost function Without(nodes: seq<nat>, i: nat): seq<nat>
    requires i < |nodes|
  {
    nodes[..i] + nodes[i + 1..]
  }

  lemma NodeLinks(mem: Memory, cell: nat, nodes: seq<nat>, i: nat)
    requires ListOk(mem, cell, nodes) && i < |nodes|
    ensures var x := nodes[i];
            && x + 4 <= |mem| && mem[x] == LinkTo(nodes, i + 1) && mem[x + PREV_NEXT] == 8 * Back(cell, nodes, i)
            && mem[x] / 8 + PREV_NEXT < |mem| && mem[x + PREV_NEXT] / 8 < |mem|
            && mem[x + PREV_NEXT] / 8 == Back(cell, nodes, i)
            && (i + 1 < |nodes| ==> mem[x] != 0 && mem[x] / 8 == nodes[i + 1])
  {
    assert NodeOk(mem, cell, nodes, i);
    if i + 1 < |nodes| { assert 0 < nodes[i + 1] && nodes[i + 1] + 4 <= |mem|; }
    if i > 0 { assert nodes[i - 1] + 4 <= |mem|; }
  }

  /** Removing the i-th node gives the list without it. */
  lemma RemoveList(mem: Memory, cell: nat, nodes: seq<nat>, i: nat)
    requires ListOk(mem, cell, nodes) && i < |nodes|
    ensures nodes[i] + 4 <= |mem| && mem[nodes[i]] / 8 + PREV_NEXT < |mem|
            && mem[nodes[i] + PREV_NEXT] / 8 < |mem|
    ensures ListOk(RemoveMem(mem, nodes[i]), cell, Without(nodes, i))
  {
    NodeLinks(mem, cell, nodes, i);
    var m := RemoveMem(mem, nodes[i]);
    var rest := Without(nodes, i);
    forall j | 0 <= j < |rest|
      ensures rest[j] == nodes[if j < i then j else j + 1]
    {}
    assert Placed(m, cell, rest) by { WithoutPlaced(mem, m, cell, nodes, i); }
    assert m[cell] == LinkTo(rest, 0) by { RemoveHead(mem, cell, nodes, i); }
    forall j | 0 <= j < |rest|
      ensures NodeOk(m, cell, rest, j)
    {
      RemoveNode(mem, cell, nodes, i, j);
    }
  }

  lemma WithoutPlaced(mem: Memory, m: Memory, cell: nat, nodes: seq<nat>, i: nat)
    requires Placed(mem, cell, nodes) && i < |nodes| && |m| == |mem|
    ensures Placed(m, cell, Without(nodes, i))
  {
    var rest := Without(nodes, i);
    assert forall j :: 0 <= j < |rest| ==> rest[j] == nodes[if j < i then j else j + 1];
  }

  lemma RemoveHead(mem: Memory, cell: nat, nodes: seq<nat>, i: nat)
    requires ListOk(mem, cell, nodes) && i < |nodes|
    requires nodes[i] + 4 <= |mem| && mem[nodes[i]] / 8 + PREV_NEXT < |mem| && mem[nodes[i] + PREV_NEXT] / 8 < |mem|
    ensures RemoveMem(mem, nodes[i])[cell] == LinkTo(Without(nodes, i), 0)
  {
    NodeLinks(mem, cell, nodes, i);
    var rest := Without(nodes, i);
    if i == 0 {
      if |nodes| > 1 { assert rest[0] == nodes[1]; assert Outside(cell, nodes[1]); }
    } else {
      assert rest[0] == nodes[0];
      assert Outside(cell, nodes[i - 1]);
      if i + 1 < |nodes| { assert Outside(cell, nodes[i + 1]); }
    }
  }

  lemma RemoveNode(mem: Memory, cell: nat, nodes: seq<nat>, i: nat, j: nat)
    requires ListOk(mem, cell, nodes) && i < |nodes| && j < |nodes| - 1
    requires nodes[i] + 4 <= |mem| && mem[nodes[i]] / 8 + PREV_NEXT < |mem| && mem[nodes[i] + PREV_NEXT] / 8 < |mem|
    requires Placed(RemoveMem(mem, nodes[i]), cell, Without(nodes, i))
    ensures NodeOk(RemoveMem(mem, nodes[i]), cell, Without(nodes, i), j)
  {
    NodeLinks(mem, cell, nodes, i);
    var o := if j < i then j else j + 1;
    var rest := Without(nodes, i);
    assert rest[j] == nodes[o];
    assert NodeOk(mem, cell, nodes, o);
    assert j + 1 < |rest| ==> rest[j + 1] == nodes[if j + 1 < i then j + 1 else j + 2];
    assert j > 0 ==> rest[j - 1] == nodes[if j - 1 < i then j - 1 else j];
    assert Outside(cell, nodes[o]);
    if i > 0 && o != i - 1 { SepPair(mem, cell, nodes, o, i - 1); }
    if i + 1 < |nodes| && o != i + 1 { SepPair(mem, cell, nodes, o, i + 1); }
  }

  lemma SepPair(mem: Memory, cell: nat, nodes: seq<nat>, j: nat, k: nat)
    requires Placed(mem, cell, nodes) && j < |nodes| && k < |nodes| && j != k
    ensures Sep(nodes[j], nodes[k])
  {
    if j < k { assert Sep(nodes[j], nodes[k]); } else { assert Sep(nodes[k], nodes[j]); }
  }

  /** Removing writes only the link before the node and the back address after it. */
  lemma RemoveFrame(mem: Memory, cell: nat, nodes: seq<nat>, i: nat, a: nat)
    requires ListOk(mem, cell, nodes) && i < |nodes| && a < |mem|
    requires a != Back(cell, nodes, i) && (i + 1 < |nodes| ==> a != nodes[i + 1] + PREV_NEXT)
    ensures nodes[i] + 4 <= |mem| && mem[nodes[i]] / 8 + PREV_NEXT < |mem|
            && mem[nodes[i] + PREV_NEXT] / 8 < |mem|
    ensures RemoveMem(mem, nodes[i])[a] == mem[a]
  {
    NodeLinks(mem, cell, nodes, i);
  }

  /** A list is not disturbed by writes elsewhere. */
  lemma ListFrame(mem: Memory, m: Memory, cell: nat, nodes: seq<nat>)
    requires ListOk(mem, cell, nodes) && |m| == |mem| && m[cell] == mem[cell]
    requires forall j :: 0 <= j < |nodes| ==>
               m[nodes[j]] == mem[nodes[j]] && m[nodes[j] + PREV_NEXT] == mem[nodes[j] + PREV_NEXT]
    ensures ListOk(m, cell, nodes)
  {
    forall j | 0 <= j < |nodes|
      ensures NodeOk(m, cell, nodes, j)
    {
      assert NodeOk(mem, cell, nodes, j);
    }
  }
}
