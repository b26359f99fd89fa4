/** Which bytes belong to whom: the intervals of the nodes and of the unused chunk. */
module Territory {
  import opened Nodes
  import opened Pool
  import opened SizeClasses

  ghost predicate Inside(blocks: seq<Block>, a: nat, n: nat) {
    exists i | 0 <= i < |blocks| :: blocks[i].base <= a && a + n <= blocks[i].base + blocks[i].length
  }

  ghost predicate Clear(nodes: set<Node>, a: nat, n: nat) {
    forall x | x in nodes :: Disjoint(x.address, x.size, a, n)
  }

  ghost predicate FreshBlock(blocks: seq<Block>, b: Block) {
    && 0 < b.base && b.base + b.length <= WORD
    && forall i | 0 <= i < |blocks| :: Disjoint(blocks[i].base, blocks[i].length, b.base, b.length)
  }

  ghost predicate BlocksApart(blocks: seq<Block>) {
    && (forall i | 0 <= i < |blocks| :: 0 < blocks[i].base && blocks[i].base + blocks[i].length <= WORD)
    && (forall i, j | 0 <= i < j < |blocks| ::
          Disjoint(blocks[i].base, blocks[i].length, blocks[j].base, blocks[j].length))
  }

  ghost predicate NodesApart(nodes: set<Node>, blocks: seq<Block>) {
    && (forall x | x in nodes :: x.size > 0 && Inside(blocks, x.address, x.size))
    && (forall x, y | x in nodes && y in nodes && x != y :: Disjoint(x.address, x.size, y.address, y.size))
  }

  /** Node intervals and the chunk are pairwise disjoint and lie inside mapped blocks, which are
      themselves disjoint. */
  ghost predicate Safe(nodes: set<Node>, cursor: nat, remaining: nat, blocks: seq<Block>) {
    && BlocksApart(blocks)
    && NodesApart(nodes, blocks)
    && (remaining > 0 ==> Inside(blocks, cursor, remaining) && Clear(nodes, cursor, remaining))
  }

  lemma TakeFront(nodes: set<Node>, cursor: nat, remaining: nat, blocks: seq<Block>, k: nat, n: Node)
    requires Safe(nodes, cursor, remaining, blocks) && 0 < k <= remaining
    requires n.size > 0 && cursor <= n.address && n.address + n.size <= cursor + k
    ensures Safe(nodes + {n}, cursor + k, remaining - k, blocks)
  {
    var i :| 0 <= i < |blocks| && blocks[i].base <= cursor && cursor + remaining <= blocks[i].base + blocks[i].length;
    assert Inside(blocks, n.address, n.size);
    assert Inside(blocks, cursor + k, remaining - k);
  }

  lemma DropChunk(nodes: set<Node>, cursor: nat, remaining: nat, blocks: seq<Block>)
    requires Safe(nodes, cursor, remaining, blocks)
    ensures Safe(nodes, 0, 0, blocks)
  {
  }

  lemma InsideMore(blocks: seq<Block>, b: Block, a: nat, n: nat)
    requires Inside(blocks, a, n)
    ensures Inside([b] + blocks, a, n)
  {
    var i :| 0 <= i < |blocks| && blocks[i].base <= a && a + n <= blocks[i].base + blocks[i].length;
    assert ([b] + blocks)[i + 1] == blocks[i];
  }

  lemma AddBlock(nodes: set<Node>, blocks: seq<Block>, b: Block)
    requires Safe(nodes, 0, 0, blocks) && FreshBlock(blocks, b)
    ensures Safe(nodes, b.base, b.length, [b] + blocks)
    ensures Safe(nodes, 0, 0, [b] + blocks)
  {
    var bs := [b] + blocks;
    forall i, j | 0 <= i < j < |bs|
      ensures Disjoint(bs[i].base, bs[i].length, bs[j].base, bs[j].length)
    {
      assert bs[j] == blocks[j - 1] && (i > 0 ==> bs[i] == blocks[i - 1]);
    }
    forall x | x in nodes
      ensures Inside(bs, x.address, x.size) && Disjoint(x.address, x.size, b.base, b.length)
    {
      InsideMore(blocks, b, x.address, x.size);
    }
    assert bs[0] == b;
    assert Inside(bs, b.base, b.length);
  }
}
