/** What survives even a refill that rounds: every node has an address of its own, inside a mapped block
    and outside the chunk.  It is the safety of memory, said of the first byte of each node only. */
module PoolGround {
  import opened Buckets
  import opened Nodes
  import opened Pool
  import opened PoolSafety
  import opened SizeClasses
  import opened Territory
  import opened Wrappers

  ghost function Starts(p: Pool): set<Node> {
    set n | n in All(p) :: n.(size := 1)
  }

  ghost predicate GroundedPool(p: Pool) {
    Safe(Starts(p), p.cursor, p.remaining, p.blocks)
  }

  /** The part of it that reuse rests on: addresses are distinct, none is in the chunk, and the chunk ends
      within the address space. */
  ghost predicate Placed(p: Pool) {
    && ChunkOk(p)
    && (forall x, y | x in All(p) && y in All(p) && x.address == y.address :: x == y)
    && (forall x | x in All(p) && p.remaining > 0 :: Disjoint(x.address, 1, p.cursor, p.remaining))
  }

  lemma InsideFront(blocks: seq<Block>, a: nat, n: nat)
    requires Inside(blocks, a, n) && n > 0
    ensures Inside(blocks, a, 1)
  {
    var i :| 0 <= i < |blocks| && blocks[i].base <= a && a + n <= blocks[i].base + blocks[i].length;
  }

  lemma StartOf(p: Pool, x: Node) returns (n: Node)
    requires x in Starts(p)
    ensures n in NodeSet(p) && n.address == x.address && x == n.(size := 1)
  {
    n :| n in All(p) && x == n.(size := 1);
  }

  lemma StartsApart(p: Pool)
    requires NodesApart(NodeSet(p), p.blocks)
    ensures NodesApart(Starts(p), p.blocks)
  {
    forall x | x in Starts(p)
      ensures x.size > 0 && Inside(p.blocks, x.address, x.size)
    {
      var n := StartOf(p, x);
      InsideFront(p.blocks, n.address, n.size);
    }
    forall x, y | x in Starts(p) && y in Starts(p) && x != y
      ensures Disjoint(x.address, x.size, y.address, y.size)
    {
      var m := StartOf(p, x);
      var n := StartOf(p, y);
    }
  }

  lemma StartsClear(p: Pool)
    requires NodesApart(NodeSet(p), p.blocks) && Clear(NodeSet(p), p.cursor, p.remaining)
    ensures Clear(Starts(p), p.cursor, p.remaining)
  {
    forall x | x in Starts(p)
      ensures Disjoint(x.address, x.size, p.cursor, p.remaining)
    {
      var n := StartOf(p, x);
    }
  }

  /** A pool whose nodes are disjoint is grounded. */
  lemma SafeIsGrounded(p: Pool)
    requires SafePool(p)
    ensures GroundedPool(p)
  {
    StartsApart(p);
    if p.remaining > 0 {
      StartsClear(p);
    }
  }

  lemma GroundedChunk(p: Pool)
    requires GroundedPool(p)
    ensures ChunkOk(p)
  {
  }

  lemma GroundedIsPlaced(p: Pool)
    requires GroundedPool(p) && Identified(All(p), p.next)
    ensures Placed(p)
  {
    forall x, y | x in All(p) && y in All(p) && x.address == y.address
      ensures x == y
    {
      assert x.(size := 1) in Starts(p) && y.(size := 1) in Starts(p);
    }
    forall x | x in All(p) && p.remaining > 0
      ensures Disjoint(x.address, 1, p.cursor, p.remaining)
    {
      assert x.(size := 1) in Starts(p);
    }
  }

  lemma StartsPlus(p: Pool, q: Pool, n: Node)
    requires All(q) == All(p) + multiset{n}
    ensures Starts(q) == Starts(p) + {n.(size := 1)}
  {
    forall x | x in Starts(q)
      ensures x in Starts(p) + {n.(size := 1)}
    {
      var m := StartOf(q, x);
      assert m in All(p) || m == n;
    }
    forall x | x in Starts(p)
      ensures x in Starts(q)
    {
      var m := StartOf(p, x);
      assert m in All(q);
    }
    assert n in All(q);
  }

  lemma CarveGrounded(p: Pool, size: nat, alignment: nat)
    requires GroundedPool(p) && Carves(p, size, alignment) && Needed(p, size, alignment) < WORD
    ensures GroundedPool(Carve(p, size, alignment))
  {
    GroundedChunk(p);
    var k := CarvedAddress(p, size, alignment);
    CarveFields(p, size, alignment, k);
    var n, q := CarvedNode(p, size, alignment), Carve(p, size, alignment);
    CarveAll(p, size, alignment);
    StartsPlus(p, q, n);
    TakeFront(Starts(p), p.cursor, p.remaining, p.blocks, k, n.(size := 1));
    DropChunk(Starts(q), p.cursor + k, p.remaining - k, p.blocks);
  }

  lemma FlushGrounded(p: Pool)
    requires |p.free| == SLOTS && GroundedPool(p)
    ensures GroundedPool(Flush(p))
  {
    FlushAll(p);
    if Flushes(p) {
      var n := FlushNode(p);
      StartsPlus(p, Flush(p), n);
      TakeFront(Starts(p), p.cursor, p.remaining, p.blocks, p.remaining, n.(size := 1));
      DropChunk(Starts(Flush(p)), p.cursor + p.remaining, 0, p.blocks);
    } else {
      DropChunk(Starts(p), p.cursor, p.remaining, p.blocks);
    }
  }

  /** Taking over a new block keeps the pool grounded, rounded or not, if and only if the request is not
      for 0 bytes: then the cursor is left on the node just made. */
  lemma AdoptGroundedIff(p: Pool, base: nat, request: nat)
    requires GroundedPool(p) && FreshBlock(p.blocks, Block(base, BlockSize(request)))
    ensures GroundedPool(Adopt(p, base, request)) <==> request > 0
  {
    var q, n, b := Adopt(p, base, request), RefillNode(p, base, request), Block(base, BlockSize(request));
    AdoptAll(p, base, request);
    StartsPlus(p, q, n);
    if request > 0 {
      DropChunk(Starts(p), p.cursor, p.remaining, p.blocks);
      AddBlock(Starts(p), p.blocks, b);
      TakeFront(Starts(p), b.base, b.length, q.blocks, request, n.(size := 1));
    } else {
      assert n.(size := 1) in Starts(q);
      assert !Disjoint(base, 1, q.cursor, q.remaining);
    }
  }

  lemma RefillGrounded(p: Pool, size: nat, supply: Option<nat>)
    requires |p.free| == SLOTS && GroundedPool(p) && (supply.Some? ==> size > 0)
    requires supply.Some? ==> FreshBlock(p.blocks, Block(supply.value, BlockSize(size)))
    ensures GroundedPool(Refill(p, size, supply).0)
  {
    FlushGrounded(p);
    if supply.Some? {
      AdoptGroundedIff(Flush(p), supply.value, size);
    }
  }

  /** What is asked of an operation: no wrap of the carve's sum, a refill for at least one byte, and a
      supplied block that is new. */
  ghost predicate Grounding(p: Pool, op: Op)
    requires |p.free| == SLOTS
  {
    op.MallocOp? ==>
      && (Cuts(p, op.size, op.alignment) ==> Needed(p, op.size, op.alignment) < WORD)
      && (Refills(p, op.size, op.alignment) && op.supply.Some? ==> op.size > 0)
      && (op.supply.Some? ==> FreshBlock(p.blocks, Block(op.supply.value, BlockSize(op.size))))
  }

  lemma SameStarts(p: Pool, q: Pool)
    requires All(q) == All(p)
    ensures Starts(q) == Starts(p)
  {
  }

  lemma MallocGrounded(p: Pool, size: nat, alignment: nat, supply: Option<nat>)
    requires WellFormed(p) && GroundedPool(p) && Grounding(p, MallocOp(size, alignment, supply))
    ensures GroundedPool(Malloc(p, size, alignment, supply).0)
  {
    GroundedChunk(p);
    MallocPaths(p, size, alignment, supply);
    if Cuts(p, size, alignment) {
      CarveGrounded(p, size, alignment);
    } else if Refills(p, size, alignment) {
      RefillGrounded(p, size, supply);
    } else if Malloc(p, size, alignment, supply).0 != p {
      var s := Slot(AlignmentToTree(alignment), Search(p.free, AlignmentToTree(alignment), size).bucket);
      ServeKeeps(p, s);
      SameStarts(p, Serve(p, s));
    }
  }

  lemma StepGrounded(p: Pool, op: Op)
    requires WellFormed(p) && GroundedPool(p) && Grounding(p, op)
    ensures GroundedPool(Apply(p, op).0)
  {
    match op
    case FreeOp(address) =>
      FreeKeeps(p, address);
      SameStarts(p, Free(p, address));
    case MallocOp(size, alignment, supply) => MallocGrounded(p, size, alignment, supply);
  }

  ghost predicate GroundingRun(p: Pool, ops: seq<Op>)
    requires WellFormed(p)
    decreases |ops|
  {
    |ops| > 0 ==> Grounding(p, ops[0]) && GroundingRun(Apply(p, ops[0]).0, ops[1..])
  }

  /** Over whole runs, refills of any size above 0 included. */
  lemma {:induction false} RunGrounded(p: Pool, ops: seq<Op>)
    requires WellFormed(p) && GroundedPool(p) && GroundingRun(p, ops)
    ensures GroundedPool(Run(p, ops))
    decreases |ops|
  {
    if |ops| > 0 {
      StepGrounded(p, ops[0]);
      RunGrounded(Apply(p, ops[0]).0, ops[1..]);
    }
  }
}
