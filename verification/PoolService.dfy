/** What one caller gets from the pool, and what holds of every pool grown from a seeded block. */
module PoolService {
  import opened AllocTree
  import opened Buckets
  import opened Nodes
  import opened Pool
  import opened PoolAccounts
  import opened PoolAlignment
  import opened PoolGround
  import opened PoolSafety
  import opened Seeding
  import opened SizeClasses
  import opened Wrappers

  /** The last bucket of the class is popped without a size check: only its head can be too small. */
  predicate LastBucketTooSmall(p: Pool, size: nat, alignment: nat)
    requires |p.free| == SLOTS
  {
    var s := Slot(AlignmentToTree(alignment), 5);
    size > MIB && p.free[s] != [] && p.free[s][0].size < size
  }

  /** The node a malloc puts in the tree. */
  function Handed(p: Pool, size: nat, alignment: nat, supply: Option<nat>): Node
    requires |p.free| == SLOTS && alignment > 0
  {
    var c := AlignmentToTree(alignment);
    match Search(p.free, c, size)
    case Taken(b) => p.free[Slot(c, b)][0]
    case _ =>
      if Carves(p, size, alignment) then CarvedNode(p, size, alignment)
      else RefillNode(Flush(p), if supply.Some? then supply.value else 0, size)
  }

  lemma HandedIs(p: Pool, size: nat, alignment: nat, supply: Option<nat>)
    requires |p.free| == SLOTS && 0 < alignment <= MAX_ALIGNMENT
    requires !Search(p.free, AlignmentToTree(alignment), size).Dropped?
    ensures var (q, r) := Malloc(p, size, alignment, supply);
            r.Address? ==> r.address == Handed(p, size, alignment, supply).address
                           && q.alloc == Insert(p.alloc, Handed(p, size, alignment, supply))
  {
  }

  lemma TakenFits(p: Pool, size: nat, alignment: nat, supply: Option<nat>)
    requires |p.free| == SLOTS && alignment > 0
    requires var c := AlignmentToTree(alignment);
             Search(p.free, c, size).Taken? &&
             var head := p.free[Slot(c, Search(p.free, c, size).bucket)][0];
             (head.size >= size <==> size <= MIB || (p.free[Slot(c, 5)] != [] && p.free[Slot(c, 5)][0].size >= size))
    ensures Handed(p, size, alignment, supply).size >= size <==> !LastBucketTooSmall(p, size, alignment)
  {
    if size > MIB {
      assert SizeToBucket(size) == 5;
      assert Search(p.free, AlignmentToTree(alignment), size).bucket == 5;
    }
  }

  lemma MadeFits(p: Pool, size: nat, alignment: nat, supply: Option<nat>)
    requires |p.free| == SLOTS && alignment > 0 && Search(p.free, AlignmentToTree(alignment), size).Missing?
    requires p.free[Slot(AlignmentToTree(alignment), 5)] == []
    ensures Handed(p, size, alignment, supply).size >= size && !LastBucketTooSmall(p, size, alignment)
  {
    BucketsFit(size, 0);
  }

  lemma LastIsEmpty(free: seq<seq<Node>>, c: nat, size: nat)
    requires |free| == SLOTS && c < 4 && Search(free, c, size).Missing?
    ensures free[Slot(c, 5)] == []
  {
  }

  lemma LastIsPopped(free: seq<seq<Node>>, c: nat, size: nat)
    requires |free| == SLOTS && c < 4 && Search(free, c, size).Taken? && size > MIB
    ensures free[Slot(c, 5)] != []
  {
  }

  /** The node handed out is large enough if and only if the request is of at most 1 MiB, or the
      last bucket of its class is not headed by a smaller one. */
  lemma HandedFitsIff(p: Pool, size: nat, alignment: nat, supply: Option<nat>)
    requires WellFormed(p) && 0 < alignment <= MAX_ALIGNMENT
    ensures Handed(p, size, alignment, supply).size >= size <==> !LastBucketTooSmall(p, size, alignment)
  {
    var c := AlignmentToTree(alignment);
    SearchSpec(p.free, c, size);
    if Search(p.free, c, size).Taken? {
      if size > MIB {
        LastIsPopped(p.free, c, size);
      }
      TakenFits(p, size, alignment, supply);
    } else {
      LastIsEmpty(p.free, c, size);
      MadeFits(p, size, alignment, supply);
    }
  }

  lemma NewInBag(bag: multiset<Node>, n: Node, all: multiset<Node>, next: nat)
    requires bag + multiset{n} <= all && Identified(all, next)
    ensures n !in bag
  {
    assert all[n] == 1;
  }

  lemma SucceedsIff(p: Pool, size: nat, alignment: nat, supply: Option<nat>)
    requires |p.free| == SLOTS && alignment > 0 && !Search(p.free, AlignmentToTree(alignment), size).Dropped?
    ensures var r := Malloc(p, size, alignment, supply).1;
            && (r.Address? <==> alignment <= MAX_ALIGNMENT && (Refills(p, size, alignment) ==> supply.Some?))
            && (!r.Address? ==> r == Null)
  {
  }

  lemma InsertedApart(p: Pool, q: Pool, n: Node)
    requires q.alloc == Insert(p.alloc, n) && SafePool(q) && WellFormed(q)
    ensures Find(q.alloc, n.address) == Some(n) && Bag(q.alloc) == Bag(p.alloc) + multiset{n}
    ensures forall y | y in Bag(p.alloc) :: Disjoint(y.address, y.size, n.address, n.size)
  {
    InsertBag(p.alloc, n);
    NewInBag(Bag(p.alloc), n, All(q), q.next);
    ApartInTree(p.alloc, q, n);
    InsertThenRemove(p.alloc, n);
  }

  /** Malloc gives memory to its caller alone: it fails exactly when no bucket, no chunk and no
      new block can serve; otherwise the tree gains one node, under the returned address, which
      overlaps nothing that was already handed out. */
  lemma MallocHandsOut(p: Pool, size: nat, alignment: nat, supply: Option<nat>)
    requires WellFormed(p) && SafePool(p) && alignment > 0 && Allowed(p, MallocOp(size, alignment, supply))
    ensures var (q, r) := Malloc(p, size, alignment, supply);
            && (r.Address? <==> alignment <= MAX_ALIGNMENT && (Refills(p, size, alignment) ==> supply.Some?))
            && (!r.Address? ==> r == Null)
            && (r.Address? ==>
                  var n := Handed(p, size, alignment, supply);
                  && r.address == n.address && Find(q.alloc, r.address) == Some(n)
                  && Bag(q.alloc) == Bag(p.alloc) + multiset{n}
                  && forall y | y in Bag(p.alloc) :: Disjoint(y.address, y.size, n.address, n.size))
  {
    SearchSpec(p.free, AlignmentToTree(alignment), size);
    SucceedsIff(p, size, alignment, supply);
    var (q, r) := Malloc(p, size, alignment, supply);
    if r.Address? {
      HandedIs(p, size, alignment, supply);
      MallocSafe(p, size, alignment, supply);
      MallocKeeps(p, size, alignment, supply);
      InsertedApart(p, q, Handed(p, size, alignment, supply));
    }
  }

  lemma BlockSizeIs(size: nat)
    ensures BlockSize(size) == if SizeToBucketSize(size) < 16777216 then 16777216 else SizeToBucketSize(size)
  {
  }

  lemma RefillMaps(p: Pool, size: nat, supply: Option<nat>)
    requires |p.free| == SLOTS
    ensures Refill(p, size, supply).0.blocks ==
            if supply.Some? then [Block(supply.value, BlockSize(size))] + p.blocks else p.blocks
  {
  }

  /** A block is mapped only for a request that refills: one of 16 MiB, or of the request's rounded size if that is more,
      at the head of the list. */
  lemma MallocMaps(p: Pool, size: nat, alignment: nat, supply: Option<nat>)
    requires WellFormed(p) && ChunkOk(p)
    ensures var q := Malloc(p, size, alignment, supply).0;
            q.blocks ==
            if Refills(p, size, alignment) && supply.Some? then
              [Block(supply.value, if SizeToBucketSize(size) < 16777216 then 16777216 else SizeToBucketSize(size))] + p.blocks
            else p.blocks
  {
    MallocPaths(p, size, alignment, supply);
    RefillMaps(p, size, supply);
    BlockSizeIs(size);
  }

  /** Nothing at all is done for an alignment over 1 GiB, and only for those is a request refused outright. */
  lemma OverAligned(p: Pool, size: nat, alignment: nat, supply: Option<nat>)
    requires WellFormed(p) && ChunkOk(p)
    ensures alignment > 0x4000_0000 ==> Malloc(p, size, alignment, supply) == (p, Null)
    ensures alignment <= 0x4000_0000 && Malloc(p, size, alignment, supply).1 == Null ==>
              supply.None? && Refills(p, size, alignment)
  {
    if alignment == 0 {
      ZeroDivides(p, size);
    }
    SearchSpec(p.free, AlignmentToTree(alignment), size);
  }

  lemma ApartInTree(t: Tree, q: Pool, n: Node)
    requires SafePool(q) && Bag(q.alloc) == Bag(t) + multiset{n} && n !in Bag(t)
    ensures forall y | y in Bag(t) :: Disjoint(y.address, y.size, n.address, n.size) && y.address != n.address
  {
    assert n in All(q);
    forall y | y in Bag(t)
      ensures Disjoint(y.address, y.size, n.address, n.size) && y.address != n.address
    {
      assert y in All(q) && y != n;
      PairApart(q, y, n);
    }
  }

  lemma PairApart(q: Pool, x: Node, y: Node)
    requires SafePool(q) && x in All(q) && y in All(q) && x != y
    ensures Disjoint(x.address, x.size, y.address, y.size) && x.address != y.address
  {
    assert x in NodeSet(q) && y in NodeSet(q);
  }

  predicate FirstBlock(base: nat, length: nat) {
    0 < base && base % 4096 == 0 && base + length <= WORD && length >= SEEDED
  }

  /** The pool as the library sets it up over its first block. */
  ghost function FirstPool(base: nat, length: nat): (p: Pool)
    requires FirstBlock(base, length)
    ensures Seeded(p) && WellFormed(p) && p.blocks == [Block(base, length)]
    ensures p.cursor == base + SEEDED && p.remaining == length - SEEDED
  {
    SeedPoolIff(NoFreeNodes(), base, length);
    SeedPool(NoFreeNodes(), base, length)
  }

  /** Whatever a program does to that pool, it stays well formed, and as long as the system's blocks are
      within the address space no byte is unaccounted for. */
  lemma ReachableBalances(base: nat, length: nat, ops: seq<Op>)
    requires FirstBlock(base, length) && AllAddressable(ops)
    ensures var p := FirstPool(base, length);
            var q, e := Run(p, ops), RunLedger(p, ops);
            WellFormed(q) && Total(q) + e.skipped + e.dropped == Total(p) + e.mapped + e.surplus
  {
    SafeChunk(FirstPool(base, length));
    RunBytes(FirstPool(base, length), ops);
  }

  /** As long as no carve wraps and no refill is for 0 bytes, every node has an address of its own in a
      mapped block. */
  lemma ReachableIsGrounded(base: nat, length: nat, ops: seq<Op>)
    requires FirstBlock(base, length) && GroundingRun(FirstPool(base, length), ops)
    ensures GroundedPool(Run(FirstPool(base, length), ops))
  {
    SafeIsGrounded(FirstPool(base, length));
    RunGrounded(FirstPool(base, length), ops);
  }

  /** As long as no carve wraps and no refill rounds, memory is disjoint and mapped. */
  lemma ReachableIsSafe(base: nat, length: nat, ops: seq<Op>)
    requires FirstBlock(base, length) && AllowedRun(FirstPool(base, length), ops)
    ensures SafePool(Run(FirstPool(base, length), ops))
  {
    RunSafe(FirstPool(base, length), ops);
  }

  /** As long as requests keep it aligned, cursor and nodes are aligned; and the next malloc of any size returns a
      multiple of any supported alignment. */
  lemma ReachableIsAligned(base: nat, length: nat, ops: seq<Op>, size: nat, alignment: nat, supply: Option<nat>)
    requires FirstBlock(base, length) && AligningRun(FirstPool(base, length), ops)
    requires Supported(alignment) && SupplyAligned(alignment, supply)
    ensures var q := Run(FirstPool(base, length), ops);
            var r := Malloc(q, size, alignment, supply).1;
            AlignedPool(q) && (r.Address? ==> r.address % alignment == 0)
  {
    SafeChunk(FirstPool(base, length));
    RunAligned(FirstPool(base, length), ops);
    MallocAligned(Run(FirstPool(base, length), ops), size, alignment, supply);
  }
}
