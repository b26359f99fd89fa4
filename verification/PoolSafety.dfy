/** No run of malloc and free hands out overlapping memory, as long as each request that has to
    refill is for a size that needs no rounding; that condition is exact. */
module PoolSafety {
  import opened Buckets
  import opened Nodes
  import opened Pool
  import opened SizeClasses
  import opened Territory
  import opened Wrappers

  ghost function NodeSet(p: Pool): set<Node> {
    set n | n in All(p)
  }

  ghost predicate SafePool(p: Pool) {
    Safe(NodeSet(p), p.cursor, p.remaining, p.blocks)
  }

  datatype Op = MallocOp(size: nat, alignment: nat, supply: Option<nat>) | FreeOp(address: nat)

  ghost function Apply(p: Pool, op: Op): (r: (Pool, Outcome))
    requires WellFormed(p)
    ensures WellFormed(r.0)
  {
    match op
    case MallocOp(size, alignment, supply) => MallocKeeps(p, size, alignment, supply); Malloc(p, size, alignment, supply)
    case FreeOp(address) => FreeKeeps(p, address); (Free(p, address), Null)
  }

  ghost function Run(p: Pool, ops: seq<Op>): (q: Pool)
    requires WellFormed(p)
    ensures WellFormed(q)
    decreases |ops|
  {
    if |ops| == 0 then p else Run(Apply(p, ops[0]).0, ops[1..])
  }

  /** The request that no bucket and no chunk can serve. */
  predicate Refills(p: Pool, size: nat, alignment: nat)
    requires |p.free| == SLOTS
  {
    && 0 < alignment <= MAX_ALIGNMENT
    && Search(p.free, AlignmentToTree(alignment), size).Missing?
    && !Carves(p, size, alignment)
  }

  /** The request that the chunk serves. */
  predicate Cuts(p: Pool, size: nat, alignment: nat)
    requires |p.free| == SLOTS
  {
    && 0 < alignment <= MAX_ALIGNMENT
    && Search(p.free, AlignmentToTree(alignment), size).Missing?
    && Carves(p, size, alignment)
  }

  /** What the request's size must be where it is met from the chunk or from a new block: no wrap of the
      carve's sum, no rounding of a refill. */
  predicate Harmless(p: Pool, size: nat, alignment: nat, supply: Option<nat>)
    requires |p.free| == SLOTS
  {
    && (Cuts(p, size, alignment) ==> Needed(p, size, alignment) < WORD)
    && (Refills(p, size, alignment) && supply.Some? ==> SizeToBucketSize(size) == size)
  }

  /** What the caller and the system owe: a harmless request, and a supplied block that is new. */
  ghost predicate Allowed(p: Pool, op: Op)
    requires |p.free| == SLOTS
  {
    op.MallocOp? ==>
      && Harmless(p, op.size, op.alignment, op.supply)
      && (op.supply.Some? ==> FreshBlock(p.blocks, Block(op.supply.value, BlockSize(op.size))))
  }

  ghost predicate AllowedRun(p: Pool, ops: seq<Op>)
    requires WellFormed(p)
    decreases |ops|
  {
    |ops| > 0 ==> Allowed(p, ops[0]) && AllowedRun(Apply(p, ops[0]).0, ops[1..])
  }

  /** A request whose size and alignment do not overflow a word together never wraps the carve's sum. */
  lemma CarveTestIsExact(p: Pool, size: nat, alignment: nat)
    requires 0 < alignment <= MAX_ALIGNMENT && size + alignment <= WORD
    ensures Needed(p, size, alignment) < WORD
    ensures Carves(p, size, alignment) <==> Needed(p, size, alignment) <= p.remaining
  {
  }

  lemma NodeSetPlus(p: Pool, q: Pool, n: Node)
    requires All(q) == All(p) + multiset{n}
    ensures NodeSet(q) == NodeSet(p) + {n}
  {
  }

  /** The chunk, when there is one, is not at the null pointer and ends within the address space. */
  predicate ChunkOk(p: Pool) {
    p.remaining > 0 ==> 0 < p.cursor && p.cursor + p.remaining <= WORD
  }

  lemma SafeChunk(p: Pool)
    requires SafePool(p)
    ensures ChunkOk(p)
  {
  }

  lemma CarvedAddress(p: Pool, size: nat, alignment: nat) returns (k: nat)
    requires Carves(p, size, alignment) && ChunkOk(p) && Needed(p, size, alignment) < WORD
    ensures k == Needed(p, size, alignment)
    ensures 0 < k <= p.remaining && p.cursor + k <= WORD && k < WORD
    ensures var n := CarvedNode(p, size, alignment);
            p.cursor <= n.address && n.size == SizeToBucketSize(size) > 0 && n.address + n.size == p.cursor + k
  {
    BucketsFit(size, 0);
    var rounded := SizeToBucketSize(size);
    var pad := Padding(p.cursor, p.remaining, rounded, alignment);
    k := pad + rounded;
    WordRemainder(k);
    WordRemainder(p.cursor + pad);
  }

  lemma CarveFields(p: Pool, size: nat, alignment: nat, k: nat)
    requires Carves(p, size, alignment)
    requires k == Needed(p, size, alignment)
    requires 0 < k <= p.remaining && p.cursor + k <= WORD && k < WORD
    ensures Carve(p, size, alignment).remaining == p.remaining - k
    ensures Carve(p, size, alignment).cursor == if p.cursor + k == WORD then 0 else p.cursor + k
  {
    WordRemainder(k);
    WordRemainder(p.cursor + k);
    assert Carve(p, size, alignment).cursor == (p.cursor + k) % WORD;
  }

  lemma WordRemainder(x: nat)
    requires x <= WORD
    ensures x % WORD == if x == WORD then 0 else x
  {
  }

  lemma CarveSafe(p: Pool, size: nat, alignment: nat)
    requires SafePool(p) && Carves(p, size, alignment) && Needed(p, size, alignment) < WORD
    ensures SafePool(Carve(p, size, alignment))
  {
    SafeChunk(p);
    var k := CarvedAddress(p, size, alignment);
    CarveFields(p, size, alignment, k);
    var n, q := CarvedNode(p, size, alignment), Carve(p, size, alignment);
    CarveAll(p, size, alignment);
    NodeSetPlus(p, q, n);
    TakeFront(NodeSet(p), p.cursor, p.remaining, p.blocks, k, n);
    DropChunk(NodeSet(q), p.cursor + k, p.remaining - k, p.blocks);
  }

  lemma PaddingBelow(cursor: nat, remaining: nat, rounded: nat, alignment: nat)
    requires alignment > 0
    ensures Padding(cursor, remaining, rounded, alignment) < alignment
  {
    assert 0 <= cursor % alignment < alignment;
  }

  /** No mapped block takes the address space but for less than `alignment` bytes. */
  predicate Roomy(blocks: seq<Block>, alignment: nat) {
    forall i | 0 <= i < |blocks| :: blocks[i].length + alignment <= WORD
  }

  /** A wrapped carve hands out a node that is longer than any block. */
  lemma CarveUnsafe(p: Pool, size: nat, alignment: nat)
    requires SafePool(p) && Carves(p, size, alignment) && Needed(p, size, alignment) >= WORD && Roomy(p.blocks, alignment)
    ensures !Inside(p.blocks, CarvedNode(p, size, alignment).address, CarvedNode(p, size, alignment).size)
    ensures !SafePool(Carve(p, size, alignment))
  {
    var n, q := CarvedNode(p, size, alignment), Carve(p, size, alignment);
    PaddingBelow(p.cursor, p.remaining, n.size, alignment);
    assert n.size + alignment > WORD;
    CarveAll(p, size, alignment);
    NodeSetPlus(p, q, n);
    assert n in NodeSet(q);
  }

  /** A carve is safe if and only if its sum does not wrap. */
  lemma CarveSafeIff(p: Pool, size: nat, alignment: nat)
    requires SafePool(p) && Carves(p, size, alignment) && Roomy(p.blocks, alignment)
    ensures SafePool(Carve(p, size, alignment)) <==> Needed(p, size, alignment) < WORD
  {
    if Needed(p, size, alignment) < WORD {
      CarveSafe(p, size, alignment);
    } else {
      CarveUnsafe(p, size, alignment);
    }
  }

  lemma FlushSafe(p: Pool)
    requires |p.free| == SLOTS && SafePool(p)
    ensures SafePool(Flush(p))
  {
    FlushAll(p);
    if Flushes(p) {
      var n := FlushNode(p);
      NodeSetPlus(p, Flush(p), n);
      TakeFront(NodeSet(p), p.cursor, p.remaining, p.blocks, p.remaining, n);
      DropChunk(NodeSet(p) + {n}, p.cursor + p.remaining, 0, p.blocks);
    } else {
      DropChunk(NodeSet(p), p.cursor, p.remaining, p.blocks);
    }
  }

  /** Taking over a new block keeps memory disjoint if and only if the request is already a bucket
      size, or over 1 MiB: otherwise the recorded node runs past where the cursor is put. */
  lemma AdoptSafeIffUnrounded(p: Pool, base: nat, request: nat)
    requires SafePool(p) && FreshBlock(p.blocks, Block(base, BlockSize(request)))
    ensures SafePool(Adopt(p, base, request)) <==> SizeToBucketSize(request) == request
  {
    var q := Adopt(p, base, request);
    var n := RefillNode(p, base, request);
    var b := Block(base, BlockSize(request));
    AdoptAll(p, base, request);
    NodeSetPlus(p, q, n);
    BucketsFit(request, 0);
    if SizeToBucketSize(request) == request {
      DropChunk(NodeSet(p), p.cursor, p.remaining, p.blocks);
      AddBlock(NodeSet(p), p.blocks, b);
      TakeFront(NodeSet(p), b.base, b.length, q.blocks, request, n);
    } else {
      assert n in NodeSet(q);
      assert !Disjoint(n.address, n.size, q.cursor, q.remaining);
    }
  }

  lemma RefillSafeIff(p: Pool, size: nat, supply: Option<nat>)
    requires |p.free| == SLOTS && SafePool(p)
    requires supply.Some? ==> FreshBlock(p.blocks, Block(supply.value, BlockSize(size)))
    ensures SafePool(Refill(p, size, supply).0) <==> (supply.Some? ==> SizeToBucketSize(size) == size)
  {
    FlushSafe(p);
    if supply.Some? {
      AdoptSafeIffUnrounded(Flush(p), supply.value, size);
    }
  }

  /** Which of its paths a malloc takes. */
  lemma MallocPaths(p: Pool, size: nat, alignment: nat, supply: Option<nat>)
    requires WellFormed(p) && (alignment == 0 ==> ChunkOk(p))
    ensures var c, q := AlignmentToTree(alignment), Malloc(p, size, alignment, supply).0;
            if Cuts(p, size, alignment) then q == Carve(p, size, alignment)
            else if Refills(p, size, alignment) then q == Refill(p, size, supply).0
            else if alignment <= MAX_ALIGNMENT && Search(p.free, c, size).Taken?
            then q == Serve(p, Slot(c, Search(p.free, c, size).bucket))
            else q == p
  {
    SearchSpec(p.free, AlignmentToTree(alignment), size);
    if alignment == 0 {
      ZeroDivides(p, size);
    }
  }

  /** One malloc: what is handed out stays disjoint and inside the mapped blocks if and only if a carve
      does not wrap and a refill does not round. */
  lemma MallocSafeIff(p: Pool, size: nat, alignment: nat, supply: Option<nat>)
    requires WellFormed(p) && SafePool(p) && Roomy(p.blocks, alignment)
    requires supply.Some? ==> FreshBlock(p.blocks, Block(supply.value, BlockSize(size)))
    ensures SafePool(Malloc(p, size, alignment, supply).0) <==> Harmless(p, size, alignment, supply)
  {
    SafeChunk(p);
    MallocPaths(p, size, alignment, supply);
    if Cuts(p, size, alignment) {
      CarveSafeIff(p, size, alignment);
    } else if Refills(p, size, alignment) {
      RefillSafeIff(p, size, supply);
    } else if Malloc(p, size, alignment, supply).0 != p {
      ServeKeeps(p, Slot(AlignmentToTree(alignment), Search(p.free, AlignmentToTree(alignment), size).bucket));
    }
  }

  /** The half of it that needs nothing of how long the blocks are. */
  lemma MallocSafe(p: Pool, size: nat, alignment: nat, supply: Option<nat>)
    requires WellFormed(p) && SafePool(p) && Allowed(p, MallocOp(size, alignment, supply))
    ensures SafePool(Malloc(p, size, alignment, supply).0)
  {
    SafeChunk(p);
    MallocPaths(p, size, alignment, supply);
    if Cuts(p, size, alignment) {
      CarveSafe(p, size, alignment);
    } else if Refills(p, size, alignment) {
      RefillSafeIff(p, size, supply);
    } else if Malloc(p, size, alignment, supply).0 != p {
      ServeKeeps(p, Slot(AlignmentToTree(alignment), Search(p.free, AlignmentToTree(alignment), size).bucket));
    }
  }

  lemma StepSafe(p: Pool, op: Op)
    requires WellFormed(p) && SafePool(p) && Allowed(p, op)
    ensures SafePool(Apply(p, op).0)
  {
    match op
    case FreeOp(address) => FreeKeeps(p, address);
    case MallocOp(size, alignment, supply) => MallocSafe(p, size, alignment, supply);
  }

  /** A supplied block is within the address space and not at the null pointer. */
  predicate Addressable(op: Op) {
    op.MallocOp? && op.supply.Some? ==> 0 < op.supply.value && op.supply.value + BlockSize(op.size) <= WORD
  }

  lemma CarveChunkOk(p: Pool, size: nat, alignment: nat)
    requires ChunkOk(p) && Carves(p, size, alignment)
    ensures ChunkOk(Carve(p, size, alignment))
  {
    var needed, q := Needed(p, size, alignment), Carve(p, size, alignment);
    var moved := needed % WORD;
    BucketsFit(size, 0);
    assert needed > 0;
    if p.remaining == 0 {
      assert q.remaining == 0;
    } else {
      SumModulo(p.cursor, needed);
      WordRemainder(p.cursor + moved);
    }
  }

  lemma SumModulo(a: nat, b: nat)
    ensures (a + b) % WORD == (a + b % WORD) % WORD
  {
    var q := b / WORD;
    assert a + b == a + b % WORD + WORD * q;
    AddMultiple(a + b % WORD, q);
  }

  lemma {:induction false} AddMultiple(x: nat, q: nat)
    ensures (x + WORD * q) % WORD == x % WORD
  {
    if q > 0 {
      AddMultiple(x, q - 1);
    }
  }

  lemma StepChunkOk(p: Pool, op: Op)
    requires WellFormed(p) && ChunkOk(p) && Addressable(op)
    ensures ChunkOk(Apply(p, op).0)
  {
    if op.MallocOp? {
      MallocPaths(p, op.size, op.alignment, op.supply);
      if Cuts(p, op.size, op.alignment) {
        CarveChunkOk(p, op.size, op.alignment);
      }
    }
  }

  lemma {:induction false} AllOnes(a: nat, k: nat)
    requires 0 < a < Pow2(k)
    ensures BitAnd(a, Pow2(k) - 1) != 0
  {
    if a % 2 == 0 {
      AllOnes(a / 2, k - 1);
      assert (Pow2(k) - 1) / 2 == Pow2(k - 1) - 1;
    }
  }

  function Pow2(k: nat): nat {
    if k == 0 then 1 else 2 * Pow2(k - 1)
  }

  lemma ZeroDivides(p: Pool, size: nat)
    requires ChunkOk(p)
    ensures DividesByZero(p, size, 0)
  {
    BucketsFit(size, 0);
    if p.remaining > 0 {
      assert Pow2(64) == WORD by { Pow64(); }
      AllOnes(p.cursor, 64);
    }
  }

  /** Malloc divides by zero if and only if it is asked for an alignment of 0 and no bucket of the first
      class can serve. */
  lemma ZeroAlignmentDivides(p: Pool, size: nat, alignment: nat, supply: Option<nat>)
    requires WellFormed(p) && ChunkOk(p)
    ensures Malloc(p, size, alignment, supply).1 == DivideByZero <==> alignment == 0 && Search(p.free, 0, size).Missing?
  {
    SearchSpec(p.free, AlignmentToTree(alignment), size);
    ZeroDivides(p, size);
  }

  lemma Pow64()
    ensures Pow2(64) == WORD
  {
    assert Pow2(8) == 0x100;
    assert Pow2(16) == 0x1_0000;
    assert Pow2(24) == 0x100_0000;
    assert Pow2(32) == 0x1_0000_0000;
    assert Pow2(40) == 0x100_0000_0000;
    assert Pow2(48) == 0x1_0000_0000_0000;
    assert Pow2(56) == 0x100_0000_0000_0000;
  }

  /** Safety over whole runs. */
  lemma {:induction false} RunSafe(p: Pool, ops: seq<Op>)
    requires WellFormed(p) && SafePool(p) && AllowedRun(p, ops)
    ensures SafePool(Run(p, ops))
    decreases |ops|
  {
    if |ops| > 0 {
      StepSafe(p, ops[0]);
      RunSafe(Apply(p, ops[0]).0, ops[1..]);
    }
  }

  predicate NothingFree(free: seq<seq<Node>>) {
    |free| == SLOTS && forall s | 0 <= s < SLOTS :: free[s] == []
  }

  lemma {:induction false} NothingFreeBag(free: seq<seq<Node>>)
    requires forall s | 0 <= s < |free| :: free[s] == []
    ensures FreeBag(free) == multiset{} && FreeBytes(free) == 0
  {
    if |free| > 0 {
      NothingFreeBag(free[1..]);
    }
  }
}
