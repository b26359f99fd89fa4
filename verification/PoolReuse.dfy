/** What a free gives back: the next malloc of the same size and alignment returns the same
    address. */
module PoolReuse {
  import opened AllocTree
  import opened Buckets
  import opened Nodes
  import opened Pool
  import opened PoolAlignment
  import opened PoolGround
  import opened PoolSafety
  import opened SizeClasses
  import opened Territory
  import opened Wrappers

  /** No node of the tree is at this address. */
  ghost predicate Unused(t: Tree, address: nat) {
    forall y | y in Bag(t) :: y.address != address
  }

  lemma HeadNotInTree(p: Pool, s: nat)
    requires WellFormed(p) && Placed(p) && s < SLOTS && p.free[s] != []
    ensures Unused(p.alloc, p.free[s][0].address)
  {
    var n := p.free[s][0];
    FreeBagUpdate(p.free, s, []);
    assert n in multiset(p.free[s]);
    assert All(p)[n] == FreeBag(p.free)[n] + Bag(p.alloc)[n];
    forall y | y in Bag(p.alloc)
      ensures y.address != n.address
    {
      assert y in All(p) && n in All(p);
    }
  }

  lemma FreeOfInserted(q: Pool, t: Tree, n: Node)
    requires Shaped(q) && q.alloc == Insert(t, n) && n.cls < 4 && n.size >= 128
    requires Unused(t, n.address)
    ensures Free(q, n.address) == PutFree(q.(alloc := t), n)
  {
    InsertThenRemove(t, n);
  }

  lemma TakeThenPut(p: Pool, s: nat)
    requires |p.free| == SLOTS && s < SLOTS && p.free[s] != [] && SortedButLast(p.free[s])
    requires var n := p.free[s][0]; n.size >= 128 && n.cls == s / 6 && FitToBucket(n.size) == s % 6
    ensures PutFree(TakeFree(p, s), p.free[s][0]) == p
  {
    var n, t := p.free[s][0], p.free[s][1..];
    PopThenInsert(p.free[s]);
    assert Slot(n.cls, FitToBucket(n.size)) == s;
    assert p.free[s := t][s := p.free[s]] == p.free;
  }

  /** Served from a bucket, then freed: the pool is exactly what it was, every bucket sequence and
      the allocated tree included. */
  lemma ServeThenFree(p: Pool, s: nat)
    requires WellFormed(p) && s < SLOTS && p.free[s] != [] && Unused(p.alloc, p.free[s][0].address)
    ensures Shaped(Serve(p, s)) && Free(Serve(p, s), p.free[s][0].address) == p
  {
    var n := p.free[s][0];
    ServeKeeps(p, s);
    FreeBagUpdate(p.free, s, []);
    assert n in multiset(p.free[s]) && n in All(p);
    TakeThenPut(p, s);
    FreeOfInserted(Serve(p, s), p.alloc, n);
    assert Serve(p, s).(alloc := p.alloc) == TakeFree(p, s);
  }

  lemma CarvedNotThere(p: Pool, size: nat, alignment: nat)
    requires Placed(p) && Carves(p, size, alignment) && Needed(p, size, alignment) < WORD
    ensures Unused(p.alloc, CarvedNode(p, size, alignment).address)
  {
    var k := CarvedAddress(p, size, alignment);
    forall y | y in Bag(p.alloc)
      ensures y.address != CarvedNode(p, size, alignment).address
    {
      assert y in All(p);
    }
  }

  lemma FreeOfCarved(p: Pool, q: Pool, n: Node, s: nat)
    requires Shaped(q) && q.free == p.free && q.alloc == Insert(p.alloc, n)
    requires n.cls < 4 && n.size >= 128 && s == Slot(n.cls, FitToBucket(n.size)) && p.free[s] == []
    requires Unused(p.alloc, n.address)
    ensures Free(q, n.address) == q.(free := p.free[s := [n]], alloc := p.alloc)
  {
    FreeOfInserted(q, p.alloc, n);
    assert BucketInsert([], n) == [n];
  }

  /** Carved, then freed: the node becomes the only one of the bucket its size starts from. */
  lemma CarveThenFree(p: Pool, size: nat, alignment: nat)
    requires WellFormed(p) && Carves(p, size, alignment) && Unused(p.alloc, CarvedNode(p, size, alignment).address)
    requires p.free[Slot(AlignmentToTree(alignment), SizeToBucket(size))] == []
    ensures Shaped(Carve(p, size, alignment))
    ensures Free(Carve(p, size, alignment), CarvedNode(p, size, alignment).address) ==
            Carve(p, size, alignment).(
              free := p.free[Slot(AlignmentToTree(alignment), SizeToBucket(size)) := [CarvedNode(p, size, alignment)]],
              alloc := p.alloc)
  {
    CarveKeeps(p, size, alignment);
    BucketsFit(size, 0);
    FreeOfCarved(p, Carve(p, size, alignment), CarvedNode(p, size, alignment),
                 Slot(AlignmentToTree(alignment), SizeToBucket(size)));
  }

  /** The pool after a malloc and the free of what it returned. */
  ghost function Round(p: Pool, size: nat, alignment: nat): (q: Pool)
    ensures WellFormed(p) ==> WellFormed(q)
  {
    if WellFormed(p) then
      MallocKeeps(p, size, alignment, None);
      var (q, r) := Malloc(p, size, alignment, None);
      if r.Address? then FreeKeeps(q, r.address); Free(q, r.address) else q
    else p
  }

  ghost function Iterate<T>(f: T -> T, x: T, k: nat): T {
    if k == 0 then x else f(Iterate(f, x, k - 1))
  }

  ghost function Rounds(p: Pool, size: nat, alignment: nat, k: nat): Pool {
    Iterate(q => Round(q, size, alignment), p, k)
  }

  lemma {:induction false} IterateFixed<T>(f: T -> T, x: T, k: nat)
    requires f(f(x)) == f(x)
    ensures k > 0 ==> Iterate(f, x, k) == f(x)
  {
    if k > 1 {
      IterateFixed(f, x, k - 1);
    }
  }

  /** Some bucket already serves the request, its head being at `a`. */
  ghost predicate Serves(p: Pool, size: nat, alignment: nat, a: nat) {
    && |p.free| == SLOTS
    && var c := AlignmentToTree(alignment);
       Search(p.free, c, size).Taken? && p.free[Slot(c, Search(p.free, c, size).bucket)][0].address == a
  }

  lemma RoundOfServed(p: Pool, size: nat, alignment: nat, a: nat)
    requires WellFormed(p) && alignment <= MAX_ALIGNMENT && Serves(p, size, alignment, a) && Unused(p.alloc, a)
    ensures Malloc(p, size, alignment, None).1 == Address(a)
    ensures Round(p, size, alignment) == p
  {
    var c := AlignmentToTree(alignment);
    ServeThenFree(p, Slot(c, Search(p.free, c, size).bucket));
  }

  lemma CutReturns(p: Pool, size: nat, alignment: nat)
    requires |p.free| == SLOTS && Cuts(p, size, alignment)
    ensures Malloc(p, size, alignment, None) == (Carve(p, size, alignment), Address(CarvedNode(p, size, alignment).address))
    ensures p.free[Slot(AlignmentToTree(alignment), SizeToBucket(size))] == []
  {
  }

  lemma ServedAgain(p: Pool, size: nat, alignment: nat, n: Node)
    requires |p.free| == SLOTS && p.free[Slot(AlignmentToTree(alignment), SizeToBucket(size))] == [n]
    ensures Serves(p, size, alignment, n.address)
  {
  }

  lemma RoundOfCarved(p: Pool, size: nat, alignment: nat)
    requires WellFormed(p) && Cuts(p, size, alignment) && Unused(p.alloc, CarvedNode(p, size, alignment).address)
    ensures var (q, a) := (Round(p, size, alignment), CarvedNode(p, size, alignment).address);
            Malloc(p, size, alignment, None).1 == Address(a) && Serves(q, size, alignment, a) && q.alloc == p.alloc
  {
    var n, q := CarvedNode(p, size, alignment), Carve(p, size, alignment);
    CutReturns(p, size, alignment);
    CarveThenFree(p, size, alignment);
    CarveKeeps(p, size, alignment);
    ServedAgain(Free(q, n.address), size, alignment, n);
  }

  /** The requests that repeat: those answered without a new block, by an address that nothing handed out has. */
  ghost predicate Repeats(p: Pool, size: nat, alignment: nat)
    requires |p.free| == SLOTS
  {
    var r := Malloc(p, size, alignment, None).1;
    alignment > 0 && r.Address? && Unused(p.alloc, r.address)
  }

  /** What is met without a new block. */
  predicate Unrefilled(p: Pool, size: nat, alignment: nat)
    requires |p.free| == SLOTS
  {
    0 < alignment <= MAX_ALIGNMENT && !Refills(p, size, alignment)
  }

  /** In a pool whose nodes are placed, every request that does not refill repeats, unless its carve wraps to an
      address that is handed out. */
  lemma PlacedRepeats(p: Pool, size: nat, alignment: nat)
    requires WellFormed(p) && Placed(p) && Unrefilled(p, size, alignment)
    requires Cuts(p, size, alignment) ==>
               Needed(p, size, alignment) < WORD || Unused(p.alloc, CarvedNode(p, size, alignment).address)
    ensures Repeats(p, size, alignment)
  {
    var c := AlignmentToTree(alignment);
    SearchSpec(p.free, c, size);
    if Cuts(p, size, alignment) {
      CutReturns(p, size, alignment);
      if Needed(p, size, alignment) < WORD {
        CarvedNotThere(p, size, alignment);
      }
    } else {
      HeadNotInTree(p, Slot(c, Search(p.free, c, size).bucket));
    }
  }

  lemma FirstRound(p: Pool, size: nat, alignment: nat) returns (a: nat)
    requires WellFormed(p) && Repeats(p, size, alignment)
    ensures var q := Round(p, size, alignment);
            && Malloc(p, size, alignment, None).1 == Address(a)
            && WellFormed(q) && Serves(q, size, alignment, a) && Unused(q.alloc, a)
            && (!Search(p.free, AlignmentToTree(alignment), size).Missing? ==> q == p)
  {
    a := Malloc(p, size, alignment, None).1.address;
    SearchSpec(p.free, AlignmentToTree(alignment), size);
    if Search(p.free, AlignmentToTree(alignment), size).Missing? {
      MissingCuts(p, size, alignment);
      RoundOfCarved(p, size, alignment);
    } else {
      RoundOfServed(p, size, alignment, a);
    }
  }

  lemma MissingCuts(p: Pool, size: nat, alignment: nat)
    requires |p.free| == SLOTS && alignment > 0 && Search(p.free, AlignmentToTree(alignment), size).Missing?
    requires Malloc(p, size, alignment, None).1.Address?
    ensures Cuts(p, size, alignment) && Malloc(p, size, alignment, None).1 == Address(CarvedNode(p, size, alignment).address)
  {
  }

  /** A malloc answers with the same address before and after `k` rounds. */
  ghost predicate Reuses(p: Pool, size: nat, alignment: nat, k: nat) {
    var q := Rounds(p, size, alignment, k);
    && |p.free| == SLOTS == |q.free| && WellFormed(q)
    && Malloc(p, size, alignment, None).1.Address?
    && Malloc(q, size, alignment, None).1 == Malloc(p, size, alignment, None).1
  }

  /** Malloc, free, malloc, free, ...: every round with the same size and alignment returns the same address; if a bucket served the first call the pool never
      changes from round to round. */
  lemma RoundsReuse(p: Pool, size: nat, alignment: nat, k: nat)
    requires WellFormed(p) && Repeats(p, size, alignment)
    ensures Reuses(p, size, alignment, k)
    ensures !Search(p.free, AlignmentToTree(alignment), size).Missing? ==> Rounds(p, size, alignment, k) == p
  {
    var q := Round(p, size, alignment);
    var a := FirstRound(p, size, alignment);
    RoundOfServed(q, size, alignment, a);
    RoundsFixed(p, size, alignment, k);
  }

  lemma RoundsFixed(p: Pool, size: nat, alignment: nat, k: nat)
    requires Round(Round(p, size, alignment), size, alignment) == Round(p, size, alignment)
    ensures Rounds(p, size, alignment, k) == if k == 0 then p else Round(p, size, alignment)
  {
    IterateFixed(r => Round(r, size, alignment), p, k);
  }

  /** So it is after any run of mallocs and frees on a grounded pool, refills that round included. */
  lemma ReuseAfterRun(p: Pool, ops: seq<Op>, size: nat, alignment: nat, k: nat)
    requires WellFormed(p) && GroundedPool(p) && GroundingRun(p, ops) && Unrefilled(Run(p, ops), size, alignment)
    requires var q := Run(p, ops);
             Cuts(q, size, alignment) ==>
               Needed(q, size, alignment) < WORD || Unused(q.alloc, CarvedNode(q, size, alignment).address)
    ensures Reuses(Run(p, ops), size, alignment, k)
  {
    RunGrounded(p, ops);
    GroundedIsPlaced(Run(p, ops));
    PlacedRepeats(Run(p, ops), size, alignment);
    RoundsReuse(Run(p, ops), size, alignment, k);
  }

  /** A new block taken over and its first node freed again. */
  function AdoptedThenFreed(q: Pool, base: nat, size: nat): Pool
    requires |q.free| == SLOTS
  {
    PutFree(Adopt(q, base, size).(alloc := q.alloc), RefillNode(q, base, size))
  }

  /** The pool after a refilling request was met with a block at `base` and freed again. */
  function RefilledThenFreed(p: Pool, size: nat, base: nat): Pool
    requires |p.free| == SLOTS
  {
    AdoptedThenFreed(Flush(p), base, size)
  }

  lemma FreshNotInTree(q: Pool, base: nat, length: nat)
    requires GroundedPool(q) && length > 0 && FreshBlock(q.blocks, Block(base, length))
    ensures Unused(q.alloc, base)
  {
    forall y | y in Bag(q.alloc)
      ensures y.address != base
    {
      assert y in All(q);
      assert y.(size := 1) in Starts(q) && Inside(q.blocks, y.address, 1);
    }
  }

  lemma RefillIs(p: Pool, size: nat, alignment: nat, base: nat)
    requires |p.free| == SLOTS && Refills(p, size, alignment)
    ensures Malloc(p, size, alignment, Some(base)) == (Adopt(Flush(p), base, size), Address(base))
  {
  }

  lemma RefillThenFree(p: Pool, size: nat, alignment: nat, base: nat)
    requires WellFormed(p) && GroundedPool(p) && Refills(p, size, alignment)
    requires FreshBlock(p.blocks, Block(base, BlockSize(size)))
    ensures Malloc(p, size, alignment, Some(base)).1 == Address(base)
    ensures Shaped(Malloc(p, size, alignment, Some(base)).0)
    ensures Free(Malloc(p, size, alignment, Some(base)).0, base) == RefilledThenFreed(p, size, base)
  {
    RefillIs(p, size, alignment, base);
    FlushGrounded(p);
    FlushKeeps(p);
    FreshNotInTree(Flush(p), base, BlockSize(size));
    FreedAdopted(Flush(p), base, size);
  }

  lemma FreedAdopted(q: Pool, base: nat, size: nat)
    requires WellFormed(q) && Unused(q.alloc, base)
    ensures Shaped(Adopt(q, base, size))
    ensures Free(Adopt(q, base, size), base) == AdoptedThenFreed(q, base, size)
  {
    AdoptKeeps(q, base, size);
    BucketsFit(size, 0);
    FreeOfInserted(Adopt(q, base, size), q.alloc, RefillNode(q, base, size));
  }

  /** The class's buckets from the request's own up hold nothing but the flushed node, if that. */
  lemma FlushedBuckets(p: Pool, c: nat, size: nat, b: nat)
    requires Filed(p.free) && c < 4 && SizeToBucket(size) <= b < 6 && Search(p.free, c, size).Missing?
    ensures Flush(p).free[Slot(c, b)] == [] || (Flushes(p) && Flush(p).free[Slot(c, b)] == [FlushNode(p)])
  {
    SearchSpec(p.free, c, size);
    assert p.free[Slot(c, b)] == [];
    assert BucketInsert([], FlushNode(p)) == [FlushNode(p)];
  }

  lemma SameClassServes(p: Pool, size: nat, alignment: nat, base: nat)
    requires Filed(p.free) && Refills(p, size, alignment) && AddressToTree(base) == AlignmentToTree(alignment)
    ensures Again(p, size, alignment, base) == Address(base)
  {
    var c, k := AlignmentToTree(alignment), SizeToBucket(size);
    var q, t := Flush(p), RefilledThenFreed(p, size, base);
    BucketsFit(size, 0);
    FlushedBuckets(p, c, size, k);
    assert t.free[Slot(c, k)] == [RefillNode(q, base, size)] + q.free[Slot(c, k)];
    assert Search(t.free, c, size) == Taken(k);
  }

  lemma RefilledChunk(p: Pool, size: nat, base: nat)
    requires |p.free| == SLOTS
    ensures var t := RefilledThenFreed(p, size, base);
            t.cursor == base + size && t.remaining == BlockSize(size) - size && |t.free| == SLOTS
  {
  }

  lemma CarvedBehind(t: Pool, size: nat, alignment: nat)
    requires Carves(t, size, alignment) && ChunkOk(t) && Needed(t, size, alignment) < WORD
    ensures CarvedNode(t, size, alignment).address >= t.cursor
  {
    var k := CarvedAddress(t, size, alignment);
  }

  lemma MissesOther(t: Pool, size: nat, alignment: nat, base: nat)
    requires Filed(t.free) && t.cursor > base && ChunkOk(t) && 0 < alignment <= MAX_ALIGNMENT
    requires Cuts(t, size, alignment) ==> Needed(t, size, alignment) < WORD
    requires var c := AlignmentToTree(alignment);
             Search(t.free, c, size).Taken? ==> t.free[Slot(c, Search(t.free, c, size).bucket)][0].address != base
    ensures Malloc(t, size, alignment, None).1 != Address(base)
  {
    SearchSpec(t.free, AlignmentToTree(alignment), size);
    if Cuts(t, size, alignment) {
      CarvedBehind(t, size, alignment);
    }
  }

  lemma OtherClassIff(p: Pool, size: nat, alignment: nat, base: nat)
    requires WellFormed(p) && GroundedPool(p) && Refills(p, size, alignment) && size + alignment <= WORD
    requires FreshBlock(p.blocks, Block(base, BlockSize(size)))
    requires AddressToTree(base) != AlignmentToTree(alignment)
    ensures size > 0 ==> Again(p, size, alignment, base) != Address(base)
    ensures size == 0 ==> (Again(p, 0, alignment, base) == Address(base) <==> CarvesBase(p, alignment, base))
  {
    if size > 0 {
      OtherClassMisses(p, size, alignment, base);
    } else {
      EmptyOtherIff(p, alignment, base);
    }
  }

  lemma OtherClassMisses(p: Pool, size: nat, alignment: nat, base: nat)
    requires WellFormed(p) && GroundedPool(p) && Refills(p, size, alignment) && 0 < size && size + alignment <= WORD
    requires FreshBlock(p.blocks, Block(base, BlockSize(size)))
    requires AddressToTree(base) != AlignmentToTree(alignment)
    ensures Again(p, size, alignment, base) != Address(base)
  {
    var c, t := AlignmentToTree(alignment), RefilledThenFreed(p, size, base);
    RefilledFiled(p, size, base);
    RefilledChunk(p, size, base);
    if Search(t.free, c, size).Taken? {
      TakenFromOwnUp(t.free, c, size);
      FlushedHead(p, size, alignment, base, Search(t.free, c, size).bucket);
    }
    CarveTestIsExact(t, size, alignment);
    MissesOther(t, size, alignment, base);
  }

  lemma TakenFromOwnUp(free: seq<seq<Node>>, c: nat, size: nat)
    requires |free| == SLOTS && c < 4
    ensures Search(free, c, size).Taken? ==> SizeToBucket(size) <= Search(free, c, size).bucket
  {
  }

  lemma RefilledFiled(p: Pool, size: nat, base: nat)
    requires WellFormed(p)
    ensures Filed(RefilledThenFreed(p, size, base).free)
  {
    FlushKeeps(p);
    BucketsFit(size, 0);
    PutFreeFiles(Adopt(Flush(p), base, size).(alloc := Flush(p).alloc), RefillNode(Flush(p), base, size));
  }

  lemma AlignedLeavesRoom(base: nat, size: nat, alignment: nat)
    requires 0 < base && base + size <= WORD && alignment > 0 && SupplyAligned(alignment, Some(base))
    ensures size + alignment <= WORD
  {
    if base < alignment {
      Below(base, alignment);
    }
  }

  lemma Below(x: nat, a: nat)
    requires x < a
    ensures x % a == x
  {
  }

  /** A refill for 0 bytes leaves the chunk at the block's base: the next request is carved there, unless the old
      chunk was filed in its class, or padding comes first. */
  predicate CarvesBase(p: Pool, alignment: nat, base: nat)
    requires alignment > 0
  {
    && !(Flushes(p) && AddressToTree(p.cursor) == AlignmentToTree(alignment))
    && Padding(base, REFILL, 128, alignment) == 0
  }

  lemma EmptyCarve(t: Pool, alignment: nat, base: nat)
    requires Filed(t.free) && 0 < alignment <= MAX_ALIGNMENT && t.cursor == base && t.remaining == REFILL
    requires 0 < base && base + REFILL <= WORD && Search(t.free, AlignmentToTree(alignment), 0).Missing?
    ensures Malloc(t, 0, alignment, None).1 == Address(base) <==> Padding(base, REFILL, 128, alignment) == 0
  {
    CarveTestIsExact(t, 0, alignment);
    var pad := Padding(base, REFILL, 128, alignment);
    if Carves(t, 0, alignment) {
      WordRemainder(base + pad);
      CutReturns(t, 0, alignment);
    }
  }

  lemma FlushedServes(p: Pool, c: nat)
    requires Filed(p.free) && c < 4 && Search(p.free, c, 0).Missing?
    ensures Search(Flush(p).free, c, 0).Missing? <==> !(Flushes(p) && AddressToTree(p.cursor) == c)
  {
    SearchSpec(p.free, c, 0);
    if Flushes(p) && AddressToTree(p.cursor) == c {
      FlushedBuckets(p, c, 0, FitToBucket(p.remaining));
      assert Flush(p).free[Slot(c, FitToBucket(p.remaining))] != [];
    } else {
      forall b | 0 <= b < 6
        ensures Flush(p).free[Slot(c, b)] == []
      {
        assert p.free[Slot(c, b)] == [];
      }
    }
    FlushFiled(p);
    SearchSpec(Flush(p).free, c, 0);
  }

  lemma FlushFiled(p: Pool)
    requires Filed(p.free)
    ensures Filed(Flush(p).free)
  {
    if Flushes(p) {
      PutFreeFiled(p.(cursor := 0, remaining := 0), FlushNode(p));
    }
  }

  lemma SameSearch(f: seq<seq<Node>>, g: seq<seq<Node>>, c: nat, size: nat)
    requires |f| == SLOTS == |g| && c < 4 && forall b | 0 <= b < 6 :: f[Slot(c, b)] == g[Slot(c, b)]
    ensures Search(f, c, size) == Search(g, c, size)
  {
    SameFirst(f, g, c, SizeToBucket(size));
  }

  lemma {:induction false} SameFirst(f: seq<seq<Node>>, g: seq<seq<Node>>, c: nat, b: nat)
    requires |f| == SLOTS == |g| && c < 4 && b <= 6 && forall b | 0 <= b < 6 :: f[Slot(c, b)] == g[Slot(c, b)]
    ensures FirstNonEmpty(f, c, b) == FirstNonEmpty(g, c, b)
    decreases 6 - b
  {
    if b < 6 {
      SameFirst(f, g, c, b + 1);
    }
  }

  lemma OtherSlots(p: Pool, size: nat, base: nat, c: nat)
    requires |p.free| == SLOTS && c < 4 && AddressToTree(base) != c
    ensures var t := RefilledThenFreed(p, size, base);
            |t.free| == SLOTS && forall b | 0 <= b < 6 :: t.free[Slot(c, b)] == Flush(p).free[Slot(c, b)]
  {
    BucketsFit(size, 0);
  }

  lemma EmptyChunk()
    ensures BlockSize(0) == REFILL
  {
  }

  lemma EmptyOtherIff(p: Pool, alignment: nat, base: nat)
    requires WellFormed(p) && GroundedPool(p) && Refills(p, 0, alignment)
    requires FreshBlock(p.blocks, Block(base, BlockSize(0))) && AddressToTree(base) != AlignmentToTree(alignment)
    ensures Again(p, 0, alignment, base) == Address(base) <==> CarvesBase(p, alignment, base)
  {
    var c := AlignmentToTree(alignment);
    OtherSlots(p, 0, base, c);
    SameSearch(RefilledThenFreed(p, 0, base).free, Flush(p).free, c, 0);
    FlushedServes(p, c);
    EmptyAgain(p, alignment, base, RefilledThenFreed(p, 0, base));
  }

  lemma EmptyAgain(p: Pool, alignment: nat, base: nat, t: Pool)
    requires WellFormed(p) && GroundedPool(p) && Refills(p, 0, alignment) && t == RefilledThenFreed(p, 0, base)
    requires FreshBlock(p.blocks, Block(base, BlockSize(0))) && AddressToTree(base) != AlignmentToTree(alignment)
    ensures |t.free| == SLOTS
    ensures Malloc(t, 0, alignment, None).1 == Address(base) <==>
            Search(t.free, AlignmentToTree(alignment), 0).Missing? && Padding(base, REFILL, 128, alignment) == 0
  {
    var c := AlignmentToTree(alignment);
    RefilledFiled(p, 0, base);
    RefilledChunk(p, 0, base);
    EmptyChunk();
    if Search(t.free, c, 0).Missing? {
      EmptyCarve(t, alignment, base);
    } else {
      SearchSpec(t.free, c, 0);
      FlushedHead(p, 0, alignment, base, Search(t.free, c, 0).bucket);
      TakenAnswers(t, 0, alignment);
    }
  }

  lemma TakenAnswers(t: Pool, size: nat, alignment: nat)
    requires |t.free| == SLOTS && alignment <= MAX_ALIGNMENT && Search(t.free, AlignmentToTree(alignment), size).Taken?
    ensures var c := AlignmentToTree(alignment);
            Malloc(t, size, alignment, None).1 == Address(t.free[Slot(c, Search(t.free, c, size).bucket)][0].address)
  {
  }

  /** What the same request is answered once the refilled node is freed. */
  function Again(p: Pool, size: nat, alignment: nat, base: nat): Outcome
    requires |p.free| == SLOTS
  {
    Malloc(RefilledThenFreed(p, size, base), size, alignment, None).1
  }

  /** After a refill the address comes back exactly when the block's base is of the class asked for:
      the source files the node by its address, not by the request.  The one exception are requests for 0 bytes. */
  lemma RefillReuseIff(p: Pool, size: nat, alignment: nat, base: nat)
    requires WellFormed(p) && GroundedPool(p) && Refills(p, size, alignment)
    requires FreshBlock(p.blocks, Block(base, BlockSize(size))) && SupplyAligned(alignment, Some(base))
    ensures Shaped(Malloc(p, size, alignment, Some(base)).0)
    ensures Malloc(Free(Malloc(p, size, alignment, Some(base)).0, base), size, alignment, None).1 == Address(base) <==>
            AddressToTree(base) == AlignmentToTree(alignment) || (size == 0 && CarvesBase(p, alignment, base))
  {
    RefillThenFree(p, size, alignment, base);
    if AddressToTree(base) == AlignmentToTree(alignment) {
      SameClassServes(p, size, alignment, base);
    } else {
      AlignedLeavesRoom(base, size, alignment);
      OtherClassIff(p, size, alignment, base);
    }
  }

  lemma FlushedHead(p: Pool, size: nat, alignment: nat, base: nat, b: nat)
    requires Filed(p.free) && GroundedPool(p) && Refills(p, size, alignment)
    requires FreshBlock(p.blocks, Block(base, BlockSize(size))) && BlockSize(size) > 0
    requires AddressToTree(base) != AlignmentToTree(alignment)
    requires SizeToBucket(size) <= b < 6
    requires RefilledThenFreed(p, size, base).free[Slot(AlignmentToTree(alignment), b)] != []
    ensures RefilledThenFreed(p, size, base).free[Slot(AlignmentToTree(alignment), b)][0].address != base
  {
    var s := Slot(AlignmentToTree(alignment), b);
    FlushedBuckets(p, AlignmentToTree(alignment), size, b);
    assert RefilledThenFreed(p, size, base).free[s] == Flush(p).free[s];
    assert Inside(p.blocks, p.cursor, p.remaining);
  }
}
