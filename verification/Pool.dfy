/** The mapped-memory pool as a value, and its operations as functions: malloc (search, carve,
    flush and refill), free, and the seeding of the first block. */
module Pool {
  import opened AllocTree
  import opened Buckets
  import opened Nodes
  import opened SizeClasses
  import opened Wrappers

  datatype Block = Block(base: nat, length: nat)

  /** `next` is the identity the next node structure gets; `blocks` is the list of mapped blocks,
      newest first.  A cursor of 0 is the source's NULL. */
  datatype Pool = Pool(free: seq<seq<Node>>, alloc: Tree, cursor: nat, remaining: nat,
                       next: nat, blocks: seq<Block>)

  datatype Outcome = Address(address: nat) | Null | DivideByZero

  const MAX_ALIGNMENT: nat := 0x40000000

  function All(p: Pool): multiset<Node> {
    FreeBag(p.free) + Bag(p.alloc)
  }

  function NoFreeNodes(): (free: seq<seq<Node>>)
    ensures |free| == SLOTS && forall s | 0 <= s < SLOTS :: free[s] == []
  {
    seq(SLOTS, _ => [])
  }

  predicate Shaped(p: Pool) {
    && |p.free| == SLOTS
    && forall n | n in All(p) :: n.size >= 128 && n.cls < 4
  }

  function PutFree(p: Pool, n: Node): Pool
    requires |p.free| == SLOTS && n.cls < 4 && n.size >= 128
  {
    var s := Slot(n.cls, FitToBucket(n.size));
    p.(free := p.free[s := BucketInsert(p.free[s], n)])
  }

  function TakeFree(p: Pool, s: nat): Pool
    requires s < |p.free| && p.free[s] != []
  {
    p.(free := p.free[s := p.free[s][1..]])
  }

  function PutAlloc(p: Pool, n: Node): Pool {
    p.(alloc := Insert(p.alloc, n))
  }

  function Serve(p: Pool, s: nat): Pool
    requires s < |p.free| && p.free[s] != []
  {
    PutAlloc(TakeFree(p, s), p.free[s][0])
  }

  /** What a carve takes from the chunk: padding and node. */
  function Needed(p: Pool, size: nat, alignment: nat): nat
    requires alignment > 0
  {
    var rounded := SizeToBucketSize(size);
    Padding(p.cursor, p.remaining, rounded, alignment) + rounded
  }

  // the sum wraps at the width of size_t
  predicate Carves(p: Pool, size: nat, alignment: nat) {
    alignment > 0 && Needed(p, size, alignment) % WORD <= p.remaining
  }

  function CarvedNode(p: Pool, size: nat, alignment: nat): Node
    requires alignment > 0
  {
    var rounded := SizeToBucketSize(size);
    var pad := Padding(p.cursor, p.remaining, rounded, alignment);
    Node(p.next, (p.cursor + pad) % WORD, rounded, AlignmentToTree(alignment))
  }

  function Carve(p: Pool, size: nat, alignment: nat): Pool
    requires Carves(p, size, alignment)
  {
    var rounded := SizeToBucketSize(size);
    var pad := Padding(p.cursor, p.remaining, rounded, alignment);
    PutAlloc(p, CarvedNode(p, size, alignment)).(
      next := p.next + 1,
      cursor := (p.cursor + pad + rounded) % WORD,
      remaining := p.remaining - (pad + rounded) % WORD)
  }

  predicate Flushes(p: Pool) {
    p.cursor != 0 && p.remaining >= 128
  }

  function FlushNode(p: Pool): Node {
    Node(p.next, p.cursor, p.remaining, AddressToTree(p.cursor))
  }

  /** Turns what is left of the chunk into a free node, or drops it if it is under 128 bytes. */
  function Flush(p: Pool): Pool
    requires |p.free| == SLOTS
  {
    var q := p.(cursor := 0, remaining := 0);
    if Flushes(p) then PutFree(q, FlushNode(p)).(next := p.next + 1) else q
  }

  // The recorded size is the rounded one; what the cursor moves by is the request.
  function RefillNode(p: Pool, base: nat, request: nat): Node {
    Node(p.next, base, SizeToBucketSize(request), AddressToTree(base))
  }

  function BlockSize(size: nat): (n: nat)
    ensures n >= size
  {
    var rounded := SizeToBucketSize(size);
    if rounded < REFILL then REFILL else rounded
  }

  /** Takes a freshly mapped block: a node for the request at its base, the rest as the chunk. */
  function Adopt(p: Pool, base: nat, request: nat): Pool {
    PutAlloc(p, RefillNode(p, base, request)).(
      next := p.next + 1,
      blocks := [Block(base, BlockSize(request))] + p.blocks,
      cursor := base + request,
      remaining := BlockSize(request) - request)
  }

  /** `supply` is what the system hands over: the base of a new mapped block, or nothing. */
  function Refill(p: Pool, request: nat, supply: Option<nat>): (Pool, Outcome)
    requires |p.free| == SLOTS
  {
    match supply
    case None => (Flush(p), Null)
    case Some(base) => (Adopt(Flush(p), base, request), Address(base))
  }

  predicate DividesByZero(p: Pool, size: nat, alignment: nat) {
    alignment == 0 && !(BitAnd(p.cursor, AlignmentToMask(alignment)) == 0 && SizeToBucketSize(size) <= p.remaining)
  }

  function CarveOrRefill(p: Pool, size: nat, alignment: nat, supply: Option<nat>): (Pool, Outcome)
    requires |p.free| == SLOTS
  {
    if DividesByZero(p, size, alignment) then (p, DivideByZero)
    else
      // a zero alignment gets here only with no padding to compute
      var a := if alignment == 0 then 1 else alignment;
      if Carves(p, size, a) then (Carve(p, size, a), Address(CarvedNode(p, size, a).address))
      else Refill(p, size, supply)
  }

  function TreeMalloc(p: Pool, size: nat, alignment: nat, supply: Option<nat>): (Pool, Outcome)
    requires |p.free| == SLOTS
  {
    var c := AlignmentToTree(alignment);
    match Search(p.free, c, size)
    case Taken(b) => (Serve(p, Slot(c, b)), Address(p.free[Slot(c, b)][0].address))
    case Dropped(b) => CarveOrRefill(TakeFree(p, Slot(c, b)), size, alignment, supply)
    case Missing => CarveOrRefill(p, size, alignment, supply)
  }

  function Malloc(p: Pool, size: nat, alignment: nat, supply: Option<nat>): (Pool, Outcome)
    requires |p.free| == SLOTS
  {
    if alignment <= MAX_ALIGNMENT then TreeMalloc(p, size, alignment, supply) else (p, Null)
  }

  /** An address that is not in the tree leaves the pool alone (the source prints a message). */
  function Free(p: Pool, address: nat): Pool
    requires Shaped(p)
  {
    match Find(p.alloc, address)
    case None => p
    case Some(n) =>
      FindInBag(p.alloc, address);
      PutFree(p.(alloc := Remove(p.alloc, n)), n)
  }

  lemma {:induction false} FindInBag(t: Tree, address: nat)
    ensures Find(t, address).Some? ==> Find(t, address).value in Bag(t)
  {
    if t.Br? {
      FindInBag(t.left, address);
      FindInBag(t.right, address);
    }
  }

  // ---------------------------------------------------------------- what every operation keeps

  /** Nodes are told apart by identity, each is in the pool once, and none is under 128 bytes. */
  ghost predicate Identified(bag: multiset<Node>, next: nat) {
    && (forall n | n in bag :: bag[n] == 1 && n.id < next && n.size >= 128 && n.cls < 4)
    && (forall a, b | a in bag && b in bag && a.id == b.id :: a == b)
  }

  ghost predicate AllSortedButLast(free: seq<seq<Node>>) {
    forall s | 0 <= s < |free| :: SortedButLast(free[s])
  }

  ghost predicate WellFormed(p: Pool) {
    && Filed(p.free)
    && AllSortedButLast(p.free)
    && Ordered(p.alloc)
    && Identified(All(p), p.next)
  }

  lemma PutFreeAll(p: Pool, n: Node)
    requires |p.free| == SLOTS && n.cls < 4 && n.size >= 128
    ensures All(PutFree(p, n)) == All(p) + multiset{n}
    ensures FreeBytes(PutFree(p, n).free) == FreeBytes(p.free) + n.size
  {
    var s := Slot(n.cls, FitToBucket(n.size));
    var s' := BucketInsert(p.free[s], n);
    BucketInsertBag(p.free[s], n);
    FreeBagUpdate(p.free, s, s');
    FreeBytesUpdate(p.free, s, s');
    FreeBagPlus(FreeBag(p.free[s := s']), FreeBag(p.free), multiset(p.free[s]), n);
  }

  lemma PutFreeFiled(p: Pool, n: Node)
    requires Filed(p.free) && n.cls < 4 && n.size >= 128
    ensures Filed(PutFree(p, n).free)
  {
    var s := Slot(n.cls, FitToBucket(n.size));
    BucketInsertBag(p.free[s], n);
    forall m | m in BucketInsert(p.free[s], n)
      ensures m == n || m in p.free[s]
    {
      assert m in multiset(BucketInsert(p.free[s], n));
    }
  }

  lemma PutFreeFiles(p: Pool, n: Node)
    requires Filed(p.free) && AllSortedButLast(p.free) && n.cls < 4 && n.size >= 128
    ensures Filed(PutFree(p, n).free) && AllSortedButLast(PutFree(p, n).free)
  {
    var s := Slot(n.cls, FitToBucket(n.size));
    PutFreeFiled(p, n);
    InsertKeepsOrder(p.free[s], n);
  }

  lemma FreeBagPlus(f': multiset<Node>, f: multiset<Node>, s: multiset<Node>, n: Node)
    requires f' + s == f + (s + multiset{n})
    ensures f' == f + multiset{n}
  {
    forall x ensures f'[x] == (f + multiset{n})[x] {
      assert (f' + s)[x] == (f + (s + multiset{n}))[x];
    }
  }

  lemma TakeFreeAll(p: Pool, s: nat)
    requires s < |p.free| && p.free[s] != []
    ensures All(TakeFree(p, s)) + multiset{p.free[s][0]} == All(p)
    ensures FreeBytes(TakeFree(p, s).free) + p.free[s][0].size == FreeBytes(p.free)
  {
    var h, t := p.free[s][0], p.free[s][1..];
    FreeBagUpdate(p.free, s, t);
    FreeBytesUpdate(p.free, s, t);
    assert p.free[s] == [h] + t;
    var f, f' := FreeBag(p.free), FreeBag(TakeFree(p, s).free);
    assert f + multiset(t) == f' + (multiset(t) + multiset{h});
    FreeBagPlus(f, f', multiset(t), h);
    assert f' + multiset{h} + Bag(p.alloc) == f' + Bag(p.alloc) + multiset{h};
  }

  lemma TakeFreeFiles(p: Pool, s: nat)
    requires Filed(p.free) && AllSortedButLast(p.free) && s < |p.free| && p.free[s] != []
    ensures Filed(TakeFree(p, s).free) && AllSortedButLast(TakeFree(p, s).free)
  {
    var t := p.free[s][1..];
    forall i, j | 0 <= i < j < |t| - 1
      ensures t[i].size >= t[j].size
    {
      assert SortedButLast(p.free[s]) && p.free[s][i + 1].size >= p.free[s][j + 1].size;
    }
  }

  lemma PutAllocAll(p: Pool, n: Node)
    ensures All(PutAlloc(p, n)) == All(p) + multiset{n}
    ensures Ordered(p.alloc) ==> Ordered(PutAlloc(p, n).alloc)
    ensures Bytes(PutAlloc(p, n).alloc) == Bytes(p.alloc) + n.size
  {
    InsertBag(p.alloc, n);
    if Ordered(p.alloc) {
      InsertOrdered(p.alloc, n);
    }
  }

  /** A request served from a bucket moves one node and makes none. */
  lemma ServeKeeps(p: Pool, s: nat)
    requires WellFormed(p) && s < SLOTS && p.free[s] != []
    ensures WellFormed(Serve(p, s)) && All(Serve(p, s)) == All(p)
    ensures FreeBytes(Serve(p, s).free) + Bytes(Serve(p, s).alloc) == FreeBytes(p.free) + Bytes(p.alloc)
  {
    TakeFreeAll(p, s);
    TakeFreeFiles(p, s);
    PutAllocAll(TakeFree(p, s), p.free[s][0]);
  }

  lemma TakeAllocAll(p: Pool, n: Node)
    requires n in Bag(p.alloc)
    ensures All(p.(alloc := Remove(p.alloc, n))) + multiset{n} == All(p)
    ensures Bytes(Remove(p.alloc, n)) + n.size == Bytes(p.alloc)
    ensures Ordered(p.alloc) ==> Ordered(Remove(p.alloc, n))
  {
    RemoveBag(p.alloc, n);
    BagPlusMinus(FreeBag(p.free), Bag(p.alloc), n);
    if Ordered(p.alloc) {
      RemoveOrdered(p.alloc, n);
    }
  }

  lemma BagPlusMinus(f: multiset<Node>, b: multiset<Node>, n: Node)
    requires n in b
    ensures f + (b - multiset{n}) + multiset{n} == f + b
  {
  }

  /** So does a free, whatever the address. */
  lemma FreeKeeps(p: Pool, address: nat)
    requires WellFormed(p)
    ensures WellFormed(Free(p, address)) && All(Free(p, address)) == All(p)
    ensures FreeBytes(Free(p, address).free) + Bytes(Free(p, address).alloc) == FreeBytes(p.free) + Bytes(p.alloc)
  {
    match Find(p.alloc, address)
    case None =>
    case Some(n) =>
      FindInBag(p.alloc, address);
      assert n in All(p);
      TakeAllocAll(p, n);
      var q := p.(alloc := Remove(p.alloc, n));
      PutFreeAll(q, n);
      PutFreeFiles(q, n);
  }

  lemma NewNode(bag: multiset<Node>, next: nat, n: Node)
    requires Identified(bag, next) && n.id == next && n.size >= 128 && n.cls < 4
    ensures Identified(bag + multiset{n}, next + 1)
  {
    assert n !in bag;
  }

  lemma CarveAll(p: Pool, size: nat, alignment: nat)
    requires Carves(p, size, alignment)
    ensures All(Carve(p, size, alignment)) == All(p) + multiset{CarvedNode(p, size, alignment)}
  {
    PutAllocAll(p, CarvedNode(p, size, alignment));
  }

  lemma CarveKeeps(p: Pool, size: nat, alignment: nat)
    requires WellFormed(p) && Carves(p, size, alignment)
    ensures WellFormed(Carve(p, size, alignment))
  {
    var n := CarvedNode(p, size, alignment);
    CarveAll(p, size, alignment);
    PutAllocAll(p, n);
    BucketsFit(size, 0);
    NewNode(All(p), p.next, n);
  }

  lemma FlushAll(p: Pool)
    requires |p.free| == SLOTS
    ensures All(Flush(p)) == if Flushes(p) then All(p) + multiset{FlushNode(p)} else All(p)
  {
    if Flushes(p) {
      var q := p.(cursor := 0, remaining := 0);
      PutFreeAll(q, FlushNode(p));
      assert All(q) == All(p);
    }
  }

  lemma FlushKeeps(p: Pool)
    requires WellFormed(p)
    ensures WellFormed(Flush(p))
  {
    FlushAll(p);
    if Flushes(p) {
      PutFreeFiles(p.(cursor := 0, remaining := 0), FlushNode(p));
      NewNode(All(p), p.next, FlushNode(p));
    }
  }

  lemma AdoptAll(p: Pool, base: nat, request: nat)
    ensures All(Adopt(p, base, request)) == All(p) + multiset{RefillNode(p, base, request)}
  {
    PutAllocAll(p, RefillNode(p, base, request));
  }

  lemma AdoptKeeps(p: Pool, base: nat, request: nat)
    requires WellFormed(p)
    ensures WellFormed(Adopt(p, base, request))
  {
    var n := RefillNode(p, base, request);
    AdoptAll(p, base, request);
    PutAllocAll(p, n);
    BucketsFit(request, 0);
    NewNode(All(p), p.next, n);
  }

  lemma RefillKeeps(p: Pool, request: nat, supply: Option<nat>)
    requires WellFormed(p)
    ensures WellFormed(Refill(p, request, supply).0)
  {
    FlushKeeps(p);
    if supply.Some? {
      AdoptKeeps(Flush(p), supply.value, request);
    }
  }

  lemma CarveOrRefillCases(p: Pool, size: nat, alignment: nat, supply: Option<nat>)
    requires |p.free| == SLOTS
    ensures var q, a := CarveOrRefill(p, size, alignment, supply).0, if alignment == 0 then 1 else alignment;
            q == p || (Carves(p, size, a) && q == Carve(p, size, a)) || q == Refill(p, size, supply).0
  {
  }

  lemma CarveOrRefillKeeps(p: Pool, size: nat, alignment: nat, supply: Option<nat>)
    requires WellFormed(p)
    ensures WellFormed(CarveOrRefill(p, size, alignment, supply).0)
  {
    var a := if alignment == 0 then 1 else alignment;
    CarveOrRefillCases(p, size, alignment, supply);
    RefillKeeps(p, size, supply);
    if Carves(p, size, a) {
      CarveKeeps(p, size, a);
    }
  }

  /** Malloc keeps the pool well formed whatever the request and whatever the system supplies. */
  lemma MallocKeeps(p: Pool, size: nat, alignment: nat, supply: Option<nat>)
    requires WellFormed(p)
    ensures WellFormed(Malloc(p, size, alignment, supply).0)
  {
    var c := AlignmentToTree(alignment);
    SearchSpec(p.free, c, size);
    CarveOrRefillKeeps(p, size, alignment, supply);
    if Search(p.free, c, size).Taken? {
      ServeKeeps(p, Slot(c, Search(p.free, c, size).bucket));
    }
  }
}
