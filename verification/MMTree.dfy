/** The pool in memory: the free lists, the allocated tree, the chunk and the list of mapped blocks,
    with the allocator's methods proved against the pool's functions. */
module MMTree {
  import opened AllocTree
  import opened Buckets
  import opened Deq
  import opened HeapBuckets
  import opened HeapTree
  import opened Nodes
  import opened Pool
  import P = Pool
  import opened Seeding
  import opened SizeClasses
  import opened Wrappers

  /** No node of a bucket is in the tree. */
  ghost predicate FreeApart(p: Pool) {
    forall s, x {:trigger x in p.free[s]} | 0 <= s < |p.free| && x in p.free[s] :: x !in Elems(p.alloc)
  }

  /** `x` is in no bucket and not in the tree. */
  ghost predicate Outside(p: Pool, x: Node) {
    x !in Elems(p.alloc) && forall s | 0 <= s < |p.free| :: x !in p.free[s]
  }

  lemma WellFormedApart(p: Pool)
    requires WellFormed(p)
    ensures FreeApart(p)
  {
    forall s, x | 0 <= s < |p.free| && x in p.free[s]
      ensures x !in Elems(p.alloc)
    {
      FreeMember(p, s, x);
    }
  }

  lemma FreeMember(p: Pool, s: nat, x: Node)
    requires WellFormed(p) && s < SLOTS && x in p.free[s]
    ensures x in All(p) && x !in Elems(p.alloc)
  {
    FreeBagUpdate(p.free, s, []);
    assert x in multiset(p.free[s]);
    ElemsBag(p.alloc);
    assert All(p)[x] == FreeBag(p.free)[x] + Bag(p.alloc)[x];
  }

  lemma NotInStack(s: seq<Node>, x: Node)
    requires x !in multiset(s)
    ensures x !in s
  {
  }

  lemma NotInAll(p: Pool, x: Node)
    requires x !in All(p)
    ensures Outside(p, x)
  {
    ElemsBag(p.alloc);
    forall s | 0 <= s < |p.free|
      ensures x !in p.free[s]
    {
      FreeBagUpdate(p.free, s, []);
      NotInStack(p.free[s], x);
    }
  }

  /** A popped head is nowhere else. */
  lemma TakenOutside(p: Pool, s: nat)
    requires WellFormed(p) && s < SLOTS && p.free[s] != []
    ensures WellFormed(TakeFree(p, s)) && FreeApart(TakeFree(p, s)) && Outside(TakeFree(p, s), p.free[s][0])
  {
    var q, h := TakeFree(p, s), p.free[s][0];
    TakeFreeAll(p, s);
    TakeFreeFiles(p, s);
    LessIdentified(All(q), h, p.next);
    WellFormedApart(q);
    assert (All(q) + multiset{h})[h] == 1;
    NotInAll(q, h);
  }

  lemma LessIdentified(bag: multiset<Node>, n: Node, next: nat)
    requires Identified(bag + multiset{n}, next)
    ensures Identified(bag, next)
  {
    forall x | x in bag
      ensures bag[x] == 1 && x in bag + multiset{n}
    {
      assert (bag + multiset{n})[x] == 1;
    }
  }

  /** A pool a new node structure can join: the tree and the buckets apart, every identity used up. */
  ghost predicate Ready(p: Pool) {
    && FreeApart(p)
    && (forall x | x in Elems(p.alloc) :: x.id < p.next)
    && (forall s, x {:trigger x in p.free[s]} | 0 <= s < |p.free| && x in p.free[s] :: x.id < p.next)
  }

  lemma WellFormedReady(p: Pool)
    requires WellFormed(p)
    ensures Ready(p) && Ready(Flush(p))
  {
    FlushKeeps(p);
    ReadyFrom(p);
    ReadyFrom(Flush(p));
  }

  lemma ReadyFrom(p: Pool)
    requires WellFormed(p)
    ensures Ready(p)
  {
    WellFormedApart(p);
    ElemsBag(p.alloc);
    forall x | x in Elems(p.alloc)
      ensures x.id < p.next
    {
      assert x in All(p);
    }
    forall s, x | 0 <= s < |p.free| && x in p.free[s]
      ensures x.id < p.next
    {
      FreeMember(p, s, x);
    }
  }

  /** What the class search needs of a pool for its outcome to be carried out. */
  ghost predicate Searchable(p: Pool, c: nat, size: nat)
    requires |p.free| == SLOTS && c < 4
  {
    match Search(p.free, c, size)
    case Missing => Ready(p) && Ready(Flush(p))
    case Dropped(b) => false
    case Taken(b) => FreeApart(TakeFree(p, Slot(c, b))) && Outside(TakeFree(p, Slot(c, b)), p.free[Slot(c, b)][0])
  }

  lemma WellFormedSearchable(p: Pool, c: nat, size: nat)
    requires WellFormed(p) && c < 4
    ensures Searchable(p, c, size)
  {
    SearchSpec(p.free, c, size);
    WellFormedReady(p);
    if Search(p.free, c, size).Taken? {
      TakenOutside(p, Slot(c, Search(p.free, c, size).bucket));
    }
  }

  /** The pool after a node has been cut from the chunk `offset` bytes in. */
  function Chunked(p: Pool, offset: nat, allocSize: nat, cls: nat): Pool
    requires (offset + allocSize) % WORD <= p.remaining
  {
    PutAlloc(p, Node(p.next, (p.cursor + offset) % WORD, allocSize, cls)).(
      next := p.next + 1,
      cursor := (p.cursor + offset + allocSize) % WORD,
      remaining := p.remaining - (offset + allocSize) % WORD)
  }

  lemma CarveIs(p: Pool, size: nat, alignment: nat, offset: nat)
    requires Carves(p, size, alignment)
    requires offset == Padding(p.cursor, p.remaining, SizeToBucketSize(size), alignment)
    ensures (offset + SizeToBucketSize(size)) % WORD <= p.remaining
    ensures Carve(p, size, alignment) == Chunked(p, offset, SizeToBucketSize(size), AlignmentToTree(alignment))
    ensures CarvedNode(p, size, alignment).address == (p.cursor + offset) % WORD
  {
  }

  lemma CarveOrRefillIs(p: Pool, size: nat, alignment: nat, supply: Option<nat>, offset: nat)
    requires |p.free| == SLOTS && !DividesByZero(p, size, alignment)
    requires offset == Padding(p.cursor, p.remaining, SizeToBucketSize(size), if alignment == 0 then 1 else alignment)
    ensures var allocSize, r := SizeToBucketSize(size), P.CarveOrRefill(p, size, alignment, supply);
            if (offset + allocSize) % WORD <= p.remaining
            then r == (Chunked(p, offset, allocSize, AlignmentToTree(alignment)), Address((p.cursor + offset) % WORD))
            else r == Refill(p, size, supply)
  {
    var a := if alignment == 0 then 1 else alignment;
    assert AlignmentToTree(a) == AlignmentToTree(alignment);
    if Carves(p, size, a) {
      CarveIs(p, size, a, offset);
    }
  }

  class MappedMemoryTree {
    // bucket `b` of class `c` is freeList[Slot(c, b)]
    const freeList: seq<Bucket>
    const allocedTree: AllocedTree
    const blockList: DecRoot<Block>
    var ptrRemainingChunk: nat
    var remainingSize: nat
    var made: nat  // how many node structures there have been, which names the next one
    ghost var pool: Pool
    ghost var Repr: set<object>

    /** The bucket is a stack of detached structures holding these nodes. */
    static ghost predicate Holds(d: Bucket, nodes: seq<Node>)
      reads d, d.cells, d.items
    {
      d.Valid() && Infos(d.items) == nodes && forall m | m in d.items :: m.Detached()
    }

    /** Bucket `s` is this tree's own and holds what the pool value says. */
    ghost predicate BucketOk(s: nat)
      requires |freeList| == SLOTS == |pool.free| && s < SLOTS
      reads this, Repr, freeList
    {
      var d := freeList[s];
      && d in Repr && d.cells <= Repr && (forall m | m in d.items :: m in Repr)
      && Holds(d, pool.free[s])
    }

    static predicate Distinct(lists: seq<Bucket>) {
      forall i, j | 0 <= i < j < |lists| :: lists[i] != lists[j]
    }

    /** Everything but bucket `k`, and perhaps but which tree the allocated tree is. */
    ghost predicate ValidBut(k: nat, tree: bool)
      reads this, Repr, freeList
    {
      && this in Repr && allocedTree in Repr && blockList in Repr && blockList.cells <= Repr
      && allocedTree.at.Values <= Repr
      && |freeList| == SLOTS == |pool.free| && Distinct(freeList)
      && (forall s {:trigger BucketOk(s)} | 0 <= s < SLOTS && s != k :: BucketOk(s))
      && allocedTree.Valid() && (tree ==> allocedTree.t == pool.alloc)
      && blockList.Valid() && blockList.items == pool.blocks
      && ptrRemainingChunk == pool.cursor && remainingSize == pool.remaining && made == pool.next
    }

    ghost predicate Valid()
      reads this, Repr, freeList
      ensures Valid() ==> this in Repr
    {
      ValidBut(SLOTS, true)
    }

    /** Bucket `s` has changed and the pool value follows. */
    ghost method Commit(s: nat, nodes: seq<Node>)
      requires s < SLOTS && ValidBut(s, true) && freeList[s] in Repr && Holds(freeList[s], nodes)
      requires forall m | m in freeList[s].items :: m in Repr
      modifies this`pool, this`Repr
      ensures Valid() && pool == old(pool).(free := old(pool).free[s := nodes])
      ensures Repr == old(Repr) + freeList[s].cells
    {
      pool := pool.(free := pool.free[s := nodes]);
      Repr := Repr + freeList[s].cells;
      forall s2 | 0 <= s2 < SLOTS
        ensures BucketOk(s2)
      {
        assert s2 != s ==> old(BucketOk(s2));
      }
    }

    /** The allocated tree has changed and the pool value follows. */
    ghost method Follow()
      requires ValidBut(SLOTS, false)
      modifies this`pool
      ensures Valid() && pool == old(pool).(alloc := allocedTree.t)
    {
      pool := pool.(alloc := allocedTree.t);
      forall s | 0 <= s < SLOTS
        ensures BucketOk(s)
      {
        assert old(BucketOk(s));
      }
    }

    constructor ()
      ensures Valid() && fresh(Repr)
      ensures pool == Pool(NoFreeNodes(), Leaf, 0, 0, 0, [])
    {
      var tree := new AllocedTree();
      var blocks := new DecRoot<Block>();
      var lists, repr := EmptyBuckets();
      freeList, allocedTree, blockList := lists, tree, blocks;
      ptrRemainingChunk, remainingSize, made := 0, 0, 0;
      pool := Pool(NoFreeNodes(), Leaf, 0, 0, 0, []);
      Repr := {this, tree, blocks} + blocks.cells + repr;
      new;
      forall s | 0 <= s < SLOTS
        ensures BucketOk(s)
      {
        assert Holds(lists[s], []) && lists[s].items == [];
        assert pool.free[s] == [];
      }
      assert allocedTree.at.Values == {};
    }

    static method EmptyBuckets() returns (lists: seq<Bucket>, ghost repr: set<object>)
      ensures |lists| == SLOTS && Distinct(lists) && fresh(repr)
      ensures forall i | 0 <= i < SLOTS :: lists[i] in repr && lists[i].cells <= repr
      ensures forall i | 0 <= i < SLOTS :: Holds(lists[i], []) && lists[i].items == []
    {
      lists, repr := [], {};
      for k := 0 to SLOTS
        invariant |lists| == k && Distinct(lists) && fresh(repr)
        invariant forall i | 0 <= i < k :: lists[i] in repr && lists[i].cells <= repr
        invariant forall i | 0 <= i < k :: Holds(lists[i], []) && lists[i].items == []
      {
        var d := new DecRoot<MappedNode>();
        lists, repr := lists + [d], repr + {d} + d.cells;
      }
    }

    // dec_pop on one bucket
    method TakeNode(s: nat) returns (n: MappedNode)
      requires Valid() && s < SLOTS && pool.free[s] != []
      modifies Repr
      ensures Valid() && Repr == old(Repr) && pool == TakeFree(old(pool), s)
      ensures n in Repr && n.info == old(pool).free[s][0] && n.Detached()
    {
      assert BucketOk(s);
      var x := freeList[s].Pop();
      n := x.value;
      forall s2 | 0 <= s2 < SLOTS && s2 != s
        ensures BucketOk(s2)
      {
        assert old(BucketOk(s2));
      }
      Commit(s, pool.free[s][1..]);
    }

    // malloc of a node structure
    method NewNode(address: nat, size: nat, cls: nat) returns (n: MappedNode)
      requires Valid()
      modifies this`made, this`pool, this`Repr
      ensures Valid() && pool == old(pool).(next := old(pool).next + 1) && Repr == old(Repr) + {n} && fresh(n)
      ensures n.info == Node(old(pool).next, address, size, cls) && n.Detached()
    {
      n := new MappedNode(Node(made, address, size, cls));
      made := made + 1;
      pool := pool.(next := pool.next + 1);
      Repr := Repr + {n};
      forall s | 0 <= s < SLOTS
        ensures BucketOk(s)
      {
        assert old(BucketOk(s));
      }
    }

    /** The structures of bucket `s` are none of the tree's, nor `n`. */
    ghost predicate Idle(s: nat, n: MappedNode?)
      requires s < |freeList|
      reads this, freeList, allocedTree
    {
      forall m | m in freeList[s].items :: m != n && m !in allocedTree.at.Values
    }

    lemma OutsideIdle(s: nat, n: MappedNode?)
      requires Valid() && s < SLOTS && FreeApart(pool) && (n != null ==> Outside(pool, n.info))
      ensures Idle(s, n)
    {
      assert BucketOk(s);
      var items := freeList[s].items;
      forall m | m in items
        ensures m != n && m !in allocedTree.at.Values
      {
        var i :| 0 <= i < |items| && items[i] == m;
        assert Infos(items)[i] in pool.free[s];
        if m in allocedTree.at.Values {
          allocedTree.InTree(m);
        }
      }
    }

    // cop_insertMappedMemoryNodeToAllocTree
    method PutTree(n: MappedNode)
      requires Valid() && n in Repr && n.Detached() && FreeApart(pool) && Outside(pool, n.info)
      modifies Repr
      ensures Valid() && Repr == old(Repr) && pool == PutAlloc(old(pool), n.info)
    {
      forall s | 0 <= s < SLOTS
        ensures Idle(s, n)
      {
        OutsideIdle(s, n);
      }
      allocedTree.Insert(n);
      forall s | 0 <= s < SLOTS
        ensures BucketOk(s)
      {
        assert old(BucketOk(s)) && old(Idle(s, n));
      }
      Follow();
    }

    static lemma OneMore(items: seq<MappedNode>, was: seq<MappedNode>, n: MappedNode)
      requires multiset(items) == multiset(was) + multiset{n}
      ensures forall m | m in items :: m == n || m in was
    {
      forall m | m in items
        ensures m == n || m in was
      {
        assert m in multiset(items);
      }
    }

    // cop_insertMappedMemoryNodeToBranch
    method PutBucket(n: MappedNode)
      requires Valid() && n in Repr && n.Detached() && n.info.cls < 4 && n.info.size >= 128
      modifies Repr
      ensures Valid() && fresh(Repr - old(Repr)) && old(Repr) <= Repr && pool == PutFree(old(pool), n.info)
    {
      var s := Slot(n.info.cls, FitToBucket(n.info.size));
      var d := freeList[s];
      assert BucketOk(s);
      InsertNode(d, n);
      OneMore(d.items, old(d.items), n);
      forall s2 | 0 <= s2 < SLOTS && s2 != s
        ensures BucketOk(s2)
      {
        assert old(BucketOk(s2));
      }
      Commit(s, BucketInsert(pool.free[s], n.info));
    }

    method SetChunk(cursor: nat, remaining: nat)
      requires Valid()
      modifies this`ptrRemainingChunk, this`remainingSize, this`pool
      ensures Valid() && pool == old(pool).(cursor := cursor, remaining := remaining)
    {
      ptrRemainingChunk, remainingSize := cursor, remaining;
      pool := pool.(cursor := cursor, remaining := remaining);
      forall s | 0 <= s < SLOTS
        ensures BucketOk(s)
      {
        assert old(BucketOk(s));
      }
    }

    // the class search: pops the first bucket it may, and drops a node it then finds too small
    method SearchAligned(c: nat, size: nat) returns (n: MappedNode?)
      requires Valid() && c < 4
      modifies Repr
      ensures Valid() && Repr == old(Repr)
      ensures var h := Search(old(pool).free, c, size);
              && pool == (if h.Missing? then old(pool) else TakeFree(old(pool), Slot(c, h.bucket)))
              && (n != null <==> h.Taken?)
              && (n != null ==> n in Repr && n.Detached() && n.info == old(pool).free[Slot(c, h.bucket)][0])
    {
      var whichList := SizeToBucket(size);
      SizeIs(Slot(c, whichList));
      if freeList[Slot(c, whichList)].size > 0 {
        n := TakeNode(Slot(c, whichList));
      } else {
        while whichList < 6
          invariant Valid() && pool == old(pool) && Repr == old(Repr)
          invariant SizeToBucket(size) <= whichList <= 6
          invariant FirstNonEmpty(pool.free, c, SizeToBucket(size)) == FirstNonEmpty(pool.free, c, whichList)
          invariant pool.free[Slot(c, SizeToBucket(size))] == []
        {
          SizeIs(Slot(c, whichList));
          if freeList[Slot(c, whichList)].size > 0 {
            n := TakeNode(Slot(c, whichList));
            if n.info.size < size {
              n := null;
            }
            return n;
          }
          whichList := whichList + 1;
        }
        n := null;
      }
    }

    lemma SizeIs(s: nat)
      requires Valid() && s < SLOTS
      ensures freeList[s].size == |pool.free[s]|
    {
      assert BucketOk(s);
    }

    // cop_MMTree_flush_remaining
    method FlushRemaining()
      requires Valid()
      modifies Repr
      ensures Valid() && fresh(Repr - old(Repr)) && old(Repr) <= Repr && pool == Flush(old(pool))
    {
      var address, remaining := ptrRemainingChunk, remainingSize;
      SetChunk(0, 0);
      if address != 0 {
        var whichTree := AddressToTree(address);
        var whichBucket := -1;
        if remaining >= 128 {
          whichBucket := FitToBucket(remaining);
        }
        if whichBucket > -1 {
          var n := NewNode(address, remaining, whichTree);
          PutBucket(n);
        }
      }
    }

    // cop_MMTree_refill_and_flush; `supply` is what posix_memalign and the mapping come to
    method RefillAndFlush(blockSize: nat, request: nat, supply: Option<nat>) returns (r: Outcome)
      requires Valid() && Ready(Flush(pool)) && blockSize == BlockSize(request)
      modifies Repr
      ensures Valid() && fresh(Repr - old(Repr)) && (pool, r) == Refill(old(pool), request, supply)
    {
      FlushRemaining();
      if supply.None? {
        return Null;
      }
      AdoptBlock(supply.value, blockSize, request);
      r := Address(supply.value);
    }

    method AdoptBlock(base: nat, blockSize: nat, request: nat)
      requires Valid() && Ready(pool) && blockSize == BlockSize(request)
      modifies Repr
      ensures Valid() && fresh(Repr - old(Repr)) && pool == Adopt(old(pool), base, request)
    {
      PushBlock(Block(base, blockSize));
      var allocation := SizeToBucketSize(request);
      if allocation < request {
        allocation := request;
      }
      PutNew(base, allocation, AddressToTree(base));
      SetChunk(base + request, blockSize - request);
    }

    method PushBlock(b: Block)
      requires Valid()
      modifies Repr
      ensures Valid() && fresh(Repr - old(Repr)) && old(Repr) <= Repr
      ensures pool == old(pool).(blocks := [b] + old(pool).blocks)
    {
      blockList.Push(b);
      pool := pool.(blocks := [b] + pool.blocks);
      Repr := Repr + blockList.cells;
      forall s | 0 <= s < SLOTS
        ensures BucketOk(s)
      {
        assert old(BucketOk(s));
      }
    }

    // a new node structure, straight into the tree
    method PutNew(address: nat, size: nat, cls: nat)
      requires Valid() && Ready(pool)
      modifies Repr
      ensures Valid() && fresh(Repr - old(Repr)) && old(Repr) <= Repr
      ensures pool == PutAlloc(old(pool), Node(old(pool).next, address, size, cls)).(next := old(pool).next + 1)
    {
      var n := NewNode(address, size, cls);
      PutTree(n);
    }

    method TreeMalloc(size: nat, alignment: nat, supply: Option<nat>) returns (r: Outcome)
      requires Valid() && Searchable(pool, AlignmentToTree(alignment), size)
      modifies Repr
      ensures Valid() && fresh(Repr - old(Repr))
      ensures (pool, r) == P.TreeMalloc(old(pool), size, alignment, supply)
    {
      var n := SearchAligned(AlignmentToTree(alignment), size);
      if n != null {
        PutTree(n);
        r := Address(n.info.address);
      } else {
        r := CarveOrRefill(size, alignment, supply);
      }
    }

    // the padding before a carved node; none when it cannot be computed
    static method Offset(walker: nat, remaining: nat, allocSize: nat, alignment: nat) returns (o: Option<nat>)
      ensures o.None? <==> alignment == 0 && !(BitAnd(walker, AlignmentToMask(alignment)) == 0 && allocSize <= remaining)
      ensures o.Some? ==> o.value == Padding(walker, remaining, allocSize, if alignment == 0 then 1 else alignment)
    {
      var offset := 0;
      if BitAnd(walker, AlignmentToMask(alignment)) == 0 && allocSize <= remaining {
      } else {
        if alignment == 0 {
          return None;
        }
        offset := walker % alignment;
        if offset != 0 {
          offset := alignment - offset;
        }
      }
      o := Some(offset);
    }

    method CarveOrRefill(size: nat, alignment: nat, supply: Option<nat>) returns (r: Outcome)
      requires Valid() && Ready(pool) && Ready(Flush(pool))
      modifies Repr
      ensures Valid() && fresh(Repr - old(Repr))
      ensures (pool, r) == P.CarveOrRefill(old(pool), size, alignment, supply)
    {
      var allocSize, walker := SizeToBucketSize(size), ptrRemainingChunk;
      var offset := Offset(walker, remainingSize, allocSize, alignment);
      if offset.None? {
        return DivideByZero;
      }
      CarveOrRefillIs(pool, size, alignment, supply, offset.value);
      if (offset.value + allocSize) % WORD <= remainingSize {
        r := Address((walker + offset.value) % WORD);
        CarveChunk(offset.value, allocSize, AlignmentToTree(alignment));
      } else {
        r := RefillFor(size, allocSize, supply);
      }
    }

    // the block is of at least 16 MiB
    method RefillFor(size: nat, allocSize: nat, supply: Option<nat>) returns (r: Outcome)
      requires Valid() && Ready(Flush(pool)) && allocSize == SizeToBucketSize(size)
      modifies Repr
      ensures Valid() && fresh(Repr - old(Repr)) && (pool, r) == Refill(old(pool), size, supply)
    {
      var blockSize := allocSize;
      if blockSize < REFILL {
        blockSize := REFILL;
      }
      r := RefillAndFlush(blockSize, size, supply);
    }

    method CarveChunk(offset: nat, allocSize: nat, cls: nat)
      requires Valid() && Ready(pool) && (offset + allocSize) % WORD <= pool.remaining
      modifies Repr
      ensures Valid() && fresh(Repr - old(Repr))
      ensures pool == Chunked(old(pool), offset, allocSize, cls)
    {
      var walker, left := ptrRemainingChunk, remainingSize - (offset + allocSize) % WORD;
      PutNew((walker + offset) % WORD, allocSize, cls);
      SetChunk((walker + offset + allocSize) % WORD, left);
    }

    // cop_malloc
    method Malloc(size: nat, alignment: nat, supply: Option<nat>) returns (r: Outcome)
      requires Valid() && WellFormed(pool)
      modifies Repr
      ensures Valid() && fresh(Repr - old(Repr)) && WellFormed(pool)
      ensures (pool, r) == P.Malloc(old(pool), size, alignment, supply)
    {
      MallocKeeps(pool, size, alignment, supply);
      WellFormedSearchable(pool, AlignmentToTree(alignment), size);
      if alignment <= MAX_ALIGNMENT {
        r := TreeMalloc(size, alignment, supply);
      } else {
        r := Null;
      }
    }

    // cop_MMTree_free: an address that did not come from here changes nothing
    method Free(address: nat)
      requires Valid() && WellFormed(pool)
      modifies Repr
      ensures Valid() && fresh(Repr - old(Repr)) && WellFormed(pool) && pool == P.Free(old(pool), address)
    {
      FreeKeeps(pool, address);
      WellFormedApart(pool);
      FindWithin(pool, address);
      Release(address);
    }

    method Release(address: nat)
      requires Valid() && FreeApart(pool) && Shaped(pool) && Fileable(Find(pool.alloc, address))
      modifies Repr
      ensures Valid() && fresh(Repr - old(Repr)) && pool == P.Free(old(pool), address)
    {
      var n := TakeTree(address);
      if n != null {
        PutBucket(n);
      }
    }

    static predicate Fileable(f: Option<Node>) {
      f.Some? ==> f.value.cls < 4 && f.value.size >= 128
    }

    lemma FindWithin(p: Pool, address: nat)
      requires WellFormed(p)
      ensures Fileable(Find(p.alloc, address))
    {
      FindInBag(p.alloc, address);
      if Find(p.alloc, address).Some? {
        assert Find(p.alloc, address).value in All(p);
      }
    }

    // cop_searchForExactMappedMemoryNodeAndRemove
    method TakeTree(address: nat) returns (n: MappedNode?)
      requires Valid() && FreeApart(pool)
      modifies Repr
      ensures Valid() && Repr == old(Repr)
      ensures Find(old(pool).alloc, address) == None ==> n == null && pool == old(pool)
      ensures var f := Find(old(pool).alloc, address);
              f.Some? ==> n != null && n.info == f.value && n in Repr && n.Detached()
                          && pool == old(pool).(alloc := Remove(old(pool).alloc, f.value))
    {
      forall s | 0 <= s < SLOTS
        ensures Idle(s, null)
      {
        OutsideIdle(s, null);
      }
      n := allocedTree.SearchAndRemove(address);
      forall s | 0 <= s < SLOTS
        ensures BucketOk(s)
      {
        assert old(BucketOk(s)) && old(Idle(s, null));
      }
      Follow();
    }

    // one turn of cop_seedMappedMemoryBranch
    method SeedNode(cls: nat, stride: nat, size: nat)
      requires Valid() && cls < 4 && 0 < stride <= WORD
      modifies Repr
      ensures Valid() && fresh(Repr - old(Repr)) && pool == SeedOne(old(pool), cls, stride, size)
    {
      var s := Slot(cls, SizeToBucket(size));
      var address, left := ptrRemainingChunk, remainingSize;
      var n := NewNode(address, size, cls);
      PushNode(s, n);
      SetChunk(address + stride, if left >= stride then left - stride else left + WORD - stride);
    }

    // dec_push on one bucket
    method PushNode(s: nat, n: MappedNode)
      requires Valid() && s < SLOTS && n in Repr && n.Detached()
      modifies Repr
      ensures Valid() && fresh(Repr - old(Repr)) && old(Repr) <= Repr
      ensures pool == old(pool).(free := old(pool).free[s := [n.info] + old(pool).free[s]])
    {
      assert BucketOk(s);
      freeList[s].Push(n);
      assert Infos([n] + old(freeList[s].items)) == [n.info] + Infos(old(freeList[s].items));
      forall s2 | 0 <= s2 < SLOTS && s2 != s
        ensures BucketOk(s2)
      {
        assert old(BucketOk(s2));
      }
      Commit(s, [n.info] + pool.free[s]);
    }

    method SeedBranch(cls: nat, stride: nat, size: nat, number: nat)
      requires Valid() && cls < 4 && 0 < stride <= WORD
      modifies Repr
      ensures Valid() && fresh(Repr - old(Repr)) && pool == SeedBatch(old(pool), cls, stride, size, number)
    {
      for i := 0 to number
        invariant Valid() && fresh(Repr - old(Repr)) && pool == SeedBatch(old(pool), cls, stride, size, i)
      {
        SeedNode(cls, stride, size);
      }
    }

    // cop_MMTree_insertmappedblock, in three parts
    method InsertMappedBlock(base: nat, length: nat)
      requires Valid()
      modifies Repr
      ensures Valid() && fresh(Repr - old(Repr))
      ensures pool == SeedLines(SeedSparse(SeedPages(old(pool).(cursor := base, remaining := length))))
    {
      SetChunk(base, length);
      InsertPages();
      InsertSparse();
      InsertLines();
    }

    method InsertPages()
      requires Valid()
      modifies Repr
      ensures Valid() && fresh(Repr - old(Repr)) && pool == SeedPages(old(pool))
    {
      SeedBranch(3, 65536, 65536, 25);
      SeedBranch(3, 4096, 4096, 25);
      SeedThree(2, 1, 0, 4096, 50);
    }

    // three branches alike but for their classes
    method SeedThree(first: nat, second: nat, third: nat, size: nat, number: nat)
      requires Valid() && first < 4 && second < 4 && third < 4 && 0 < size <= WORD
      modifies Repr
      ensures Valid() && fresh(Repr - old(Repr))
      ensures pool == SeedBatch(SeedBatch(SeedBatch(old(pool), first, size, size, number), second, size, size, number),
                                third, size, size, number)
    {
      SeedBranch(first, size, size, number);
      SeedBranch(second, size, size, number);
      SeedBranch(third, size, size, number);
    }

    method InsertSparse()
      requires Valid()
      modifies Repr
      ensures Valid() && fresh(Repr - old(Repr)) && pool == SeedSparse(old(pool))
    {
      SeedBranch(3, 4096, 128, 25);
      SeedBranch(3, 4096, 512, 25);
    }

    method InsertLines()
      requires Valid()
      modifies Repr
      ensures Valid() && fresh(Repr - old(Repr)) && pool == SeedLines(old(pool))
    {
      SeedBranch(2, 512, 512, 250);
      SeedBranch(1, 512, 512, 250);
      SeedThree(0, 1, 2, 128, 250);
    }
  }

  /** A pool over its first block, as the library sets it up when it is loaded. */
  method NewSeededTree(base: nat, length: nat) returns (tree: MappedMemoryTree)
    ensures tree.Valid() && fresh(tree.Repr) && tree.pool == SeedPool(NoFreeNodes(), base, length)
  {
    tree := new MappedMemoryTree();
    tree.PushBlock(Block(base, length));
    assert [Block(base, length)] + [] == [Block(base, length)];
    tree.InsertMappedBlock(base, length);
  }
}
