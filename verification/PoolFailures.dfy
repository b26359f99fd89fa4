/** The pool's failures, each on the pool the library starts with. */
module PoolFailures {
  import opened AllocTree
  import opened Buckets
  import opened Nodes
  import opened Pool
  import opened PoolAlignment
  import opened PoolGround
  import opened PoolReuse
  import opened PoolSafety
  import opened PoolService
  import opened Seeding
  import opened SizeClasses
  import opened Territory
  import opened Wrappers

  /** Seeding leaves the buckets of 1 MiB and over empty. */
  lemma SeededIsSmall(p: Pool, c: nat, b: nat)
    requires Uniform(p.free) && c < 4 && 4 <= b < 6
    ensures p.free[Slot(c, b)] == []
  {
    if p.free[Slot(c, b)] != [] {
      HeadIsSmall(p, Slot(c, b));
    }
  }

  lemma HeadIsSmall(p: Pool, s: nat)
    requires Uniform(p.free) && s < SLOTS && p.free[s] != []
    ensures s % 6 < 4
  {
    var n := p.free[s][0];
    assert n in p.free[s];
    assert n.size == SeedSize(s % 6) && FitToBucket(n.size) == s % 6;
  }

  lemma LargeMisses(free: seq<seq<Node>>, c: nat, size: nat)
    requires |free| == SLOTS && c < 4 && size > 64 * 1024
    requires free[Slot(c, 4)] == [] && free[Slot(c, 5)] == []
    ensures Search(free, c, size).Missing?
  {
    assert FirstNonEmpty(free, c, 5) == 6;
  }

  lemma FirstMisses(base: nat, length: nat, c: nat, size: nat)
    requires FirstBlock(base, length) && c < 4 && size > 64 * 1024
    ensures Search(FirstPool(base, length).free, c, size).Missing?
  {
    var p := FirstPool(base, length);
    SeededIsSmall(p, c, 4);
    SeededIsSmall(p, c, 5);
    LargeMisses(p.free, c, size);
  }

  lemma PagePadding(base: nat, remaining: nat, rounded: nat)
    requires base % 4096 == 0
    ensures Padding(base + SEEDED, remaining, rounded, 4096) == 256
  {
    MaskPowers();
    MaskIsRemainder(base + SEEDED, 4096);
    assert (base + SEEDED) % 4096 == SEEDED % 4096 == 3840;
  }

  lemma CutAnswers(p: Pool, size: nat, alignment: nat, supply: Option<nat>)
    requires |p.free| == SLOTS && Cuts(p, size, alignment)
    ensures Malloc(p, size, alignment, supply) == (Carve(p, size, alignment), Address(CarvedNode(p, size, alignment).address))
  {
  }

  lemma WrappedCarve(p: Pool, base: nat)
    requires p.cursor == base + SEEDED && base % 4096 == 0
    ensures Carves(p, WORD - 256, 4096) && Needed(p, WORD - 256, 4096) == WORD
    ensures CarvedNode(p, WORD - 256, 4096).address == (base + SEEDED + 256) % WORD
  {
    PagePadding(base, p.remaining, WORD - 256);
  }

  lemma WrappedAnswer(p: Pool, base: nat)
    requires |p.free| == SLOTS && SafePool(p) && Search(p.free, 3, WORD - 256).Missing?
    requires p.cursor == base + SEEDED && base % 4096 == 0 && Roomy(p.blocks, 4096)
    ensures var (q, r) := Malloc(p, WORD - 256, 4096, None);
            r == Address((base + SEEDED + 256) % WORD) && !SafePool(q)
  {
    WrappedCarve(p, base);
    CarveUnsafe(p, WORD - 256, 4096);
    CutAnswers(p, WORD - 256, 4096, None);
  }

  /** The carve's sum wraps: a page-aligned request for all but 256 bytes of the address space is "served"
      by what is left of the first block, and memory is no longer disjoint or mapped. */
  lemma CarveWraps(base: nat, length: nat)
    requires FirstBlock(base, length)
    ensures var (q, r) := Malloc(FirstPool(base, length), WORD - 256, 4096, None);
            r == Address((base + SEEDED + 256) % WORD) && !SafePool(q)
  {
    FirstMisses(base, length, 3, WORD - 256);
    FirstRoomy(base, length);
    WrappedAnswer(FirstPool(base, length), base);
  }

  lemma FirstRoomy(base: nat, length: nat)
    requires FirstBlock(base, length)
    ensures Roomy(FirstPool(base, length).blocks, 4096)
  {
    PageOrMore(base);
  }

  lemma PageOrMore(base: nat)
    requires 0 < base && base % 4096 == 0
    ensures base >= 4096
  {
  }

  // ---------------------------------------------------------------- a rounded refill

  const ODD: nat := 65537

  /** The pool after a refill for 65537 bytes. */
  ghost function Refilled(base: nat, length: nat, next: nat): Pool
    requires FirstBlock(base, length)
  {
    Adopt(Flush(FirstPool(base, length)), next, ODD)
  }

  lemma FirstRefills(base: nat, length: nat, next: nat)
    requires FirstBlock(base, length) && length < SEEDED + MIB
    ensures Malloc(FirstPool(base, length), ODD, 1, Some(next)) == (Refilled(base, length, next), Address(next))
  {
    var p := FirstPool(base, length);
    FirstMisses(base, length, 0, ODD);
    CarveTestIsExact(p, ODD, 1);
  }

  lemma FlushedSlot(p: Pool, c: nat, b: nat)
    requires |p.free| == SLOTS && c < 4 && b < 6 && (Flushes(p) ==> FlushNode(p).cls != c || FitToBucket(p.remaining) != b)
    ensures Flush(p).free[Slot(c, b)] == p.free[Slot(c, b)]
  {
  }

  lemma RefilledSlots(base: nat, length: nat, next: nat)
    requires FirstBlock(base, length) && length < SEEDED + MIB
    ensures var q := Refilled(base, length, next);
            |q.free| == SLOTS && q.free[Slot(0, 4)] == [] && q.free[Slot(0, 5)] == [] && q.free[Slot(3, 4)] == []
  {
    var p := FirstPool(base, length);
    SeededIsSmall(p, 0, 4);
    SeededIsSmall(p, 0, 5);
    SeededIsSmall(p, 3, 4);
    FlushedSlot(p, 0, 4);
    FlushedSlot(p, 0, 5);
    FlushedSlot(p, 3, 4);
  }

  lemma OddCarve(q: Pool, next: nat)
    requires q.cursor == next + ODD && q.remaining == REFILL - ODD && 0 < next && next + REFILL <= WORD
    ensures Carves(q, ODD, 1) && CarvedNode(q, ODD, 1) == Node(q.next, next + ODD, MIB, 0)
  {
    CarveTestIsExact(q, ODD, 1);
    WordRemainder(next + ODD);
  }

  lemma SecondCarves(base: nat, length: nat, next: nat)
    requires FirstBlock(base, length) && length < SEEDED + MIB && 0 < next && next + REFILL <= WORD
    ensures var q := Refilled(base, length, next);
            |q.free| == SLOTS && Cuts(q, ODD, 1)
            && Malloc(q, ODD, 1, None) == (Carve(q, ODD, 1), Address(next + ODD))
  {
    var q := Refilled(base, length, next);
    RefilledSlots(base, length, next);
    LargeMisses(q.free, 0, ODD);
    OddCarve(q, next);
  }

  lemma FreedThenServed(q: Pool, n: Node)
    requires Shaped(q) && Find(q.alloc, n.address) == Some(n) && n.size == MIB && n.cls == 3
    requires q.free[Slot(3, 4)] == []
    ensures Malloc(Free(q, n.address), MIB, 4096, None).1 == Address(n.address)
  {
    assert BucketInsert([], n) == [n];
  }

  lemma FoundBehind(t: Tree, x: Node, y: Node)
    requires Find(t, x.address) == Some(x) && x.address != y.address
    ensures Find(Insert(t, y), x.address) == Some(x)
  {
  }

  lemma RefilledIsFound(base: nat, length: nat, next: nat)
    requires FirstBlock(base, length)
    ensures var q := Refilled(base, length, next);
            q.alloc == Br(Leaf, RefillNode(Flush(FirstPool(base, length)), next, ODD), Leaf) && WellFormed(q)
  {
    FlushKeeps(FirstPool(base, length));
    AdoptKeeps(Flush(FirstPool(base, length)), next, ODD);
  }

  /** What a rounded refill leads to, once less than 1 MiB of the first block is left: 65537 bytes, again
      65537 bytes, a free of the first, 1 MiB on a page, and the second and third allocation, both live,
      have bytes in common. */
  lemma RoundedRefillOverlaps(base: nat, length: nat, next: nat)
    requires FirstBlock(base, length) && length < SEEDED + MIB
    requires FreshBlock([Block(base, length)], Block(next, REFILL)) && next % 4096 == 0
    ensures var r1 := Malloc(FirstPool(base, length), ODD, 1, Some(next));
            |r1.0.free| == SLOTS &&
            var r2 := Malloc(r1.0, ODD, 1, None);
            Shaped(r2.0) &&
            var r3 := Malloc(Free(r2.0, next), MIB, 4096, None);
            && r1.1 == Address(next) && r2.1 == Address(next + ODD) && r3.1 == Address(next)
            && !Disjoint(next + ODD, ODD, next, MIB)
  {
    var q := Refilled(base, length, next);
    var x := RefillNode(Flush(FirstPool(base, length)), next, ODD);
    FirstRefills(base, length, next);
    SecondCarves(base, length, next);
    RefilledIsFound(base, length, next);
    OddCarve(q, next);
    CarveKeeps(q, ODD, 1);
    FoundBehind(q.alloc, x, CarvedNode(q, ODD, 1));
    RefilledSlots(base, length, next);
    FreedThenServed(Carve(q, ODD, 1), x);
  }

  // ---------------------------------------------------------------- an empty refill

  function ClassCount(free: seq<seq<Node>>): nat
    requires |free| == SLOTS
  {
    |free[0]| + |free[1]| + |free[2]| + |free[3]| + |free[4]| + |free[5]|
  }

  const EMPTY: Op := MallocOp(0, 1, None)

  lemma EmptyTakes(p: Pool)
    requires WellFormed(p) && !Search(p.free, 0, 0).Missing?
    ensures var q := Apply(p, EMPTY).0;
            && ClassCount(q.free) < ClassCount(p.free)
            && q.cursor == p.cursor && q.remaining == p.remaining && q.blocks == p.blocks
  {
    SearchSpec(p.free, 0, 0);
    var b := Search(p.free, 0, 0).bucket;
    assert b == 0 || b == 1 || b == 2 || b == 3 || b == 4 || b == 5;
  }

  /** The first class can be used up by requests for 0 bytes. */
  lemma {:induction false} UsedUp(p: Pool) returns (ops: seq<Op>)
    requires WellFormed(p)
    ensures var q := Run(p, ops);
            && Search(q.free, 0, 0).Missing?
            && q.cursor == p.cursor && q.remaining == p.remaining && q.blocks == p.blocks
    decreases ClassCount(p.free)
  {
    if Search(p.free, 0, 0).Missing? {
      ops := [];
    } else {
      EmptyTakes(p);
      var rest := UsedUp(Apply(p, EMPTY).0);
      ops := [EMPTY] + rest;
      assert ops[0] == EMPTY && ops[1..] == rest;
    }
  }

  lemma EmptyRefills(p: Pool, next: nat)
    requires |p.free| == SLOTS && p.remaining < 128 && Search(p.free, 0, 0).Missing?
    ensures Malloc(p, 0, 1, Some(next)) == (Adopt(Flush(p), next, 0), Address(next))
    ensures Flush(p).free == p.free
  {
    CarveTestIsExact(p, 0, 1);
  }

  lemma EmptyCarves(q: Pool, next: nat)
    requires |q.free| == SLOTS && Search(q.free, 0, 0).Missing?
    requires q.cursor == next < WORD && q.remaining == REFILL
    ensures Malloc(q, 0, 1, None).1 == Address(next)
  {
    CarveTestIsExact(q, 0, 1);
    WordRemainder(next);
    CutAnswers(q, 0, 1, None);
  }

  lemma {:induction false} InsertIsFound(t: Tree, x: Node)
    ensures Find(Insert(t, x), x.address) != None
  {
    if t.Br? {
      InsertIsFound(t.left, x);
      InsertIsFound(t.right, x);
    }
  }

  /** A refill for 0 bytes leaves the cursor on the node it has made.  Once less than 128 bytes of the first
      block are left and the first class is used up, two requests for 0 bytes in a row return one address,
      while both are live. */
  lemma EmptyRefillRepeats(base: nat, length: nat, next: nat) returns (ops: seq<Op>)
    requires FirstBlock(base, length) && length < SEEDED + 128 && next < WORD
    ensures var p := Run(FirstPool(base, length), ops);
            var r1 := Malloc(p, 0, 1, Some(next));
            |r1.0.free| == SLOTS && r1.1 == Address(next) && Find(r1.0.alloc, next).Some?
            && Malloc(r1.0, 0, 1, None).1 == Address(next)
  {
    ops := UsedUp(FirstPool(base, length));
    var p := Run(FirstPool(base, length), ops);
    EmptyRefills(p, next);
    InsertIsFound(Flush(p).alloc, RefillNode(Flush(p), next, 0));
    EmptyCarves(Adopt(Flush(p), next, 0), next);
  }

  // ---------------------------------------------------------------- a node too small

  lemma TwoMibCarves(p: Pool)
    requires p.cursor < WORD && p.remaining >= 2 * MIB
    ensures Carves(p, 2 * MIB, 1) && CarvedNode(p, 2 * MIB, 1) == Node(p.next, p.cursor, 2 * MIB, 0)
  {
    CarveTestIsExact(p, 2 * MIB, 1);
    WordRemainder(p.cursor);
  }

  lemma LargeServed(q: Pool, n: Node)
    requires Shaped(q) && q.alloc == Br(Leaf, n, Leaf) && n.size == 2 * MIB && n.cls == 0 && q.free[Slot(0, 5)] == []
    ensures var f := Free(q, n.address);
            && |f.free| == SLOTS && f.free[Slot(0, 5)] == [n]
            && Handed(f, 3 * MIB, 1, None) == n && Malloc(f, 3 * MIB, 1, None).1 == Address(n.address)
  {
    assert BucketInsert([], n) == [n];
  }

  lemma FirstCut(p: Pool) returns (n: Node)
    requires WellFormed(p) && p.alloc == Leaf && p.cursor < WORD && p.remaining >= 2 * MIB
    requires Search(p.free, 0, 2 * MIB).Missing? && p.free[Slot(0, 5)] == []
    ensures var r := Malloc(p, 2 * MIB, 1, None);
            && Shaped(r.0) && r.1 == Address(n.address) && r.0.alloc == Br(Leaf, n, Leaf)
            && n.size == 2 * MIB && n.cls == 0 && r.0.free[Slot(0, 5)] == []
  {
    TwoMibCarves(p);
    CarveKeeps(p, 2 * MIB, 1);
    CutAnswers(p, 2 * MIB, 1, None);
    n := CarvedNode(p, 2 * MIB, 1);
  }

  /** 2 MiB, a free, and 3 MiB are answered with the same 2 MiB. */
  lemma TooSmallIsServed(base: nat, length: nat)
    requires FirstBlock(base, length) && length >= SEEDED + 2 * MIB
    ensures var r1 := Malloc(FirstPool(base, length), 2 * MIB, 1, None);
            Shaped(r1.0) && r1.1.Address? &&
            var q := Free(r1.0, r1.1.address);
            && |q.free| == SLOTS && Handed(q, 3 * MIB, 1, None).size == 2 * MIB
            && Malloc(q, 3 * MIB, 1, None).1 == r1.1
  {
    var p := FirstPool(base, length);
    FirstMisses(base, length, 0, 2 * MIB);
    SeededIsSmall(p, 0, 5);
    var n := FirstCut(p);
    LargeServed(Malloc(p, 2 * MIB, 1, None).0, n);
  }

  // ---------------------------------------------------------------- another address after a refill

  /** A refill's node is filed by its address: 65537 bytes, a free, and the same request gets another address. */
  lemma RefillMovesOn(base: nat, length: nat, next: nat)
    requires FirstBlock(base, length) && length < SEEDED + MIB
    requires FreshBlock([Block(base, length)], Block(next, REFILL)) && next % 128 == 0
    ensures var r := Malloc(FirstPool(base, length), ODD, 1, Some(next));
            && r.1 == Address(next) && Shaped(r.0)
            && Malloc(Free(r.0, next), ODD, 1, None).1 != Address(next)
  {
    var p := FirstPool(base, length);
    FirstRefills(base, length, next);
    FirstMisses(base, length, 0, ODD);
    CarveTestIsExact(p, ODD, 1);
    SafeIsGrounded(p);
    RefillReuseIff(p, ODD, 1, next);
  }

  // ---------------------------------------------------------------- division by zero

  /** The very first request over 64 KiB with an alignment of 0. */
  lemma FirstDivides(base: nat, length: nat, size: nat)
    requires FirstBlock(base, length) && size > 64 * 1024
    ensures Malloc(FirstPool(base, length), size, 0, None).1 == DivideByZero
  {
    var p := FirstPool(base, length);
    FirstMisses(base, length, 0, size);
    SafeChunk(p);
    ZeroAlignmentDivides(p, size, 0, None);
  }

  // ---------------------------------------------------------------- alignment

  lemma LineNotPage(base: nat)
    requires base % 4096 == 0
    ensures (base + SEEDED) % 4096 == 3840 && (base + SEEDED) % 256 == 0
  {
    var q := base / 4096;
    assert base + SEEDED == 4096 * (q + 710) + 3840;
    RemainderUnique(base + SEEDED, 4096, q + 710, 3840);
    RemainderUnique(base + SEEDED, 256, 16 * (q + 710) + 15, 0);
  }

  lemma MiddleCarves(p: Pool, base: nat, size: nat)
    requires p.cursor == base + SEEDED < WORD && base % 4096 == 0 && p.remaining >= MIB && 64 * 1024 < size <= MIB
    ensures Carves(p, size, 256) && CarvedNode(p, size, 256) == Node(p.next, base + SEEDED, MIB, 3)
  {
    LineNotPage(base);
    CarveTestIsExact(p, size, 256);
    WordRemainder(base + SEEDED);
  }

  lemma CarvedThenFreed(p: Pool, size: nat, n: Node)
    requires WellFormed(p) && p.alloc == Leaf && Cuts(p, size, 256) && 64 * 1024 < size <= MIB
    requires n == CarvedNode(p, size, 256) && p.free[Slot(3, 4)] == []
    ensures var r := Malloc(p, size, 256, None);
            && r.1 == Address(n.address) && Shaped(r.0)
            && Malloc(Free(r.0, n.address), size, 4096, None).1 == Address(n.address)
  {
    CutAnswers(p, size, 256, None);
    CarveThenFree(p, size, 256);
    assert Free(Carve(p, size, 256), n.address).free[Slot(3, 4)] == [n];
  }

  lemma MiddleMisaligns(p: Pool, size: nat)
    requires WellFormed(p) && Cuts(p, size, 256) && CarvedNode(p, size, 256).address % 4096 != 0
    ensures !AlignedPool(Malloc(p, size, 256, None).0)
  {
    CutAnswers(p, size, 256, None);
    CarveAll(p, size, 256);
    assert CarvedNode(p, size, 256) in All(Carve(p, size, 256));
  }

  /** An alignment between 128 and a page shares a class with the page: any size from 64 KiB to 1 MiB at 256, a
      free, and the same size on a page are answered 3840 bytes past a page. */
  lemma PageIsMissed(base: nat, length: nat, size: nat)
    requires FirstBlock(base, length) && length >= SEEDED + MIB && 64 * 1024 < size <= MIB
    ensures (base + SEEDED) % 4096 == 3840
    ensures var r := Malloc(FirstPool(base, length), size, 256, None);
            && r.1 == Address(base + SEEDED) && Shaped(r.0) && !AlignedPool(r.0)
            && Malloc(Free(r.0, base + SEEDED), size, 4096, None).1 == Address(base + SEEDED)
  {
    var p := FirstPool(base, length);
    FirstMisses(base, length, 3, size);
    MiddleCarves(p, base, size);
    SeededIsSmall(p, 3, 4);
    CarvedThenFreed(p, size, CarvedNode(p, size, 256));
    LineNotPage(base);
    MiddleMisaligns(p, size);
  }

  lemma LargeHead(p: Pool, address: nat)
    requires |p.free| == SLOTS && p.free[Slot(3, 2)] != [] && p.free[Slot(3, 2)][0].address == address
    ensures Malloc(p, 4096, 65536, None).1 == Address(address)
  {
  }

  lemma OddHalf(base: nat)
    requires base % 65536 == 0
    ensures (base + 1736704) % 65536 == 32768
  {
    var q := base / 65536;
    RemainderUnique(base + 1736704, 65536, q + 26, 32768);
  }

  /** And what is filed for a page is not made for more: 4096 bytes at 64 KiB are answered half-way between two
      multiples of 64 KiB. */
  lemma LargeAlignmentIsMissed(base: nat, length: nat)
    requires FirstBlock(base, length) && base % 65536 == 0
    ensures Malloc(FirstPool(base, length), 4096, 65536, None).1 == Address(base + 1736704)
    ensures (base + 1736704) % 65536 == 32768
  {
    SeededTops(NoFreeNodes(), base, length);
    LargeHead(FirstPool(base, length), base + 1736704);
    OddHalf(base);
  }
}
