/** Alignment: what the cursor, the nodes and the returned addresses are multiples of. */
module PoolAlignment {
  import opened Buckets
  import opened Nodes
  import opened Pool
  import opened PoolSafety
  import opened SizeClasses
  import opened Wrappers

  ghost predicate AlignedNodes(bag: multiset<Node>) {
    forall n | n in bag :: n.address % 128 == 0 && (n.cls == 3 ==> n.address % 4096 == 0)
  }

  /** The cursor is a multiple of 128, and so is every node; nodes of class 3 are page aligned. */
  ghost predicate AlignedPool(p: Pool) {
    p.cursor % 128 == 0 && AlignedNodes(All(p))
  }

  /** `posix_memalign` is asked for the requested alignment, or 128 if that is less. */
  predicate SupplyAligned(alignment: nat, supply: Option<nat>) {
    supply.Some? && alignment > 0 ==> supply.value % 128 == 0 && (alignment > 128 ==> supply.value % alignment == 0)
  }

  /** The alignments that an aligned pool honours: powers of two up to a page. */
  predicate Supported(alignment: nat) {
    IsPow2(alignment) && alignment <= 4096
  }

  lemma SmallPowers(a: nat)
    requires IsPow2(a) && a <= 4096
    ensures a in {1, 2, 4, 8, 16, 32, 64, 128, 256, 512, 1024, 2048, 4096}
  {
    var b := if a == 1 then 1 else a / 2;
    var c := if b == 1 then 1 else b / 2;
    var d := if c == 1 then 1 else c / 2;
    var e := if d == 1 then 1 else d / 2;
    var f := if e == 1 then 1 else e / 2;
    var g := if f == 1 then 1 else f / 2;
    assert IsPow2(b) && IsPow2(c) && IsPow2(d) && IsPow2(e) && IsPow2(f) && IsPow2(g);
    assert g <= 64;
  }

  lemma RoundUp(x: nat, a: nat)
    requires a > 0
    ensures x % a != 0 ==> (x + (a - x % a)) % a == 0
  {
    var q := x / a;
    assert x + (a - x % a) == a * (q + 1);
    RemainderUnique(a * (q + 1), a, q + 1, 0);
  }

  lemma MultipleOfMultiple(x: nat, m: nat, a: nat)
    requires a > 0 && m > 0 && m % a == 0 && x % m == 0
    ensures x % a == 0
  {
    var h, q := m / a, x / m;
    assert x == m * q && m == a * h;
    assert m * q == a * (h * q);
    RemainderUnique(x, a, h * q, 0);
  }

  lemma MaskPowers()
    ensures IsPow2(16) && IsPow2(128) && IsPow2(4096)
  {
    assert IsPow2(4);
    assert IsPow2(32);
    assert IsPow2(256);
    assert IsPow2(1024);
  }

  lemma DividesMask(x: nat, alignment: nat)
    requires IsPow2(alignment)
    ensures BitAnd(x, AlignmentToMask(alignment)) == 0 ==> x % alignment == 0
  {
    if alignment > 4096 {
      MaskIsRemainder(x, alignment);
    } else if alignment > 1 {
      var m := if alignment <= 16 then 16 else if alignment <= 128 then 128 else 4096;
      MaskPowers();
      MaskIsRemainder(x, m);
      SmallPowers(alignment);
      if x % m == 0 {
        MultipleOfMultiple(x, m, alignment);
      }
    }
  }

  /** The padding, in terms of the class alignment: none before a node that fits at a multiple of it, whatever was asked;
      otherwise the least that makes the address a multiple of what was asked. */
  lemma PaddingIs(cursor: nat, remaining: nat, rounded: nat, alignment: nat)
    requires 1 < alignment <= 4096
    ensures var pad := Padding(cursor, remaining, rounded, alignment);
            if cursor % ALIGNMENTS[AlignmentToTree(alignment)] == 0 && rounded <= remaining then pad == 0
            else (cursor + pad) % alignment == 0 && pad < alignment
  {
    MaskPowers();
    MaskIsRemainder(cursor, ALIGNMENTS[AlignmentToTree(alignment)]);
    RoundUp(cursor, alignment);
    RemainderBelow(cursor, alignment);
  }

  lemma RemainderBelow(x: nat, a: nat)
    requires a > 0
    ensures 0 <= x % a < a
  {
  }

  lemma PaddedIsAligned(cursor: nat, remaining: nat, rounded: nat, alignment: nat)
    requires IsPow2(alignment)
    ensures (cursor + Padding(cursor, remaining, rounded, alignment)) % alignment == 0
  {
    DividesMask(cursor, alignment);
    RoundUp(cursor, alignment);
  }

  lemma {:induction false} PowersDivide(a: nat, b: nat)
    requires IsPow2(a) && IsPow2(b) && a <= b
    ensures b % a == 0
  {
    if a > 1 {
      PowersDivide(a / 2, b / 2);
      DoubleRemainder(b, a / 2);
    }
  }

  lemma {:induction false} PowerIsPow2(k: nat)
    ensures IsPow2(Pow2(k))
  {
    if k > 0 {
      PowerIsPow2(k - 1);
    }
  }

  lemma WordIsPow2()
    ensures IsPow2(WORD)
  {
    Pow64();
    PowerIsPow2(64);
  }

  /** Wrapping at the width of a word does not change what an address is a multiple of. */
  lemma WrappedRemainder(x: nat, a: nat)
    requires a > 0 && WORD % a == 0
    ensures (x % WORD) % a == x % a
  {
    var q, r, h := x / WORD, x % WORD, WORD / a;
    var s, t := r / a, r % a;
    assert WORD == a * h && r == a * s + t;
    assert x == WORD * q + r;
    assert WORD * q == a * (h * q);
    assert a * (h * q) + a * s == a * (h * q + s);
    RemainderUnique(x, a, h * q + s, t);
  }

  /** Whatever power of two is asked for, the padding makes a carved node honour it. */
  lemma CarvedIsAligned(p: Pool, size: nat, alignment: nat)
    requires Carves(p, size, alignment) && IsPow2(alignment) && alignment <= MAX_ALIGNMENT
    ensures CarvedNode(p, size, alignment).address % alignment == 0
  {
    var pad := Padding(p.cursor, p.remaining, SizeToBucketSize(size), alignment);
    PaddedIsAligned(p.cursor, p.remaining, SizeToBucketSize(size), alignment);
    WordIsPow2();
    PowersDivide(alignment, WORD);
    WrappedRemainder(p.cursor + pad, alignment);
  }

  lemma SuppliedIsAligned(base: nat, alignment: nat)
    requires IsPow2(alignment) && SupplyAligned(alignment, Some(base))
    ensures base % alignment == 0
  {
    if alignment <= 128 {
      SmallPowers(alignment);
      MultipleOfMultiple(base, 128, alignment);
    }
  }

  lemma CarveOrRefillIsAligned(p: Pool, size: nat, alignment: nat, supply: Option<nat>)
    requires |p.free| == SLOTS && IsPow2(alignment) && alignment <= MAX_ALIGNMENT && SupplyAligned(alignment, supply)
    ensures var r := CarveOrRefill(p, size, alignment, supply).1;
            r.Address? ==> r.address % alignment == 0
  {
    if Carves(p, size, alignment) {
      CarvedIsAligned(p, size, alignment);
    } else if supply.Some? {
      SuppliedIsAligned(supply.value, alignment);
    }
  }

  /** Bucketed nodes carry no such promise: a request is aligned exactly when it is not served from
      a bucket, or the bucket's head happens to be. */
  lemma AlignedIff(p: Pool, size: nat, alignment: nat, supply: Option<nat>)
    requires Filed(p.free) && IsPow2(alignment) && SupplyAligned(alignment, supply)
    ensures var c := AlignmentToTree(alignment);
            var r := Malloc(p, size, alignment, supply).1;
            r.Address? ==>
              (r.address % alignment == 0 <==>
               (Search(p.free, c, size).Taken? ==>
                  p.free[Slot(c, Search(p.free, c, size).bucket)][0].address % alignment == 0))
  {
    SearchSpec(p.free, AlignmentToTree(alignment), size);
    if alignment <= MAX_ALIGNMENT {
      CarveOrRefillIsAligned(p, size, alignment, supply);
    }
  }

  // ---------------------------------------------------------------- the pool's own alignment

  lemma NodesPlus(bag: multiset<Node>, n: Node)
    requires AlignedNodes(bag) && n.address % 128 == 0 && (n.cls == 3 ==> n.address % 4096 == 0)
    ensures AlignedNodes(bag + multiset{n})
  {
  }

  lemma SumAligned(a: nat, b: nat, c: nat)
    requires a % 128 == 0 && b % 128 == 0
    ensures (a + b) % 128 == 0
    ensures (a + b + c) % 128 == 0 <==> c % 128 == 0
  {
  }

  lemma RoundedIsAligned(size: nat)
    ensures SizeToBucketSize(size) % 128 == 0 <==> size <= MIB || size % 128 == 0
  {
  }

  lemma RemainderMultiple(x: nat, a: nat, m: nat)
    requires a > 0 && m > 0 && a % m == 0 && x % m == 0
    ensures (x % a) % m == 0 && (a - x % a) % m == 0
  {
    var h, k, q := a / m, x / m, x / a;
    assert a == m * h && x == m * k && x == a * q + x % a;
    assert a * q == m * (h * q);
    assert m * k - m * (h * q) == m * (k - h * q);
    RemainderUnique(x % a, m, k - h * q, 0);
    assert a - x % a == m * (h - (k - h * q));
    RemainderUnique(a - x % a, m, h - (k - h * q), 0);
  }

  lemma PaddingIsAligned(cursor: nat, remaining: nat, rounded: nat, alignment: nat)
    requires cursor % 128 == 0 && IsPow2(alignment)
    ensures Padding(cursor, remaining, rounded, alignment) % 128 == 0
  {
    MaskPowers();
    if alignment <= 128 {
      PowersDivide(alignment, 128);
      MultipleOfMultiple(cursor, 128, alignment);
    } else {
      PowersDivide(128, alignment);
      RemainderMultiple(cursor, alignment, 128);
    }
  }

  lemma WrappedLine(x: nat)
    ensures (x % WORD) % 128 == x % 128
  {
    WrappedRemainder(x, 128);
  }

  /** What keeps an aligned pool aligned when its chunk is carved, whatever the alignment asked for: padding and
      node in multiples of 128, and for the alignments over 128, all of class 3, a page-aligned node. */
  predicate CutsAligned(p: Pool, size: nat, alignment: nat)
    requires alignment > 0
  {
    && Padding(p.cursor, p.remaining, SizeToBucketSize(size), alignment) % 128 == 0
    && (size <= MIB || size % 128 == 0)
    && (alignment > 128 ==> CarvedNode(p, size, alignment).address % 4096 == 0)
  }

  lemma CarvedLines(p: Pool, size: nat, alignment: nat)
    requires p.cursor % 128 == 0 && Carves(p, size, alignment)
    ensures var pad := Padding(p.cursor, p.remaining, SizeToBucketSize(size), alignment);
            && (CarvedNode(p, size, alignment).address % 128 == 0 <==> pad % 128 == 0)
            && (pad % 128 == 0 ==> (Carve(p, size, alignment).cursor % 128 == 0 <==> size <= MIB || size % 128 == 0))
  {
    var pad, rounded := Padding(p.cursor, p.remaining, SizeToBucketSize(size), alignment), SizeToBucketSize(size);
    WrappedLine(p.cursor + pad);
    WrappedLine(p.cursor + pad + rounded);
    SumAligned(p.cursor, 0, pad);
    if pad % 128 == 0 {
      SumAligned(p.cursor, pad, rounded);
      RoundedIsAligned(size);
    }
  }

  /** Carving keeps an aligned pool aligned if and only if that holds. */
  lemma CarveAlignedIff(p: Pool, size: nat, alignment: nat)
    requires AlignedPool(p) && Carves(p, size, alignment)
    ensures AlignedPool(Carve(p, size, alignment)) <==> CutsAligned(p, size, alignment)
  {
    var n := CarvedNode(p, size, alignment);
    CarvedLines(p, size, alignment);
    CarveAll(p, size, alignment);
    assert n in All(Carve(p, size, alignment));
    if n.address % 128 == 0 && (n.cls == 3 ==> n.address % 4096 == 0) {
      NodesPlus(All(p), n);
    }
  }

  lemma PageCarved(p: Pool, size: nat, alignment: nat)
    requires Carves(p, size, alignment) && IsPow2(alignment) && 4096 <= alignment <= MAX_ALIGNMENT
    ensures CarvedNode(p, size, alignment).address % 4096 == 0
  {
    CarvedIsAligned(p, size, alignment);
    MaskPowers();
    PowersDivide(4096, alignment);
    MultipleOfMultiple(CarvedNode(p, size, alignment).address, alignment, 4096);
  }

  /** For a power of two all that is left of it is the size, and between 256 and 2048 the page. */
  lemma PowerCutsAligned(p: Pool, size: nat, alignment: nat)
    requires p.cursor % 128 == 0 && Carves(p, size, alignment) && IsPow2(alignment) && alignment <= MAX_ALIGNMENT
    ensures CutsAligned(p, size, alignment) <==>
            && (size <= MIB || size % 128 == 0)
            && (128 < alignment < 4096 ==> CarvedNode(p, size, alignment).address % 4096 == 0)
  {
    PaddingIsAligned(p.cursor, p.remaining, SizeToBucketSize(size), alignment);
    if alignment >= 4096 {
      PageCarved(p, size, alignment);
    }
  }

  /** Whatever power of two is asked for, carving keeps the cursor a multiple of 128 if and only if the size is at
      most 1 MiB or a multiple of 128. */
  lemma CarveCursorIff(p: Pool, size: nat, alignment: nat)
    requires p.cursor % 128 == 0 && Carves(p, size, alignment) && IsPow2(alignment)
    ensures Carve(p, size, alignment).cursor % 128 == 0 <==> size <= MIB || size % 128 == 0
  {
    PaddingIsAligned(p.cursor, p.remaining, SizeToBucketSize(size), alignment);
    CarvedLines(p, size, alignment);
  }

  lemma FlushAligned(p: Pool)
    requires |p.free| == SLOTS && AlignedPool(p)
    ensures AlignedPool(Flush(p))
  {
    FlushAll(p);
    if Flushes(p) {
      NodesPlus(All(p), FlushNode(p));
    }
  }

  lemma AdoptAlignedIff(p: Pool, base: nat, request: nat)
    requires AlignedPool(p) && base % 128 == 0
    ensures AlignedPool(Adopt(p, base, request)) <==> request % 128 == 0
  {
    AdoptAll(p, base, request);
    NodesPlus(All(p), RefillNode(p, base, request));
    SumAligned(base, 0, request);
  }

  lemma RefillAlignedIff(p: Pool, size: nat, supply: Option<nat>)
    requires |p.free| == SLOTS && AlignedPool(p) && (supply.Some? ==> supply.value % 128 == 0)
    ensures AlignedPool(Refill(p, size, supply).0) <==> (supply.Some? ==> size % 128 == 0)
  {
    FlushAligned(p);
    if supply.Some? {
      AdoptAlignedIff(Flush(p), supply.value, size);
    }
  }

  lemma HeadIsFiled(p: Pool, s: nat)
    requires Filed(p.free) && s < SLOTS && p.free[s] != []
    ensures p.free[s][0] in All(p) && p.free[s][0].cls == s / 6
  {
    FreeBagUpdate(p.free, s, []);
    assert p.free[s][0] in multiset(p.free[s]);
  }

  lemma LineOrPage(address: nat, alignment: nat)
    requires Supported(alignment) && address % 128 == 0 && (alignment > 128 ==> address % 4096 == 0)
    ensures address % alignment == 0
  {
    var m := if alignment <= 128 then 128 else 4096;
    MaskPowers();
    PowersDivide(alignment, m);
    MultipleOfMultiple(address, m, alignment);
  }

  lemma HeadIsAligned(p: Pool, c: nat, b: nat, alignment: nat)
    requires Supported(alignment) && c == AlignmentToTree(alignment)
    requires Filed(p.free) && AlignedPool(p) && c < 4 && b < 6 && p.free[Slot(c, b)] != []
    ensures p.free[Slot(c, b)][0].address % alignment == 0
  {
    HeadIsFiled(p, Slot(c, b));
    LineOrPage(p.free[Slot(c, b)][0].address, alignment);
  }

  /** The requests that keep the pool aligned. */
  predicate KeepsAligned(p: Pool, size: nat, alignment: nat, supply: Option<nat>)
    requires |p.free| == SLOTS
  {
    && (Cuts(p, size, alignment) ==> CutsAligned(p, size, alignment))
    && (Refills(p, size, alignment) && supply.Some? ==> size % 128 == 0)
  }

  lemma SameAligned(p: Pool, q: Pool)
    requires AlignedPool(p) && All(q) == All(p) && q.cursor == p.cursor
    ensures AlignedPool(q)
  {
  }

  lemma ServeAligned(p: Pool, s: nat)
    requires WellFormed(p) && AlignedPool(p) && s < SLOTS && p.free[s] != []
    ensures AlignedPool(Serve(p, s))
  {
    ServeKeeps(p, s);
    SameAligned(p, Serve(p, s));
  }

  /** One malloc of an aligned pool, at any alignment: the pool stays aligned if and only if the request is one of
      those. */
  lemma MallocAlignedIff(p: Pool, size: nat, alignment: nat, supply: Option<nat>)
    requires WellFormed(p) && AlignedPool(p) && SupplyAligned(alignment, supply) && (alignment == 0 ==> ChunkOk(p))
    ensures AlignedPool(Malloc(p, size, alignment, supply).0) <==> KeepsAligned(p, size, alignment, supply)
  {
    MallocPaths(p, size, alignment, supply);
    if Cuts(p, size, alignment) {
      CarveAlignedIff(p, size, alignment);
    } else if Refills(p, size, alignment) {
      RefillAlignedIff(p, size, supply);
    } else if Malloc(p, size, alignment, supply).0 != p {
      ServeAligned(p, Slot(AlignmentToTree(alignment), Search(p.free, AlignmentToTree(alignment), size).bucket));
    }
  }

  /** And whatever the size, what an aligned pool returns is a multiple of a supported alignment. */
  lemma MallocAligned(p: Pool, size: nat, alignment: nat, supply: Option<nat>)
    requires Filed(p.free) && AlignedPool(p) && Supported(alignment) && SupplyAligned(alignment, supply)
    ensures var r := Malloc(p, size, alignment, supply).1;
            r.Address? ==> r.address % alignment == 0
  {
    AlignedIff(p, size, alignment, supply);
    var c := AlignmentToTree(alignment);
    if Search(p.free, c, size).Taken? {
      HeadIsAligned(p, c, Search(p.free, c, size).bucket, alignment);
    }
  }

  predicate Aligning(p: Pool, op: Op)
    requires |p.free| == SLOTS
  {
    op.MallocOp? ==> Addressable(op) && SupplyAligned(op.alignment, op.supply)
                     && KeepsAligned(p, op.size, op.alignment, op.supply)
  }

  ghost predicate AligningRun(p: Pool, ops: seq<Op>)
    requires WellFormed(p)
    decreases |ops|
  {
    |ops| > 0 ==> Aligning(p, ops[0]) && AligningRun(Apply(p, ops[0]).0, ops[1..])
  }

  lemma FreeAligned(p: Pool, address: nat)
    requires WellFormed(p) && AlignedPool(p)
    ensures AlignedPool(Free(p, address))
  {
    FreeKeeps(p, address);
    SameAligned(p, Free(p, address));
  }

  lemma StepAligned(p: Pool, op: Op)
    requires WellFormed(p) && ChunkOk(p) && AlignedPool(p) && Aligning(p, op)
    ensures AlignedPool(Apply(p, op).0)
  {
    match op
    case FreeOp(address) => FreeAligned(p, address);
    case MallocOp(size, alignment, supply) => MallocAlignedIff(p, size, alignment, supply);
  }

  /** Over a whole run of such requests and any frees, the pool is aligned throughout. */
  lemma {:induction false} RunAligned(p: Pool, ops: seq<Op>)
    requires WellFormed(p) && ChunkOk(p) && AlignedPool(p) && AligningRun(p, ops)
    ensures AlignedPool(Run(p, ops))
    decreases |ops|
  {
    if |ops| > 0 {
      StepChunkOk(p, ops[0]);
      StepAligned(p, ops[0]);
      RunAligned(Apply(p, ops[0]).0, ops[1..]);
    }
  }
}
