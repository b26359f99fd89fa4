/** The first block: how it is cut into the free nodes the pool starts with. */
module Seeding {
  import opened AllocTree
  import opened Buckets
  import opened Nodes
  import opened Pool
  import opened PoolAlignment
  import opened PoolSafety
  import opened SizeClasses
  import opened Territory

  const SEEDED: nat := 2912000

  /** One turn of the seeding loop: a node of `size` at the cursor, pushed on its bucket, and the
      cursor moved by `stride`.  `size_t` subtraction wraps. */
  function SeedOne(p: Pool, cls: nat, stride: nat, size: nat): Pool
    requires |p.free| == SLOTS && cls < 4 && stride <= WORD
  {
    var s := Slot(cls, SizeToBucket(size));
    p.(free := p.free[s := [Node(p.next, p.cursor, size, cls)] + p.free[s]],
       next := p.next + 1,
       cursor := p.cursor + stride,
       remaining := if p.remaining >= stride then p.remaining - stride else p.remaining + WORD - stride)
  }

  function SeedBatch(p: Pool, cls: nat, stride: nat, size: nat, number: nat): (q: Pool)
    requires |p.free| == SLOTS && cls < 4 && stride <= WORD
    ensures |q.free| == SLOTS
  {
    if number == 0 then p else SeedOne(SeedBatch(p, cls, stride, size, number - 1), cls, stride, size)
  }

  function NewPool(free: seq<seq<Node>>, base: nat, length: nat): Pool {
    Pool(free, Leaf, base, length, 0, [Block(base, length)])
  }

  /** The batches of the source, in its order. */
  function SeedPages(p: Pool): (q: Pool)
    requires |p.free| == SLOTS
    ensures |q.free| == SLOTS
  {
    var p := SeedBatch(p, 3, 65536, 65536, 25);
    var p := SeedBatch(p, 3, 4096, 4096, 25);
    var p := SeedBatch(p, 2, 4096, 4096, 50);
    var p := SeedBatch(p, 1, 4096, 4096, 50);
    SeedBatch(p, 0, 4096, 4096, 50)
  }

  function SeedSparse(p: Pool): (q: Pool)
    requires |p.free| == SLOTS
    ensures |q.free| == SLOTS
  {
    var p := SeedBatch(p, 3, 4096, 128, 25);
    SeedBatch(p, 3, 4096, 512, 25)
  }

  function SeedLines(p: Pool): (q: Pool)
    requires |p.free| == SLOTS
    ensures |q.free| == SLOTS
  {
    var p := SeedBatch(p, 2, 512, 512, 250);
    var p := SeedBatch(p, 1, 512, 512, 250);
    var p := SeedBatch(p, 0, 128, 128, 250);
    var p := SeedBatch(p, 1, 128, 128, 250);
    SeedBatch(p, 2, 128, 128, 250)
  }

  function SeedPool(free: seq<seq<Node>>, base: nat, length: nat): Pool
    requires |free| == SLOTS
  {
    SeedLines(SeedSparse(SeedPages(NewPool(free, base, length))))
  }

  // ---------------------------------------------------------------- what seeding establishes

  function SeedSize(b: nat): nat {
    if b == 0 then 128 else if b == 1 then 512 else if b == 2 then 4096 else 65536
  }

  ghost predicate Uniform(free: seq<seq<Node>>) {
    && Filed(free)
    && forall s, n | 0 <= s < SLOTS && n in free[s] :: n.size == SeedSize(s % 6)
  }

  ghost predicate Seeded(p: Pool) {
    && Uniform(p.free)
    && p.alloc == Leaf
    && Identified(FreeBag(p.free), p.next)
    && SafePool(p)
    && AlignedPool(p)
  }

  lemma SeededWellFormed(p: Pool)
    requires Seeded(p)
    ensures WellFormed(p)
  {
    assert All(p) == FreeBag(p.free);
    forall s | 0 <= s < SLOTS
      ensures SortedButLast(p.free[s])
    {
      forall i | 0 <= i < |p.free[s]| ensures p.free[s][i].size == SeedSize(s % 6) {
        assert p.free[s][i] in p.free[s];
      }
    }
  }

  lemma SeedOneBag(p: Pool, cls: nat, stride: nat, size: nat)
    requires |p.free| == SLOTS && cls < 4 && stride <= WORD
    ensures FreeBag(SeedOne(p, cls, stride, size).free) == FreeBag(p.free) + multiset{Node(p.next, p.cursor, size, cls)}
  {
    var s, n := Slot(cls, SizeToBucket(size)), Node(p.next, p.cursor, size, cls);
    FreeBagUpdate(p.free, s, [n] + p.free[s]);
    assert multiset([n] + p.free[s]) == multiset(p.free[s]) + multiset{n};
    FreeBagPlus(FreeBag(SeedOne(p, cls, stride, size).free), FreeBag(p.free), multiset(p.free[s]), n);
  }

  predicate SeedShape(cls: nat, stride: nat, size: nat) {
    && cls < 4 && 128 <= size <= stride <= 65536 && stride % 128 == 0
    && FitToBucket(size) == SizeToBucket(size) && size == SeedSize(SizeToBucket(size))
    && (cls == 3 ==> stride % 4096 == 0)
  }

  lemma SeedOneAll(p: Pool, cls: nat, stride: nat, size: nat)
    requires |p.free| == SLOTS && cls < 4 && stride <= WORD
    ensures All(SeedOne(p, cls, stride, size)) == All(p) + multiset{Node(p.next, p.cursor, size, cls)}
  {
    SeedOneBag(p, cls, stride, size);
  }

  lemma SeedOneSafe(p: Pool, cls: nat, stride: nat, size: nat)
    requires |p.free| == SLOTS && SafePool(p) && SeedShape(cls, stride, size) && p.remaining >= stride
    ensures SafePool(SeedOne(p, cls, stride, size))
  {
    var n := Node(p.next, p.cursor, size, cls);
    SeedOneAll(p, cls, stride, size);
    NodeSetPlus(p, SeedOne(p, cls, stride, size), n);
    TakeFront(NodeSet(p), p.cursor, p.remaining, p.blocks, stride, n);
  }

  lemma SeedOneAligned(p: Pool, cls: nat, stride: nat, size: nat)
    requires |p.free| == SLOTS && AlignedPool(p) && SeedShape(cls, stride, size)
    requires cls == 3 ==> p.cursor % 4096 == 0
    ensures AlignedPool(SeedOne(p, cls, stride, size))
    ensures cls == 3 ==> SeedOne(p, cls, stride, size).cursor % 4096 == 0
  {
    SeedOneAll(p, cls, stride, size);
    NodesPlus(All(p), Node(p.next, p.cursor, size, cls));
    Strides(p.cursor, stride);
  }

  lemma Strides(cursor: nat, stride: nat)
    requires cursor % 128 == 0 && stride % 128 == 0
    ensures (cursor + stride) % 128 == 0
    ensures cursor % 4096 == 0 && stride % 4096 == 0 ==> (cursor + stride) % 4096 == 0
  {
    SumMultiple(cursor, stride, 128);
    if cursor % 4096 == 0 && stride % 4096 == 0 {
      SumMultiple(cursor, stride, 4096);
    }
  }

  lemma SumMultiple(a: nat, b: nat, m: nat)
    requires m > 0 && a % m == 0 && b % m == 0
    ensures (a + b) % m == 0
  {
    var h, k := a / m, b / m;
    assert m * h + m * k == m * (h + k);
    RemainderUnique(a + b, m, h + k, 0);
  }

  lemma SeedOneKeeps(p: Pool, cls: nat, stride: nat, size: nat)
    requires Seeded(p) && SeedShape(cls, stride, size) && p.remaining >= stride
    requires cls == 3 ==> p.cursor % 4096 == 0
    ensures Seeded(SeedOne(p, cls, stride, size))
    ensures cls == 3 ==> SeedOne(p, cls, stride, size).cursor % 4096 == 0
  {
    SeedOneBag(p, cls, stride, size);
    NewNode(FreeBag(p.free), p.next, Node(p.next, p.cursor, size, cls));
    SeedOneSafe(p, cls, stride, size);
    SeedOneAligned(p, cls, stride, size);
    SeedOneUniform(p, cls, stride, size);
  }

  lemma SeedOneUniform(p: Pool, cls: nat, stride: nat, size: nat)
    requires Uniform(p.free) && SeedShape(cls, stride, size)
    ensures Uniform(SeedOne(p, cls, stride, size).free)
  {
  }

  lemma SeedOneMore(p: Pool, q: Pool, cls: nat, stride: nat, size: nat, done: nat)
    requires Seeded(q) && SeedShape(cls, stride, size) && p.remaining >= done + stride
    requires q.cursor == p.cursor + done && q.remaining == p.remaining - done
    requires cls == 3 ==> q.cursor % 4096 == 0
    ensures var r := SeedOne(q, cls, stride, size);
            && Seeded(r) && r.cursor == p.cursor + (done + stride) && r.remaining == p.remaining - (done + stride)
            && (cls == 3 ==> r.cursor % 4096 == 0)
  {
    SeedOneKeeps(q, cls, stride, size);
  }

  lemma {:induction false} SeedBatchKeeps(p: Pool, cls: nat, stride: nat, size: nat, number: nat)
    requires Seeded(p) && SeedShape(cls, stride, size) && p.remaining >= stride * number
    requires cls == 3 ==> p.cursor % 4096 == 0
    ensures var q := SeedBatch(p, cls, stride, size, number);
            Seeded(q) && q.cursor == p.cursor + stride * number && q.remaining == p.remaining - stride * number
    ensures cls == 3 ==> SeedBatch(p, cls, stride, size, number).cursor % 4096 == 0
    decreases number
  {
    if number > 0 {
      OneMore(stride, number);
      SeedBatchKeeps(p, cls, stride, size, number - 1);
      SeedOneMore(p, SeedBatch(p, cls, stride, size, number - 1), cls, stride, size, stride * (number - 1));
    }
  }

  lemma OneMore(stride: nat, number: nat)
    requires number > 0
    ensures stride * number == stride * (number - 1) + stride
    ensures stride * (number - 1) >= 0
  {
  }

  lemma NewPoolSafe(free: seq<seq<Node>>, base: nat, length: nat)
    requires NothingFree(free) && 0 < base && base + length <= WORD
    ensures All(NewPool(free, base, length)) == multiset{} && SafePool(NewPool(free, base, length))
  {
    var p := NewPool(free, base, length);
    NothingFreeBag(free);
    assert NodeSet(p) == {};
    assert p.blocks[0] == Block(base, length);
    assert Inside(p.blocks, base, length);
  }

  lemma NewPoolSeeded(free: seq<seq<Node>>, base: nat, length: nat)
    requires NothingFree(free) && 0 < base && base % 4096 == 0 && base + length <= WORD
    ensures Seeded(NewPool(free, base, length))
  {
    NewPoolSafe(free, base, length);
    NothingFreeBag(free);
    MultipleOfMultiple(base, 4096, 128);
  }

  lemma Page(a: nat, b: nat)
    requires a % 4096 == 0
    ensures (a + 4096 * b) % 4096 == 0
  {
  }

  lemma SeedPagesKeeps(p: Pool)
    requires Seeded(p) && p.cursor % 4096 == 0 && p.remaining >= 2355200
    ensures var q := SeedPages(p); Seeded(q) && q.cursor == p.cursor + 2355200 && q.remaining == p.remaining - 2355200
  {
    var p1 := SeedBatch(p, 3, 65536, 65536, 25);
    SeedBatchKeeps(p, 3, 65536, 65536, 25);
    var p2 := SeedBatch(p1, 3, 4096, 4096, 25);
    SeedBatchKeeps(p1, 3, 4096, 4096, 25);
    var p3 := SeedBatch(p2, 2, 4096, 4096, 50);
    SeedBatchKeeps(p2, 2, 4096, 4096, 50);
    var p4 := SeedBatch(p3, 1, 4096, 4096, 50);
    SeedBatchKeeps(p3, 1, 4096, 4096, 50);
    SeedBatchKeeps(p4, 0, 4096, 4096, 50);
  }

  lemma SeedSparseKeeps(p: Pool)
    requires Seeded(p) && p.cursor % 4096 == 0 && p.remaining >= 204800
    ensures var q := SeedSparse(p); Seeded(q) && q.cursor == p.cursor + 204800 && q.remaining == p.remaining - 204800
  {
    SeedBatchKeeps(p, 3, 4096, 128, 25);
    SeedBatchKeeps(SeedBatch(p, 3, 4096, 128, 25), 3, 4096, 512, 25);
  }

  lemma SeedLinesKeeps(p: Pool)
    requires Seeded(p) && p.remaining >= 352000
    ensures var q := SeedLines(p); Seeded(q) && q.cursor == p.cursor + 352000 && q.remaining == p.remaining - 352000
  {
    var p1 := SeedBatch(p, 2, 512, 512, 250);
    SeedBatchKeeps(p, 2, 512, 512, 250);
    var p2 := SeedBatch(p1, 1, 512, 512, 250);
    SeedBatchKeeps(p1, 1, 512, 512, 250);
    var p3 := SeedBatch(p2, 0, 128, 128, 250);
    SeedBatchKeeps(p2, 0, 128, 128, 250);
    var p4 := SeedBatch(p3, 1, 128, 128, 250);
    SeedBatchKeeps(p3, 1, 128, 128, 250);
    SeedBatchKeeps(p4, 2, 128, 128, 250);
  }

  /** Where seeding ends up, whatever the block's length. */
  // ---------------------------------------------------------------- the free lists, one by one

  /** `count` nodes, pushed one after the other from `start` on, `stride` apart: the last is on top. */
  function Stack(next: nat, start: nat, stride: nat, size: nat, cls: nat, count: nat): (s: seq<Node>)
    ensures |s| == count
  {
    seq(count, i requires 0 <= i < count =>
      Node(next + (count - 1 - i), start + stride * (count - 1 - i), size, cls))
  }

  lemma StackTop(next: nat, start: nat, stride: nat, size: nat, cls: nat, count: nat)
    requires count > 0
    ensures Stack(next, start, stride, size, cls, count)
            == [Node(next + count - 1, start + stride * (count - 1), size, cls)] + Stack(next, start, stride, size, cls, count - 1)
  {
  }

  /** A batch into an empty bucket is such a stack, and touches no other bucket. */
  lemma {:induction false} SeedBatchStacks(p: Pool, cls: nat, stride: nat, size: nat, number: nat)
    requires |p.free| == SLOTS && cls < 4 && stride <= WORD && p.free[Slot(cls, SizeToBucket(size))] == []
    ensures var q := SeedBatch(p, cls, stride, size, number);
            && q.free == p.free[Slot(cls, SizeToBucket(size)) := Stack(p.next, p.cursor, stride, size, cls, number)]
            && q.next == p.next + number && q.cursor == p.cursor + stride * number && q.blocks == p.blocks
    decreases number
  {
    if number > 0 {
      OneMore(stride, number);
      SeedBatchStacks(p, cls, stride, size, number - 1);
      StackTop(p.next, p.cursor, stride, size, cls, number);
    } else {
      assert Stack(p.next, p.cursor, stride, size, cls, 0) == [];
    }
  }

  lemma SubModulo(r: int, a: nat, b: nat)
    ensures ((r - a) % WORD - b) % WORD == (r - (a + b)) % WORD
  {
    var q, x := (r - a) / WORD, (r - a) % WORD;
    assert r - a == WORD * q + x;
    var q2, y := (x - b) / WORD, (x - b) % WORD;
    assert x - b == WORD * q2 + y;
    assert r - (a + b) == WORD * (q + q2) + y;
    UniqueModulo(r - (a + b), q + q2, y);
  }

  lemma UniqueModulo(a: int, q: int, y: int)
    requires a == WORD * q + y && 0 <= y < WORD
    ensures a % WORD == y
  {
    var q2 := a / WORD;
    assert a == WORD * q2 + a % WORD;
  }

  lemma SeedOneLeaves(p: Pool, cls: nat, stride: nat, size: nat)
    requires |p.free| == SLOTS && cls < 4 && 0 < stride <= WORD && p.remaining < WORD
    ensures SeedOne(p, cls, stride, size).remaining == (p.remaining - stride) % WORD < WORD
  {
    UniqueModulo(p.remaining - stride, if p.remaining >= stride then 0 else -1, SeedOne(p, cls, stride, size).remaining);
  }

  /** What is left after a batch, modulo the width of `size_t`. */
  lemma {:induction false} SeedBatchLeaves(p: Pool, cls: nat, stride: nat, size: nat, number: nat)
    requires |p.free| == SLOTS && cls < 4 && 0 < stride <= WORD && p.remaining < WORD
    ensures SeedBatch(p, cls, stride, size, number).remaining == (p.remaining - stride * number) % WORD
    decreases number
  {
    if number > 0 {
      var q, done := SeedBatch(p, cls, stride, size, number - 1), stride * (number - 1);
      OneMore(stride, number);
      SeedBatchLeaves(p, cls, stride, size, number - 1);
      SeedOneLeaves(q, cls, stride, size);
      SubModulo(p.remaining, done, stride);
    }
  }

  lemma TwoLeave(p: Pool, a: nat, cls: nat, stride: nat, size: nat, number: nat, r: int)
    requires |p.free| == SLOTS && cls < 4 && 0 < stride <= WORD && p.remaining == (r - a) % WORD
    ensures SeedBatch(p, cls, stride, size, number).remaining == (r - (a + stride * number)) % WORD
  {
    SeedBatchLeaves(p, cls, stride, size, number);
    SubModulo(r, a, stride * number);
  }

  lemma PagesLeave(p: Pool)
    requires |p.free| == SLOTS && p.remaining < WORD
    ensures SeedPages(p).remaining == (p.remaining - 2355200) % WORD
  {
    var r, p1 := p.remaining, SeedBatch(p, 3, 65536, 65536, 25);
    TwoLeave(p, 0, 3, 65536, 65536, 25, r);
    var p2 := SeedBatch(p1, 3, 4096, 4096, 25);
    TwoLeave(p1, 1638400, 3, 4096, 4096, 25, r);
    var p3 := SeedBatch(p2, 2, 4096, 4096, 50);
    TwoLeave(p2, 1740800, 2, 4096, 4096, 50, r);
    TwoLeave(p3, 1945600, 1, 4096, 4096, 50, r);
    TwoLeave(SeedBatch(p3, 1, 4096, 4096, 50), 2150400, 0, 4096, 4096, 50, r);
  }

  lemma SparseLeave(p: Pool, r: int)
    requires |p.free| == SLOTS && p.remaining == (r - 2355200) % WORD
    ensures SeedSparse(p).remaining == (r - 2560000) % WORD
  {
    TwoLeave(p, 2355200, 3, 4096, 128, 25, r);
    TwoLeave(SeedBatch(p, 3, 4096, 128, 25), 2457600, 3, 4096, 512, 25, r);
  }

  lemma LinesLeave(p: Pool, r: int)
    requires |p.free| == SLOTS && p.remaining == (r - 2560000) % WORD
    ensures SeedLines(p).remaining == (r - 2912000) % WORD
  {
    var p1 := SeedBatch(p, 2, 512, 512, 250);
    TwoLeave(p, 2560000, 2, 512, 512, 250, r);
    var p2 := SeedBatch(p1, 1, 512, 512, 250);
    TwoLeave(p1, 2688000, 1, 512, 512, 250, r);
    var p3 := SeedBatch(p2, 0, 128, 128, 250);
    TwoLeave(p2, 2816000, 0, 128, 128, 250, r);
    TwoLeave(p3, 2848000, 1, 128, 128, 250, r);
    TwoLeave(SeedBatch(p3, 1, 128, 128, 250), 2880000, 2, 128, 128, 250, r);
  }

  /** A first block too short leaves the chunk with almost a whole address space. */
  lemma SeededRest(free: seq<seq<Node>>, base: nat, length: nat)
    requires |free| == SLOTS && length < WORD
    ensures SeedPool(free, base, length).remaining == if length >= 2912000 then length - 2912000 else length + WORD - 2912000
  {
    var p := NewPool(free, base, length);
    PagesLeave(p);
    SparseLeave(SeedPages(p), length);
    LinesLeave(SeedSparse(SeedPages(p)), length);
  }

  /** What each bucket is seeded with: where its nodes start in the block, how far they are apart, how many there are,
      and the number of the first. */
  datatype Row = Row(start: nat, stride: nat, count: nat, first: nat)

  /** The buckets in order, class by class. */
  const ROWS: seq<Row> := [
    Row(2816000, 128, 250, 750), Row(0, 0, 0, 0), Row(2150400, 4096, 50, 150), Row(0, 0, 0, 0), Row(0, 0, 0, 0), Row(0, 0, 0, 0),
    Row(2848000, 128, 250, 1000), Row(2688000, 512, 250, 500), Row(1945600, 4096, 50, 100), Row(0, 0, 0, 0), Row(0, 0, 0, 0), Row(0, 0, 0, 0),
    Row(2880000, 128, 250, 1250), Row(2560000, 512, 250, 250), Row(1740800, 4096, 50, 50), Row(0, 0, 0, 0), Row(0, 0, 0, 0), Row(0, 0, 0, 0),
    Row(2355200, 4096, 25, 200), Row(2457600, 4096, 25, 225), Row(1638400, 4096, 25, 25), Row(0, 65536, 25, 0), Row(0, 0, 0, 0), Row(0, 0, 0, 0)
  ]

  /** The nodes of bucket `b` of class `c`, bottom first: as many as the row says, the k-th at its start plus k times its
      stride, of exactly the bucket's size. */
  ghost predicate SeededAs(s: seq<Node>, base: nat, c: nat, b: nat)
    requires c < 4 && b < 6
  {
    var row := ROWS[6 * c + b];
    && |s| == row.count
    && forall k | 0 <= k < row.count ::
         s[row.count - 1 - k] == Node(row.first + k, base + row.start + row.stride * k, SIZES[b], c)
  }

  lemma PagesAre(p: Pool)
    requires |p.free| == SLOTS && NothingFree(p.free) && p.next == 0
    ensures var q := SeedPages(p);
            && q.next == 200 && q.cursor == p.cursor + 2355200 && q.blocks == p.blocks
            && q.free == p.free[21 := Stack(0, p.cursor, 65536, 65536, 3, 25)]
                               [20 := Stack(25, p.cursor + 1638400, 4096, 4096, 3, 25)]
                               [14 := Stack(50, p.cursor + 1740800, 4096, 4096, 2, 50)]
                               [8 := Stack(100, p.cursor + 1945600, 4096, 4096, 1, 50)]
                               [2 := Stack(150, p.cursor + 2150400, 4096, 4096, 0, 50)]
  {
    SeedBatchStacks(p, 3, 65536, 65536, 25);
    var p1 := SeedBatch(p, 3, 65536, 65536, 25);
    SeedBatchStacks(p1, 3, 4096, 4096, 25);
    var p2 := SeedBatch(p1, 3, 4096, 4096, 25);
    SeedBatchStacks(p2, 2, 4096, 4096, 50);
    var p3 := SeedBatch(p2, 2, 4096, 4096, 50);
    SeedBatchStacks(p3, 1, 4096, 4096, 50);
    var p4 := SeedBatch(p3, 1, 4096, 4096, 50);
    SeedBatchStacks(p4, 0, 4096, 4096, 50);
  }

  lemma SparseAre(p: Pool)
    requires |p.free| == SLOTS && p.free[18] == [] == p.free[19]
    ensures var q := SeedSparse(p);
            && q.next == p.next + 50 && q.cursor == p.cursor + 204800 && q.blocks == p.blocks
            && q.free == p.free[18 := Stack(p.next, p.cursor, 4096, 128, 3, 25)]
                               [19 := Stack(p.next + 25, p.cursor + 102400, 4096, 512, 3, 25)]
  {
    SeedBatchStacks(p, 3, 4096, 128, 25);
    SeedBatchStacks(SeedBatch(p, 3, 4096, 128, 25), 3, 4096, 512, 25);
  }

  lemma LinesAre(p: Pool)
    requires |p.free| == SLOTS && p.free[13] == [] == p.free[7] && p.free[0] == [] == p.free[6] && p.free[12] == []
    ensures var q := SeedLines(p);
            && q.blocks == p.blocks
            && q.free == p.free[13 := Stack(p.next, p.cursor, 512, 512, 2, 250)]
                               [7 := Stack(p.next + 250, p.cursor + 128000, 512, 512, 1, 250)]
                               [0 := Stack(p.next + 500, p.cursor + 256000, 128, 128, 0, 250)]
                               [6 := Stack(p.next + 750, p.cursor + 288000, 128, 128, 1, 250)]
                               [12 := Stack(p.next + 1000, p.cursor + 320000, 128, 128, 2, 250)]
  {
    SeedBatchStacks(p, 2, 512, 512, 250);
    var p1 := SeedBatch(p, 2, 512, 512, 250);
    SeedBatchStacks(p1, 1, 512, 512, 250);
    var p2 := SeedBatch(p1, 1, 512, 512, 250);
    SeedBatchStacks(p2, 0, 128, 128, 250);
    var p3 := SeedBatch(p2, 0, 128, 128, 250);
    SeedBatchStacks(p3, 1, 128, 128, 250);
    var p4 := SeedBatch(p3, 1, 128, 128, 250);
    SeedBatchStacks(p4, 2, 128, 128, 250);
  }

  lemma ListsAre(free: seq<seq<Node>>, base: nat, length: nat)
    requires NothingFree(free)
    ensures SeedPool(free, base, length).blocks == [Block(base, length)]
    ensures var f := SeedPool(free, base, length).free;
            && |f| == SLOTS
            && f[21] == Stack(0, base, 65536, 65536, 3, 25) && f[20] == Stack(25, base + 1638400, 4096, 4096, 3, 25)
            && f[14] == Stack(50, base + 1740800, 4096, 4096, 2, 50) && f[8] == Stack(100, base + 1945600, 4096, 4096, 1, 50)
            && f[2] == Stack(150, base + 2150400, 4096, 4096, 0, 50)
            && f[18] == Stack(200, base + 2355200, 4096, 128, 3, 25) && f[19] == Stack(225, base + 2457600, 4096, 512, 3, 25)
            && f[13] == Stack(250, base + 2560000, 512, 512, 2, 250) && f[7] == Stack(500, base + 2688000, 512, 512, 1, 250)
            && f[0] == Stack(750, base + 2816000, 128, 128, 0, 250) && f[6] == Stack(1000, base + 2848000, 128, 128, 1, 250)
            && f[12] == Stack(1250, base + 2880000, 128, 128, 2, 250)
            && (forall s | s in {1, 3, 4, 5, 9, 10, 11, 15, 16, 17, 22, 23} :: f[s] == [])
  {
    var p := NewPool(free, base, length);
    PagesAre(p);
    SparseAre(SeedPages(p));
    LinesAre(SeedSparse(SeedPages(p)));
  }

  /** All twenty-four free lists of the seeded block, to the node. */
  lemma SeededLists(free: seq<seq<Node>>, base: nat, length: nat, c: nat, b: nat)
    requires NothingFree(free) && c < 4 && b < 6
    ensures var q := SeedPool(free, base, length);
            |q.free| == SLOTS && SeededAs(q.free[6 * c + b], base, c, b) && q.blocks == [Block(base, length)]
  {
    ListsAre(free, base, length);
    var s := 6 * c + b;
    assert s in {0, 2, 6, 7, 8, 12, 13, 14, 18, 19, 20, 21} || s in {1, 3, 4, 5, 9, 10, 11, 15, 16, 17, 22, 23};
  }

  // ---------------------------------------------------------------- the first block

  lemma SeedPoolKeeps(free: seq<seq<Node>>, base: nat, length: nat)
    requires NothingFree(free) && 0 < base && base % 4096 == 0 && base + length <= WORD && length >= SEEDED
    ensures var q := SeedPool(free, base, length);
            Seeded(q) && WellFormed(q) && q.cursor == base + SEEDED && q.remaining == length - SEEDED
            && q.blocks == [Block(base, length)]
  {
    NewPoolSeeded(free, base, length);
    var p := SeedPages(NewPool(free, base, length));
    SeedPagesKeeps(NewPool(free, base, length));
    Page(base, 575);
    SeedSparseKeeps(p);
    SeedLinesKeeps(SeedSparse(p));
    SeededWellFormed(SeedPool(free, base, length));
    ListsAre(free, base, length);
  }

  lemma SeededTops(free: seq<seq<Node>>, base: nat, length: nat)
    requires NothingFree(free)
    ensures var q := SeedPool(free, base, length);
            && |q.free| == SLOTS && q.blocks == [Block(base, length)]
            && q.free[Slot(2, 0)] != [] && q.free[Slot(2, 0)][0] == Node(1499, base + SEEDED - 128, 128, 2)
            && q.free[Slot(3, 2)] != [] && q.free[Slot(3, 2)][0] == Node(49, base + 1736704, 4096, 3)
  {
    ListsAre(free, base, length);
  }

  lemma ShortIsUnsafe(free: seq<seq<Node>>, base: nat, length: nat)
    requires NothingFree(free) && length < SEEDED
    ensures !SafePool(SeedPool(free, base, length))
  {
    var q := SeedPool(free, base, length);
    SeededTops(free, base, length);
    var n := q.free[Slot(2, 0)][0];
    FreeBagUpdate(q.free, Slot(2, 0), []);
    assert n in multiset(q.free[Slot(2, 0)]) && n in NodeSet(q);
    assert !Inside(q.blocks, n.address, n.size);
  }

  /** A page-aligned first block seeds a pool that is well formed, safe and aligned if and only if
      it is at least 2,912,000 bytes long; then the rest of it is the chunk. */
  lemma SeedPoolIff(free: seq<seq<Node>>, base: nat, length: nat)
    requires NothingFree(free) && 0 < base && base % 4096 == 0 && base + length <= WORD
    ensures SafePool(SeedPool(free, base, length)) <==> length >= SEEDED
    ensures length >= SEEDED ==>
              var q := SeedPool(free, base, length);
              Seeded(q) && WellFormed(q) && q.cursor == base + SEEDED && q.remaining == length - SEEDED
              && q.blocks == [Block(base, length)]
  {
    if length >= SEEDED {
      SeedPoolKeeps(free, base, length);
    } else {
      ShortIsUnsafe(free, base, length);
    }
  }
}
