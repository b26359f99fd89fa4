/** Memory stays disjoint under every interleaving: no two nodes, wherever they are, overlap each
    other or the chunk, even while one thread is half-way through a refill.  And where refills round, the same
    of the first byte of each node. */
module SharedTerritory {
  import opened Buckets
  import opened Concurrency
  import opened Custody
  import opened Exclusion
  import opened Interleaving
  import opened Nodes
  import opened Pool
  import opened PoolGround
  import opened PoolSafety
  import opened PoolService
  import opened SizeClasses
  import opened Territory
  import opened Wrappers

  /** How much of each node is meant: all of it, or what even a rounded refill keeps apart. */
  datatype Extent = Whole | FirstByte

  function Part(n: Node, e: Extent): Node {
    if e.Whole? then n else n.(size := 1)
  }

  ghost function Parts(made: multiset<Node>, e: Extent): set<Node> {
    set n | n in made :: Part(n, e)
  }

  lemma PartOf(made: multiset<Node>, e: Extent, x: Node) returns (n: Node)
    requires x in Parts(made, e)
    ensures n in made && x == Part(n, e)
  {
    n :| n in made && x == Part(n, e);
  }

  lemma PartsPlus(made: multiset<Node>, e: Extent, n: Node)
    ensures Parts(made + multiset{n}, e) == Parts(made, e) + {Part(n, e)}
  {
    forall x | x in Parts(made + multiset{n}, e)
      ensures x in Parts(made, e) + {Part(n, e)}
    {
      var m := PartOf(made + multiset{n}, e, x);
    }
    forall x | x in Parts(made, e) + {Part(n, e)}
      ensures x in Parts(made + multiset{n}, e)
    {
      if x in Parts(made, e) {
        var m := PartOf(made, e, x);
        assert m in made + multiset{n};
      } else {
        assert n in made + multiset{n};
      }
    }
  }

  /** Between giving up one chunk and having the next. */
  predicate PendingSection(s: Section) {
    match s
    case InsertTree(n, after) => after.ChunkNext?
    case InsertBucket(n, after) => after.MapNext?
    case PushBlock(size, supply) => true
    case _ => false
  }

  predicate Pending(pc: PC) {
    match pc
    case Want(s) => PendingSection(s)
    case Enter(s) => PendingSection(s)
    case Loaded(s, v) => PendingSection(s)
    case Leave(s, got) => PendingSection(s)
    case SetChunk(base, size) => true
    case _ => false
  }

  function SectionClaim(s: Section): Option<(nat, nat)> {
    if s.InsertTree? && s.after.ChunkNext? then
      Some((s.after.base + s.after.size, BlockSize(s.after.size) - s.after.size))
    else None
  }

  /** The stretch of a new block that is not yet the pool's chunk but already spoken for. */
  function Claim(pc: PC): Option<(nat, nat)> {
    match pc
    case Want(s) => SectionClaim(s)
    case Enter(s) => SectionClaim(s)
    case Loaded(s, v) => SectionClaim(s)
    case Leave(s, got) =>
      if s.PushBlock? && s.supply.Some? then Some((s.supply.value, BlockSize(s.size))) else SectionClaim(s)
    case SetChunk(base, size) => Some((base + size, BlockSize(size) - size))
    case _ => None
  }

  /** The sizes that may refill: any that needs no rounding, or, for the first bytes, any but 0. */
  predicate Refillable(size: nat, e: Extent) {
    if e.Whole? then SizeToBucketSize(size) == size else size > 0
  }

  predicate Adoptable(s: Section, e: Extent) {
    s.PushBlock? && s.supply.Some? ==> Refillable(s.size, e)
  }

  ghost predicate Claimed(nodes: set<Node>, p: Pool, pc: PC, e: Extent) {
    && (Pending(pc) ==> p.remaining == 0)
    && (Claim(pc).Some? ==> Safe(nodes, Claim(pc).value.0, Claim(pc).value.1, p.blocks))
    && (pc.Loaded? && pc.section.PushBlock? && pc.section.supply.Some? ==>
          FreshBlock(p.blocks, Block(pc.section.supply.value, BlockSize(pc.section.size))))
    && (pc.Loaded? || pc.Leave? ==> Adoptable(pc.section, e))
  }

  /** All nodes, wherever they are, are apart from each other, the chunk and what refills have spoken for. */
  ghost predicate Apart(w: World, e: Extent) {
    && Safe(Parts(w.made, e), w.pool.cursor, w.pool.remaining, w.pool.blocks)
    && (forall t {:trigger w.pcs[t]} | 0 <= t < |w.pcs| :: Claimed(Parts(w.made, e), w.pool, w.pcs[t], e))
  }

  /** What the caller and the system owe: a carve whose sum does not wrap, a refill only for a size that may
      refill, and a mapped block that is new. */
  ghost predicate Owed(w: World, t: nat, c: Choice, e: Extent) {
    t < |w.pcs| ==>
      var pc := w.pcs[t];
      && (pc.Measured? && Carves(w.pool, pc.size, pc.alignment) ==> Needed(w.pool, pc.size, pc.alignment) < WORD)
      && (pc.Enter? && pc.section.PushBlock? && c.supply.Some? ==>
            Refillable(pc.section.size, e)
            && FreshBlock(w.pool.blocks, Block(c.supply.value, BlockSize(pc.section.size))))
  }

  lemma OutsidersClaimNothing(nodes: set<Node>, p: Pool, pc: PC, e: Extent)
    requires PcSane(pc) && !Holds(pc, RemainingLock)
    ensures !Pending(pc) && Claim(pc).None? && Claimed(nodes, p, pc, e)
  {
  }

  lemma OutsiderOut(w: World, t: nat, s: Section, got: Option<Node>)
    requires t < |w.pcs| && PcSane(Leave(s, got)) && !KeepsRemaining(s)
    ensures Out(w, t, s, got).made == w.made && Out(w, t, s, got).pool == w.pool
  {
  }

  lemma OutsiderOther(w: World, t: nat, c: Choice)
    requires |w.pool.free| == SLOTS && t < |w.pcs| && PcSane(w.pcs[t]) && !w.pcs[t].Leave?
    requires !Holds(w.pcs[t], RemainingLock)
    ensures var w' := Step(w, t, c);
            && w'.made == w.made && w'.pool.blocks == w.pool.blocks
            && w'.pool.cursor == w.pool.cursor && w'.pool.remaining == w.pool.remaining
  {
  }

  /** Nodes are made, blocks mapped and the chunk moved only under the remaining lock. */
  lemma OutsidersMoveNothing(w: World, t: nat, c: Choice)
    requires Sane(w) && t < |w.pcs| && !Holds(w.pcs[t], RemainingLock)
    ensures var w' := Step(w, t, c);
            && w'.made == w.made && w'.pool.blocks == w.pool.blocks
            && w'.pool.cursor == w.pool.cursor && w'.pool.remaining == w.pool.remaining
  {
    var pc := w.pcs[t];
    if pc.Leave? {
      OutsiderOut(w.(owner := w.owner - {LockOf(pc.section)}), t, pc.section, pc.got);
    } else {
      OutsiderOther(w, t, c);
    }
  }

  lemma FewerSafe(nodes: set<Node>, fewer: set<Node>, cursor: nat, remaining: nat, blocks: seq<Block>)
    requires Safe(nodes, cursor, remaining, blocks) && fewer <= nodes
    ensures Safe(fewer, cursor, remaining, blocks)
  {
  }

  lemma PoolIsSafe(w: World)
    requires Accounted(w) && Apart(w, Whole)
    ensures SafePool(w.pool)
  {
    forall n | n in NodeSet(w.pool)
      ensures n in Parts(w.made, Whole)
    {
      SumAt(All(w.pool), Hands(w.pcs), w.lost, n);
      assert Part(n, Whole) == n && n in w.made;
    }
    FewerSafe(Parts(w.made, Whole), NodeSet(w.pool), w.pool.cursor, w.pool.remaining, w.pool.blocks);
  }

  lemma PoolIsGrounded(w: World)
    requires Accounted(w) && Apart(w, FirstByte)
    ensures GroundedPool(w.pool)
  {
    forall x | x in Starts(w.pool)
      ensures x in Parts(w.made, FirstByte)
    {
      var n := StartOf(w.pool, x);
      SumAt(All(w.pool), Hands(w.pcs), w.lost, n);
      assert n in w.made && Part(n, FirstByte) == x;
    }
    FewerSafe(Parts(w.made, FirstByte), Starts(w.pool), w.pool.cursor, w.pool.remaining, w.pool.blocks);
  }

  lemma ChunkIsOk(nodes: set<Node>, p: Pool)
    requires Safe(nodes, p.cursor, p.remaining, p.blocks)
    ensures ChunkOk(p)
  {
  }

  /** What a step must establish for the thread that takes it. */
  ghost predicate OwnOk(w: World, t: nat, e: Extent)
    requires t < |w.pcs|
  {
    && Safe(Parts(w.made, e), w.pool.cursor, w.pool.remaining, w.pool.blocks)
    && Claimed(Parts(w.made, e), w.pool, w.pcs[t], e)
  }

  lemma CutCarves(w: World, t: nat, size: nat, alignment: nat, e: Extent)
    requires t < |w.pcs| && Usable(alignment) && Needed(w.pool, size, alignment) < WORD
    requires Safe(Parts(w.made, e), w.pool.cursor, w.pool.remaining, w.pool.blocks)
    requires Carves(w.pool, size, alignment)
    ensures OwnOk(Cut(w, t, size, alignment, w.pool.cursor, w.pool.remaining), t, e)
  {
    var p, w' := w.pool, Cut(w, t, size, alignment, w.pool.cursor, w.pool.remaining);
    assert MeasuredPool(p, p.cursor, p.remaining) == p;
    var n := CarvedNode(p, size, alignment);
    ChunkIsOk(Parts(w.made, e), p);
    var k := CarvedAddress(p, size, alignment);
    CarveFields(p, size, alignment, k);
    PartsPlus(w.made, e, n);
    TakeFront(Parts(w.made, e), p.cursor, p.remaining, p.blocks, k, Part(n, e));
    DropChunk(Parts(w'.made, e), p.cursor + k, p.remaining - k, p.blocks);
  }

  lemma CutFlushes(w: World, t: nat, size: nat, alignment: nat, e: Extent)
    requires t < |w.pcs| && alignment > 0 && !Carves(w.pool, size, alignment)
    requires Safe(Parts(w.made, e), w.pool.cursor, w.pool.remaining, w.pool.blocks)
    ensures OwnOk(Cut(w, t, size, alignment, w.pool.cursor, w.pool.remaining), t, e)
  {
    var p, w' := w.pool, Cut(w, t, size, alignment, w.pool.cursor, w.pool.remaining);
    assert MeasuredPool(p, p.cursor, p.remaining) == p;
    if Flushes(p) {
      var n := FlushNode(p);
      PartsPlus(w.made, e, n);
      TakeFront(Parts(w.made, e), p.cursor, p.remaining, p.blocks, p.remaining, Part(n, e));
      DropChunk(Parts(w'.made, e), p.cursor + p.remaining, 0, p.blocks);
    } else {
      DropChunk(Parts(w.made, e), p.cursor, p.remaining, p.blocks);
    }
  }

  lemma PushesBlock(w: World, t: nat, c: Choice, e: Extent)
    requires Sane(w) && t < |w.pcs| && OwnOk(w, t, e) && ViewTrue(w.pool, w.pcs[t])
    requires w.pcs[t].Loaded? && w.pcs[t].section.PushBlock?
    ensures |Step(w, t, c).pcs| == |w.pcs| && OwnOk(Step(w, t, c), t, e)
  {
    var s := w.pcs[t].section;
    var b := Block(s.supply.value, BlockSize(s.size));
    DropChunk(Parts(w.made, e), w.pool.cursor, w.pool.remaining, w.pool.blocks);
    AddBlock(Parts(w.made, e), w.pool.blocks, b);
    assert Step(w, t, c).pool.blocks == [b] + w.pool.blocks;
    assert Step(w, t, c).made == w.made;
  }

  lemma AdoptMoves(w: World, t: nat, s: Section, got: Option<Node>)
    requires t < |w.pcs| && PcSane(Leave(s, got)) && s.PushBlock? && s.supply.Some?
    ensures var (n, w') := (RefillNode(w.pool, s.supply.value, s.size), Out(w, t, s, got));
            && w'.made == w.made + multiset{n} && w'.pool == w.pool.(next := w.pool.next + 1) && |w'.pcs| == |w.pcs|
            && w'.pcs[t] == Want(InsertTree(n, ChunkNext(s.supply.value, s.size)))
  {
  }

  lemma AdoptsBlock(w: World, t: nat, s: Section, got: Option<Node>, e: Extent)
    requires t < |w.pcs| && PcSane(Leave(s, got)) && s.PushBlock? && s.supply.Some? && Refillable(s.size, e)
    requires Safe(Parts(w.made, e), w.pool.cursor, w.pool.remaining, w.pool.blocks) && w.pool.remaining == 0
    requires Safe(Parts(w.made, e), s.supply.value, BlockSize(s.size), w.pool.blocks)
    ensures OwnOk(Out(w, t, s, got), t, e)
  {
    var n := RefillNode(w.pool, s.supply.value, s.size);
    BucketsFit(s.size, 0);
    AdoptMoves(w, t, s, got);
    PartsPlus(w.made, e, n);
    TakeFront(Parts(w.made, e), s.supply.value, BlockSize(s.size), w.pool.blocks, s.size, Part(n, e));
    DropChunk(Parts(w.made + multiset{n}, e), s.supply.value + s.size, BlockSize(s.size) - s.size, w.pool.blocks);
  }

  lemma OutMoves(w: World, t: nat, s: Section, got: Option<Node>)
    requires t < |w.pcs| && PcSane(Leave(s, got)) && (s.PushBlock? ==> s.supply.None?)
    ensures var w' := Out(w, t, s, got);
            && w'.made == w.made && w'.pool == w.pool && |w'.pcs| == |w.pcs|
            && !w'.pcs[t].Loaded? && !w'.pcs[t].Leave?
            && (Pending(w'.pcs[t]) ==> PendingSection(s))
            && (Claim(w'.pcs[t]).None? || Claim(w'.pcs[t]) == SectionClaim(s))
  {
  }

  lemma OutOk(w: World, t: nat, s: Section, got: Option<Node>, e: Extent)
    requires t < |w.pcs| && PcSane(Leave(s, got)) && (s.PushBlock? ==> s.supply.None?)
    requires Safe(Parts(w.made, e), w.pool.cursor, w.pool.remaining, w.pool.blocks)
    requires Claimed(Parts(w.made, e), w.pool, Leave(s, got), e)
    ensures OwnOk(Out(w, t, s, got), t, e)
  {
    OutMoves(w, t, s, got);
  }

  lemma EnterOk(w: World, t: nat, c: Choice, e: Extent)
    requires |w.pool.free| == SLOTS && t < |w.pcs| && PcSane(w.pcs[t]) && w.pcs[t].Enter? && OwnOk(w, t, e) && Owed(w, t, c, e)
    ensures |Step(w, t, c).pcs| == |w.pcs| && OwnOk(Step(w, t, c), t, e)
  {
    assert Step(w, t, c).made == w.made && Step(w, t, c).pool == w.pool;
  }

  lemma LoadedOk(w: World, t: nat, c: Choice, e: Extent)
    requires |w.pool.free| == SLOTS && t < |w.pcs| && PcSane(w.pcs[t]) && w.pcs[t].Loaded? && OwnOk(w, t, e)
    requires !w.pcs[t].section.PushBlock?
    ensures |Step(w, t, c).pcs| == |w.pcs| && OwnOk(Step(w, t, c), t, e)
  {
    assert Step(w, t, c).made == w.made;
  }

  lemma SetChunkOk(w: World, t: nat, c: Choice, e: Extent)
    requires |w.pool.free| == SLOTS && t < |w.pcs| && w.pcs[t].SetChunk? && OwnOk(w, t, e)
    ensures |Step(w, t, c).pcs| == |w.pcs| && OwnOk(Step(w, t, c), t, e)
  {
    assert Parts(Step(w, t, c).made, e) == Parts(w.made, e);
  }

  /** The steps that neither make a node nor touch memory. */
  predicate Thinks(pc: PC) {
    !pc.Measured? && !pc.Leave? && !pc.Loaded? && !pc.Enter? && !pc.SetChunk?
  }

  lemma ThinkingMoves(w: World, t: nat, c: Choice)
    requires |w.pool.free| == SLOTS && t < |w.pcs| && PcSane(w.pcs[t]) && Thinks(w.pcs[t])
    ensures var w' := Step(w, t, c);
            && |w'.pcs| == |w.pcs| && w'.pool == w.pool && w'.made == w.made
            && (w'.pcs[t] == w.pcs[t] || (w.pcs[t].Want? && w'.pcs[t] == Enter(w.pcs[t].section))
                || (!Pending(w'.pcs[t]) && Claim(w'.pcs[t]).None? && !w'.pcs[t].Loaded? && !w'.pcs[t].Leave?))
  {
  }

  lemma ThinkingOk(w: World, t: nat, c: Choice, e: Extent)
    requires |w.pool.free| == SLOTS && t < |w.pcs| && PcSane(w.pcs[t]) && Thinks(w.pcs[t]) && OwnOk(w, t, e)
    ensures |Step(w, t, c).pcs| == |w.pcs| && OwnOk(Step(w, t, c), t, e)
  {
    ThinkingMoves(w, t, c);
    assert Parts(Step(w, t, c).made, e) == Parts(w.made, e);
  }

  lemma OwnOut(w: World, t: nat, c: Choice, e: Extent)
    requires |w.pool.free| == SLOTS && t < |w.pcs| && PcSane(w.pcs[t]) && OwnOk(w, t, e) && w.pcs[t].Leave?
    ensures |Step(w, t, c).pcs| == |w.pcs| && OwnOk(Step(w, t, c), t, e)
  {
    var s, got := w.pcs[t].section, w.pcs[t].got;
    var v := w.(owner := w.owner - {LockOf(s)});
    assert Parts(v.made, e) == Parts(w.made, e) && Step(w, t, c) == Out(v, t, s, got);
    if s.PushBlock? && s.supply.Some? {
      AdoptsBlock(v, t, s, got, e);
    } else {
      OutOk(v, t, s, got, e);
    }
  }

  lemma OwnCut(w: World, t: nat, c: Choice, e: Extent)
    requires |w.pool.free| == SLOTS && t < |w.pcs| && PcSane(w.pcs[t]) && w.pcs[t].Measured? && Owed(w, t, c, e)
    requires OwnOk(w, t, e) && ViewTrue(w.pool, w.pcs[t])
    ensures |Step(w, t, c).pcs| == |w.pcs| && OwnOk(Step(w, t, c), t, e)
  {
    var pc := w.pcs[t];
    if Carves(w.pool, pc.size, pc.alignment) {
      CutCarves(w, t, pc.size, pc.alignment, e);
    } else {
      CutFlushes(w, t, pc.size, pc.alignment, e);
    }
  }

  lemma OwnStep(w: World, t: nat, c: Choice, e: Extent)
    requires Inv(w) && t < |w.pcs| && Apart(w, e) && Owed(w, t, c, e)
    ensures |Step(w, t, c).pcs| == |w.pcs| && OwnOk(Step(w, t, c), t, e)
  {
    var pc := w.pcs[t];
    assert Claimed(Parts(w.made, e), w.pool, pc, e) && ViewTrue(w.pool, pc);
    if pc.Measured? {
      OwnCut(w, t, c, e);
    } else if pc.Loaded? && pc.section.PushBlock? {
      PushesBlock(w, t, c, e);
    } else if pc.Loaded? {
      LoadedOk(w, t, c, e);
    } else if pc.Enter? {
      EnterOk(w, t, c, e);
    } else if pc.Leave? {
      OwnOut(w, t, c, e);
    } else if pc.SetChunk? {
      SetChunkOk(w, t, c, e);
    } else {
      ThinkingOk(w, t, c, e);
    }
  }

  lemma OthersKeep(w: World, t: nat, c: Choice, u: nat, e: Extent)
    requires Inv(w) && t < |w.pcs| && u < |w.pcs| && u != t && Apart(w, e)
    ensures var w' := Step(w, t, c);
            |w'.pcs| == |w.pcs| && Claimed(Parts(w'.made, e), w'.pool, w'.pcs[u], e)
  {
    StepPcs(w, t, c);
    assert Claimed(Parts(w.made, e), w.pool, w.pcs[u], e);
    if Holds(w.pcs[u], RemainingLock) {
      if Holds(w.pcs[t], RemainingLock) {
        OneInside(w, t, u, RemainingLock);
      }
      OutsidersMoveNothing(w, t, c);
    } else {
      OutsidersClaimNothing(Parts(Step(w, t, c).made, e), Step(w, t, c).pool, w.pcs[u], e);
    }
  }

  lemma StepApart(w: World, t: nat, c: Choice, e: Extent)
    requires Inv(w) && t < |w.pcs| && Apart(w, e) && Owed(w, t, c, e)
    ensures Apart(Step(w, t, c), e)
  {
    var w' := Step(w, t, c);
    OwnStep(w, t, c, e);
    forall u | 0 <= u < |w'.pcs|
      ensures Claimed(Parts(w'.made, e), w'.pool, w'.pcs[u], e)
    {
      if u != t {
        OthersKeep(w, t, c, u, e);
      }
    }
  }

  ghost predicate OwedRun(w: World, schedule: seq<Move>, e: Extent)
    decreases |schedule|
  {
    |schedule| > 0 ==>
      Owed(w, schedule[0].thread, schedule[0].choice, e) && OwedRun(Advance(w, schedule[0]), schedule[1..], e)
  }

  /** Safety over every run of every number of threads. */
  lemma {:induction false} RunApart(w: World, schedule: seq<Move>, e: Extent)
    requires Inv(w) && Apart(w, e) && OwedRun(w, schedule, e)
    ensures Apart(Play(w, schedule), e)
    decreases |schedule|
  {
    if |schedule| > 0 {
      var m := schedule[0];
      AdvanceKeeps(w, m);
      if m.thread < |w.pcs| {
        StepApart(w, m.thread, m.choice, e);
      }
      RunApart(Advance(w, m), schedule[1..], e);
    }
  }

  lemma IdleClaimsNothing(nodes: set<Node>, p: Pool, e: Extent)
    ensures Claimed(nodes, p, Idle, e)
  {
  }

  lemma FreshApart(p: Pool, threads: nat, e: Extent)
    requires SafePool(p)
    ensures Apart(Fresh(p, threads), e)
  {
    var w := Fresh(p, threads);
    assert w.made == All(p);
    if e.Whole? {
      assert Parts(w.made, e) == NodeSet(p);
    } else {
      SafeIsGrounded(p);
      assert Parts(w.made, e) == Starts(p);
    }
    IdleClaimsNothing(Parts(w.made, e), p, e);
  }

  lemma FirstApart(base: nat, length: nat, threads: nat, schedule: seq<Move>, e: Extent)
    requires FirstBlock(base, length) && OwedRun(Fresh(FirstPool(base, length), threads), schedule, e)
    ensures var w := Play(Fresh(FirstPool(base, length), threads), schedule); Inv(w) && Apart(w, e)
  {
    var p := FirstPool(base, length);
    FreshInv(p, threads);
    FreshApart(p, threads, e);
    RunKeeps(Fresh(p, threads), schedule);
    RunApart(Fresh(p, threads), schedule, e);
  }

  /** Any number of threads started on the seeded pool: in every state they can reach, every node is in
      one place and no memory is held twice. */
  lemma ThreadsAreSound(base: nat, length: nat, threads: nat, schedule: seq<Move>)
    requires FirstBlock(base, length) && OwedRun(Fresh(FirstPool(base, length), threads), schedule, Whole)
    ensures var w := Play(Fresh(FirstPool(base, length), threads), schedule);
            Inv(w) && Apart(w, Whole) && SafePool(w.pool)
  {
    FirstApart(base, length, threads, schedule, Whole);
    PoolIsSafe(Play(Fresh(FirstPool(base, length), threads), schedule));
  }

  /** And when refills round, as long as none is for 0 bytes, every node still has an address of its own in a mapped
      block, outside the chunk. */
  lemma ThreadsAreGrounded(base: nat, length: nat, threads: nat, schedule: seq<Move>)
    requires FirstBlock(base, length) && OwedRun(Fresh(FirstPool(base, length), threads), schedule, FirstByte)
    ensures var w := Play(Fresh(FirstPool(base, length), threads), schedule);
            && Inv(w) && Apart(w, FirstByte) && GroundedPool(w.pool)
            && (forall x, y | x in w.made && y in w.made && x != y :: x.address != y.address)
  {
    FirstApart(base, length, threads, schedule, FirstByte);
    var w := Play(Fresh(FirstPool(base, length), threads), schedule);
    PoolIsGrounded(w);
    forall x, y | x in w.made && y in w.made && x != y
      ensures x.address != y.address
    {
      AddressesApart(w, x, y);
    }
  }

  lemma AddressesApart(w: World, x: Node, y: Node)
    requires Accounted(w) && Apart(w, FirstByte) && x in w.made && y in w.made && x != y
    ensures x.address != y.address
  {
    assert Part(x, FirstByte) in Parts(w.made, FirstByte) && Part(y, FirstByte) in Parts(w.made, FirstByte);
    assert x.id != y.id;
  }

  lemma {:induction false} TwoHands(pcs: seq<PC>, t: nat, u: nat, n: Node)
    requires t < u < |pcs| && InHand(pcs[t]) == Some(n) == InHand(pcs[u])
    ensures Hands(pcs)[n] >= 2
    decreases t
  {
    HandsFirst(pcs, n);
    if t == 0 {
      OneHand(pcs[1..], u - 1, n);
    } else {
      TwoHands(pcs[1..], t - 1, u - 1, n);
    }
  }

  lemma OneHand(pcs: seq<PC>, t: nat, n: Node)
    requires t < |pcs| && InHand(pcs[t]) == Some(n)
    ensures Hands(pcs)[n] >= 1
  {
    HandsUpdate(pcs, t, Idle, n);
  }

  lemma HeldOnce(w: World, t: nat, u: nat, n: Node)
    requires Accounted(w) && t < |w.pcs| && u < |w.pcs| && t != u && InHand(w.pcs[t]) == Some(n)
    ensures InHand(w.pcs[u]) != Some(n)
  {
    HeldIsMade(w, t, n);
    SumAt(All(w.pool), Hands(w.pcs), w.lost, n);
    if InHand(w.pcs[u]) == Some(n) {
      TwoHands(w.pcs, if t < u then t else u, if t < u then u else t, n);
    }
  }

  /** What two threads have in their hands is never the same node and never overlaps, and neither is in a
      bucket, in the tree or in the chunk. */
  lemma HeldApart(base: nat, length: nat, threads: nat, schedule: seq<Move>, t: nat, u: nat)
    requires FirstBlock(base, length) && OwedRun(Fresh(FirstPool(base, length), threads), schedule, Whole)
    requires var w := Play(Fresh(FirstPool(base, length), threads), schedule);
             t < |w.pcs| && u < |w.pcs| && t != u && InHand(w.pcs[t]).Some? && InHand(w.pcs[u]).Some?
    ensures var w := Play(Fresh(FirstPool(base, length), threads), schedule);
            var x, y := InHand(w.pcs[t]).value, InHand(w.pcs[u]).value;
            && x != y && Disjoint(x.address, x.size, y.address, y.size)
            && x !in All(w.pool) && y !in All(w.pool)
            && (w.pool.remaining > 0 ==> Disjoint(x.address, x.size, w.pool.cursor, w.pool.remaining))
  {
    var w := Play(Fresh(FirstPool(base, length), threads), schedule);
    ThreadsAreSound(base, length, threads, schedule);
    HeldInWorld(w, t, u);
  }

  lemma HeldInWorld(w: World, t: nat, u: nat)
    requires Accounted(w) && Apart(w, Whole)
    requires t < |w.pcs| && u < |w.pcs| && t != u && InHand(w.pcs[t]).Some? && InHand(w.pcs[u]).Some?
    ensures var x, y := InHand(w.pcs[t]).value, InHand(w.pcs[u]).value;
            && x != y && Disjoint(x.address, x.size, y.address, y.size)
            && x !in All(w.pool) && y !in All(w.pool)
            && (w.pool.remaining > 0 ==> Disjoint(x.address, x.size, w.pool.cursor, w.pool.remaining))
  {
    var x, y := InHand(w.pcs[t]).value, InHand(w.pcs[u]).value;
    HeldOnce(w, t, u, x);
    HeldNotInPool(w, t, x);
    HeldNotInPool(w, u, y);
    MadeApart(w, x, y);
  }

  lemma HeldNotInPool(w: World, t: nat, n: Node)
    requires Accounted(w) && t < |w.pcs| && InHand(w.pcs[t]) == Some(n)
    ensures n in w.made && n !in All(w.pool)
  {
    HeldIsMade(w, t, n);
    HandsUpdate(w.pcs, t, Idle, n);
    SumAt(All(w.pool), Hands(w.pcs), w.lost, n);
  }

  lemma MadeApart(w: World, x: Node, y: Node)
    requires Apart(w, Whole) && x in w.made && y in w.made && x != y
    ensures Disjoint(x.address, x.size, y.address, y.size)
    ensures w.pool.remaining > 0 ==> Disjoint(x.address, x.size, w.pool.cursor, w.pool.remaining)
  {
    assert Part(x, Whole) == x && Part(y, Whole) == y;
    assert x in Parts(w.made, Whole) && y in Parts(w.made, Whole);
  }
}
