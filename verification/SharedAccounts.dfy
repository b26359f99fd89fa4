/** Bytes under every interleaving: in the buckets, in the tree, in the chunk, in the threads' hands, or in a
    stretch of a new block that a refill under way has spoken for. */
module SharedAccounts {
  import opened AllocTree
  import opened Buckets
  import opened Concurrency
  import opened Custody
  import opened Exclusion
  import opened Interleaving
  import opened Nodes
  import opened Pool
  import opened PoolAccounts
  import opened SharedTerritory
  import opened SizeClasses
  import opened Wrappers

  function SizeOf(o: Option<Node>): nat {
    if o.Some? then o.value.size else 0
  }

  function ClaimSize(o: Option<(nat, nat)>): nat {
    if o.Some? then o.value.1 else 0
  }

  function PcBytes(pc: PC): nat {
    SizeOf(InHand(pc)) + ClaimSize(Claim(pc))
  }

  function HandBytes(pcs: seq<PC>): nat {
    if |pcs| == 0 then 0 else PcBytes(pcs[0]) + HandBytes(pcs[1..])
  }

  lemma {:induction false} HandBytesUpdate(pcs: seq<PC>, t: nat, pc: PC)
    requires t < |pcs|
    ensures HandBytes(pcs[t := pc]) + PcBytes(pcs[t]) == HandBytes(pcs) + PcBytes(pc)
    decreases t
  {
    if t == 0 {
      assert pcs[t := pc][1..] == pcs[1..];
    } else {
      HandBytesUpdate(pcs[1..], t - 1, pc);
      assert pcs[t := pc][1..] == pcs[1..][t - 1 := pc];
    }
  }

  function Books(w: World): nat {
    Total(w.pool) + HandBytes(w.pcs)
  }

  function CutEntry(p: Pool, size: nat, alignment: nat): Ledger
    requires alignment > 0
  {
    if Carves(p, size, alignment) then CarveEntry(p, size, alignment)
    else Ledger(0, if Flushes(p) then 0 else p.remaining, 0, 0)
  }

  /** What a step skips, drops, maps and counts twice; and what it loses. */
  function StepEntry(w: World, t: nat): Ledger
    requires t < |w.pcs| && PcSane(w.pcs[t])
  {
    var pc := w.pcs[t];
    if pc.Measured? then CutEntry(w.pool, pc.size, pc.alignment)
    else if pc.Loaded? && pc.section.PushBlock? then Ledger(0, 0, BlockSize(pc.section.size), 0)
    else if pc.Leave? && pc.section.PushBlock? && pc.section.supply.Some? then
      BucketsFit(pc.section.size, 0);
      Ledger(0, 0, 0, SizeToBucketSize(pc.section.size) - pc.section.size)
    else NOTHING
  }

  function StepLoss(pc: PC): nat {
    if pc.Leave? && Loses(pc.section, pc.got) then pc.got.value.size else 0
  }

  /** The books of the thread that steps: memory and its own hands. */
  predicate StepBalances(w: World, t: nat, w': World)
    requires t < |w.pcs| == |w'.pcs| && PcSane(w.pcs[t])
  {
    var e := StepEntry(w, t);
    Total(w'.pool) + PcBytes(w'.pcs[t]) + e.skipped + e.dropped + StepLoss(w.pcs[t])
    == Total(w.pool) + PcBytes(w.pcs[t]) + e.mapped + e.surplus
  }

  lemma StoreBytes(p: Pool, s: Section, v: View)
    requires |p.free| == SLOTS && PcSane(Loaded(s, v)) && v == ViewOf(p, s)
    ensures Total(Store(p, s, v)) + SizeOf(Grabbed(s, v)) == Total(p) + SizeOf(Carried(s))
  {
    match s
    case Pop(size, alignment, bucket, first) =>
      if v.nodes != [] {
        TakeFreeAll(p, PopSlot(alignment, bucket));
      }
    case InsertTree(n, after) => PutAllocAll(p, n);
    case RemoveTree(address) =>
      FindInBag(p.alloc, address);
      if Find(p.alloc, address).Some? {
        TakeAllocAll(p, Find(p.alloc, address).value);
      }
    case InsertBucket(n, after) => PutFreeAll(p, n);
    case PushBlock(size, supply) =>
  }

  lemma LoadedBalances(w: World, t: nat, c: Choice)
    requires |w.pool.free| == SLOTS && t < |w.pcs| && PcSane(w.pcs[t]) && w.pcs[t].Loaded? && ViewTrue(w.pool, w.pcs[t])
    ensures |Step(w, t, c).pcs| == |w.pcs| && StepBalances(w, t, Step(w, t, c))
  {
    StoreBytes(w.pool, w.pcs[t].section, w.pcs[t].view);
  }

  lemma OutBytes(w: World, t: nat, s: Section, got: Option<Node>)
    requires t < |w.pcs| && PcSane(Leave(s, got)) && !(s.PushBlock? && s.supply.Some?)
    ensures var w' := Out(w, t, s, got);
            && Total(w'.pool) == Total(w.pool) && |w'.pcs| == |w.pcs|
            && PcBytes(w'.pcs[t]) + StepLoss(Leave(s, got)) == PcBytes(Leave(s, got))
  {
    OutMemory(w, t, s, got);
  }

  lemma AdoptedBytes(w: World, t: nat, s: Section, got: Option<Node>)
    requires t < |w.pcs| && PcSane(Leave(s, got)) && s.PushBlock? && s.supply.Some?
    ensures var w' := Out(w, t, s, got);
            && Total(w'.pool) == Total(w.pool) && |w'.pcs| == |w.pcs|
            && PcBytes(w'.pcs[t]) + s.size == PcBytes(Leave(s, got)) + SizeToBucketSize(s.size)
  {
    OutMemory(w, t, s, got);
  }

  lemma OutBalances(w: World, t: nat, c: Choice)
    requires |w.pool.free| == SLOTS && t < |w.pcs| && PcSane(w.pcs[t]) && w.pcs[t].Leave?
    ensures |Step(w, t, c).pcs| == |w.pcs| && StepBalances(w, t, Step(w, t, c))
  {
    var s, got := w.pcs[t].section, w.pcs[t].got;
    var v := w.(owner := w.owner - {LockOf(s)});
    assert Step(w, t, c) == Out(v, t, s, got);
    BucketsFit(if s.PushBlock? then s.size else 0, 0);
    if s.PushBlock? && s.supply.Some? {
      AdoptedBytes(v, t, s, got);
    } else {
      OutBytes(v, t, s, got);
    }
  }

  lemma CarveBytes(w: World, t: nat, size: nat, alignment: nat)
    requires t < |w.pcs| && alignment > 0 && Carves(w.pool, size, alignment)
    ensures var (w', e) := (Cut(w, t, size, alignment, w.pool.cursor, w.pool.remaining), CutEntry(w.pool, size, alignment));
            && |w'.pcs| == |w.pcs|
            && Total(w'.pool) + PcBytes(w'.pcs[t]) + e.skipped + e.dropped == Total(w.pool) + e.surplus && e.mapped == 0
  {
    assert MeasuredPool(w.pool, w.pool.cursor, w.pool.remaining) == w.pool;
  }

  lemma CutBytes(w: World, t: nat, size: nat, alignment: nat)
    requires t < |w.pcs| && alignment > 0
    ensures var (w', e) := (Cut(w, t, size, alignment, w.pool.cursor, w.pool.remaining), CutEntry(w.pool, size, alignment));
            && |w'.pcs| == |w.pcs|
            && Total(w'.pool) + PcBytes(w'.pcs[t]) + e.skipped + e.dropped == Total(w.pool) + e.surplus && e.mapped == 0
  {
    assert MeasuredPool(w.pool, w.pool.cursor, w.pool.remaining) == w.pool;
    if Carves(w.pool, size, alignment) {
      CarveBytes(w, t, size, alignment);
    }
  }

  lemma CutBalances(w: World, t: nat, c: Choice)
    requires |w.pool.free| == SLOTS && t < |w.pcs| && PcSane(w.pcs[t]) && w.pcs[t].Measured? && ViewTrue(w.pool, w.pcs[t])
    ensures |Step(w, t, c).pcs| == |w.pcs| && StepBalances(w, t, Step(w, t, c))
  {
    CutBytes(w, t, w.pcs[t].size, w.pcs[t].alignment);
  }

  lemma SetChunkBalances(w: World, t: nat, c: Choice)
    requires |w.pool.free| == SLOTS && t < |w.pcs| && w.pcs[t].SetChunk? && w.pool.remaining == 0
    ensures |Step(w, t, c).pcs| == |w.pcs| && StepBalances(w, t, Step(w, t, c))
  {
  }

  lemma OtherBytes(w: World, t: nat, c: Choice)
    requires |w.pool.free| == SLOTS && t < |w.pcs| && PcSane(w.pcs[t]) && Quiet(w.pcs[t]) && !w.pcs[t].SetChunk?
    ensures var w' := Step(w, t, c);
            |w'.pcs| == |w.pcs| && w'.pool == w.pool && PcBytes(w'.pcs[t]) == PcBytes(w.pcs[t])
  {
  }

  // ---------------------------------------------------------------- the chunk during a refill

  /** While a refill is under way there is no chunk. */
  ghost predicate NoChunkWhilePending(w: World) {
    forall t {:trigger w.pcs[t]} | 0 <= t < |w.pcs| :: Pending(w.pcs[t]) ==> w.pool.remaining == 0
  }

  lemma OutPending(w: World, t: nat, s: Section, got: Option<Node>)
    requires t < |w.pcs| && PcSane(Leave(s, got))
    ensures Pending(Out(w, t, s, got).pcs[t]) ==> PendingSection(s)
  {
  }

  lemma CutPending(w: World, t: nat, size: nat, alignment: nat, cursor: nat, remaining: nat)
    requires t < |w.pcs| && alignment > 0
    ensures var w' := Cut(w, t, size, alignment, cursor, remaining); Pending(w'.pcs[t]) ==> w'.pool.remaining == 0
  {
  }

  lemma OtherPending(w: World, t: nat, c: Choice)
    requires |w.pool.free| == SLOTS && t < |w.pcs| && PcSane(w.pcs[t]) && !w.pcs[t].Leave? && !w.pcs[t].Measured?
    ensures Pending(Step(w, t, c).pcs[t]) ==> Pending(w.pcs[t]) && Step(w, t, c).pool.remaining == w.pool.remaining
  {
  }

  lemma OwnPending(w: World, t: nat, c: Choice)
    requires |w.pool.free| == SLOTS && t < |w.pcs| && PcSane(w.pcs[t]) && (Pending(w.pcs[t]) ==> w.pool.remaining == 0)
    ensures |Step(w, t, c).pcs| == |w.pcs|
    ensures Pending(Step(w, t, c).pcs[t]) ==> Step(w, t, c).pool.remaining == 0
  {
    var pc := w.pcs[t];
    if pc.Leave? {
      var v := w.(owner := w.owner - {LockOf(pc.section)});
      OutPending(v, t, pc.section, pc.got);
      OutMemory(v, t, pc.section, pc.got);
      OutPcs(v, t, pc.section, pc.got);
    } else if pc.Measured? {
      CutPending(w, t, pc.size, pc.alignment, pc.cursor, pc.remaining);
      CutPcs(w, t, pc.size, pc.alignment, pc.cursor, pc.remaining);
    } else {
      OtherPending(w, t, c);
    }
  }

  lemma StepNoChunk(w: World, t: nat, c: Choice)
    requires Inv(w) && t < |w.pcs| && NoChunkWhilePending(w)
    ensures NoChunkWhilePending(Step(w, t, c))
  {
    var w' := Step(w, t, c);
    StepPcs(w, t, c);
    assert Pending(w.pcs[t]) ==> w.pool.remaining == 0;
    OwnPending(w, t, c);
    forall u | 0 <= u < |w'.pcs| && Pending(w'.pcs[u])
      ensures w'.pool.remaining == 0
    {
      if u != t {
        PendingHolds(w.pcs[u]);
        if Holds(w.pcs[t], RemainingLock) {
          OneInside(w, t, u, RemainingLock);
        }
        OutsidersMoveNothing(w, t, c);
      }
    }
  }

  lemma PendingHolds(pc: PC)
    requires PcSane(pc) && Pending(pc)
    ensures Holds(pc, RemainingLock)
  {
  }

  // ---------------------------------------------------------------- conservation

  lemma OwnBalances(w: World, t: nat, c: Choice)
    requires Sane(w) && ViewsTrue(w) && NoChunkWhilePending(w) && t < |w.pcs|
    ensures |Step(w, t, c).pcs| == |w.pcs| && StepBalances(w, t, Step(w, t, c))
  {
    var pc := w.pcs[t];
    assert ViewTrue(w.pool, pc) && (Pending(pc) ==> w.pool.remaining == 0);
    if pc.Loaded? {
      LoadedBalances(w, t, c);
    } else if pc.Leave? {
      OutBalances(w, t, c);
    } else if pc.Measured? {
      CutBalances(w, t, c);
    } else if pc.SetChunk? {
      SetChunkBalances(w, t, c);
    } else {
      OtherBytes(w, t, c);
    }
  }

  /** One step of any thread: bytes before, mapped and surplus equal bytes after, skipped, dropped and lost. */
  lemma StepConserves(w: World, t: nat, c: Choice)
    requires Inv(w) && NoChunkWhilePending(w) && t < |w.pcs|
    ensures var (w', e) := (Step(w, t, c), StepEntry(w, t));
            Books(w') + e.skipped + e.dropped + StepLoss(w.pcs[t]) == Books(w) + e.mapped + e.surplus
  {
    OwnBalances(w, t, c);
    StepPcs(w, t, c);
    HandBytesUpdate(w.pcs, t, Step(w, t, c).pcs[t]);
  }

  /** What a whole schedule skips, drops, maps, counts twice, and loses. */
  function PlayEntry(w: World, schedule: seq<Move>): (Ledger, nat)
    decreases |schedule|
  {
    if |schedule| == 0 then (NOTHING, 0)
    else
      var (m, rest) := (schedule[0], PlayEntry(Advance(w, schedule[0]), schedule[1..]));
      if m.thread < |w.pcs| && PcSane(w.pcs[m.thread]) then
        (Plus(StepEntry(w, m.thread), rest.0), StepLoss(w.pcs[m.thread]) + rest.1)
      else rest
  }

  /** Conservation over every run of every number of threads, whatever they ask for. */
  lemma {:induction false} RunConserves(w: World, schedule: seq<Move>)
    requires Inv(w) && NoChunkWhilePending(w)
    ensures var (e, lost) := PlayEntry(w, schedule);
            Books(Play(w, schedule)) + e.skipped + e.dropped + lost == Books(w) + e.mapped + e.surplus
    decreases |schedule|
  {
    if |schedule| > 0 {
      var m := schedule[0];
      AdvanceKeeps(w, m);
      if m.thread < |w.pcs| {
        StepConserves(w, m.thread, m.choice);
        StepNoChunk(w, m.thread, m.choice);
      }
      RunConserves(Advance(w, m), schedule[1..]);
    }
  }

  lemma {:induction false} IdleHandsHoldNothing(pcs: seq<PC>)
    requires forall t | 0 <= t < |pcs| :: pcs[t] == Idle
    ensures HandBytes(pcs) == 0
  {
    if |pcs| > 0 {
      IdleHandsHoldNothing(pcs[1..]);
    }
  }

  /** From the start of any number of threads on a well-formed pool. */
  lemma ThreadsConserve(p: Pool, threads: nat, schedule: seq<Move>)
    requires WellFormed(p)
    ensures var (e, lost) := PlayEntry(Fresh(p, threads), schedule);
            Books(Play(Fresh(p, threads), schedule)) + e.skipped + e.dropped + lost == Total(p) + e.mapped + e.surplus
  {
    FreshInv(p, threads);
    IdleHandsHoldNothing(Fresh(p, threads).pcs);
    RunConserves(Fresh(p, threads), schedule);
  }
}
