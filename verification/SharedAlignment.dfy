/** Alignment under every interleaving: the cursor and all nodes, wherever they are. */
module SharedAlignment {
  import opened Buckets
  import opened Concurrency
  import opened Custody
  import opened Exclusion
  import opened Interleaving
  import opened Nodes
  import opened Pool
  import opened PoolAlignment
  import opened PoolService
  import opened Wrappers

  predicate Multiples(base: nat, size: nat) {
    base % 128 == 0 && size % 128 == 0
  }

  predicate AlignedSection(s: Section) {
    match s
    case InsertTree(n, after) => after.ChunkNext? ==> Multiples(after.base, after.size)
    case PushBlock(size, supply) => supply.Some? ==> Multiples(supply.value, size)
    case _ => true
  }

  /** The bases and sizes of a refill under way are multiples of 128. */
  predicate AlignedPc(pc: PC) {
    match pc
    case Want(s) => AlignedSection(s)
    case Enter(s) => AlignedSection(s)
    case Loaded(s, v) => AlignedSection(s)
    case Leave(s, got) => AlignedSection(s)
    case SetChunk(base, size) => Multiples(base, size)
    case _ => true
  }

  ghost predicate AlignedWorld(w: World) {
    && w.pool.cursor % 128 == 0 && AlignedNodes(w.made)
    && forall t {:trigger w.pcs[t]} | 0 <= t < |w.pcs| :: AlignedPc(w.pcs[t])
  }

  /** What is asked, whatever the alignments: carves that keep a pool aligned, and refills of multiples of 128 met
      with blocks that are aligned to 128. */
  predicate AlignmentOwed(w: World, t: nat, c: Choice) {
    t < |w.pcs| ==>
      var pc := w.pcs[t];
      && (pc.Measured? && pc.alignment > 0 && Carves(w.pool, pc.size, pc.alignment) ==>
            CutsAligned(w.pool, pc.size, pc.alignment))
      && (pc.Enter? && pc.section.PushBlock? && c.supply.Some? ==> Multiples(c.supply.value, pc.section.size))
  }

  /** What a step must establish for the thread that takes it. */
  ghost predicate StepAligns(w: World, t: nat)
    requires t < |w.pcs|
  {
    w.pool.cursor % 128 == 0 && AlignedNodes(w.made) && AlignedPc(w.pcs[t])
  }

  lemma CutAligns(w: World, t: nat, size: nat, alignment: nat)
    requires t < |w.pcs| && w.pool.cursor % 128 == 0 && AlignedNodes(w.made) && alignment > 0
    requires Carves(w.pool, size, alignment) ==> CutsAligned(w.pool, size, alignment)
    ensures StepAligns(Cut(w, t, size, alignment, w.pool.cursor, w.pool.remaining), t)
  {
    var p := w.pool;
    assert MeasuredPool(p, p.cursor, p.remaining) == p;
    if Carves(p, size, alignment) {
      CarvedLines(p, size, alignment);
      NodesPlus(w.made, CarvedNode(p, size, alignment));
    } else if Flushes(p) {
      NodesPlus(w.made, FlushNode(p));
    }
  }

  lemma OutAligns(w: World, t: nat, s: Section, got: Option<Node>)
    requires t < |w.pcs| && PcSane(Leave(s, got)) && w.pool.cursor % 128 == 0 && AlignedNodes(w.made) && AlignedSection(s)
    ensures StepAligns(Out(w, t, s, got), t)
  {
    if s.PushBlock? && s.supply.Some? {
      NodesPlus(w.made, RefillNode(w.pool, s.supply.value, s.size));
    }
  }

  lemma LoadedAligns(w: World, t: nat, c: Choice)
    requires |w.pool.free| == SLOTS && t < |w.pcs| && PcSane(w.pcs[t]) && w.pcs[t].Loaded? && StepAligns(w, t)
    ensures |Step(w, t, c).pcs| == |w.pcs| && StepAligns(Step(w, t, c), t)
  {
  }

  lemma EnterAligns(w: World, t: nat, c: Choice)
    requires |w.pool.free| == SLOTS && t < |w.pcs| && PcSane(w.pcs[t]) && w.pcs[t].Enter? && StepAligns(w, t)
    requires AlignmentOwed(w, t, c)
    ensures |Step(w, t, c).pcs| == |w.pcs| && StepAligns(Step(w, t, c), t)
  {
  }

  lemma ChunkAligns(w: World, t: nat, c: Choice)
    requires |w.pool.free| == SLOTS && t < |w.pcs| && w.pcs[t].SetChunk? && StepAligns(w, t)
    ensures |Step(w, t, c).pcs| == |w.pcs| && StepAligns(Step(w, t, c), t)
  {
  }

  lemma WantAligns(w: World, t: nat, c: Choice)
    requires |w.pool.free| == SLOTS && t < |w.pcs| && PcSane(w.pcs[t]) && w.pcs[t].Want? && StepAligns(w, t)
    ensures |Step(w, t, c).pcs| == |w.pcs| && StepAligns(Step(w, t, c), t)
  {
  }

  lemma OtherAligns(w: World, t: nat, c: Choice)
    requires |w.pool.free| == SLOTS && t < |w.pcs| && PcSane(w.pcs[t]) && Quiet(w.pcs[t])
    requires !w.pcs[t].Enter? && !w.pcs[t].SetChunk? && !w.pcs[t].Want? && StepAligns(w, t)
    ensures |Step(w, t, c).pcs| == |w.pcs| && StepAligns(Step(w, t, c), t)
  {
  }

  lemma OwnAligns(w: World, t: nat, c: Choice)
    requires Sane(w) && ViewsTrue(w) && t < |w.pcs| && AlignedWorld(w) && AlignmentOwed(w, t, c)
    ensures |Step(w, t, c).pcs| == |w.pcs| && StepAligns(Step(w, t, c), t)
  {
    var pc := w.pcs[t];
    assert AlignedPc(pc) && ViewTrue(w.pool, pc);
    if pc.Measured? {
      CutAligns(w, t, pc.size, pc.alignment);
    } else if pc.Leave? {
      OutAligns(w.(owner := w.owner - {LockOf(pc.section)}), t, pc.section, pc.got);
    } else if pc.Loaded? {
      LoadedAligns(w, t, c);
    } else if pc.Enter? {
      EnterAligns(w, t, c);
    } else if pc.SetChunk? {
      ChunkAligns(w, t, c);
    } else if pc.Want? {
      WantAligns(w, t, c);
    } else {
      OtherAligns(w, t, c);
    }
  }

  lemma StepAlignedWorld(w: World, t: nat, c: Choice)
    requires Inv(w) && t < |w.pcs| && AlignedWorld(w) && AlignmentOwed(w, t, c)
    ensures AlignedWorld(Step(w, t, c))
  {
    OwnAligns(w, t, c);
    StepPcs(w, t, c);
  }

  ghost predicate AlignmentOwedRun(w: World, schedule: seq<Move>)
    decreases |schedule|
  {
    |schedule| > 0 ==>
      AlignmentOwed(w, schedule[0].thread, schedule[0].choice) && AlignmentOwedRun(Advance(w, schedule[0]), schedule[1..])
  }

  lemma {:induction false} RunAlignedWorld(w: World, schedule: seq<Move>)
    requires Inv(w) && AlignedWorld(w) && AlignmentOwedRun(w, schedule)
    ensures Inv(Play(w, schedule)) && AlignedWorld(Play(w, schedule))
    decreases |schedule|
  {
    if |schedule| > 0 {
      var m := schedule[0];
      AdvanceKeeps(w, m);
      if m.thread < |w.pcs| {
        StepAlignedWorld(w, m.thread, m.choice);
      }
      RunAlignedWorld(Advance(w, m), schedule[1..]);
    }
  }

  lemma FreshAligned(p: Pool, threads: nat)
    requires AlignedPool(p)
    ensures AlignedWorld(Fresh(p, threads))
  {
    assert Fresh(p, threads).made == All(p);
  }

  lemma PoppedAligned(w: World, t: nat)
    requires Inv(w) && AlignedWorld(w) && t < |w.pcs| && w.pcs[t].Leave? && w.pcs[t].section.Pop? && w.pcs[t].got.Some?
    requires Supported(w.pcs[t].section.alignment)
    ensures w.pcs[t].got.value.address % w.pcs[t].section.alignment == 0
  {
    var s, n := w.pcs[t].section, w.pcs[t].got.value;
    assert Hunting(w.pcs[t]);
    HeldIsMade(w, t, n);
    LineOrPage(n.address, s.alignment);
  }

  /** From the seeded pool, in every state any number of threads can reach: the cursor is a multiple of 128, so
      is every node, and class 3 is page aligned. */
  lemma ThreadsAreAligned(base: nat, length: nat, threads: nat, schedule: seq<Move>)
    requires FirstBlock(base, length) && AlignmentOwedRun(Fresh(FirstPool(base, length), threads), schedule)
    ensures var w := Play(Fresh(FirstPool(base, length), threads), schedule);
            Inv(w) && AlignedWorld(w) && w.pool.cursor % 128 == 0 && AlignedNodes(w.made)
  {
    var p := FirstPool(base, length);
    FreshInv(p, threads);
    FreshAligned(p, threads);
    RunAlignedWorld(Fresh(p, threads), schedule);
  }
}
