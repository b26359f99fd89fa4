/** The machine of threads and locks, run by one thread that nobody interrupts, is the sequential
    allocator: each call comes to an end and leaves the pool that the pool's function says. */
module SoloThread {
  import opened AllocTree
  import opened Buckets
  import opened Exclusion
  import opened Interleaving
  import opened Nodes
  import opened Pool
  import opened Progress
  import opened SizeClasses
  import opened Wrappers

  /** Thread `t` runs until it is idle, or blocked. */
  ghost function Solo(w: World, t: nat, c: Choice): World
    requires t < |w.pcs|
    decreases Rank(w.pcs[t])
  {
    if |w.pool.free| == SLOTS && PcSane(w.pcs[t]) && w.pcs[t] != Idle && Enabled(w, t) then
      StepRank(w, t, c);
      Solo(Step(w, t, c), t, c)
    else w
  }

  /** The same world but for the pool and where `t` is. */
  function With(w: World, t: nat, p: Pool, pc: PC): World
    requires t < |w.pcs|
  {
    w.(pool := p, pcs := w.pcs[t := pc])
  }

  predicate Ready(w: World, t: nat, s: Section) {
    && t < |w.pcs| && |w.pool.free| == SLOTS && SectionSane(s) && LockOf(s) !in w.owner
  }

  lemma SoloStep(w: World, t: nat, c: Choice)
    requires t < |w.pcs| && |w.pool.free| == SLOTS && PcSane(w.pcs[t]) && w.pcs[t] != Idle && Enabled(w, t)
    ensures |Step(w, t, c).pcs| == |w.pcs| && Solo(w, t, c) == Solo(Step(w, t, c), t, c)
  {
    StepRank(w, t, c);
  }

  function Lockd(w: World, t: nat, s: Section): World
    requires SectionSane(s)
  {
    w.(owner := w.owner[LockOf(s) := t])
  }

  lemma Relocked(w: World, t: nat, s: Section)
    requires SectionSane(s) && LockOf(s) !in w.owner
    ensures Lockd(w, t, s).(owner := Lockd(w, t, s).owner - {LockOf(s)}) == w
  {
    assert w.owner[LockOf(s) := t] - {LockOf(s)} == w.owner;
  }

  lemma SoloEnter(w: World, t: nat, c: Choice, s: Section)
    requires Ready(w, t, s) && w.pcs[t] == Want(s)
    ensures Solo(w, t, c) == Solo(Lockd(With(w, t, w.pool, Enter(s)), t, s), t, c)
  {
    SoloStep(w, t, c);
  }

  lemma SoloLoad(w: World, t: nat, c: Choice, s: Section)
    requires Ready(w, t, s) && !s.PushBlock?
    ensures Solo(Lockd(With(w, t, w.pool, Enter(s)), t, s), t, c)
            == Solo(Lockd(With(w, t, w.pool, Loaded(s, ViewOf(w.pool, s))), t, s), t, c)
  {
    var a := Lockd(With(w, t, w.pool, Enter(s)), t, s);
    SoloStep(a, t, c);
    assert Step(a, t, c).pcs == w.pcs[t := Loaded(s, ViewOf(w.pool, s))];
  }

  lemma SoloStore(w: World, t: nat, c: Choice, s: Section, v: View)
    requires Ready(w, t, s) && PcSane(Loaded(s, v)) && PcSane(Leave(s, Grabbed(s, v)))
    ensures Solo(Lockd(With(w, t, w.pool, Loaded(s, v)), t, s), t, c)
            == Solo(Lockd(With(w, t, Store(w.pool, s, v), Leave(s, Grabbed(s, v))), t, s), t, c)
  {
    var a := Lockd(With(w, t, w.pool, Loaded(s, v)), t, s);
    SoloStep(a, t, c);
    assert Step(a, t, c).pcs == w.pcs[t := Leave(s, Grabbed(s, v))];
  }

  lemma SoloOut(w: World, t: nat, c: Choice, p: Pool, s: Section, got: Option<Node>)
    requires Ready(w, t, s) && |p.free| == SLOTS && PcSane(Leave(s, got))
    ensures |Out(With(w, t, p, Leave(s, got)), t, s, got).pcs| == |w.pcs|
    ensures Solo(Lockd(With(w, t, p, Leave(s, got)), t, s), t, c) == Solo(Out(With(w, t, p, Leave(s, got)), t, s, got), t, c)
  {
    var a := Lockd(With(w, t, p, Leave(s, got)), t, s);
    SoloStep(a, t, c);
    Relocked(With(w, t, p, Leave(s, got)), t, s);
  }

  lemma StoreSlots(p: Pool, s: Section, v: View)
    requires |p.free| == SLOTS && PcSane(Loaded(s, v))
    ensures |Store(p, s, v).free| == SLOTS
  {
  }

  /** A whole section, uncontended, is its store and what comes after it. */
  lemma SoloSection(w: World, t: nat, c: Choice, s: Section)
    requires Ready(w, t, s) && w.pcs[t] == Want(s) && !s.PushBlock?
    requires PcSane(Leave(s, Grabbed(s, ViewOf(w.pool, s))))
    ensures var v := ViewOf(w.pool, s);
            var a := With(w, t, Store(w.pool, s, v), Leave(s, Grabbed(s, v)));
            |Out(a, t, s, Grabbed(s, v)).pcs| == |w.pcs| && Solo(w, t, c) == Solo(Out(a, t, s, Grabbed(s, v)), t, c)
  {
    var v := ViewOf(w.pool, s);
    SoloEnter(w, t, c, s);
    SoloLoad(w, t, c, s);
    SoloStore(w, t, c, s, v);
    StoreSlots(w.pool, s, v);
    SoloOut(w, t, c, Store(w.pool, s, v), s, Grabbed(s, v));
  }

  lemma SoloInsertTree(w: World, t: nat, c: Choice, n: Node, after: After)
    requires Ready(w, t, InsertTree(n, after)) && w.pcs[t] == Want(InsertTree(n, after))
    ensures Solo(w, t, c) == Solo(Answer(With(w, t, PutAlloc(w.pool, n), AfterLeaf(after)), t, Address(n.address)), t, c)
  {
    var s := InsertTree(n, after);
    SoloSection(w, t, c, s);
    var a := With(w, t, PutAlloc(w.pool, n), Leave(s, None));
    Regoto(w, t, PutAlloc(w.pool, n), Leave(s, None), AfterLeaf(after));
    assert Out(a, t, s, None) == Answer(Goto(a, t, AfterLeaf(after)), t, Address(n.address));
  }

  lemma SoloInsertBucket(w: World, t: nat, c: Choice, n: Node, after: After)
    requires Ready(w, t, InsertBucket(n, after)) && w.pcs[t] == Want(InsertBucket(n, after))
    ensures Solo(w, t, c) == Solo(With(w, t, PutFree(w.pool, n), AfterLeaf(after)), t, c)
  {
    var s := InsertBucket(n, after);
    SoloSection(w, t, c, s);
    Regoto(w, t, PutFree(w.pool, n), Leave(s, None), AfterLeaf(after));
  }

  lemma Regoto(w: World, t: nat, p: Pool, pc: PC, pc': PC)
    requires t < |w.pcs|
    ensures Goto(With(w, t, p, pc), t, pc') == With(w, t, p, pc')
  {
    assert w.pcs[t := pc][t := pc'] == w.pcs[t := pc'];
  }

  lemma SoloIdle(w: World, t: nat, c: Choice)
    requires t < |w.pcs| && w.pcs[t] == Idle
    ensures Solo(w, t, c) == w
  {
  }

  lemma SoloRefile(w: World, t: nat, c: Choice, q: Pool, s: Section, n: Node)
    requires Ready(w, t, s) && s.RemoveTree? && NodeSane(n) && w.owner == map[] && |q.free| == SLOTS
    ensures Solo(Out(With(w, t, q, Leave(s, Some(n))), t, s, Some(n)), t, c) == With(w, t, PutFree(q, n), Idle)
  {
    var next := Want(InsertBucket(n, Return));
    Regoto(w, t, q, Leave(s, Some(n)), next);
    SoloInsertBucket(With(w, t, q, next), t, c, n, Return);
    WithOver(w, t, q, PutFree(q, n), next, Idle);
    SoloIdle(With(w, t, PutFree(q, n), Idle), t, c);
  }

  lemma WithOver(w: World, t: nat, q: Pool, p: Pool, pc: PC, pc': PC)
    requires t < |w.pcs|
    ensures With(With(w, t, q, pc), t, p, pc') == With(w, t, p, pc')
  {
    assert w.pcs[t := pc][t := pc'] == w.pcs[t := pc'];
  }

  /** A free by one thread that nobody interrupts is the pool's free. */
  lemma SoloFree(w: World, t: nat, c: Choice, address: nat)
    requires t < |w.pcs| && Shaped(w.pool) && w.owner == map[] && w.pcs[t] == Want(RemoveTree(address))
    ensures Solo(w, t, c) == With(w, t, Free(w.pool, address), Idle)
  {
    var s, p := RemoveTree(address), w.pool;
    var f := Find(p.alloc, address);
    FindInBag(p.alloc, address);
    if f.Some? {
      assert f.value in All(p);
      SoloSection(w, t, c, s);
      SoloRefile(w, t, c, p.(alloc := Remove(p.alloc, f.value)), s, f.value);
    } else {
      SoloSection(w, t, c, s);
      Regoto(w, t, p, Leave(s, f), Idle);
      SoloIdle(With(w, t, p, Idle), t, c);
    }
  }

  // ---------------------------------------------------------------- malloc

  /** `t` ends its call with the pool at `q`, having returned `r`, and every lock as it was. */
  ghost predicate Ends(w: World, t: nat, c: Choice, q: Pool, r: Outcome)
    requires t < |w.pcs|
  {
    var e := Solo(w, t, c);
    e.pool == q && e.pcs == w.pcs[t := Idle] && e.owner == map[] && e.lost == w.lost && e.returned == w.returned[t := r]
  }

  lemma EndsFrom(w: World, t: nat, c: Choice, v: World, q: Pool, r: Outcome)
    requires t < |w.pcs| == |v.pcs| && v.pcs[t := Idle] == w.pcs[t := Idle] && v.lost == w.lost
    requires v.returned[t := r] == w.returned[t := r]
    requires Solo(w, t, c) == Solo(v, t, c) && Ends(v, t, c, q, r)
    ensures Ends(w, t, c, q, r)
  {
  }

  /** One look at a bucket. */
  function Looked(w: World, size: nat, alignment: nat, b: nat): PC
    requires |w.pool.free| == SLOTS && b <= 6
  {
    if b == 6 then WantRemaining(size, alignment)
    else if w.pool.free[PopSlot(alignment, b)] != [] then Want(Pop(size, alignment, b, false))
    else Scan(size, alignment, b + 1)
  }

  lemma ScanStep(w: World, t: nat, c: Choice, size: nat, alignment: nat, b: nat)
    requires t < |w.pcs| && |w.pool.free| == SLOTS && Usable(alignment) && b <= 6
    requires w.pcs[t] == Scan(size, alignment, b)
    ensures Step(w, t, c) == With(w, t, w.pool, Looked(w, size, alignment, b))
  {
  }

  lemma SoloLook(w: World, t: nat, c: Choice, size: nat, alignment: nat, b: nat)
    requires t < |w.pcs| && |w.pool.free| == SLOTS && Usable(alignment) && b <= 6
    requires w.pcs[t] == Scan(size, alignment, b)
    ensures Solo(w, t, c) == Solo(With(w, t, w.pool, Looked(w, size, alignment, b)), t, c)
  {
    SoloStep(w, t, c);
    ScanStep(w, t, c, size, alignment, b);
  }

  /** Where the search function stops. */
  function Found(w: World, size: nat, alignment: nat, b: nat): PC
    requires |w.pool.free| == SLOTS && b <= 6
  {
    var k := FirstNonEmpty(w.pool.free, AlignmentToTree(alignment), b);
    if k == 6 then WantRemaining(size, alignment) else Want(Pop(size, alignment, k, false))
  }

  /** The scan of an idle class stops there. */
  lemma {:induction false} SoloScan(w: World, t: nat, c: Choice, size: nat, alignment: nat, b: nat)
    requires t < |w.pcs| && |w.pool.free| == SLOTS && Usable(alignment) && b <= 6
    requires w.pcs[t] == Scan(size, alignment, b)
    ensures Solo(w, t, c) == Solo(With(w, t, w.pool, Found(w, size, alignment, b)), t, c)
    decreases 6 - b
  {
    SoloLook(w, t, c, size, alignment, b);
    if b < 6 && w.pool.free[PopSlot(alignment, b)] == [] {
      var v := With(w, t, w.pool, Scan(size, alignment, b + 1));
      SoloScan(v, t, c, size, alignment, b + 1);
      WithOver(w, t, w.pool, w.pool, Scan(size, alignment, b + 1), Found(w, size, alignment, b));
    }
  }

  lemma SoloPop(w: World, t: nat, c: Choice, size: nat, alignment: nat, b: nat, first: bool)
    requires t < |w.pcs| && |w.pool.free| == SLOTS && Usable(alignment) && b < 6 && w.owner == map[]
    requires w.pcs[t] == Want(Pop(size, alignment, b, first))
    requires var s := w.pool.free[PopSlot(alignment, b)]; s != [] && NodeSane(s[0]) && (first || s[0].size >= size)
    ensures Ends(w, t, c, Serve(w.pool, PopSlot(alignment, b)), Address(w.pool.free[PopSlot(alignment, b)][0].address))
  {
    var s, p := Pop(size, alignment, b, first), w.pool;
    var n := p.free[PopSlot(alignment, b)][0];
    var q := TakeFree(p, PopSlot(alignment, b));
    SoloSection(w, t, c, s);
    Regoto(w, t, q, Leave(s, Some(n)), Want(InsertTree(n, Return)));
    var v := With(w, t, q, Want(InsertTree(n, Return)));
    SoloInsertTree(v, t, c, n, Return);
    SoloIdle(Answer(With(v, t, PutAlloc(q, n), Idle), t, Address(n.address)), t, c);
  }

  predicate Inside(w: World, t: nat, pc: PC) {
    t < |w.pcs| && |w.pool.free| == SLOTS && w.owner == map[RemainingLock := t] && w.pcs[t] == pc
  }

  lemma SoloUnlock(w: World, t: nat, c: Choice)
    requires Inside(w, t, Unlock)
    ensures var e := Solo(w, t, c);
            e.pool == w.pool && e.pcs == w.pcs[t := Idle] && e.owner == map[] && e.lost == w.lost && e.returned == w.returned
  {
    SoloStep(w, t, c);
    assert w.owner - {RemainingLock} == map[];
    SoloIdle(Step(w, t, c), t, c);
  }

  lemma SoloRelease(w: World, t: nat, c: Choice, n: Node)
    requires NodeSane(n) && Inside(w, t, Want(InsertTree(n, Release)))
    ensures Ends(w, t, c, PutAlloc(w.pool, n), Address(n.address))
  {
    SoloInsertTree(w, t, c, n, Release);
    SoloUnlock(Answer(With(w, t, PutAlloc(w.pool, n), Unlock), t, Address(n.address)), t, c);
  }

  lemma SoloChunk(w: World, t: nat, c: Choice, n: Node, base: nat, size: nat)
    requires NodeSane(n) && Inside(w, t, Want(InsertTree(n, ChunkNext(base, size))))
    ensures Ends(w, t, c, PutAlloc(w.pool, n).(cursor := base + size, remaining := BlockSize(size) - size),
                 Address(n.address))
  {
    SoloInsertTree(w, t, c, n, ChunkNext(base, size));
    var v := Answer(With(w, t, PutAlloc(w.pool, n), SetChunk(base, size)), t, Address(n.address));
    SoloStep(v, t, c);
    SoloUnlock(Step(v, t, c), t, c);
  }

  lemma SoloAdopt(w: World, t: nat, c: Choice, size: nat, base: nat, q: Pool)
    requires t < |w.pcs| && |q.free| == SLOTS && w.owner == map[RemainingLock := t]
    ensures |Out(With(w, t, q, Leave(PushBlock(size, Some(base)), None)), t, PushBlock(size, Some(base)), None).pcs| == |w.pcs|
    ensures Ends(Out(With(w, t, q, Leave(PushBlock(size, Some(base)), None)), t, PushBlock(size, Some(base)), None), t, c,
                 PutAlloc(q, RefillNode(q, base, size)).(
                   next := q.next + 1, cursor := base + size, remaining := BlockSize(size) - size), Address(base))
  {
    BucketsFit(size, 0);
    var v := Out(With(w, t, q, Leave(PushBlock(size, Some(base)), None)), t, PushBlock(size, Some(base)), None);
    SoloChunk(v, t, c, RefillNode(q, base, size), base, size);
  }

  lemma SoloPush(w: World, t: nat, c: Choice, size: nat)
    requires Inside(w, t, Want(PushBlock(size, None)))
    ensures if c.supply.None? then Ends(w, t, c, w.pool, Null)
            else Ends(w, t, c, Adopt(w.pool, c.supply.value, size), Address(c.supply.value))
  {
    SoloEnter(w, t, c, PushBlock(size, None));
    if c.supply.None? {
      SoloPushNone(w, t, c, size);
    } else {
      SoloPushStored(w, t, c, size, c.supply.value);
      SoloPushSome(w, t, c, size, c.supply.value);
    }
  }

  lemma SoloPushNone(w: World, t: nat, c: Choice, size: nat)
    requires Inside(w, t, Want(PushBlock(size, None))) && c.supply.None?
    requires Solo(w, t, c) == Solo(Lockd(With(w, t, w.pool, Enter(PushBlock(size, None))), t, PushBlock(size, None)), t, c)
    ensures Ends(w, t, c, w.pool, Null)
  {
    var s := PushBlock(size, None);
    var a := Lockd(With(w, t, w.pool, Enter(s)), t, s);
    SoloStep(a, t, c);
    assert a.pcs[t := Leave(s, None)] == w.pcs[t := Leave(s, None)];
    assert Step(a, t, c) == Lockd(With(w, t, w.pool, Leave(s, None)), t, s);
    SoloOut(w, t, c, w.pool, s, None);
    Regoto(w, t, w.pool, Leave(s, None), Unlock);
    var v := Answer(With(w, t, w.pool, Unlock), t, Null);
    assert Out(With(w, t, w.pool, Leave(s, None)), t, s, None) == v;
    SoloUnlock(v, t, c);
  }

  lemma AdoptInSteps(p: Pool, size: nat, base: nat)
    ensures var q := p.(blocks := [Block(base, BlockSize(size))] + p.blocks);
            PutAlloc(q, RefillNode(q, base, size)).(
              next := q.next + 1, cursor := base + size, remaining := BlockSize(size) - size) == Adopt(p, base, size)
  {
  }

  /** The world with the new block on the list and the block lock still held. */
  function Pushed(w: World, t: nat, size: nat, base: nat): World
    requires t < |w.pcs|
  {
    With(w, t, w.pool.(blocks := [Block(base, BlockSize(size))] + w.pool.blocks), Leave(PushBlock(size, Some(base)), None))
  }

  lemma SoloPushStored(w: World, t: nat, c: Choice, size: nat, base: nat)
    requires Inside(w, t, Want(PushBlock(size, None))) && c.supply == Some(base)
    ensures var s := PushBlock(size, Some(base));
            Solo(Lockd(With(w, t, w.pool, Enter(PushBlock(size, None))), t, PushBlock(size, None)), t, c)
            == Solo(Lockd(Pushed(w, t, size, base), t, s), t, c)
  {
    var s := PushBlock(size, Some(base));
    var v := ViewOf(w.pool, s);
    var a := Lockd(With(w, t, w.pool, Enter(PushBlock(size, None))), t, PushBlock(size, None));
    SoloStep(a, t, c);
    assert a.pcs[t := Loaded(s, v)] == w.pcs[t := Loaded(s, v)];
    SoloStore(w, t, c, s, v);
  }

  lemma PushedOut(w: World, t: nat, size: nat, base: nat, q: Pool)
    requires t < |w.pcs| && |q.free| == SLOTS
    ensures var v := Out(With(w, t, q, Leave(PushBlock(size, Some(base)), None)), t, PushBlock(size, Some(base)), None);
            |v.pcs| == |w.pcs| && v.pcs[t := Idle] == w.pcs[t := Idle] && v.lost == w.lost && v.returned == w.returned
  {
  }

  lemma SoloPushSome(w: World, t: nat, c: Choice, size: nat, base: nat)
    requires Inside(w, t, Want(PushBlock(size, None))) && c.supply == Some(base)
    requires Solo(w, t, c) == Solo(Lockd(Pushed(w, t, size, base), t, PushBlock(size, Some(base))), t, c)
    ensures Ends(w, t, c, Adopt(w.pool, base, size), Address(base))
  {
    var s, q := PushBlock(size, Some(base)), w.pool.(blocks := [Block(base, BlockSize(size))] + w.pool.blocks);
    AdoptInSteps(w.pool, size, base);
    SoloOut(w, t, c, q, s, None);
    SoloAdopt(w, t, c, size, base, q);
    PushedOut(w, t, size, base, q);
    EndsFrom(w, t, c, Out(With(w, t, q, Leave(s, None)), t, s, None), Adopt(w.pool, base, size), Address(base));
  }

  lemma SoloCarve(w: World, t: nat, c: Choice, size: nat, alignment: nat)
    requires t < |w.pcs| && |w.pool.free| == SLOTS && w.owner == map[RemainingLock := t]
    requires alignment > 0 && Carves(w.pool, size, alignment)
    ensures var v := Cut(w, t, size, alignment, w.pool.cursor, w.pool.remaining);
            |v.pcs| == |w.pcs|
            && Ends(v, t, c, Carve(w.pool, size, alignment), Address(CarvedNode(w.pool, size, alignment).address))
  {
    var n := CarvedNode(w.pool, size, alignment);
    BucketsFit(size, 0);
    assert MeasuredPool(w.pool, w.pool.cursor, w.pool.remaining) == w.pool;
    SoloRelease(Cut(w, t, size, alignment, w.pool.cursor, w.pool.remaining), t, c, n);
  }

  lemma SoloFlush(w: World, t: nat, c: Choice, size: nat, alignment: nat)
    requires t < |w.pcs| && |w.pool.free| == SLOTS && w.owner == map[RemainingLock := t]
    requires alignment > 0 && !Carves(w.pool, size, alignment)
    ensures var v := Cut(w, t, size, alignment, w.pool.cursor, w.pool.remaining);
            |v.pcs| == |w.pcs| && Ends(v, t, c, Refill(w.pool, size, c.supply).0, Refill(w.pool, size, c.supply).1)
  {
    var p, v := w.pool, Cut(w, t, size, alignment, w.pool.cursor, w.pool.remaining);
    assert MeasuredPool(p, p.cursor, p.remaining) == p;
    if Flushes(p) {
      SoloInsertBucket(v, t, c, FlushNode(p), MapNext(size));
      assert PutFree(v.pool, FlushNode(p)) == Flush(p);
      var u := With(v, t, Flush(p), Want(PushBlock(size, None)));
      SoloPush(u, t, c, size);
      EndsFrom(v, t, c, u, Refill(p, size, c.supply).0, Refill(p, size, c.supply).1);
    } else {
      SoloPush(v, t, c, size);
    }
  }

  lemma SoloMeasured(w: World, t: nat, c: Choice, size: nat, alignment: nat)
    requires t < |w.pcs| && |w.pool.free| == SLOTS && Usable(alignment) && w.owner == map[RemainingLock := t]
    requires w.pcs[t] == Measured(size, alignment, w.pool.cursor, w.pool.remaining)
    ensures Ends(w, t, c, CarveOrRefill(w.pool, size, alignment, c.supply).0, CarveOrRefill(w.pool, size, alignment, c.supply).1)
  {
    SoloStep(w, t, c);
    var v, r := Step(w, t, c), CarveOrRefill(w.pool, size, alignment, c.supply);
    if Carves(w.pool, size, alignment) {
      SoloCarve(w, t, c, size, alignment);
    } else {
      SoloFlush(w, t, c, size, alignment);
    }
    CutPcs(w, t, size, alignment, w.pool.cursor, w.pool.remaining);
    CutReturnsNothing(w, t, size, alignment, w.pool.cursor, w.pool.remaining);
    assert v.pcs[t := Idle] == w.pcs[t := Idle];
    EndsFrom(w, t, c, v, r.0, r.1);
  }

  lemma CutReturnsNothing(w: World, t: nat, size: nat, alignment: nat, cursor: nat, remaining: nat)
    requires t < |w.pcs| && alignment > 0
    ensures var v := Cut(w, t, size, alignment, cursor, remaining); v.returned == w.returned && v.lost == w.lost
  {
  }

  lemma SoloRemaining(w: World, t: nat, c: Choice, size: nat, alignment: nat)
    requires t < |w.pcs| && |w.pool.free| == SLOTS && Usable(alignment) && w.owner == map[]
    requires w.pcs[t] == WantRemaining(size, alignment)
    ensures Ends(w, t, c, CarveOrRefill(w.pool, size, alignment, c.supply).0, CarveOrRefill(w.pool, size, alignment, c.supply).1)
  {
    var p, r := w.pool, CarveOrRefill(w.pool, size, alignment, c.supply);
    SoloStep(w, t, c);
    var a := With(w, t, p, Measure(size, alignment)).(owner := map[RemainingLock := t]);
    assert Step(w, t, c) == a;
    SoloStep(a, t, c);
    var b := With(a, t, p, Measured(size, alignment, p.cursor, p.remaining));
    assert Step(a, t, c) == b;
    SoloMeasured(b, t, c, size, alignment);
    EndsFrom(w, t, c, b, r.0, r.1);
  }

  /** What malloc needs of the pool to be followed: a search that drops nothing. */
  predicate Servable(p: Pool, size: nat, alignment: nat) {
    && |p.free| == SLOTS && Usable(alignment)
    && match Search(p.free, AlignmentToTree(alignment), size)
       case Missing => true
       case Dropped(b) => false
       case Taken(b) => NodeSane(p.free[PopSlot(alignment, b)][0])
  }

  lemma WellFormedServable(p: Pool, size: nat, alignment: nat)
    requires WellFormed(p) && Usable(alignment)
    ensures Servable(p, size, alignment)
  {
    SearchSpec(p.free, AlignmentToTree(alignment), size);
    if Search(p.free, AlignmentToTree(alignment), size).Taken? {
      HeadSane(p, PopSlot(alignment, Search(p.free, AlignmentToTree(alignment), size).bucket));
    }
  }

  lemma HeadSane(p: Pool, s: nat)
    requires WellFormed(p) && s < SLOTS && p.free[s] != []
    ensures NodeSane(p.free[s][0])
  {
    FreeBagUpdate(p.free, s, []);
    assert p.free[s][0] in multiset(p.free[s]);
    assert p.free[s][0] in All(p);
  }

  lemma SoloScanned(w: World, t: nat, c: Choice, size: nat, alignment: nat)
    requires t < |w.pcs| && Servable(w.pool, size, alignment) && w.owner == map[]
    requires w.pool.free[PopSlot(alignment, SizeToBucket(size))] == []
    requires w.pcs[t] == Scan(size, alignment, SizeToBucket(size))
    ensures Ends(w, t, c, TreeMalloc(w.pool, size, alignment, c.supply).0, TreeMalloc(w.pool, size, alignment, c.supply).1)
  {
    var p, k := w.pool, FirstNonEmpty(w.pool.free, AlignmentToTree(alignment), SizeToBucket(size));
    SoloScan(w, t, c, size, alignment, SizeToBucket(size));
    if k == 6 {
      var v := With(w, t, p, WantRemaining(size, alignment));
      SoloRemaining(v, t, c, size, alignment);
      EndsFrom(w, t, c, v, CarveOrRefill(p, size, alignment, c.supply).0, CarveOrRefill(p, size, alignment, c.supply).1);
    } else {
      var v := With(w, t, p, Want(Pop(size, alignment, k, false)));
      SoloPop(v, t, c, size, alignment, k, false);
      EndsFrom(w, t, c, v, Serve(p, PopSlot(alignment, k)), Address(p.free[PopSlot(alignment, k)][0].address));
    }
  }

  lemma SoloTreeMalloc(w: World, t: nat, c: Choice, size: nat, alignment: nat)
    requires t < |w.pcs| && Servable(w.pool, size, alignment) && w.owner == map[]
    requires w.pcs[t] == Test(size, alignment)
    ensures Ends(w, t, c, TreeMalloc(w.pool, size, alignment, c.supply).0, TreeMalloc(w.pool, size, alignment, c.supply).1)
  {
    var p, k := w.pool, SizeToBucket(size);
    SoloStep(w, t, c);
    if p.free[PopSlot(alignment, k)] != [] {
      var v := With(w, t, p, Want(Pop(size, alignment, k, true)));
      SoloPop(v, t, c, size, alignment, k, true);
      EndsFrom(w, t, c, v, Serve(p, PopSlot(alignment, k)), Address(p.free[PopSlot(alignment, k)][0].address));
    } else {
      var v := With(w, t, p, Scan(size, alignment, k));
      SoloScanned(v, t, c, size, alignment);
      EndsFrom(w, t, c, v, TreeMalloc(p, size, alignment, c.supply).0, TreeMalloc(p, size, alignment, c.supply).1);
    }
  }

  /** A malloc by one thread that nobody interrupts is the pool's malloc, result and all, and loses
      nothing. */
  lemma SoloMalloc(w: World, t: nat, c: Choice, size: nat, alignment: nat)
    requires t < |w.pcs| && WellFormed(w.pool) && Usable(alignment) && w.owner == map[]
    requires w.pcs[t] == Test(size, alignment)
    ensures Ends(w, t, c, Malloc(w.pool, size, alignment, c.supply).0, Malloc(w.pool, size, alignment, c.supply).1)
  {
    WellFormedServable(w.pool, size, alignment);
    SoloTreeMalloc(w, t, c, size, alignment);
  }
}
