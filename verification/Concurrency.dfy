/** What holds in every state that any number of threads can reach. */
module Concurrency {
  import opened AllocTree
  import opened Buckets
  import opened Custody
  import opened Exclusion
  import opened Interleaving
  import opened Nodes
  import opened Pool
  import opened SizeClasses
  import opened Wrappers

  /** Between any two steps the buckets are filed and in their order, and the tree is ordered. */
  ghost predicate Tidy(p: Pool) {
    Filed(p.free) && AllSortedButLast(p.free) && Ordered(p.alloc)
  }

  /** A search looks no lower than its request, and what it pops is of the bucket it popped. */
  predicate HuntingIn(s: Section) {
    s.Pop? ==> s.bucket >= SizeToBucket(s.size)
  }

  predicate Hunting(pc: PC) {
    match pc
    case Scan(size, alignment, bucket) => bucket >= SizeToBucket(size)
    case Want(s) => HuntingIn(s)
    case Enter(s) => HuntingIn(s)
    case Loaded(s, v) => HuntingIn(s)
    case Leave(s, got) =>
      HuntingIn(s) &&
      (s.Pop? && got.Some? ==> FitToBucket(got.value.size) == s.bucket && got.value.cls == AlignmentToTree(s.alignment))
    case _ => true
  }

  ghost predicate AllHunting(w: World) {
    forall t {:trigger w.pcs[t]} | 0 <= t < |w.pcs| :: Hunting(w.pcs[t])
  }

  ghost predicate Inv(w: World) {
    && Sane(w)
    && Locked(w)
    && ViewsTrue(w)
    && Accounted(w)
    && Tidy(w.pool)
    && AllHunting(w)
  }

  lemma StoreTidy(p: Pool, s: Section, v: View)
    requires Tidy(p) && PcSane(Loaded(s, v)) && v == ViewOf(p, s)
    ensures Tidy(Store(p, s, v))
  {
    match s
    case Pop(size, alignment, bucket, first) =>
      if v.nodes != [] {
        TakeFreeFiles(p, PopSlot(alignment, bucket));
      }
    case InsertTree(n, after) => PutAllocAll(p, n);
    case RemoveTree(address) =>
      FindInBag(p.alloc, address);
      if Find(p.alloc, address).Some? {
        RemoveOrdered(p.alloc, Find(p.alloc, address).value);
      }
    case InsertBucket(n, after) => PutFreeFiles(p, n);
    case PushBlock(size, supply) =>
  }

  lemma StepTidy(w: World, t: nat, c: Choice)
    requires Sane(w) && ViewsTrue(w) && Tidy(w.pool) && t < |w.pcs|
    ensures Tidy(Step(w, t, c).pool)
  {
    var pc := w.pcs[t];
    if pc.Loaded? {
      assert ViewTrue(w.pool, pc);
      StoreTidy(w.pool, pc.section, pc.view);
    } else if pc.Leave? {
      OutMemory(w.(owner := w.owner - {LockOf(pc.section)}), t, pc.section, pc.got);
    } else if pc.Measured? {
      CutMemory(w, t, pc.size, pc.alignment, pc.cursor, pc.remaining);
    } else {
      QuietStep(w, t, c);
    }
  }

  lemma GrabbedSane(w: World, s: Section, v: View)
    requires |w.pool.free| == SLOTS && Accounted(w) && PcSane(Loaded(s, v)) && v == ViewOf(w.pool, s)
    ensures Grabbed(s, v).Some? ==> NodeSane(Grabbed(s, v).value)
  {
    if Grabbed(s, v).Some? {
      var n := Grabbed(s, v).value;
      StoreCount(w.pool, s, v, n);
      SumAt(All(w.pool), Hands(w.pcs), w.lost, n);
      assert n in w.made;
    }
  }

  lemma OutSane(w: World, t: nat, s: Section, got: Option<Node>)
    requires t < |w.pcs| && PcSane(Leave(s, got))
    ensures PcSane(Out(w, t, s, got).pcs[t])
  {
    if s.PushBlock? && s.supply.Some? {
      BucketsFit(s.size, 0);
    }
  }

  lemma CutSane(w: World, t: nat, size: nat, alignment: nat, cursor: nat, remaining: nat)
    requires t < |w.pcs| && alignment > 0
    ensures PcSane(Cut(w, t, size, alignment, cursor, remaining).pcs[t])
  {
    BucketsFit(size, 0);
  }

  lemma QuietSane(w: World, t: nat, c: Choice)
    requires |w.pool.free| == SLOTS && t < |w.pcs| && PcSane(w.pcs[t]) && Quiet(w.pcs[t])
    ensures PcSane(Step(w, t, c).pcs[t])
  {
    if w.pcs[t].Enter? {
      EnterSane(w, t, c);
    }
  }

  lemma EnterSane(w: World, t: nat, c: Choice)
    requires |w.pool.free| == SLOTS && t < |w.pcs| && PcSane(w.pcs[t]) && w.pcs[t].Enter?
    ensures PcSane(Step(w, t, c).pcs[t])
  {
  }

  lemma StepSane(w: World, t: nat, c: Choice)
    requires Sane(w) && ViewsTrue(w) && Accounted(w) && t < |w.pcs|
    ensures Sane(Step(w, t, c))
  {
    var pc := w.pcs[t];
    StepPcs(w, t, c);
    if pc.Loaded? {
      assert ViewTrue(w.pool, pc);
      GrabbedSane(w, pc.section, pc.view);
    } else if pc.Leave? {
      OutSane(w.(owner := w.owner - {LockOf(pc.section)}), t, pc.section, pc.got);
    } else if pc.Measured? {
      CutSane(w, t, pc.size, pc.alignment, pc.cursor, pc.remaining);
    } else {
      QuietSane(w, t, c);
    }
  }

  lemma OutHunting(w: World, t: nat, s: Section, got: Option<Node>)
    requires t < |w.pcs| && PcSane(Leave(s, got)) && Hunting(Leave(s, got))
    ensures Hunting(Out(w, t, s, got).pcs[t])
  {
  }

  lemma CutHunting(w: World, t: nat, size: nat, alignment: nat, cursor: nat, remaining: nat)
    requires t < |w.pcs| && alignment > 0
    ensures Hunting(Cut(w, t, size, alignment, cursor, remaining).pcs[t])
  {
  }

  lemma LoadedHunting(p: Pool, s: Section, v: View)
    requires Filed(p.free) && PcSane(Loaded(s, v)) && v == ViewOf(p, s) && HuntingIn(s)
    ensures Hunting(Leave(s, Grabbed(s, v)))
  {
  }

  lemma OtherHunting(w: World, t: nat, c: Choice)
    requires |w.pool.free| == SLOTS && t < |w.pcs| && PcSane(w.pcs[t]) && Hunting(w.pcs[t]) && Quiet(w.pcs[t])
    ensures Hunting(Step(w, t, c).pcs[t])
  {
  }

  lemma StepHunting(w: World, t: nat, c: Choice)
    requires Sane(w) && ViewsTrue(w) && Tidy(w.pool) && AllHunting(w) && t < |w.pcs|
    ensures AllHunting(Step(w, t, c))
  {
    var pc := w.pcs[t];
    StepPcs(w, t, c);
    assert Hunting(pc) && ViewTrue(w.pool, pc);
    if pc.Loaded? {
      LoadedHunting(w.pool, pc.section, pc.view);
    } else if pc.Leave? {
      OutHunting(w.(owner := w.owner - {LockOf(pc.section)}), t, pc.section, pc.got);
    } else if pc.Measured? {
      CutHunting(w, t, pc.size, pc.alignment, pc.cursor, pc.remaining);
    } else {
      OtherHunting(w, t, c);
    }
    assert Hunting(Step(w, t, c).pcs[t]);
  }

  /** Every step of every thread keeps all of it. */
  lemma StepKeeps(w: World, t: nat, c: Choice)
    requires Inv(w) && t < |w.pcs|
    ensures Inv(Step(w, t, c))
  {
    StepSane(w, t, c);
    StepLocked(w, t, c);
    StepViewsTrue(w, t, c);
    StepAccounted(w, t, c);
    StepTidy(w, t, c);
    StepHunting(w, t, c);
  }

  // ---------------------------------------------------------------- runs

  /** One entry of a schedule: which thread moves, and what it is handed from outside. */
  datatype Move = Move(thread: nat, choice: Choice)

  function Advance(w: World, m: Move): World {
    if |w.pool.free| == SLOTS && m.thread < |w.pcs| && PcSane(w.pcs[m.thread]) then Step(w, m.thread, m.choice)
    else w
  }

  function Play(w: World, schedule: seq<Move>): World
    decreases |schedule|
  {
    if |schedule| == 0 then w else Play(Advance(w, schedule[0]), schedule[1..])
  }

  lemma AdvanceKeeps(w: World, m: Move)
    requires Inv(w)
    ensures Inv(Advance(w, m))
    ensures m.thread < |w.pcs| ==> PcSane(w.pcs[m.thread]) && Advance(w, m) == Step(w, m.thread, m.choice)
  {
    if m.thread < |w.pcs| {
      StepKeeps(w, m.thread, m.choice);
    }
  }

  /** Every run of every number of threads keeps all of it. */
  lemma {:induction false} RunKeeps(w: World, schedule: seq<Move>)
    requires Inv(w)
    ensures Inv(Play(w, schedule))
    decreases |schedule|
  {
    if |schedule| > 0 {
      AdvanceKeeps(w, schedule[0]);
      RunKeeps(Advance(w, schedule[0]), schedule[1..]);
    }
  }

  /** Threads start on a pool that is well formed. */
  function Fresh(p: Pool, threads: nat): World {
    World(p, map[], seq(threads, _ => Idle), All(p), multiset{}, map[])
  }

  lemma {:induction false} NoHands(pcs: seq<PC>)
    requires forall t | 0 <= t < |pcs| :: pcs[t] == Idle
    ensures Hands(pcs) == multiset{}
  {
    if |pcs| > 0 {
      NoHands(pcs[1..]);
    }
  }

  lemma FreshInv(p: Pool, threads: nat)
    requires WellFormed(p)
    ensures Inv(Fresh(p, threads))
  {
    NoHands(Fresh(p, threads).pcs);
  }

  /** In every reachable state of any number of threads, each node ever made is in exactly one
      bucket or the tree or one thread's hands, or was lost. */
  lemma ReachableAccounts(p: Pool, threads: nat, schedule: seq<Move>, n: Node)
    requires WellFormed(p)
    ensures var w := Play(Fresh(p, threads), schedule);
            FreeBag(w.pool.free)[n] + Bag(w.pool.alloc)[n] + Hands(w.pcs)[n] + w.lost[n]
            == if n in w.made then 1 else 0
  {
    FreshInv(p, threads);
    RunKeeps(Fresh(p, threads), schedule);
    InOnePlace(Play(Fresh(p, threads), schedule), n);
  }

  /** Whoever has popped a node for a request of at most 1 MiB has one that is large enough, of the
      right class, and that nobody else has. */
  lemma PoppedFits(w: World, t: nat)
    requires Inv(w) && t < |w.pcs| && w.pcs[t].Leave? && w.pcs[t].section.Pop? && w.pcs[t].got.Some?
    ensures var s, n := w.pcs[t].section, w.pcs[t].got.value;
            && n.cls == AlignmentToTree(s.alignment)
            && (s.size <= MIB ==> n.size >= s.size)
            && Hands(w.pcs)[n] == 1 && n !in All(w.pool)
  {
    var s, n := w.pcs[t].section, w.pcs[t].got.value;
    assert Hunting(w.pcs[t]);
    BucketsFit(s.size, n.size);
    HandsUpdate(w.pcs, t, Idle, n);
    SumAt(All(w.pool), Hands(w.pcs), w.lost, n);
    assert w.made[n] == 1;
  }

  // ---------------------------------------------------------------- losses

  lemma OutLoses(w: World, t: nat, s: Section, got: Option<Node>)
    requires t < |w.pcs| && PcSane(Leave(s, got))
    ensures Out(w, t, s, got).lost == if Loses(s, got) then w.lost + multiset{got.value} else w.lost
  {
  }

  lemma CutLoses(w: World, t: nat, size: nat, alignment: nat, cursor: nat, remaining: nat)
    requires t < |w.pcs| && alignment > 0
    ensures Cut(w, t, size, alignment, cursor, remaining).lost == w.lost
  {
  }

  lemma OneMoreIsMore(lost: multiset<Node>, n: Node)
    ensures lost + multiset{n} != lost
  {
    assert (lost + multiset{n})[n] == lost[n] + 1;
  }

  /** A node is lost in exactly one kind of step, and only by a request of over 1 MiB. */
  lemma LossIff(w: World, t: nat, c: Choice)
    requires Inv(w) && t < |w.pcs|
    ensures Step(w, t, c).lost != w.lost <==> w.pcs[t].Leave? && Loses(w.pcs[t].section, w.pcs[t].got)
    ensures w.pcs[t].Leave? && Loses(w.pcs[t].section, w.pcs[t].got) ==> w.pcs[t].section.size > MIB
  {
    var pc := w.pcs[t];
    if pc.Leave? {
      OutLoses(w.(owner := w.owner - {LockOf(pc.section)}), t, pc.section, pc.got);
      assert Hunting(pc);
      if Loses(pc.section, pc.got) {
        BucketsFit(pc.section.size, pc.got.value.size);
        OneMoreIsMore(w.lost, pc.got.value);
      }
    } else if pc.Measured? {
      CutLoses(w, t, pc.size, pc.alignment, pc.cursor, pc.remaining);
    } else if !pc.Loaded? {
      QuietStep(w, t, c);
    }
  }

  predicate SmallSection(s: Section) {
    s.Pop? ==> s.size <= MIB
  }

  predicate Small(pc: PC) {
    match pc
    case Test(size, alignment) => size <= MIB
    case Scan(size, alignment, bucket) => size <= MIB
    case Want(s) => SmallSection(s)
    case Enter(s) => SmallSection(s)
    case Loaded(s, v) => SmallSection(s)
    case Leave(s, got) => SmallSection(s)
    case _ => true
  }

  ghost predicate AllSmall(w: World) {
    forall t {:trigger w.pcs[t]} | 0 <= t < |w.pcs| :: Small(w.pcs[t])
  }

  ghost predicate SmallCalls(schedule: seq<Move>) {
    forall k | 0 <= k < |schedule| :: schedule[k].choice.call.CallMalloc? ==> schedule[k].choice.call.size <= MIB
  }

  lemma OutSmall(w: World, t: nat, s: Section, got: Option<Node>)
    requires t < |w.pcs| && PcSane(Leave(s, got)) && SmallSection(s)
    ensures Small(Out(w, t, s, got).pcs[t])
  {
  }

  lemma CutSmall(w: World, t: nat, size: nat, alignment: nat, cursor: nat, remaining: nat)
    requires t < |w.pcs| && alignment > 0
    ensures Small(Cut(w, t, size, alignment, cursor, remaining).pcs[t])
  {
  }

  lemma OtherSmall(w: World, t: nat, c: Choice)
    requires |w.pool.free| == SLOTS && t < |w.pcs| && PcSane(w.pcs[t]) && !w.pcs[t].Leave? && !w.pcs[t].Measured?
    requires Small(w.pcs[t]) && (c.call.CallMalloc? ==> c.call.size <= MIB)
    ensures Small(Step(w, t, c).pcs[t])
  {
  }

  lemma OwnSmall(w: World, t: nat, c: Choice)
    requires |w.pool.free| == SLOTS && t < |w.pcs| && PcSane(w.pcs[t])
    requires Small(w.pcs[t]) && (c.call.CallMalloc? ==> c.call.size <= MIB)
    ensures |Step(w, t, c).pcs| == |w.pcs| && Small(Step(w, t, c).pcs[t])
  {
    var pc := w.pcs[t];
    if pc.Leave? {
      OutSmall(w.(owner := w.owner - {LockOf(pc.section)}), t, pc.section, pc.got);
    } else if pc.Measured? {
      CutSmall(w, t, pc.size, pc.alignment, pc.cursor, pc.remaining);
    } else {
      OtherSmall(w, t, c);
    }
  }

  lemma StepSmall(w: World, t: nat, c: Choice)
    requires Inv(w) && AllSmall(w) && t < |w.pcs| && (c.call.CallMalloc? ==> c.call.size <= MIB)
    ensures AllSmall(Step(w, t, c)) && Step(w, t, c).lost == w.lost
  {
    StepPcs(w, t, c);
    OwnSmall(w, t, c);
    NoSmallLoss(w, t, c);
  }

  lemma AdvanceSmall(w: World, m: Move)
    requires Inv(w) && AllSmall(w) && (m.choice.call.CallMalloc? ==> m.choice.call.size <= MIB)
    ensures AllSmall(Advance(w, m)) && Advance(w, m).lost == w.lost
  {
    AdvanceKeeps(w, m);
    if m.thread < |w.pcs| {
      StepSmall(w, m.thread, m.choice);
    }
  }

  lemma NoSmallLoss(w: World, t: nat, c: Choice)
    requires Inv(w) && t < |w.pcs| && Small(w.pcs[t])
    ensures Step(w, t, c).lost == w.lost
  {
    LossIff(w, t, c);
  }

  /** As long as no request is over 1 MiB, no interleaving loses a node. */
  lemma {:induction false} NothingLost(w: World, schedule: seq<Move>)
    requires Inv(w) && AllSmall(w) && SmallCalls(schedule)
    ensures Play(w, schedule).lost == w.lost
    decreases |schedule|
  {
    if |schedule| > 0 {
      var m := schedule[0];
      AdvanceKeeps(w, m);
      AdvanceSmall(w, m);
      NothingLost(Advance(w, m), schedule[1..]);
    }
  }
}
