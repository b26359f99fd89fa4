/** Where every node is while threads run: in one bucket, in the allocated tree, in one thread's
    hands, or lost by the one branch that loses nodes. */
module Custody {
  import opened AllocTree
  import opened Buckets
  import opened Exclusion
  import opened Interleaving
  import opened Nodes
  import opened Pool
  import opened SizeClasses
  import opened Wrappers

  function Carried(s: Section): Option<Node> {
    if s.InsertTree? || s.InsertBucket? then Some(s.node) else None
  }

  /** The node a thread has taken from one place and not yet put in another. */
  function InHand(pc: PC): Option<Node> {
    match pc
    case Want(s) => Carried(s)
    case Enter(s) => Carried(s)
    case Loaded(s, v) => Carried(s)
    case Leave(s, got) => got
    case _ => None
  }

  function AsBag(o: Option<Node>): multiset<Node> {
    if o.Some? then multiset{o.value} else multiset{}
  }

  function Ones(o: Option<Node>, n: Node): nat {
    if o == Some(n) then 1 else 0
  }

  function Hands(pcs: seq<PC>): multiset<Node> {
    if |pcs| == 0 then multiset{} else AsBag(InHand(pcs[0])) + Hands(pcs[1..])
  }

  lemma HandsFirst(pcs: seq<PC>, n: Node)
    requires |pcs| > 0
    ensures Hands(pcs)[n] == Ones(InHand(pcs[0]), n) + Hands(pcs[1..])[n]
  {
  }

  lemma {:induction false} HandsUpdate(pcs: seq<PC>, t: nat, pc: PC, n: Node)
    requires t < |pcs|
    ensures Hands(pcs[t := pc])[n] + Ones(InHand(pcs[t]), n) == Hands(pcs)[n] + Ones(InHand(pc), n)
    decreases t
  {
    var pcs' := pcs[t := pc];
    HandsFirst(pcs, n);
    HandsFirst(pcs', n);
    if t == 0 {
      assert pcs'[1..] == pcs[1..];
    } else {
      HandsUpdate(pcs[1..], t - 1, pc, n);
      assert pcs'[1..] == pcs[1..][t - 1 := pc];
    }
  }

  lemma SumAt(a: multiset<Node>, b: multiset<Node>, c: multiset<Node>, n: Node)
    ensures (a + b + c)[n] == a[n] + b[n] + c[n]
  {
  }

  /** Every node ever made is in exactly one place. */
  ghost predicate Accounted(w: World) {
    && All(w.pool) + Hands(w.pcs) + w.lost == w.made
    && Identified(w.made, w.pool.next)
  }

  lemma InOnePlace(w: World, n: Node)
    requires Accounted(w)
    ensures n in w.made <==> FreeBag(w.pool.free)[n] + Bag(w.pool.alloc)[n] + Hands(w.pcs)[n] + w.lost[n] == 1
    ensures n !in w.made <==> FreeBag(w.pool.free)[n] + Bag(w.pool.alloc)[n] + Hands(w.pcs)[n] + w.lost[n] == 0
  {
    assert w.made[n] == FreeBag(w.pool.free)[n] + Bag(w.pool.alloc)[n] + Hands(w.pcs)[n] + w.lost[n];
    assert n in w.made ==> w.made[n] == 1;
  }

  lemma HeldIsMade(w: World, t: nat, n: Node)
    requires Accounted(w) && t < |w.pcs| && InHand(w.pcs[t]) == Some(n)
    ensures n in w.made && w.made[n] == 1
  {
    HandsUpdate(w.pcs, t, Idle, n);
    SumAt(All(w.pool), Hands(w.pcs), w.lost, n);
  }

  // ---------------------------------------------------------------- what a step moves

  /** How often a node is in memory, in this thread's hands or lost. */
  function Count(p: Pool, pc: PC, lost: multiset<Node>, n: Node): nat {
    All(p)[n] + Ones(InHand(pc), n) + lost[n]
  }

  lemma PopCount(p: Pool, size: nat, alignment: nat, bucket: nat, first: bool, n: Node)
    requires |p.free| == SLOTS && SectionSane(Pop(size, alignment, bucket, first))
    ensures var s, v := Pop(size, alignment, bucket, first), BucketView(p.free[PopSlot(alignment, bucket)]);
            All(Store(p, s, v))[n] + Ones(Grabbed(s, v), n) == All(p)[n]
            && (Grabbed(s, v).Some? ==> Grabbed(s, v).value in All(p))
  {
    var slot := PopSlot(alignment, bucket);
    if p.free[slot] != [] {
      TakeFreeAll(p, slot);
      assert All(TakeFree(p, slot))[n] + multiset{p.free[slot][0]}[n] == All(p)[n];
    }
  }

  lemma RemoveAll(p: Pool, x: Node)
    requires x in Bag(p.alloc)
    ensures x in All(p) && All(p.(alloc := Remove(p.alloc, x))) == All(p) - multiset{x}
  {
    RemoveBag(p.alloc, x);
    MinusRight(FreeBag(p.free), Bag(p.alloc), x);
  }

  lemma RemoveCount(p: Pool, address: nat, n: Node)
    requires |p.free| == SLOTS
    ensures var s, v := RemoveTree(address), TreeView(p.alloc);
            All(Store(p, s, v))[n] + Ones(Grabbed(s, v), n) == All(p)[n]
            && (Grabbed(s, v).Some? ==> Grabbed(s, v).value in All(p))
  {
    FindInBag(p.alloc, address);
    if Find(p.alloc, address).Some? {
      var x := Find(p.alloc, address).value;
      RemoveAll(p, x);
      assert Store(p, RemoveTree(address), TreeView(p.alloc)) == p.(alloc := Remove(p.alloc, x));
    }
  }

  lemma InsertCount(p: Pool, s: Section, n: Node)
    requires |p.free| == SLOTS && SectionSane(s) && (s.InsertTree? || s.InsertBucket?)
    ensures All(Store(p, s, ViewOf(p, s)))[n] == All(p)[n] + Ones(Some(s.node), n)
  {
    if s.InsertTree? {
      PutAllocAll(p, s.node);
    } else {
      PutFreeAll(p, s.node);
    }
  }

  lemma StoreCount(p: Pool, s: Section, v: View, n: Node)
    requires |p.free| == SLOTS && PcSane(Loaded(s, v)) && v == ViewOf(p, s)
    ensures All(Store(p, s, v))[n] + Ones(Grabbed(s, v), n) == All(p)[n] + Ones(Carried(s), n)
    ensures Grabbed(s, v).Some? ==> Grabbed(s, v).value in All(p)
  {
    match s
    case Pop(size, alignment, bucket, first) => PopCount(p, size, alignment, bucket, first, n);
    case InsertTree(m, after) => InsertCount(p, s, n);
    case RemoveTree(address) => RemoveCount(p, address, n);
    case InsertBucket(m, after) => InsertCount(p, s, n);
    case PushBlock(size, supply) =>
  }

  lemma SameAll(p: Pool, q: Pool)
    requires q.free == p.free && q.alloc == p.alloc
    ensures All(q) == All(p)
  {
  }

  lemma OutPopCount(w: World, t: nat, s: Section, got: Option<Node>, n: Node)
    requires t < |w.pcs| && s.Pop? && PcSane(Leave(s, got))
    ensures var w' := Out(w, t, s, got);
            && w'.pool == w.pool && w'.made == w.made
            && Ones(InHand(w'.pcs[t]), n) + w'.lost[n] == Ones(got, n) + w.lost[n]
  {
  }

  lemma OutCount(w: World, t: nat, s: Section, got: Option<Node>, n: Node)
    requires t < |w.pcs| && PcSane(Leave(s, got))
    ensures var w' := Out(w, t, s, got);
            && w'.pool.free == w.pool.free && w'.pool.alloc == w.pool.alloc
            && Ones(InHand(w'.pcs[t]), n) + w'.lost[n] + w.made[n] == Ones(got, n) + w.lost[n] + w'.made[n]
  {
    if s.Pop? {
      OutPopCount(w, t, s, got, n);
    }
  }

  lemma CutCount(w: World, t: nat, size: nat, alignment: nat, cursor: nat, remaining: nat, n: Node)
    requires t < |w.pcs| && alignment > 0
    ensures var w' := Cut(w, t, size, alignment, cursor, remaining);
            && w'.pool.free == w.pool.free && w'.pool.alloc == w.pool.alloc
            && Ones(InHand(w'.pcs[t]), n) + w'.lost[n] + w.made[n] == w.lost[n] + w'.made[n]
  {
  }

  /** A step between `w` and `w'` of thread `t` leaves the books balanced. */
  ghost predicate Balanced(w: World, t: nat, w': World, n: Node)
    requires t < |w.pcs| == |w'.pcs|
  {
    Count(w'.pool, w'.pcs[t], w'.lost, n) + w.made[n] == Count(w.pool, w.pcs[t], w.lost, n) + w'.made[n]
  }

  lemma StoreBalanced(w: World, t: nat, c: Choice, n: Node)
    requires Sane(w) && t < |w.pcs| && w.pcs[t].Loaded? && ViewTrue(w.pool, w.pcs[t])
    ensures |Step(w, t, c).pcs| == |w.pcs| && Balanced(w, t, Step(w, t, c), n)
  {
    var s, v := w.pcs[t].section, w.pcs[t].view;
    StoreCount(w.pool, s, v, n);
    assert Step(w, t, c) == w.(pool := Store(w.pool, s, v), pcs := w.pcs[t := Leave(s, Grabbed(s, v))]);
  }

  lemma OutBalanced(w: World, t: nat, c: Choice, n: Node)
    requires Sane(w) && t < |w.pcs| && w.pcs[t].Leave?
    ensures |Step(w, t, c).pcs| == |w.pcs| && Balanced(w, t, Step(w, t, c), n)
  {
    var s, got := w.pcs[t].section, w.pcs[t].got;
    var v := w.(owner := w.owner - {LockOf(s)});
    assert Step(w, t, c) == Out(v, t, s, got);
    OutCount(v, t, s, got, n);
    SameAll(w.pool, Step(w, t, c).pool);
  }

  lemma CutBalanced(w: World, t: nat, c: Choice, n: Node)
    requires Sane(w) && t < |w.pcs| && w.pcs[t].Measured?
    ensures |Step(w, t, c).pcs| == |w.pcs| && Balanced(w, t, Step(w, t, c), n)
  {
    var pc := w.pcs[t];
    assert Step(w, t, c) == Cut(w, t, pc.size, pc.alignment, pc.cursor, pc.remaining);
    CutCount(w, t, pc.size, pc.alignment, pc.cursor, pc.remaining, n);
    SameAll(w.pool, Step(w, t, c).pool);
  }

  predicate Quiet(pc: PC) {
    !pc.Loaded? && !pc.Leave? && !pc.Measured?
  }

  /** The other steps move no node at all. */
  lemma QuietStep(w: World, t: nat, c: Choice)
    requires |w.pool.free| == SLOTS && t < |w.pcs| && PcSane(w.pcs[t]) && Quiet(w.pcs[t])
    ensures var w' := Step(w, t, c);
            && |w'.pcs| == |w.pcs| && InHand(w'.pcs[t]) == InHand(w.pcs[t])
            && w'.pool.free == w.pool.free && w'.pool.alloc == w.pool.alloc && w'.pool.next == w.pool.next
            && w'.lost == w.lost && w'.made == w.made
  {
    if w.pcs[t].Enter? {
      EnterMoves(w, t, c);
    }
  }

  lemma EnterMoves(w: World, t: nat, c: Choice)
    requires |w.pool.free| == SLOTS && t < |w.pcs| && PcSane(w.pcs[t]) && w.pcs[t].Enter?
    ensures var w' := Step(w, t, c);
            w' == Goto(w, t, w'.pcs[t]) && |w'.pcs| == |w.pcs| && InHand(w'.pcs[t]) == InHand(w.pcs[t])
  {
  }

  lemma StepBalanced(w: World, t: nat, c: Choice, n: Node)
    requires Sane(w) && ViewsTrue(w) && t < |w.pcs|
    ensures |Step(w, t, c).pcs| == |w.pcs| && Balanced(w, t, Step(w, t, c), n)
  {
    if w.pcs[t].Loaded? {
      assert ViewTrue(w.pool, w.pcs[t]);
      StoreBalanced(w, t, c, n);
    } else if w.pcs[t].Leave? {
      OutBalanced(w, t, c, n);
    } else if w.pcs[t].Measured? {
      CutBalanced(w, t, c, n);
    } else {
      QuietStep(w, t, c);
    }
  }

  // ---------------------------------------------------------------- what is made

  /** A step makes at most one node, and gives it the next identity. */
  ghost predicate Grown(w: World, w': World) {
    || (w'.made == w.made && w'.pool.next == w.pool.next)
    || (exists n :: NewOf(w, n) && w'.made == w.made + multiset{n} && w'.pool.next == w.pool.next + 1)
  }

  predicate NewOf(w: World, n: Node) {
    n.id == w.pool.next && NodeSane(n)
  }

  lemma StoreNext(p: Pool, s: Section, v: View)
    requires |p.free| == SLOTS && PcSane(Loaded(s, v))
    ensures Store(p, s, v).next == p.next
  {
  }

  lemma OutGrown(w: World, t: nat, s: Section, got: Option<Node>)
    requires t < |w.pcs| && PcSane(Leave(s, got))
    ensures Grown(w, Out(w, t, s, got))
  {
    if s.PushBlock? && s.supply.Some? {
      BucketsFit(s.size, 0);
      assert NewOf(w, RefillNode(w.pool, s.supply.value, s.size));
    }
  }

  lemma CutGrown(w: World, t: nat, size: nat, alignment: nat, cursor: nat, remaining: nat)
    requires t < |w.pcs| && alignment > 0
    ensures Grown(w, Cut(w, t, size, alignment, cursor, remaining))
  {
    var seen := MeasuredPool(w.pool, cursor, remaining);
    BucketsFit(size, 0);
    if Carves(seen, size, alignment) {
      assert NewOf(w, CarvedNode(seen, size, alignment));
    } else if Flushes(seen) {
      assert NewOf(w, FlushNode(seen));
    }
  }

  lemma StepGrown(w: World, t: nat, c: Choice)
    requires Sane(w) && t < |w.pcs|
    ensures Grown(w, Step(w, t, c))
  {
    var pc := w.pcs[t];
    if pc.Loaded? {
      StoreNext(w.pool, pc.section, pc.view);
    } else if pc.Leave? {
      var v := w.(owner := w.owner - {LockOf(pc.section)});
      OutGrown(v, t, pc.section, pc.got);
      assert Step(w, t, c) == Out(v, t, pc.section, pc.got);
    } else if pc.Measured? {
      CutGrown(w, t, pc.size, pc.alignment, pc.cursor, pc.remaining);
      assert Step(w, t, c) == Cut(w, t, pc.size, pc.alignment, pc.cursor, pc.remaining);
    } else {
      QuietStep(w, t, c);
    }
  }

  lemma GrownIdentified(w: World, w': World)
    requires Identified(w.made, w.pool.next) && Grown(w, w')
    ensures Identified(w'.made, w'.pool.next)
  {
    if w'.made != w.made {
      var n :| NewOf(w, n) && w'.made == w.made + multiset{n} && w'.pool.next == w.pool.next + 1;
      NewNode(w.made, w.pool.next, n);
    }
  }

  lemma StepSum(w: World, t: nat, c: Choice, n: Node)
    requires Sane(w) && ViewsTrue(w) && Accounted(w) && t < |w.pcs|
    ensures var w' := Step(w, t, c);
            (All(w'.pool) + Hands(w'.pcs) + w'.lost)[n] == w'.made[n]
  {
    var w' := Step(w, t, c);
    StepPcs(w, t, c);
    StepBalanced(w, t, c, n);
    HandsUpdate(w.pcs, t, w'.pcs[t], n);
    SumAt(All(w.pool), Hands(w.pcs), w.lost, n);
    SumAt(All(w'.pool), Hands(w'.pcs), w'.lost, n);
  }

  /** Under any interleaving the books stay balanced. */
  lemma StepAccounted(w: World, t: nat, c: Choice)
    requires Sane(w) && ViewsTrue(w) && Accounted(w) && t < |w.pcs|
    ensures Accounted(Step(w, t, c))
  {
    var w' := Step(w, t, c);
    StepGrown(w, t, c);
    GrownIdentified(w, w');
    forall n {
      StepSum(w, t, c, n);
    }
  }
}
