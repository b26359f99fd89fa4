/** What the locks of the allocator exclude: a lock has one owner, the thread that is inside its
    section, and what a thread has loaded under a lock is still there when it stores. */
module Exclusion {
  import opened Buckets
  import opened Interleaving
  import opened Nodes
  import opened Pool
  import opened Wrappers

  predicate KeepsRemaining(s: Section) {
    match s
    case InsertTree(n, after) => !after.Return?
    case InsertBucket(n, after) => !after.Return?
    case PushBlock(size, supply) => true
    case _ => false
  }

  /** The locks a thread holds at each point of its code. */
  predicate Holds(pc: PC, l: Lock)
    requires PcSane(pc)
  {
    match pc
    case Want(s) => l == RemainingLock && KeepsRemaining(s)
    case Enter(s) => l == LockOf(s) || (l == RemainingLock && KeepsRemaining(s))
    case Loaded(s, v) => l == LockOf(s) || (l == RemainingLock && KeepsRemaining(s))
    case Leave(s, got) => l == LockOf(s) || (l == RemainingLock && KeepsRemaining(s))
    case Measure(size, alignment) => l == RemainingLock
    case Measured(size, alignment, cursor, remaining) => l == RemainingLock
    case SetChunk(base, size) => l == RemainingLock
    case Unlock => l == RemainingLock
    case _ => false
  }

  predicate Sane(w: World) {
    |w.pool.free| == SLOTS && forall t {:trigger w.pcs[t]} | 0 <= t < |w.pcs| :: PcSane(w.pcs[t])
  }

  predicate OwnedBy(w: World, l: Lock, t: nat) {
    l in w.owner && w.owner[l] == t
  }

  /** A lock is owned exactly by the thread whose code is inside its section. */
  ghost predicate Locked(w: World)
    requires Sane(w)
  {
    && (forall l {:trigger l in w.owner} | l in w.owner :: w.owner[l] < |w.pcs|)
    && (forall t, l {:trigger Holds(w.pcs[t], l)} {:trigger OwnedBy(w, l, t)} | 0 <= t < |w.pcs| ::
          Holds(w.pcs[t], l) <==> OwnedBy(w, l, t))
  }

  lemma OneInside(w: World, t: nat, u: nat, l: Lock)
    requires Sane(w) && Locked(w) && t < |w.pcs| && u < |w.pcs|
    requires Holds(w.pcs[t], l) && Holds(w.pcs[u], l)
    ensures t == u
  {
    assert OwnedBy(w, l, t) && OwnedBy(w, l, u);
  }

  /** The lock a step takes, and the lock it gives up. */
  function Acquired(w: World, t: nat): Option<Lock>
    requires t < |w.pcs| && PcSane(w.pcs[t])
  {
    match w.pcs[t]
    case Want(s) => Some(LockOf(s))
    case WantRemaining(size, alignment) => Some(RemainingLock)
    case _ => None
  }

  function Released(w: World, t: nat): Option<Lock>
    requires t < |w.pcs| && PcSane(w.pcs[t])
  {
    match w.pcs[t]
    case Leave(s, got) => Some(LockOf(s))
    case Unlock => Some(RemainingLock)
    case _ => None
  }

  lemma StepPcs(w: World, t: nat, c: Choice)
    requires Sane(w) && t < |w.pcs|
    ensures var w' := Step(w, t, c);
            && |w'.pcs| == |w.pcs| && w'.pcs == w.pcs[t := w'.pcs[t]]
            && |w'.pool.free| == SLOTS
  {
    var pc := w.pcs[t];
    if pc.Leave? {
      OutPcs(w.(owner := w.owner - {LockOf(pc.section)}), t, pc.section, pc.got);
    } else if pc.Measured? {
      CutPcs(w, t, pc.size, pc.alignment, pc.cursor, pc.remaining);
    }
  }

  lemma OutPcs(w: World, t: nat, s: Section, got: Option<Node>)
    requires t < |w.pcs| && PcSane(Leave(s, got))
    ensures var w' := Out(w, t, s, got);
            |w'.pcs| == |w.pcs| && w'.pcs == w.pcs[t := w'.pcs[t]] && w'.pool.free == w.pool.free
  {
  }

  lemma CutPcs(w: World, t: nat, size: nat, alignment: nat, cursor: nat, remaining: nat)
    requires t < |w.pcs| && alignment > 0
    ensures var w' := Cut(w, t, size, alignment, cursor, remaining);
            |w'.pcs| == |w.pcs| && w'.pcs == w.pcs[t := w'.pcs[t]] && w'.pool.free == w.pool.free
  {
  }

  lemma StepOwner(w: World, t: nat, c: Choice)
    requires Sane(w) && t < |w.pcs| && Enabled(w, t)
    ensures var w' := Step(w, t, c);
            && w'.owner == (if Acquired(w, t).Some? then w.owner[Acquired(w, t).value := t]
                            else if Released(w, t).Some? then w.owner - {Released(w, t).value} else w.owner)
            && (Acquired(w, t).Some? ==> Acquired(w, t).value !in w.owner)
  {
    var pc := w.pcs[t];
    if pc.Leave? {
      OutOwner(w.(owner := w.owner - {LockOf(pc.section)}), t, pc.section, pc.got);
    } else if pc.Measured? {
      CutOwner(w, t, pc.size, pc.alignment, pc.cursor, pc.remaining);
    }
  }

  lemma OutOwner(w: World, t: nat, s: Section, got: Option<Node>)
    requires t < |w.pcs| && PcSane(Leave(s, got))
    ensures Out(w, t, s, got).owner == w.owner
  {
  }

  lemma CutOwner(w: World, t: nat, size: nat, alignment: nat, cursor: nat, remaining: nat)
    requires t < |w.pcs| && alignment > 0
    ensures Cut(w, t, size, alignment, cursor, remaining).owner == w.owner
  {
  }

  lemma StepHolds(w: World, t: nat, c: Choice, l: Lock)
    requires Sane(w) && t < |w.pcs| && Enabled(w, t) && PcSane(Step(w, t, c).pcs[t])
    ensures Holds(Step(w, t, c).pcs[t], l) <==>
            if Acquired(w, t) == Some(l) then true
            else if Released(w, t) == Some(l) then false else Holds(w.pcs[t], l)
    ensures Released(w, t).Some? ==> Holds(w.pcs[t], Released(w, t).value)
  {
    var pc := w.pcs[t];
    if pc.Leave? {
      OutHolds(w.(owner := w.owner - {LockOf(pc.section)}), t, pc.section, pc.got, l);
    } else if pc.Measured? {
      CutHolds(w, t, pc.size, pc.alignment, pc.cursor, pc.remaining, l);
    } else {
      OtherHolds(w, t, c, l);
    }
  }

  lemma OutHolds(w: World, t: nat, s: Section, got: Option<Node>, l: Lock)
    requires t < |w.pcs| && PcSane(Leave(s, got)) && PcSane(Out(w, t, s, got).pcs[t])
    ensures Holds(Out(w, t, s, got).pcs[t], l) <==> l == RemainingLock && KeepsRemaining(s)
  {
  }

  lemma CutHolds(w: World, t: nat, size: nat, alignment: nat, cursor: nat, remaining: nat, l: Lock)
    requires t < |w.pcs| && alignment > 0 && PcSane(Cut(w, t, size, alignment, cursor, remaining).pcs[t])
    ensures Holds(Cut(w, t, size, alignment, cursor, remaining).pcs[t], l) <==> l == RemainingLock
  {
  }

  lemma OtherHolds(w: World, t: nat, c: Choice, l: Lock)
    requires |w.pool.free| == SLOTS && t < |w.pcs| && PcSane(w.pcs[t]) && Enabled(w, t)
    requires !w.pcs[t].Leave? && !w.pcs[t].Measured? && PcSane(Step(w, t, c).pcs[t])
    ensures Holds(Step(w, t, c).pcs[t], l) <==>
            if Acquired(w, t) == Some(l) then true
            else if Released(w, t) == Some(l) then false else Holds(w.pcs[t], l)
    ensures Released(w, t).Some? ==> Holds(w.pcs[t], Released(w, t).value)
  {
    var pc := w.pcs[t];
    if pc.Want? || pc.Enter? || pc.Loaded? {
      SectionHolds(w, t, c, l);
    } else {
      OutsideHolds(w, t, c, l);
    }
  }

  predicate InSection(pc: PC) {
    pc.Want? || pc.Enter? || pc.Loaded?
  }

  lemma SectionHolds(w: World, t: nat, c: Choice, l: Lock)
    requires |w.pool.free| == SLOTS && t < |w.pcs| && PcSane(w.pcs[t]) && Enabled(w, t) && InSection(w.pcs[t])
    requires PcSane(Step(w, t, c).pcs[t])
    ensures Released(w, t) == None
    ensures Holds(Step(w, t, c).pcs[t], l) <==> Acquired(w, t) == Some(l) || Holds(w.pcs[t], l)
  {
    var s := w.pcs[t].section;
    var s' := Step(w, t, c).pcs[t].section;
    assert LockOf(s') == LockOf(s) && KeepsRemaining(s') == KeepsRemaining(s);
  }

  lemma OutsideHolds(w: World, t: nat, c: Choice, l: Lock)
    requires |w.pool.free| == SLOTS && t < |w.pcs| && PcSane(w.pcs[t]) && Enabled(w, t) && !InSection(w.pcs[t])
    requires !w.pcs[t].Leave? && !w.pcs[t].Measured? && PcSane(Step(w, t, c).pcs[t])
    ensures Holds(Step(w, t, c).pcs[t], l) <==>
            if Acquired(w, t) == Some(l) then true
            else if Released(w, t) == Some(l) then false else Holds(w.pcs[t], l)
    ensures Released(w, t).Some? ==> Holds(w.pcs[t], Released(w, t).value)
  {
  }

  lemma StepLocked(w: World, t: nat, c: Choice)
    requires Sane(w) && Locked(w) && t < |w.pcs| && Sane(Step(w, t, c))
    ensures Locked(Step(w, t, c))
  {
    if Enabled(w, t) {
      var w' := Step(w, t, c);
      StepPcs(w, t, c);
      StepOwner(w, t, c);
      forall u, l | 0 <= u < |w'.pcs|
        ensures Holds(w'.pcs[u], l) <==> OwnedBy(w', l, u)
      {
        StepHolds(w, t, c, l);
        assert Holds(w.pcs[u], l) <==> OwnedBy(w, l, u);
        assert Holds(w.pcs[t], l) <==> OwnedBy(w, l, t);
      }
    }
  }

  // ---------------------------------------------------------------- what is loaded stays true

  /** What the thread has read under a lock is what is there. */
  predicate ViewTrue(p: Pool, pc: PC)
    requires |p.free| == SLOTS && PcSane(pc)
  {
    match pc
    case Loaded(s, v) => v == ViewOf(p, s)
    case Measured(size, alignment, cursor, remaining) => cursor == p.cursor && remaining == p.remaining
    case _ => true
  }

  ghost predicate ViewsTrue(w: World)
    requires Sane(w)
  {
    forall t {:trigger w.pcs[t]} | 0 <= t < |w.pcs| :: ViewTrue(w.pool, w.pcs[t])
  }

  /** The part of memory a lock protects. */
  predicate SameUnder(p: Pool, q: Pool, l: Lock)
    requires |p.free| == SLOTS == |q.free|
  {
    match l
    case RemainingLock => q.cursor == p.cursor && q.remaining == p.remaining
    case BucketLock(s) => s < SLOTS ==> q.free[s] == p.free[s]
    case TreeLock => q.alloc == p.alloc
    case BlockLock => q.blocks == p.blocks
  }

  /** A step writes only what the thread's locks protect. */
  lemma StepSpares(w: World, t: nat, c: Choice, l: Lock)
    requires Sane(w) && t < |w.pcs| && !Holds(w.pcs[t], l)
    ensures |Step(w, t, c).pool.free| == SLOTS && SameUnder(w.pool, Step(w, t, c).pool, l)
  {
    var pc := w.pcs[t];
    if pc.Leave? {
      OutMemory(w.(owner := w.owner - {LockOf(pc.section)}), t, pc.section, pc.got);
    } else if pc.Measured? {
      CutMemory(w, t, pc.size, pc.alignment, pc.cursor, pc.remaining);
    } else {
      OtherSpares(w, t, c, l);
    }
  }

  lemma OutMemory(w: World, t: nat, s: Section, got: Option<Node>)
    requires t < |w.pcs| && PcSane(Leave(s, got))
    ensures Out(w, t, s, got).pool == w.pool.(next := Out(w, t, s, got).pool.next)
  {
  }

  lemma CutMemory(w: World, t: nat, size: nat, alignment: nat, cursor: nat, remaining: nat)
    requires t < |w.pcs| && alignment > 0
    ensures var q := Cut(w, t, size, alignment, cursor, remaining).pool;
            q.free == w.pool.free && q.alloc == w.pool.alloc && q.blocks == w.pool.blocks
  {
  }

  lemma OtherSpares(w: World, t: nat, c: Choice, l: Lock)
    requires |w.pool.free| == SLOTS && t < |w.pcs| && PcSane(w.pcs[t]) && !Holds(w.pcs[t], l)
    requires !w.pcs[t].Leave? && !w.pcs[t].Measured?
    ensures |Step(w, t, c).pool.free| == SLOTS && SameUnder(w.pool, Step(w, t, c).pool, l)
  {
  }

  lemma ViewSurvives(p: Pool, q: Pool, pc: PC)
    requires |p.free| == SLOTS == |q.free| && PcSane(pc) && ViewTrue(p, pc)
    requires forall l {:trigger Holds(pc, l)} | Holds(pc, l) :: SameUnder(p, q, l)
    ensures ViewTrue(q, pc)
  {
    match pc
    case Loaded(s, v) => assert Holds(pc, LockOf(s));
    case Measured(size, alignment, cursor, remaining) => assert Holds(pc, RemainingLock);
    case _ =>
  }

  /** No thread's view is ever stale: under any interleaving the locks keep what it has loaded. */
  lemma StepViewsTrue(w: World, t: nat, c: Choice)
    requires Sane(w) && Locked(w) && ViewsTrue(w) && t < |w.pcs| && Sane(Step(w, t, c))
    ensures ViewsTrue(Step(w, t, c))
  {
    if Enabled(w, t) {
      var w' := Step(w, t, c);
      StepPcs(w, t, c);
      StepOwner(w, t, c);
      forall u | 0 <= u < |w'.pcs|
        ensures ViewTrue(w'.pool, w'.pcs[u])
      {
        if u == t {
          OwnViewTrue(w, t, c);
        } else {
          forall l | Holds(w.pcs[u], l)
            ensures SameUnder(w.pool, w'.pool, l)
          {
            if Holds(w.pcs[t], l) {
              OneInside(w, t, u, l);
            }
            StepSpares(w, t, c, l);
          }
          ViewSurvives(w.pool, w'.pool, w.pcs[u]);
        }
      }
    }
  }

  lemma OwnViewTrue(w: World, t: nat, c: Choice)
    requires Sane(w) && t < |w.pcs| && Enabled(w, t) && PcSane(Step(w, t, c).pcs[t]) && |Step(w, t, c).pool.free| == SLOTS
    ensures ViewTrue(Step(w, t, c).pool, Step(w, t, c).pcs[t])
  {
    var pc := w.pcs[t];
    if pc.Leave? {
      OutUnloaded(w.(owner := w.owner - {LockOf(pc.section)}), t, pc.section, pc.got);
    } else if pc.Measured? {
      CutUnloaded(w, t, pc.size, pc.alignment, pc.cursor, pc.remaining);
    }
  }

  predicate Unloaded(pc: PC) {
    !pc.Loaded? && !pc.Measured?
  }

  lemma OutUnloaded(w: World, t: nat, s: Section, got: Option<Node>)
    requires t < |w.pcs| && PcSane(Leave(s, got))
    ensures Unloaded(Out(w, t, s, got).pcs[t])
  {
  }

  lemma CutUnloaded(w: World, t: nat, size: nat, alignment: nat, cursor: nat, remaining: nat)
    requires t < |w.pcs| && alignment > 0
    ensures Unloaded(Cut(w, t, size, alignment, cursor, remaining).pcs[t])
  {
  }
}
