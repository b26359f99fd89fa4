/** How far a search has looked, under any interleaving: a thread passes over a bucket only if the bucket was empty at
    some moment of its call, and what it finds emptied under the lock it passes over too. */
module Scans {
  import opened Buckets
  import opened Concurrency
  import opened Exclusion
  import opened Interleaving
  import opened LostNodes
  import opened Nodes
  import opened Pool
  import opened SizeClasses
  import opened Wrappers

  function At(w: World, schedule: seq<Move>, i: nat): World
    requires i <= |schedule|
  {
    Play(w, schedule[..i])
  }

  /** From moment `i` to the end of the schedule thread `t` is inside one and the same call. */
  ghost predicate InCallSince(w: World, schedule: seq<Move>, t: nat, i: nat) {
    forall j {:trigger At(w, schedule, j)} | i <= j <= |schedule| ::
      t < |At(w, schedule, j).pcs| && At(w, schedule, j).pcs[t] != Idle
  }

  /** The bucket was empty at some moment of the call that thread `t` is in. */
  ghost predicate WasEmpty(w: World, schedule: seq<Move>, t: nat, slot: nat) {
    exists i {:trigger At(w, schedule, i)} | 0 <= i <= |schedule| ::
      && InCallSince(w, schedule, t, i)
      && slot < |At(w, schedule, i).pool.free| && At(w, schedule, i).pool.free[slot] == []
  }

  ghost function Emptied(w: World, schedule: seq<Move>, t: nat): set<nat> {
    set slot | 0 <= slot < SLOTS && WasEmpty(w, schedule, t, slot)
  }

  /** All buckets from the request's own up to `b` are among these. */
  ghost predicate Passed(size: nat, alignment: nat, b: nat, e: set<nat>) {
    forall k | SizeToBucket(size) <= k < b && k < 6 :: PopSlot(alignment, k) in e
  }

  ghost predicate SectionSearched(s: Section, e: set<nat>) {
    s.Pop? ==>
      && SizeToBucket(s.size) <= s.bucket < 6 && Passed(s.size, s.alignment, s.bucket, e)
      && (s.first ==> s.bucket == SizeToBucket(s.size))
  }

  ghost predicate Searched(pc: PC, e: set<nat>) {
    match pc
    case Scan(size, alignment, bucket) => Passed(size, alignment, bucket, e) && SizeToBucket(size) <= bucket
    case Want(s) => SectionSearched(s, e)
    case Enter(s) => SectionSearched(s, e)
    case Loaded(s, v) => SectionSearched(s, e)
    case Leave(s, got) =>
      SectionSearched(s, e) && (s.Pop? && s.bucket < 6 && got.None? ==> PopSlot(s.alignment, s.bucket) in e)
    case _ => true
  }

  /** The branches that give up before the last bucket: a first pop that finds its bucket emptied, and a node too small. */
  predicate GivesUpEarly(pc: PC) {
    pc.Leave? && pc.section.Pop? && ((pc.section.first && pc.got.None?) || Loses(pc.section, pc.got))
  }

  // ---------------------------------------------------------------- a step

  predicate Seen(p: Pool, e: set<nat>) {
    forall s | 0 <= s < |p.free| && p.free[s] == [] :: s in e
  }

  lemma OutSearched(w: World, t: nat, s: Section, got: Option<Node>, e: set<nat>)
    requires t < |w.pcs| && PcSane(Leave(s, got)) && Searched(Leave(s, got), e)
    ensures |Out(w, t, s, got).pcs| == |w.pcs| && Searched(Out(w, t, s, got).pcs[t], e)
    ensures Out(w, t, s, got).pcs[t].WantRemaining? ==> GivesUpEarly(Leave(s, got))
  {
  }

  lemma CutSearched(w: World, t: nat, size: nat, alignment: nat, cursor: nat, remaining: nat, e: set<nat>)
    requires t < |w.pcs| && alignment > 0
    ensures var w' := Cut(w, t, size, alignment, cursor, remaining);
            |w'.pcs| == |w.pcs| && Searched(w'.pcs[t], e) && !w'.pcs[t].WantRemaining?
  {
  }

  lemma LoadedSearched(w: World, t: nat, c: Choice, e: set<nat>)
    requires |w.pool.free| == SLOTS && t < |w.pcs| && PcSane(w.pcs[t]) && w.pcs[t].Loaded? && ViewTrue(w.pool, w.pcs[t])
    requires Searched(w.pcs[t], e) && Seen(w.pool, e)
    ensures |Step(w, t, c).pcs| == |w.pcs| && Searched(Step(w, t, c).pcs[t], e) && !Step(w, t, c).pcs[t].WantRemaining?
  {
  }

  lemma TestSearched(w: World, t: nat, c: Choice, e: set<nat>)
    requires |w.pool.free| == SLOTS && t < |w.pcs| && PcSane(w.pcs[t]) && w.pcs[t].Test?
    ensures |Step(w, t, c).pcs| == |w.pcs| && Searched(Step(w, t, c).pcs[t], e) && !Step(w, t, c).pcs[t].WantRemaining?
  {
  }

  lemma LookSearched(w: World, t: nat, c: Choice, e: set<nat>)
    requires |w.pool.free| == SLOTS && t < |w.pcs| && PcSane(w.pcs[t]) && w.pcs[t].Scan?
    requires Searched(w.pcs[t], e) && Seen(w.pool, e)
    ensures |Step(w, t, c).pcs| == |w.pcs| && Searched(Step(w, t, c).pcs[t], e)
    ensures Step(w, t, c).pcs[t].WantRemaining? ==> w.pcs[t].bucket == 6
  {
    var pc := w.pcs[t];
    if pc.bucket < 6 && w.pool.free[PopSlot(pc.alignment, pc.bucket)] == [] {
      assert PopSlot(pc.alignment, pc.bucket) in e;
    }
  }

  lemma EnterSearched(w: World, t: nat, c: Choice, e: set<nat>)
    requires |w.pool.free| == SLOTS && t < |w.pcs| && PcSane(w.pcs[t]) && (w.pcs[t].Enter? || w.pcs[t].Want?)
    requires Searched(w.pcs[t], e)
    ensures |Step(w, t, c).pcs| == |w.pcs| && Searched(Step(w, t, c).pcs[t], e) && !Step(w, t, c).pcs[t].WantRemaining?
  {
  }

  lemma OtherSearched(w: World, t: nat, c: Choice, e: set<nat>)
    requires |w.pool.free| == SLOTS && t < |w.pcs| && PcSane(w.pcs[t])
    requires !w.pcs[t].Leave? && !w.pcs[t].Measured? && !w.pcs[t].Loaded? && !w.pcs[t].Test?
    requires !w.pcs[t].Scan? && !w.pcs[t].Enter? && !w.pcs[t].Want?
    ensures |Step(w, t, c).pcs| == |w.pcs| && Searched(Step(w, t, c).pcs[t], e)
    ensures Step(w, t, c).pcs[t].WantRemaining? ==> w.pcs[t].WantRemaining?
  {
  }

  lemma StepSearched(w: World, t: nat, c: Choice, e: set<nat>)
    requires Inv(w) && t < |w.pcs| && Searched(w.pcs[t], e) && Seen(w.pool, e)
    ensures |Step(w, t, c).pcs| == |w.pcs| && Searched(Step(w, t, c).pcs[t], e)
    ensures Step(w, t, c).pcs[t].WantRemaining? ==>
              w.pcs[t].WantRemaining? || GivesUpEarly(w.pcs[t]) || (w.pcs[t].Scan? && w.pcs[t].bucket == 6)
  {
    var pc := w.pcs[t];
    assert ViewTrue(w.pool, pc);
    if pc.Leave? {
      OutSearched(w.(owner := w.owner - {LockOf(pc.section)}), t, pc.section, pc.got, e);
    } else if pc.Measured? {
      CutSearched(w, t, pc.size, pc.alignment, pc.cursor, pc.remaining, e);
    } else if pc.Loaded? {
      LoadedSearched(w, t, c, e);
    } else if pc.Test? {
      TestSearched(w, t, c, e);
    } else if pc.Scan? {
      LookSearched(w, t, c, e);
    } else if pc.Enter? || pc.Want? {
      EnterSearched(w, t, c, e);
    } else {
      OtherSearched(w, t, c, e);
    }
  }

  lemma SearchedMore(pc: PC, e: set<nat>, f: set<nat>)
    requires Searched(pc, e) && e <= f
    ensures Searched(pc, f)
  {
  }

  // ---------------------------------------------------------------- runs

  lemma PlayLast(w: World, schedule: seq<Move>)
    requires |schedule| > 0
    ensures Play(w, schedule) == Advance(Play(w, schedule[..|schedule| - 1]), schedule[|schedule| - 1])
  {
    var before, m := schedule[..|schedule| - 1], schedule[|schedule| - 1];
    assert schedule == before + [m];
    PlayMore(w, before, [m]);
    OneMove(Play(w, before), m);
  }

  lemma EarlierPrefix(w: World, schedule: seq<Move>, j: nat)
    requires |schedule| > 0 && j < |schedule|
    ensures At(w, schedule, j) == At(w, schedule[..|schedule| - 1], j)
  {
    assert schedule[..|schedule| - 1][..j] == schedule[..j];
  }

  lemma WasEmptyBefore(w: World, schedule: seq<Move>, t: nat, slot: nat)
    requires |schedule| > 0 && WasEmpty(w, schedule[..|schedule| - 1], t, slot)
    requires t < |Play(w, schedule).pcs| && Play(w, schedule).pcs[t] != Idle
    ensures WasEmpty(w, schedule, t, slot)
  {
    var before := schedule[..|schedule| - 1];
    var i :| 0 <= i <= |before| && InCallSince(w, before, t, i)
             && slot < |At(w, before, i).pool.free| && At(w, before, i).pool.free[slot] == [];
    forall j | i <= j <= |schedule|
      ensures t < |At(w, schedule, j).pcs| && At(w, schedule, j).pcs[t] != Idle
    {
      if j == |schedule| {
        assert schedule[..j] == schedule;
      } else {
        EarlierPrefix(w, schedule, j);
      }
    }
    EarlierPrefix(w, schedule, i);
  }

  lemma IsEmptyNow(w: World, schedule: seq<Move>, t: nat, slot: nat)
    requires slot < |Play(w, schedule).pool.free| && Play(w, schedule).pool.free[slot] == []
    requires t < |Play(w, schedule).pcs| && Play(w, schedule).pcs[t] != Idle
    ensures WasEmpty(w, schedule, t, slot)
  {
    var n := |schedule|;
    assert schedule[..n] == schedule;
    assert At(w, schedule, n) == Play(w, schedule);
    assert InCallSince(w, schedule, t, n);
  }

  lemma EmptiedSeen(w: World, schedule: seq<Move>, t: nat)
    requires |Play(w, schedule).pool.free| == SLOTS && t < |Play(w, schedule).pcs| && Play(w, schedule).pcs[t] != Idle
    ensures Seen(Play(w, schedule).pool, Emptied(w, schedule, t))
  {
    var p := Play(w, schedule).pool;
    forall s | 0 <= s < |p.free| && p.free[s] == []
      ensures s in Emptied(w, schedule, t)
    {
      IsEmptyNow(w, schedule, t, s);
    }
  }

  lemma EmptiedGrows(w: World, schedule: seq<Move>, t: nat)
    requires |schedule| > 0 && t < |Play(w, schedule).pcs| && Play(w, schedule).pcs[t] != Idle
    ensures Emptied(w, schedule[..|schedule| - 1], t) <= Emptied(w, schedule, t)
  {
    forall s | s in Emptied(w, schedule[..|schedule| - 1], t)
      ensures s in Emptied(w, schedule, t)
    {
      WasEmptyBefore(w, schedule, t, s);
    }
  }

  lemma StartSearched(w: World, t: nat, c: Choice, e: set<nat>)
    requires |w.pool.free| == SLOTS && t < |w.pcs| && w.pcs[t] == Idle
    ensures |Step(w, t, c).pcs| == |w.pcs| && Searched(Step(w, t, c).pcs[t], e) && !Step(w, t, c).pcs[t].WantRemaining?
  {
  }

  /** At every moment of every run, wherever a search is, it has passed only buckets that were empty during its call. */
  lemma {:induction false} AlwaysSearched(w: World, schedule: seq<Move>, t: nat)
    requires Inv(w) && t < |w.pcs| && w.pcs[t] == Idle
    ensures var v := Play(w, schedule); Inv(v) && |v.pcs| == |w.pcs| && Searched(v.pcs[t], Emptied(w, schedule, t))
  {
    if |schedule| > 0 {
      var before, m := schedule[..|schedule| - 1], schedule[|schedule| - 1];
      var u := Play(w, before);
      AlwaysSearched(w, before, t);
      PlayLast(w, schedule);
      AdvanceKeeps(u, m);
      if m.thread < |u.pcs| {
        StepPcs(u, m.thread, m.choice);
        MoveSearched(w, schedule, t);
      } else if u.pcs[t] != Idle {
        EmptiedGrows(w, schedule, t);
        SearchedMore(u.pcs[t], Emptied(w, before, t), Emptied(w, schedule, t));
      }
    }
  }

  lemma MoveSearched(w: World, schedule: seq<Move>, t: nat)
    requires |schedule| > 0
    requires var u, m := Play(w, schedule[..|schedule| - 1]), schedule[|schedule| - 1];
             && Inv(u) && t < |u.pcs| && m.thread < |u.pcs| && Play(w, schedule) == Step(u, m.thread, m.choice)
             && Searched(u.pcs[t], Emptied(w, schedule[..|schedule| - 1], t))
    ensures |Play(w, schedule).pcs| > t && Searched(Play(w, schedule).pcs[t], Emptied(w, schedule, t))
  {
    var before, m := schedule[..|schedule| - 1], schedule[|schedule| - 1];
    var u, v := Play(w, before), Play(w, schedule);
    StepPcs(u, m.thread, m.choice);
    if v.pcs[t] != Idle {
      EmptiedGrows(w, schedule, t);
      if u.pcs[t] == Idle {
        if m.thread == t {
          StartSearched(u, t, m.choice, Emptied(w, schedule, t));
        }
      } else {
        if m.thread == t {
          EmptiedSeen(w, before, t);
          StepSearched(u, t, m.choice, Emptied(w, before, t));
        }
        SearchedMore(v.pcs[t], Emptied(w, before, t), Emptied(w, schedule, t));
      }
    }
  }

  /** A thread goes for the chunk only when each bucket of its class, from its request's own up, was empty at some
      moment of that call; but for the two branches that give up early, the first of which has found its own bucket
      empty. */
  lemma ChunkIsLastResort(p: Pool, threads: nat, schedule: seq<Move>, t: nat, c: Choice, size: nat, alignment: nat)
    requires WellFormed(p) && t < threads
    requires var v := Play(Fresh(p, threads), schedule);
             t < |v.pcs| && !v.pcs[t].WantRemaining? && t < |Advance(v, Move(t, c)).pcs|
             && Advance(v, Move(t, c)).pcs[t] == WantRemaining(size, alignment)
    ensures var w, pc := Fresh(p, threads), Play(Fresh(p, threads), schedule).pcs[t];
            if GivesUpEarly(pc) then Loses(pc.section, pc.got) || WasEmpty(w, schedule, t, PopSlot(alignment, SizeToBucket(size)))
            else forall b | SizeToBucket(size) <= b < 6 :: WasEmpty(w, schedule, t, PopSlot(alignment, b))
  {
    var w := Fresh(p, threads);
    var v, e := Play(w, schedule), Emptied(w, schedule, t);
    FreshInv(p, threads);
    AlwaysSearched(w, schedule, t);
    AdvanceKeeps(v, Move(t, c));
    if v.pcs[t] == Idle {
      StartSearched(v, t, c, e);
    } else {
      EmptiedSeen(w, schedule, t);
      StepSearched(v, t, c, e);
      LastResort(v, t, c, size, alignment, e);
    }
  }

  lemma LastResort(v: World, t: nat, c: Choice, size: nat, alignment: nat, e: set<nat>)
    requires |v.pool.free| == SLOTS && t < |v.pcs| && PcSane(v.pcs[t]) && Searched(v.pcs[t], e)
    requires t < |Step(v, t, c).pcs| && Step(v, t, c).pcs[t] == WantRemaining(size, alignment)
    requires GivesUpEarly(v.pcs[t]) || (v.pcs[t].Scan? && v.pcs[t].bucket == 6)
    ensures if GivesUpEarly(v.pcs[t]) then
              Loses(v.pcs[t].section, v.pcs[t].got) || PopSlot(alignment, SizeToBucket(size)) in e
            else forall b | SizeToBucket(size) <= b < 6 :: PopSlot(alignment, b) in e
  {
  }

  /** And what a search pops is of the first bucket that it has not seen empty. */
  lemma PopsFirstSeen(p: Pool, threads: nat, schedule: seq<Move>, t: nat)
    requires WellFormed(p) && t < threads
    requires var v := Play(Fresh(p, threads), schedule);
             t < |v.pcs| && v.pcs[t].Leave? && v.pcs[t].section.Pop? && v.pcs[t].got.Some?
    ensures var w, s := Fresh(p, threads), Play(Fresh(p, threads), schedule).pcs[t].section;
            SizeToBucket(s.size) <= s.bucket < 6
            && forall k | SizeToBucket(s.size) <= k < s.bucket :: WasEmpty(w, schedule, t, PopSlot(s.alignment, k))
  {
    var w := Fresh(p, threads);
    FreshInv(p, threads);
    AlwaysSearched(w, schedule, t);
    PassedEmpty(w, schedule, t, Play(w, schedule).pcs[t].section);
  }

  lemma PassedEmpty(w: World, schedule: seq<Move>, t: nat, s: Section)
    requires s.Pop? && SectionSearched(s, Emptied(w, schedule, t))
    ensures SizeToBucket(s.size) <= s.bucket < 6
    ensures forall k | SizeToBucket(s.size) <= k < s.bucket :: WasEmpty(w, schedule, t, PopSlot(s.alignment, k))
  {
    forall k | SizeToBucket(s.size) <= k < s.bucket
      ensures WasEmpty(w, schedule, t, PopSlot(s.alignment, k))
    {
      assert PopSlot(s.alignment, k) in Emptied(w, schedule, t);
    }
  }
}
