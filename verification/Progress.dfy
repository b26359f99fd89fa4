/** No interleaving of mallocs and frees ends with threads waiting for each other: the remaining lock
    is the outer one, every other lock is a leaf, and each call is a bounded number of steps. */
module Progress {
  import opened Buckets
  import opened Concurrency
  import opened Exclusion
  import opened Interleaving
  import opened Nodes
  import opened Wrappers

  /** Whoever holds a leaf lock is not waiting for anything. */
  lemma LeafHolderRuns(w: World, l: Lock) returns (u: nat)
    requires Inv(w) && l in w.owner && l != RemainingLock
    ensures u < |w.pcs| && w.pcs[u] != Idle && Enabled(w, u)
  {
    u := w.owner[l];
    assert OwnedBy(w, l, u);
    assert Holds(w.pcs[u], l);
  }

  lemma BlockedOnLeaf(w: World, t: nat) returns (u: nat)
    requires Inv(w) && t < |w.pcs| && w.pcs[t].Want? && !Enabled(w, t)
    ensures u < |w.pcs| && w.pcs[u] != Idle && Enabled(w, u)
  {
    u := LeafHolderRuns(w, LockOf(w.pcs[t].section));
  }

  /** As long as one thread is inside a call, some thread inside a call can step. */
  lemma SomeoneCanStep(w: World, t: nat) returns (u: nat)
    requires Inv(w) && t < |w.pcs| && w.pcs[t] != Idle
    ensures u < |w.pcs| && w.pcs[u] != Idle && Enabled(w, u)
  {
    if Enabled(w, t) {
      u := t;
    } else if w.pcs[t].Want? {
      u := BlockedOnLeaf(w, t);
    } else {
      u := w.owner[RemainingLock];
      assert OwnedBy(w, RemainingLock, u);
      assert Holds(w.pcs[u], RemainingLock);
      if !Enabled(w, u) {
        u := BlockedOnLeaf(w, u);
      }
    }
  }

  // ---------------------------------------------------------------- how far a call is from its end

  function ScanRank(bucket: nat): nat {
    if bucket > 6 then 18 else 18 + 6 * (6 - bucket)
  }

  function AfterRank(after: After): nat {
    match after
    case Return => 0
    case Release => 1
    case ChunkNext(base, size) => 2
    case MapNext(size) => 10
  }

  function SectionRank(s: Section): nat {
    match s
    case Pop(size, alignment, bucket, first) => if first then 17 else ScanRank(bucket + 1)
    case InsertTree(n, after) => AfterRank(after)
    case RemoveTree(address) => 4
    case InsertBucket(n, after) => AfterRank(after)
    case PushBlock(size, supply) => 6
  }

  /** An upper bound on the steps a thread still needs to be idle again. */
  function Rank(pc: PC): nat {
    match pc
    case Idle => 0
    case Unlock => 1
    case SetChunk(base, size) => 2
    case Want(s) => SectionRank(s) + 4
    case Enter(s) => SectionRank(s) + 3
    case Loaded(s, v) => SectionRank(s) + 2
    case Leave(s, got) => SectionRank(s) + 1
    case Measured(size, alignment, cursor, remaining) => 15
    case Measure(size, alignment) => 16
    case WantRemaining(size, alignment) => 17
    case Scan(size, alignment, bucket) => ScanRank(bucket)
    case Test(size, alignment) => 55
  }

  /** No thread is ever more than this many of its own steps from the end of its call. */
  const LONGEST: nat := 55

  lemma RankBound(pc: PC)
    requires PcSane(pc)
    ensures Rank(pc) <= LONGEST
  {
  }

  lemma OutRank(w: World, t: nat, s: Section, got: Option<Node>)
    requires t < |w.pcs| && PcSane(Leave(s, got))
    ensures Rank(Out(w, t, s, got).pcs[t]) < SectionRank(s) + 1
  {
  }

  lemma CutRank(w: World, t: nat, size: nat, alignment: nat, cursor: nat, remaining: nat)
    requires t < |w.pcs| && alignment > 0
    ensures Rank(Cut(w, t, size, alignment, cursor, remaining).pcs[t]) < 15
  {
  }

  lemma OtherRank(w: World, t: nat, c: Choice)
    requires |w.pool.free| == SLOTS && t < |w.pcs| && PcSane(w.pcs[t]) && Enabled(w, t) && w.pcs[t] != Idle
    requires !w.pcs[t].Leave? && !w.pcs[t].Measured?
    ensures Rank(Step(w, t, c).pcs[t]) < Rank(w.pcs[t])
  {
  }

  lemma StepRank(w: World, t: nat, c: Choice)
    requires |w.pool.free| == SLOTS && t < |w.pcs| && PcSane(w.pcs[t]) && Enabled(w, t) && w.pcs[t] != Idle
    ensures |Step(w, t, c).pcs| == |w.pcs| && Rank(Step(w, t, c).pcs[t]) < Rank(w.pcs[t])
  {
    var pc := w.pcs[t];
    if pc.Leave? {
      OutRank(w.(owner := w.owner - {LockOf(pc.section)}), t, pc.section, pc.got);
    } else if pc.Measured? {
      CutRank(w, t, pc.size, pc.alignment, pc.cursor, pc.remaining);
    } else {
      OtherRank(w, t, c);
    }
  }

  function TotalRank(pcs: seq<PC>): nat {
    if |pcs| == 0 then 0 else Rank(pcs[0]) + TotalRank(pcs[1..])
  }

  lemma {:induction false} TotalRankUpdate(pcs: seq<PC>, t: nat, pc: PC)
    requires t < |pcs|
    ensures TotalRank(pcs[t := pc]) + Rank(pcs[t]) == TotalRank(pcs) + Rank(pc)
    decreases t
  {
    if t == 0 {
      assert pcs[t := pc][1..] == pcs[1..];
    } else {
      TotalRankUpdate(pcs[1..], t - 1, pc);
      assert pcs[t := pc][1..] == pcs[1..][t - 1 := pc];
    }
  }

  lemma {:induction false} TotalRankBound(pcs: seq<PC>)
    requires forall t | 0 <= t < |pcs| :: PcSane(pcs[t])
    ensures TotalRank(pcs) <= LONGEST * |pcs|
  {
    if |pcs| > 0 {
      RankBound(pcs[0]);
      TotalRankBound(pcs[1..]);
    }
  }

  /** Every step inside a call brings the threads as a whole nearer to the end of their calls,
      whatever the others do meanwhile; so no run goes on for ever without new calls. */
  lemma StepDrains(w: World, t: nat, c: Choice)
    requires Inv(w) && t < |w.pcs| && w.pcs[t] != Idle && Enabled(w, t)
    ensures TotalRank(Step(w, t, c).pcs) < TotalRank(w.pcs)
  {
    StepPcs(w, t, c);
    StepRank(w, t, c);
    TotalRankUpdate(w.pcs, t, Step(w, t, c).pcs[t]);
  }

  /** From every reachable state the calls in progress can all be brought to their end, in at most 55
      steps for each thread. */
  lemma CallsFinish(w: World, c: Choice) returns (schedule: seq<Move>)
    requires Inv(w)
    ensures |schedule| <= LONGEST * |w.pcs|
    ensures forall t | 0 <= t < |Play(w, schedule).pcs| :: Play(w, schedule).pcs[t] == Idle
  {
    schedule := Finishing(w, c);
    TotalRankBound(w.pcs);
  }

  lemma {:induction false} Finishing(w: World, c: Choice) returns (schedule: seq<Move>)
    requires Inv(w)
    ensures |schedule| <= TotalRank(w.pcs)
    ensures forall t | 0 <= t < |Play(w, schedule).pcs| :: Play(w, schedule).pcs[t] == Idle
    decreases TotalRank(w.pcs)
  {
    if t :| 0 <= t < |w.pcs| && w.pcs[t] != Idle {
      var u := SomeoneCanStep(w, t);
      StepDrains(w, u, c);
      var m := Move(u, c);
      AdvanceKeeps(w, m);
      var rest := Finishing(Advance(w, m), c);
      schedule := [m] + rest;
      assert schedule[0] == m && schedule[1..] == rest;
    } else {
      schedule := [];
    }
  }
}
