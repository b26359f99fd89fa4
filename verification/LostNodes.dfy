/** How a node is lost: a large request looks at its empty bucket, another thread frees a smaller
    node into it, and the scan pops that node, finds it too small and drops it. */
module LostNodes {
  import opened AllocTree
  import opened Buckets
  import opened Concurrency
  import opened Interleaving
  import opened Nodes
  import opened Pool
  import opened Progress
  import opened SizeClasses
  import opened SoloThread
  import opened Wrappers

  lemma {:induction false} PlayMore(w: World, a: seq<Move>, b: seq<Move>)
    ensures Play(w, a + b) == Play(Play(w, a), b)
    decreases |a|
  {
    if |a| == 0 {
      assert a + b == b;
    } else {
      PlayMore(Advance(w, a[0]), a[1..], b);
      assert (a + b)[0] == a[0] && (a + b)[1..] == a[1..] + b;
    }
  }

  /** A thread running alone is one of the runs. */
  lemma {:induction false} SoloIsPlayed(w: World, t: nat, c: Choice) returns (schedule: seq<Move>)
    requires t < |w.pcs|
    ensures Play(w, schedule) == Solo(w, t, c)
    decreases Rank(w.pcs[t])
  {
    if |w.pool.free| == SLOTS && PcSane(w.pcs[t]) && w.pcs[t] != Idle && Enabled(w, t) {
      StepRank(w, t, c);
      var m := Move(t, c);
      var rest := SoloIsPlayed(Step(w, t, c), t, c);
      schedule := [m] + rest;
      assert schedule[0] == m && schedule[1..] == rest;
    } else {
      schedule := [];
    }
  }

  /** A scan that reaches a bucket headed by too small a node ends its call having lost that node. */
  lemma SoloLoses(w: World, t: nat, c: Choice, size: nat, alignment: nat, b: nat)
    requires t < |w.pcs| && |w.pool.free| == SLOTS && Usable(alignment) && b < 6 && w.owner == map[]
    requires w.pcs[t] == Scan(size, alignment, b)
    requires var s := w.pool.free[PopSlot(alignment, b)]; s != [] && NodeSane(s[0]) && s[0].size < size
    ensures Solo(w, t, c).lost == w.lost + multiset{w.pool.free[PopSlot(alignment, b)][0]}
  {
    var s, slot := Pop(size, alignment, b, false), PopSlot(alignment, b);
    var n, q := w.pool.free[slot][0], TakeFree(w.pool, slot);
    SoloScan(w, t, c, size, alignment, b);
    var v := With(w, t, w.pool, Want(s));
    SoloSection(v, t, c, s);
    var a := With(v, t, q, Leave(s, Some(n)));
    assert Loses(s, Some(n));
    SoloRemaining(Out(a, t, s, Some(n)), t, c, size, alignment);
  }

  lemma FreedIntoEmpty(p: Pool, n: Node)
    requires WellFormed(p) && Find(p.alloc, n.address) == Some(n) && n.size > MIB
    requires n.cls < 4 && p.free[Slot(n.cls, 5)] == []
    ensures Free(p, n.address).free[Slot(n.cls, 5)] == [n] && |Free(p, n.address).free| == SLOTS && NodeSane(n)
  {
    FindInBag(p.alloc, n.address);
    assert n in All(p);
    assert FitToBucket(n.size) == 5;
    assert BucketInsert([], n) == [n];
  }

  lemma OneMove(w: World, m: Move)
    ensures Play(w, [m]) == Advance(w, m)
  {
    assert [m][1..] == [];
    assert Play(Advance(w, m), []) == Advance(w, m);
  }

  lemma ThreeMoves(w: World, a: Move, b: Move, c: Move)
    ensures Play(w, [a, b, c]) == Advance(Advance(Advance(w, a), b), c)
  {
    assert [a, b, c] == [a] + ([b] + [c]);
    PlayMore(w, [a], [b] + [c]);
    OneMove(w, a);
    PlayMore(Advance(w, a), [b], [c]);
    OneMove(Advance(w, a), b);
    OneMove(Advance(Advance(w, a), b), c);
  }

  lemma Chain(w: World, a: seq<Move>, b: seq<Move>, c: seq<Move>) returns (abc: seq<Move>)
    ensures Play(w, abc) == Play(Play(Play(w, a), b), c)
  {
    abc := a + (b + c);
    PlayMore(w, a, b + c);
    PlayMore(Play(w, a), b, c);
  }

  lemma Starts(w: World, t: nat, c: Choice)
    requires |w.pool.free| == SLOTS && t < |w.pcs| && w.pcs[t] == Idle
    requires c.call.CallMalloc? ==> c.call.alignment <= MAX_ALIGNMENT
    ensures Advance(w, Move(t, c)) == With(w, t, w.pool, Start(c.call))
  {
  }

  lemma Looks(w: World, t: nat, c: Choice, size: nat, alignment: nat)
    requires |w.pool.free| == SLOTS && t < |w.pcs| && w.pcs[t] == Test(size, alignment)
    requires Usable(alignment) && size > MIB && w.pool.free[PopSlot(alignment, 5)] == []
    ensures Advance(w, Move(t, c)) == With(w, t, w.pool, Scan(size, alignment, 5))
  {
  }

  /** What a pool must be for the run below: one the freed node can be filed in. */
  predicate Bait(p: Pool, n: Node) {
    && Shaped(p) && Find(p.alloc, n.address) == Some(n) && NodeSane(n)
    && Free(p, n.address).free[Slot(n.cls, 5)] == [n] && |Free(p, n.address).free| == SLOTS
  }

  lemma WellFormedBait(p: Pool, n: Node)
    requires WellFormed(p) && Find(p.alloc, n.address) == Some(n) && n.size > MIB
    requires n.cls < 4 && p.free[Slot(n.cls, 5)] == []
    ensures Bait(p, n)
  {
    FreedIntoEmpty(p, n);
  }

  lemma Baited(w: World, p: Pool, n: Node, c: Choice, d: Choice, size: nat, alignment: nat)
      returns (freeing: seq<Move>, losing: seq<Move>)
    requires |w.pcs| == 2 && w.pool == p && w.owner == map[] && w.lost == multiset{}
    requires w.pcs[0] == Scan(size, alignment, 5) && w.pcs[1] == Want(RemoveTree(n.address))
    requires Bait(p, n) && n.size < size && Usable(alignment) && n.cls == AlignmentToTree(alignment)
    ensures Play(Play(w, freeing), losing).lost == multiset{n}
  {
    freeing := SoloIsPlayed(w, 1, d);
    SoloFree(w, 1, d, n.address);
    var v := With(w, 1, Free(p, n.address), Idle);
    losing := SoloIsPlayed(v, 0, c);
    SoloLoses(v, 0, c, size, alignment, 5);
  }

  /** From any well-formed pool whose last bucket of some class is empty: for every node of the class
      over 1 MiB that is handed out and every request larger than it there is a run of two threads,
      one freeing the node while the other looks for memory, after which nobody has the node. */
  lemma LargeRequestsCanLose(p: Pool, n: Node, size: nat, alignment: nat) returns (schedule: seq<Move>)
    requires WellFormed(p) && Find(p.alloc, n.address) == Some(n) && MIB < n.size < size
    requires Usable(alignment) && n.cls == AlignmentToTree(alignment) && p.free[Slot(n.cls, 5)] == []
    ensures Play(Fresh(p, 2), schedule).lost == multiset{n}
  {
    WellFormedBait(p, n);
    schedule := BaitedRun(p, n, size, alignment);
  }

  lemma BaitedRun(p: Pool, n: Node, size: nat, alignment: nat) returns (schedule: seq<Move>)
    requires Bait(p, n) && MIB < n.size < size
    requires Usable(alignment) && n.cls == AlignmentToTree(alignment) && p.free[Slot(n.cls, 5)] == []
    ensures Play(Fresh(p, 2), schedule).lost == multiset{n}
  {
    var c := Choice(CallMalloc(size, alignment), None);
    var d := Choice(CallFree(n.address), None);
    var w0 := Fresh(p, 2);
    Starts(w0, 0, c);
    var w1 := With(w0, 0, p, Test(size, alignment));
    Looks(w1, 0, c, size, alignment);
    var w2 := With(w1, 0, p, Scan(size, alignment, 5));
    Starts(w2, 1, d);
    var w3 := With(w2, 1, p, Want(RemoveTree(n.address)));
    ThreeMoves(w0, Move(0, c), Move(0, c), Move(1, d));
    var freeing, losing := Baited(w3, p, n, c, d, size, alignment);
    schedule := Chain(w0, [Move(0, c), Move(0, c), Move(1, d)], freeing, losing);
  }
}
