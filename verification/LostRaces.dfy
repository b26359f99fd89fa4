/** What losing the race for a bucket costs: the first look is not repeated under the lock, so a thread
    that finds its bucket emptied goes on to the chunk, whatever the larger buckets hold; the looks of the scan are, so
    there the thread goes on to the next bucket. */
module LostRaces {
  import opened Buckets
  import opened Concurrency
  import opened Interleaving
  import opened LostNodes
  import opened Nodes
  import opened Pool
  import opened SizeClasses
  import opened SoloThread
  import opened Wrappers

  lemma LooksFirst(w: World, t: nat, c: Choice, size: nat, alignment: nat)
    requires |w.pool.free| == SLOTS && t < |w.pcs| && w.pcs[t] == Test(size, alignment) && Usable(alignment)
    requires w.pool.free[PopSlot(alignment, SizeToBucket(size))] != []
    ensures Advance(w, Move(t, c)) == With(w, t, w.pool, Want(Pop(size, alignment, SizeToBucket(size), true)))
  {
  }

  lemma Enters(w: World, t: nat, c: Choice, s: Section)
    requires SoloThread.Ready(w, t, s) && w.pcs[t] == Want(s)
    ensures Advance(w, Move(t, c)) == Lockd(With(w, t, w.pool, Enter(s)), t, s)
  {
  }

  lemma Loads(w: World, t: nat, c: Choice, s: Section)
    requires SoloThread.Ready(w, t, s) && s.Pop?
    ensures Advance(Lockd(With(w, t, w.pool, Enter(s)), t, s), Move(t, c))
            == Lockd(With(w, t, w.pool, Loaded(s, ViewOf(w.pool, s))), t, s)
  {
    assert w.pcs[t := Enter(s)][t := Loaded(s, ViewOf(w.pool, s))] == w.pcs[t := Loaded(s, ViewOf(w.pool, s))];
  }

  lemma StoresNothing(w: World, t: nat, c: Choice, s: Section)
    requires SoloThread.Ready(w, t, s) && s.Pop?
    ensures Advance(Lockd(With(w, t, w.pool, Loaded(s, BucketView([]))), t, s), Move(t, c))
            == Lockd(With(w, t, w.pool, Leave(s, None)), t, s)
  {
    assert w.pcs[t := Loaded(s, BucketView([]))][t := Leave(s, None)] == w.pcs[t := Leave(s, None)];
  }

  lemma GivesUp(w: World, t: nat, c: Choice, s: Section)
    requires SoloThread.Ready(w, t, s) && s.Pop? && s.first
    ensures Advance(Lockd(With(w, t, w.pool, Leave(s, None)), t, s), Move(t, c))
            == With(w, t, w.pool, WantRemaining(s.size, s.alignment))
  {
    Relocked(With(w, t, w.pool, Leave(s, None)), t, s);
    Regoto(w, t, w.pool, Leave(s, None), WantRemaining(s.size, s.alignment));
  }

  /** From the wish for an emptied bucket straight to the chunk. */
  lemma EmptiedBucket(w: World, t: nat, c: Choice, s: Section) returns (schedule: seq<Move>)
    requires SoloThread.Ready(w, t, s) && w.pcs[t] == Want(s) && s.Pop? && s.first
    requires w.pool.free[PopSlot(s.alignment, s.bucket)] == []
    ensures Play(w, schedule) == With(w, t, w.pool, WantRemaining(s.size, s.alignment))
  {
    var m := Move(t, c);
    Enters(w, t, c, s);
    Loads(w, t, c, s);
    StoresNothing(w, t, c, s);
    GivesUp(w, t, c, s);
    ThreeMoves(w, m, m, m);
    OneMove(Play(w, [m, m, m]), m);
    schedule := [m, m, m] + [m];
    PlayMore(w, [m, m, m], [m]);
  }

  lemma TakesTheLast(p: Pool, size: nat, alignment: nat)
    requires |p.free| == SLOTS && Usable(alignment) && |p.free[PopSlot(alignment, SizeToBucket(size))]| == 1
    ensures var q := Malloc(p, size, alignment, None).0;
            && |q.free| == SLOTS && q.free == p.free[PopSlot(alignment, SizeToBucket(size)) := []]
  {
    assert p.free[PopSlot(alignment, SizeToBucket(size))][1..] == [];
  }

  lemma Races(w: World, size: nat, alignment: nat) returns (taking: seq<Move>, giving: seq<Move>)
    requires |w.pcs| == 2 && WellFormed(w.pool) && w.owner == map[] && Usable(alignment)
    requires w.pcs[0] == Want(Pop(size, alignment, SizeToBucket(size), true)) && w.pcs[1] == Test(size, alignment)
    requires |w.pool.free[PopSlot(alignment, SizeToBucket(size))]| == 1
    ensures var e := Play(Play(w, taking), giving);
            && |e.pcs| == 2 && e.pcs[0] == WantRemaining(size, alignment)
            && e.pool == Malloc(w.pool, size, alignment, None).0
  {
    var c, k := Choice(CallMalloc(size, alignment), None), SizeToBucket(size);
    taking := SoloIsPlayed(w, 1, c);
    SoloMalloc(w, 1, c, size, alignment);
    TakesTheLast(w.pool, size, alignment);
    var v := Solo(w, 1, c);
    assert v.pcs[0] == w.pcs[0];
    giving := EmptiedBucket(v, 0, c, Pop(size, alignment, k, true));
  }

  /** Two threads ask for the same size; the bucket of their request holds one node, and a larger bucket of the
      class, `b`, holds more.  There is a run in which the second goes for the chunk, and perhaps for a new block,
      with that larger bucket untouched. */
  lemma SecondGoesToChunk(p: Pool, size: nat, alignment: nat, b: nat) returns (schedule: seq<Move>)
    requires WellFormed(p) && Usable(alignment) && SizeToBucket(size) < b < 6
    requires |p.free[PopSlot(alignment, SizeToBucket(size))]| == 1 && p.free[PopSlot(alignment, b)] != []
    ensures var w := Play(Fresh(p, 2), schedule);
            && |w.pcs| == 2 && w.pcs[0] == WantRemaining(size, alignment)
            && |w.pool.free| == SLOTS && w.pool.free[PopSlot(alignment, b)] == p.free[PopSlot(alignment, b)] != []
  {
    var c := Choice(CallMalloc(size, alignment), None);
    var k := SizeToBucket(size);
    var w0 := Fresh(p, 2);
    Starts(w0, 0, c);
    var w1 := With(w0, 0, p, Test(size, alignment));
    LooksFirst(w1, 0, c, size, alignment);
    var w2 := With(w1, 0, p, Want(Pop(size, alignment, k, true)));
    Starts(w2, 1, c);
    var w3 := With(w2, 1, p, Test(size, alignment));
    ThreeMoves(w0, Move(0, c), Move(0, c), Move(1, c));
    var taking, giving := Races(w3, size, alignment);
    schedule := Chain(w0, [Move(0, c), Move(0, c), Move(1, c)], taking, giving);
    TakesTheLast(p, size, alignment);
  }

  // ---------------------------------------------------------------- a scan that loses its bucket goes on

  /** A scan walks up to the first bucket that is not empty. */
  lemma {:induction false} WalksUp(w: World, t: nat, c: Choice, size: nat, alignment: nat, b: nat, found: nat)
      returns (schedule: seq<Move>)
    requires |w.pool.free| == SLOTS && t < |w.pcs| && Usable(alignment) && b <= found < 6
    requires w.pcs[t] == Scan(size, alignment, b) && w.pool.free[PopSlot(alignment, found)] != []
    requires forall k | b <= k < found :: w.pool.free[PopSlot(alignment, k)] == []
    ensures Play(w, schedule) == With(w, t, w.pool, Want(Pop(size, alignment, found, false)))
    decreases found - b
  {
    var m := Move(t, c);
    ScanStep(w, t, c, size, alignment, b);
    OneMove(w, m);
    if b == found {
      schedule := [m];
    } else {
      var v := With(w, t, w.pool, Scan(size, alignment, b + 1));
      var rest := WalksUp(v, t, c, size, alignment, b + 1, found);
      WithOver(w, t, w.pool, w.pool, Scan(size, alignment, b + 1), Want(Pop(size, alignment, found, false)));
      schedule := [m] + rest;
      PlayMore(w, [m], rest);
    }
  }

  lemma StopsAt(free: seq<seq<Node>>, c: nat, b: nat, found: nat)
    requires |free| == SLOTS && c < 4 && b <= found < 6 && free[Slot(c, found)] != []
    requires forall k | b <= k < found :: free[Slot(c, k)] == []
    ensures FirstNonEmpty(free, c, b) == found
  {
  }

  /** Finding the bucket emptied, the scan goes on. */
  lemma PassesBy(w: World, t: nat, c: Choice, size: nat, alignment: nat, b: nat)
    requires t < |w.pcs| && |w.pool.free| == SLOTS && Usable(alignment) && w.owner == map[] && b < 6
    requires w.pcs[t] == Want(Pop(size, alignment, b, false)) && w.pool.free[PopSlot(alignment, b)] == []
    ensures Solo(w, t, c) == Solo(With(w, t, w.pool, Scan(size, alignment, b + 1)), t, c)
  {
    var s := Pop(size, alignment, b, false);
    SoloSection(w, t, c, s);
    Regoto(w, t, w.pool, Leave(s, None), Scan(size, alignment, b + 1));
  }

  lemma FindsNext(w: World, t: nat, c: Choice, size: nat, alignment: nat, b: nat, found: nat)
    requires t < |w.pcs| && |w.pool.free| == SLOTS && Usable(alignment) && b <= found < 6
    requires w.pcs[t] == Scan(size, alignment, b) && w.pool.free[PopSlot(alignment, found)] != []
    requires forall k | b <= k < found :: w.pool.free[PopSlot(alignment, k)] == []
    ensures Solo(w, t, c) == Solo(With(w, t, w.pool, Want(Pop(size, alignment, found, false))), t, c)
  {
    SoloScan(w, t, c, size, alignment, b);
    StopsAt(w.pool.free, AlignmentToTree(alignment), b, found);
  }

  /** Alone again, a scan whose bucket has been emptied goes on to the next one that is not. */
  lemma GoesOn(w: World, t: nat, c: Choice, size: nat, alignment: nat, b: nat, found: nat)
    requires t < |w.pcs| && WellFormed(w.pool) && Usable(alignment) && w.owner == map[] && size <= MIB
    requires w.pcs[t] == Want(Pop(size, alignment, b, false)) && SizeToBucket(size) <= b < found < 6
    requires w.pool.free[PopSlot(alignment, found)] != []
    requires forall k | b <= k < found :: w.pool.free[PopSlot(alignment, k)] == []
    ensures var slot := PopSlot(alignment, found);
            Ends(w, t, c, Serve(w.pool, slot), Address(w.pool.free[slot][0].address))
  {
    var p, slot, pc, pc' := w.pool, PopSlot(alignment, found), Scan(size, alignment, b + 1), Want(Pop(size, alignment, found, false));
    PassesBy(w, t, c, size, alignment, b);
    FindsNext(With(w, t, p, pc), t, c, size, alignment, b + 1, found);
    WithOver(w, t, p, p, pc, pc');
    HeadFits(p, size, slot, found);
    PopsNext(w, t, c, size, alignment, found);
  }

  lemma PopsNext(w: World, t: nat, c: Choice, size: nat, alignment: nat, found: nat)
    requires t < |w.pcs| && |w.pool.free| == SLOTS && Usable(alignment) && w.owner == map[] && found < 6
    requires var s := w.pool.free[PopSlot(alignment, found)]; s != [] && NodeSane(s[0]) && s[0].size >= size
    requires Solo(w, t, c) == Solo(With(w, t, w.pool, Want(Pop(size, alignment, found, false))), t, c)
    ensures var slot := PopSlot(alignment, found);
            Ends(w, t, c, Serve(w.pool, slot), Address(w.pool.free[slot][0].address))
  {
    var p, slot := w.pool, PopSlot(alignment, found);
    var u := With(w, t, p, Want(Pop(size, alignment, found, false)));
    SoloPop(u, t, c, size, alignment, found, false);
    EndsFrom(w, t, c, u, Serve(p, slot), Address(p.free[slot][0].address));
  }

  lemma HeadFits(p: Pool, size: nat, slot: nat, b: nat)
    requires WellFormed(p) && slot < SLOTS && slot % 6 == b && p.free[slot] != [] && size <= MIB && SizeToBucket(size) <= b
    ensures NodeSane(p.free[slot][0]) && p.free[slot][0].size >= size
  {
    var n := p.free[slot][0];
    FreeBagUpdate(p.free, slot, []);
    assert n in p.free[slot] && n in multiset(p.free[slot]) && n in All(p);
    BucketsFit(size, n.size);
  }

  lemma FoundIn(p: Pool, size: nat, alignment: nat, b: nat)
    requires WellFormed(p) && size <= MIB && SizeToBucket(size) < b < 6 && p.free[PopSlot(alignment, b)] != []
    requires forall k | SizeToBucket(size) <= k < b :: p.free[PopSlot(alignment, k)] == []
    ensures Search(p.free, AlignmentToTree(alignment), size) == Taken(b)
  {
    HeadFits(p, size, PopSlot(alignment, b), b);
    forall k | SizeToBucket(size) <= k < b
      ensures p.free[Slot(AlignmentToTree(alignment), k)] == []
    {
      assert p.free[PopSlot(alignment, k)] == [];
    }
    FoundAt(p.free, AlignmentToTree(alignment), size, b);
  }

  lemma FoundAt(free: seq<seq<Node>>, c: nat, size: nat, b: nat)
    requires |free| == SLOTS && c < 4 && SizeToBucket(size) < b < 6 && free[Slot(c, b)] != [] && free[Slot(c, b)][0].size >= size
    requires forall k | SizeToBucket(size) <= k < b :: free[Slot(c, k)] == []
    ensures Search(free, c, size) == Taken(b)
  {
    StopsAt(free, c, SizeToBucket(size), b);
  }

  lemma TakesFrom(p: Pool, size: nat, alignment: nat, b: nat)
    requires |p.free| == SLOTS && Usable(alignment) && b < 6 && Search(p.free, AlignmentToTree(alignment), size) == Taken(b)
    ensures var slot := PopSlot(alignment, b);
            Malloc(p, size, alignment, None) == (Serve(p, slot), Address(p.free[slot][0].address))
  {
  }

  lemma FirstServed(w: World, size: nat, alignment: nat, b: nat) returns (first: seq<Move>)
    requires |w.pcs| == 2 && WellFormed(w.pool) && w.owner == map[] && Usable(alignment) && size <= MIB
    requires SizeToBucket(size) < b < 6 && w.pcs[1] == Test(size, alignment)
    requires w.pool.free[PopSlot(alignment, b)] != []
    requires forall k | SizeToBucket(size) <= k < b :: w.pool.free[PopSlot(alignment, k)] == []
    ensures var v, slot := Play(w, first), PopSlot(alignment, b);
            && WellFormed(v.pool) && v.pool.free == w.pool.free[slot := w.pool.free[slot][1..]] && v.pcs == w.pcs[1 := Idle]
            && v.owner == map[] && v.lost == w.lost
            && v.returned == w.returned[1 := Address(w.pool.free[slot][0].address)]
  {
    var c := Choice(CallMalloc(size, alignment), None);
    first := SoloIsPlayed(w, 1, c);
    SoloMalloc(w, 1, c, size, alignment);
    FoundIn(w.pool, size, alignment, b);
    TakesFrom(w.pool, size, alignment, b);
    ServeKeeps(w.pool, PopSlot(alignment, b));
  }

  lemma Untouched(f: seq<seq<Node>>, g: seq<seq<Node>>, alignment: nat, b: nat, found: nat, low: nat)
    requires |f| == SLOTS && low < b < found < 6 && |f[PopSlot(alignment, b)]| == 1
    requires g == f[PopSlot(alignment, b) := f[PopSlot(alignment, b)][1..]]
    requires forall k | low <= k < found && k != b :: f[PopSlot(alignment, k)] == []
    ensures g[PopSlot(alignment, found)] == f[PopSlot(alignment, found)]
    ensures forall k | b <= k < found :: g[PopSlot(alignment, k)] == []
  {
    forall k | b <= k < found
      ensures g[PopSlot(alignment, k)] == []
    {
      assert k != b ==> f[PopSlot(alignment, k)] == [];
    }
  }

  lemma EmptyBelow(f: seq<seq<Node>>, alignment: nat, b: nat, found: nat, low: nat)
    requires |f| == SLOTS && low <= b < found < 6
    requires forall k | low <= k < found && k != b :: f[PopSlot(alignment, k)] == []
    ensures forall k | low <= k < b :: f[PopSlot(alignment, k)] == []
  {
  }

  lemma BothServed(w: World, size: nat, alignment: nat, b: nat, found: nat) returns (first: seq<Move>, second: seq<Move>)
    requires |w.pcs| == 2 && WellFormed(w.pool) && w.owner == map[] && Usable(alignment) && size <= MIB
    requires SizeToBucket(size) < b < found < 6
    requires w.pcs[0] == Want(Pop(size, alignment, b, false)) && w.pcs[1] == Test(size, alignment)
    requires |w.pool.free[PopSlot(alignment, b)]| == 1 && w.pool.free[PopSlot(alignment, found)] != []
    requires forall k | SizeToBucket(size) <= k < found && k != b :: w.pool.free[PopSlot(alignment, k)] == []
    ensures var e := Play(Play(w, first), second);
            && e.pcs == w.pcs[1 := Idle][0 := Idle] && e.lost == w.lost
            && e.returned == w.returned[1 := Address(w.pool.free[PopSlot(alignment, b)][0].address)]
                                       [0 := Address(w.pool.free[PopSlot(alignment, found)][0].address)]
  {
    EmptyBelow(w.pool.free, alignment, b, found, SizeToBucket(size));
    first := FirstServed(w, size, alignment, b);
    Untouched(w.pool.free, Play(w, first).pool.free, alignment, b, found, SizeToBucket(size));
    second := SecondServed(Play(w, first), size, alignment, b, found);
  }

  lemma SecondServed(v: World, size: nat, alignment: nat, b: nat, found: nat) returns (second: seq<Move>)
    requires 0 < |v.pcs| && WellFormed(v.pool) && v.owner == map[] && Usable(alignment) && size <= MIB
    requires v.pcs[0] == Want(Pop(size, alignment, b, false)) && SizeToBucket(size) <= b < found < 6
    requires v.pool.free[PopSlot(alignment, found)] != []
    requires forall k | b <= k < found :: v.pool.free[PopSlot(alignment, k)] == []
    ensures var e := Play(v, second);
            && e.pcs == v.pcs[0 := Idle] && e.lost == v.lost
            && e.returned == v.returned[0 := Address(v.pool.free[PopSlot(alignment, found)][0].address)]
  {
    var c := Choice(CallMalloc(size, alignment), None);
    second := SoloIsPlayed(v, 0, c);
    GoesOn(v, 0, c, size, alignment, b, found);
  }

  /** Two threads have started, and the first has looked at its empty bucket. */
  lemma BothStart(p: Pool, size: nat, alignment: nat)
    requires |p.free| == SLOTS && Usable(alignment) && p.free[PopSlot(alignment, SizeToBucket(size))] == []
    ensures var m := Choice(CallMalloc(size, alignment), None);
            Play(Fresh(p, 2), [Move(0, m), Move(0, m), Move(1, m)])
            == With(With(Fresh(p, 2), 0, p, Scan(size, alignment, SizeToBucket(size))), 1, p, Test(size, alignment))
  {
    var c, k, w0 := Choice(CallMalloc(size, alignment), None), SizeToBucket(size), Fresh(p, 2);
    Starts(w0, 0, c);
    var w1 := With(w0, 0, p, Test(size, alignment));
    LooksInVain(w1, 0, c, size, alignment);
    WithOver(w0, 0, p, p, Test(size, alignment), Scan(size, alignment, k));
    var w2 := With(w0, 0, p, Scan(size, alignment, k));
    Starts(w2, 1, c);
    ThreeMoves(w0, Move(0, c), Move(0, c), Move(1, c));
  }

  lemma SeesBucket(p: Pool, size: nat, alignment: nat, b: nat) returns (schedule: seq<Move>)
    requires |p.free| == SLOTS && Usable(alignment) && SizeToBucket(size) < b < 6 && p.free[PopSlot(alignment, b)] != []
    requires forall k | SizeToBucket(size) <= k < b :: p.free[PopSlot(alignment, k)] == []
    ensures var w := Play(Fresh(p, 2), schedule);
            && |w.pcs| == 2 && w.pool == p && w.owner == map[] && w.lost == multiset{} && w.returned == map[]
            && w.pcs[0] == Want(Pop(size, alignment, b, false)) && w.pcs[1] == Test(size, alignment)
  {
    var c, k := Choice(CallMalloc(size, alignment), None), SizeToBucket(size);
    var start := [Move(0, c), Move(0, c), Move(1, c)];
    BothStart(p, size, alignment);
    var walk := WalksUp(Play(Fresh(p, 2), start), 0, c, size, alignment, k, b);
    PlayMore(Fresh(p, 2), start, walk);
    schedule := start + walk;
  }

  /** Two threads ask for the same size; their own bucket is empty, bucket `b` of the class holds one node, and `found` is
      the next that is not empty.  One thread sees bucket `b`, the other takes its node, and the first is answered with
      the head of `found`. */
  lemma SecondGoesOn(p: Pool, size: nat, alignment: nat, b: nat, found: nat) returns (schedule: seq<Move>)
    requires WellFormed(p) && Usable(alignment) && size <= MIB && SizeToBucket(size) < b < found < 6
    requires |p.free[PopSlot(alignment, b)]| == 1 && p.free[PopSlot(alignment, found)] != []
    requires forall k | SizeToBucket(size) <= k < found && k != b :: p.free[PopSlot(alignment, k)] == []
    ensures var w := Play(Fresh(p, 2), schedule);
            && |w.pcs| == 2 && w.pcs[0] == Idle == w.pcs[1] && w.lost == multiset{} && 0 in w.returned && 1 in w.returned
            && w.returned[1] == Address(p.free[PopSlot(alignment, b)][0].address)
            && w.returned[0] == Address(p.free[PopSlot(alignment, found)][0].address)
  {
    EmptyBelow(p.free, alignment, b, found, SizeToBucket(size));
    var sees := SeesBucket(p, size, alignment, b);
    var first, second := BothServed(Play(Fresh(p, 2), sees), size, alignment, b, found);
    schedule := Chain(Fresh(p, 2), sees, first, second);
  }

  lemma LooksInVain(w: World, t: nat, c: Choice, size: nat, alignment: nat)
    requires |w.pool.free| == SLOTS && t < |w.pcs| && w.pcs[t] == Test(size, alignment) && Usable(alignment)
    requires w.pool.free[PopSlot(alignment, SizeToBucket(size))] == []
    ensures Advance(w, Move(t, c)) == With(w, t, w.pool, Scan(size, alignment, SizeToBucket(size)))
  {
  }
}
