/** What malloc returns under every interleaving: the address of a node that is made for the request, in the tree
    at the moment it is returned, large enough, and aligned as asked. */
module SharedAnswers {
  import opened AllocTree
  import opened Buckets
  import opened Concurrency
  import opened Custody
  import opened Exclusion
  import opened Interleaving
  import opened Nodes
  import opened Pool
  import opened PoolAlignment
  import opened PoolService
  import opened SharedAlignment
  import opened SharedTerritory
  import opened SizeClasses
  import opened Wrappers

  /** The machine does not start calls with an alignment of 0. */
  predicate Begins(call: Call) {
    call.CallMalloc? ==> call.alignment > 0
  }

  /** The call each thread is in, or was last in. */
  function Noted(w: World, asked: map<nat, Call>, m: Move): map<nat, Call> {
    if m.thread < |w.pcs| && w.pcs[m.thread] == Idle && Begins(m.choice.call) then asked[m.thread := m.choice.call]
    else asked
  }

  function Asked(w: World, asked: map<nat, Call>, schedule: seq<Move>): map<nat, Call>
    decreases |schedule|
  {
    if |schedule| == 0 then asked else Asked(Advance(w, schedule[0]), Noted(w, asked, schedule[0]), schedule[1..])
  }

  /** What a node must be to answer a malloc; `aligned` if alignments are looked at too. */
  predicate Serving(n: Node, call: Call, aligned: bool) {
    && call.CallMalloc?
    && (call.size <= MIB ==> n.size >= call.size)
    && (aligned && Supported(call.alignment) ==> n.address % call.alignment == 0)
  }

  predicate SizedCall(call: Call, size: nat) {
    call.CallMalloc? && call.size == size
  }

  predicate SectionServes(s: Section, call: Call, aligned: bool) {
    match s
    case Pop(size, alignment, bucket, first) => call == CallMalloc(size, alignment)
    case InsertTree(n, after) => Serving(n, call, aligned) && (after.ChunkNext? ==> after.size == call.size)
    case RemoveTree(address) => call == CallFree(address)
    case InsertBucket(n, after) => if after.MapNext? then SizedCall(call, after.size) else call.CallFree?
    case PushBlock(size, supply) => SizedCall(call, size) && (aligned ==> SupplyAligned(call.alignment, supply))
  }

  /** Where a thread is belongs to the call it is in. */
  predicate Serves(pc: PC, call: Call, aligned: bool) {
    match pc
    case Idle => true
    case Test(size, alignment) => call == CallMalloc(size, alignment)
    case Scan(size, alignment, bucket) => call == CallMalloc(size, alignment)
    case Want(s) => SectionServes(s, call, aligned)
    case Enter(s) => SectionServes(s, call, aligned)
    case Loaded(s, v) => SectionServes(s, call, aligned)
    case Leave(s, got) => SectionServes(s, call, aligned)
    case WantRemaining(size, alignment) => call == CallMalloc(size, alignment)
    case Measure(size, alignment) => call == CallMalloc(size, alignment)
    case Measured(size, alignment, cursor, remaining) => call == CallMalloc(size, alignment)
    case SetChunk(base, size) => SizedCall(call, size)
    case Unlock => call.CallMalloc?
  }

  /** The answer is fixed. */
  predicate Answered(pc: PC) {
    pc.Idle? || pc.SetChunk? || pc.Unlock?
  }

  ghost predicate Reply(made: multiset<Node>, r: Outcome, call: Call, aligned: bool) {
    r == Null || (r.Address? && exists n :: n in made && n.address == r.address && Serving(n, call, aligned))
  }

  ghost predicate Replied(w: World, t: nat, call: Call, aligned: bool) {
    t in w.returned && Reply(w.made, w.returned[t], call, aligned)
  }

  ghost predicate ThreadOk(w: World, asked: map<nat, Call>, t: nat, aligned: bool)
    requires t < |w.pcs|
  {
    var pc := w.pcs[t];
    && (pc != Idle ==> t in asked && Serves(pc, asked[t], aligned))
    && (t in asked && asked[t].CallMalloc? && Answered(pc) ==> Replied(w, t, asked[t], aligned))
    && (pc.Leave? && pc.section.InsertTree? ==> pc.section.node in Bag(w.pool.alloc))
  }

  ghost predicate Answers(w: World, asked: map<nat, Call>, aligned: bool) {
    forall t {:trigger w.pcs[t]} | 0 <= t < |w.pcs| :: ThreadOk(w, asked, t, aligned)
  }

  /** What the caller and the system owe where alignments are looked at. */
  ghost predicate AnswerOwed(w: World, asked: map<nat, Call>, t: nat, c: Choice) {
    && AlignmentOwed(w, t, c)
    && (t < |w.pcs| && w.pcs[t].Enter? && w.pcs[t].section.PushBlock? && t in asked && asked[t].CallMalloc? ==>
          SupplyAligned(asked[t].alignment, c.supply))
  }

  // ---------------------------------------------------------------- a step of the thread itself

  lemma IdleAnswers(w: World, asked: map<nat, Call>, t: nat, c: Choice, aligned: bool)
    requires |w.pool.free| == SLOTS && t < |w.pcs| && w.pcs[t] == Idle && ThreadOk(w, asked, t, aligned)
    ensures |Step(w, t, c).pcs| == |w.pcs| && ThreadOk(Step(w, t, c), Noted(w, asked, Move(t, c)), t, aligned)
  {
  }

  /** The steps that neither load, store nor leave a section. */
  lemma QuietAnswers(w: World, asked: map<nat, Call>, t: nat, c: Choice, aligned: bool)
    requires |w.pool.free| == SLOTS && t < |w.pcs| && PcSane(w.pcs[t]) && Quiet(w.pcs[t]) && w.pcs[t] != Idle
    requires !w.pcs[t].Enter? && ThreadOk(w, asked, t, aligned)
    ensures |Step(w, t, c).pcs| == |w.pcs| && ThreadOk(Step(w, t, c), asked, t, aligned)
  {
    var w' := Step(w, t, c);
    assert w'.made == w.made && w'.returned == w.returned;
  }

  lemma EnterAnswers(w: World, asked: map<nat, Call>, t: nat, c: Choice, aligned: bool)
    requires |w.pool.free| == SLOTS && t < |w.pcs| && PcSane(w.pcs[t]) && w.pcs[t].Enter? && ThreadOk(w, asked, t, aligned)
    requires aligned ==> AnswerOwed(w, asked, t, c)
    ensures |Step(w, t, c).pcs| == |w.pcs| && ThreadOk(Step(w, t, c), asked, t, aligned)
  {
  }

  lemma LoadedAnswers(w: World, asked: map<nat, Call>, t: nat, c: Choice, aligned: bool)
    requires |w.pool.free| == SLOTS && t < |w.pcs| && PcSane(w.pcs[t]) && w.pcs[t].Loaded? && ThreadOk(w, asked, t, aligned)
    ensures |Step(w, t, c).pcs| == |w.pcs| && ThreadOk(Step(w, t, c), asked, t, aligned)
  {
    var s, v := w.pcs[t].section, w.pcs[t].view;
    if s.InsertTree? {
      InsertBag(v.tree, s.node);
    }
  }

  lemma PopAnswers(w: World, asked: map<nat, Call>, t: nat, s: Section, got: Option<Node>, aligned: bool)
    requires t < |w.pcs| && PcSane(Leave(s, got)) && s.Pop? && t in asked && SectionServes(s, asked[t], aligned)
    requires got.Some? ==> Serving(got.value, asked[t], aligned)
    ensures |Out(w, t, s, got).pcs| == |w.pcs| && ThreadOk(Out(w, t, s, got), asked, t, aligned)
  {
  }

  lemma InsertAnswers(w: World, asked: map<nat, Call>, t: nat, s: Section, got: Option<Node>, aligned: bool)
    requires t < |w.pcs| && PcSane(Leave(s, got)) && s.InsertTree? && t in asked && SectionServes(s, asked[t], aligned)
    requires s.node in w.made
    ensures var w' := Out(w, t, s, got);
            && |w'.pcs| == |w.pcs| && t in w'.returned && w'.returned[t] == Address(s.node.address)
            && ThreadOk(w', asked, t, aligned)
  {
    var w' := Out(w, t, s, got);
    assert w'.made == w.made && w'.returned[t] == Address(s.node.address);
    assert Replied(w', t, asked[t], aligned);
  }

  lemma RefillServes(p: Pool, base: nat, call: Call, aligned: bool)
    requires call.CallMalloc? && (aligned ==> SupplyAligned(call.alignment, Some(base)))
    ensures Serving(RefillNode(p, base, call.size), call, aligned)
  {
    BucketsFit(call.size, 0);
    if aligned && Supported(call.alignment) {
      SuppliedIsAligned(base, call.alignment);
    }
  }

  lemma PushAnswers(w: World, asked: map<nat, Call>, t: nat, s: Section, got: Option<Node>, aligned: bool)
    requires t < |w.pcs| && PcSane(Leave(s, got)) && s.PushBlock? && t in asked && SectionServes(s, asked[t], aligned)
    ensures |Out(w, t, s, got).pcs| == |w.pcs| && ThreadOk(Out(w, t, s, got), asked, t, aligned)
  {
    if s.supply.Some? {
      RefillServes(w.pool, s.supply.value, asked[t], aligned);
    }
  }

  lemma OutAnswers(w: World, asked: map<nat, Call>, t: nat, s: Section, got: Option<Node>, aligned: bool)
    requires t < |w.pcs| && PcSane(Leave(s, got)) && t in asked && SectionServes(s, asked[t], aligned)
    requires s.Pop? && got.Some? ==> Serving(got.value, asked[t], aligned)
    requires s.InsertTree? ==> s.node in w.made
    ensures |Out(w, t, s, got).pcs| == |w.pcs| && ThreadOk(Out(w, t, s, got), asked, t, aligned)
  {
    match s
    case Pop(_, _, _, _) => PopAnswers(w, asked, t, s, got, aligned);
    case InsertTree(_, _) => InsertAnswers(w, asked, t, s, got, aligned);
    case PushBlock(_, _) => PushAnswers(w, asked, t, s, got, aligned);
    case _ =>
  }

  lemma PoppedServes(w: World, asked: map<nat, Call>, t: nat, aligned: bool)
    requires Inv(w) && (aligned ==> AlignedWorld(w)) && t < |w.pcs| && ThreadOk(w, asked, t, aligned)
    requires w.pcs[t].Leave? && w.pcs[t].section.Pop? && w.pcs[t].got.Some?
    ensures Serving(w.pcs[t].got.value, asked[t], aligned)
  {
    PoppedFits(w, t);
    if aligned && Supported(w.pcs[t].section.alignment) {
      PoppedAligned(w, t);
    }
  }

  lemma TreeIsMade(w: World, n: Node)
    requires Accounted(w) && n in Bag(w.pool.alloc)
    ensures n in w.made
  {
    assert n in All(w.pool);
  }

  lemma LeaveAnswers(w: World, asked: map<nat, Call>, t: nat, c: Choice, aligned: bool)
    requires Inv(w) && (aligned ==> AlignedWorld(w)) && t < |w.pcs| && ThreadOk(w, asked, t, aligned) && w.pcs[t].Leave?
    ensures |Step(w, t, c).pcs| == |w.pcs| && ThreadOk(Step(w, t, c), asked, t, aligned)
  {
    var s, got := w.pcs[t].section, w.pcs[t].got;
    var v := w.(owner := w.owner - {LockOf(s)});
    assert Step(w, t, c) == Out(v, t, s, got);
    if s.Pop? && got.Some? {
      PoppedServes(w, asked, t, aligned);
    } else if s.InsertTree? {
      TreeIsMade(w, s.node);
    }
    OutAnswers(v, asked, t, s, got, aligned);
  }

  lemma CarvedServes(p: Pool, call: Call, aligned: bool)
    requires call.CallMalloc? && 0 < call.alignment <= MAX_ALIGNMENT && Carves(p, call.size, call.alignment)
    ensures Serving(CarvedNode(p, call.size, call.alignment), call, aligned)
  {
    BucketsFit(call.size, 0);
    if Supported(call.alignment) {
      CarvedIsAligned(p, call.size, call.alignment);
    }
  }

  lemma CutReplies(w: World, asked: map<nat, Call>, t: nat, c: Choice, aligned: bool)
    requires |w.pool.free| == SLOTS && t < |w.pcs| && PcSane(w.pcs[t]) && w.pcs[t].Measured? && ThreadOk(w, asked, t, aligned)
    ensures |Step(w, t, c).pcs| == |w.pcs| && ThreadOk(Step(w, t, c), asked, t, aligned)
  {
    var pc := w.pcs[t];
    var seen := MeasuredPool(w.pool, pc.cursor, pc.remaining);
    if Carves(seen, pc.size, pc.alignment) {
      CarvedServes(seen, asked[t], aligned);
    }
  }

  lemma OwnAnswers(w: World, asked: map<nat, Call>, t: nat, c: Choice, aligned: bool)
    requires Inv(w) && (aligned ==> AlignedWorld(w) && AnswerOwed(w, asked, t, c)) && t < |w.pcs|
    requires ThreadOk(w, asked, t, aligned)
    ensures |Step(w, t, c).pcs| == |w.pcs| && ThreadOk(Step(w, t, c), Noted(w, asked, Move(t, c)), t, aligned)
  {
    var pc := w.pcs[t];
    if pc == Idle {
      IdleAnswers(w, asked, t, c, aligned);
    } else if pc.Leave? {
      LeaveAnswers(w, asked, t, c, aligned);
    } else if pc.Measured? {
      CutReplies(w, asked, t, c, aligned);
    } else if pc.Loaded? {
      LoadedAnswers(w, asked, t, c, aligned);
    } else if pc.Enter? {
      EnterAnswers(w, asked, t, c, aligned);
    } else {
      QuietAnswers(w, asked, t, c, aligned);
    }
  }

  // ---------------------------------------------------------------- the other threads

  lemma OutReturns(w: World, t: nat, s: Section, got: Option<Node>)
    requires t < |w.pcs| && PcSane(Leave(s, got))
    ensures var w' := Out(w, t, s, got);
            w.made <= w'.made && forall u | u != t :: (u in w'.returned <==> u in w.returned)
                                                     && (u in w.returned ==> w'.returned[u] == w.returned[u])
  {
  }

  lemma CutReturns(w: World, t: nat, size: nat, alignment: nat, cursor: nat, remaining: nat)
    requires t < |w.pcs| && alignment > 0
    ensures w.made <= Cut(w, t, size, alignment, cursor, remaining).made
    ensures Cut(w, t, size, alignment, cursor, remaining).returned == w.returned
  {
  }

  lemma OtherReturns(w: World, t: nat, c: Choice)
    requires |w.pool.free| == SLOTS && t < |w.pcs| && PcSane(w.pcs[t]) && !w.pcs[t].Leave? && !w.pcs[t].Measured?
    ensures var w' := Step(w, t, c);
            w'.made == w.made && forall u | u != t :: (u in w'.returned <==> u in w.returned)
                                                     && (u in w.returned ==> w'.returned[u] == w.returned[u])
  {
  }

  /** Nodes are never unmade, and a step answers nobody but its own thread. */
  lemma StepReturns(w: World, t: nat, c: Choice)
    requires Sane(w) && t < |w.pcs|
    ensures var w' := Step(w, t, c);
            w.made <= w'.made && forall u | u != t :: (u in w'.returned <==> u in w.returned)
                                                     && (u in w.returned ==> w'.returned[u] == w.returned[u])
  {
    var pc := w.pcs[t];
    if pc.Leave? {
      OutReturns(w.(owner := w.owner - {LockOf(pc.section)}), t, pc.section, pc.got);
    } else if pc.Measured? {
      CutReturns(w, t, pc.size, pc.alignment, pc.cursor, pc.remaining);
    } else {
      OtherReturns(w, t, c);
    }
  }

  lemma ReplyStays(made: multiset<Node>, more: multiset<Node>, r: Outcome, call: Call, aligned: bool)
    requires Reply(made, r, call, aligned) && made <= more
    ensures Reply(more, r, call, aligned)
  {
    if r.Address? {
      var n :| n in made && n.address == r.address && Serving(n, call, aligned);
      assert n in more;
    }
  }

  /** A thread leaving the tree's section still holds its lock, so its node is where it was put. */
  lemma TreeStays(w: World, t: nat, c: Choice, u: nat)
    requires Inv(w) && t < |w.pcs| && u < |w.pcs| && u != t && w.pcs[u].Leave? && w.pcs[u].section.InsertTree?
    ensures Step(w, t, c).pool.alloc == w.pool.alloc
  {
    assert Holds(w.pcs[u], TreeLock);
    if Holds(w.pcs[t], TreeLock) {
      OneInside(w, t, u, TreeLock);
    }
    StepSpares(w, t, c, TreeLock);
  }

  lemma ThreadStays(w: World, w': World, asked: map<nat, Call>, asked': map<nat, Call>, u: nat, aligned: bool)
    requires u < |w.pcs| == |w'.pcs| && w'.pcs[u] == w.pcs[u] && ThreadOk(w, asked, u, aligned)
    requires u in asked <==> u in asked'
    requires u in asked ==> asked'[u] == asked[u]
    requires u in w.returned ==> u in w'.returned && w'.returned[u] == w.returned[u]
    requires w.made <= w'.made
    requires w.pcs[u].Leave? && w.pcs[u].section.InsertTree? ==> w'.pool.alloc == w.pool.alloc
    ensures ThreadOk(w', asked', u, aligned)
  {
    if u in asked && asked[u].CallMalloc? && Answered(w.pcs[u]) {
      ReplyStays(w.made, w'.made, w.returned[u], asked[u], aligned);
    }
  }

  lemma OthersAnswer(w: World, asked: map<nat, Call>, t: nat, c: Choice, u: nat, aligned: bool)
    requires Inv(w) && t < |w.pcs| && u < |w.pcs| && u != t && ThreadOk(w, asked, u, aligned)
    ensures |Step(w, t, c).pcs| == |w.pcs| && ThreadOk(Step(w, t, c), Noted(w, asked, Move(t, c)), u, aligned)
  {
    StepPcs(w, t, c);
    StepReturns(w, t, c);
    if w.pcs[u].Leave? && w.pcs[u].section.InsertTree? {
      TreeStays(w, t, c, u);
    }
    ThreadStays(w, Step(w, t, c), asked, Noted(w, asked, Move(t, c)), u, aligned);
  }

  lemma StepAnswers(w: World, asked: map<nat, Call>, t: nat, c: Choice, aligned: bool)
    requires Inv(w) && (aligned ==> AlignedWorld(w) && AnswerOwed(w, asked, t, c)) && t < |w.pcs|
    requires Answers(w, asked, aligned)
    ensures Answers(Step(w, t, c), Noted(w, asked, Move(t, c)), aligned)
  {
    var w', asked' := Step(w, t, c), Noted(w, asked, Move(t, c));
    assert ThreadOk(w, asked, t, aligned);
    OwnAnswers(w, asked, t, c, aligned);
    forall u | 0 <= u < |w'.pcs|
      ensures ThreadOk(w', asked', u, aligned)
    {
      if u != t {
        assert ThreadOk(w, asked, u, aligned);
        OthersAnswer(w, asked, t, c, u, aligned);
      }
    }
  }

  // ---------------------------------------------------------------- runs

  ghost predicate AnswerOwedRun(w: World, asked: map<nat, Call>, schedule: seq<Move>)
    decreases |schedule|
  {
    |schedule| > 0 ==>
      var m := schedule[0];
      AnswerOwed(w, asked, m.thread, m.choice) && AnswerOwedRun(Advance(w, m), Noted(w, asked, m), schedule[1..])
  }

  lemma {:induction false} RunAnswers(w: World, asked: map<nat, Call>, schedule: seq<Move>, aligned: bool)
    requires Inv(w) && Answers(w, asked, aligned)
    requires aligned ==> AlignedWorld(w) && AnswerOwedRun(w, asked, schedule)
    ensures Answers(Play(w, schedule), Asked(w, asked, schedule), aligned)
    decreases |schedule|
  {
    if |schedule| > 0 {
      var m := schedule[0];
      AdvanceKeeps(w, m);
      if m.thread < |w.pcs| {
        StepAnswers(w, asked, m.thread, m.choice, aligned);
        if aligned {
          StepAlignedWorld(w, m.thread, m.choice);
        }
      }
      RunAnswers(Advance(w, m), Noted(w, asked, m), schedule[1..], aligned);
    }
  }

  lemma NoneAsked(p: Pool, threads: nat, aligned: bool)
    ensures Answers(Fresh(p, threads), map[], aligned)
  {
    var w := Fresh(p, threads);
    forall t | 0 <= t < |w.pcs|
      ensures ThreadOk(w, map[], t, aligned)
    {
      assert w.pcs[t] == Idle;
    }
  }

  /** Any number of threads on any well-formed pool, whatever they ask for: a thread whose malloc is over has been
      answered, and an address it was given is that of a node large enough for its request (of at most 1 MiB). */
  lemma ThreadsAreServed(p: Pool, threads: nat, schedule: seq<Move>, t: nat)
    requires WellFormed(p)
    ensures var (w, asked) := (Play(Fresh(p, threads), schedule), Asked(Fresh(p, threads), map[], schedule));
            t < |w.pcs| && t in asked && asked[t].CallMalloc? && w.pcs[t] == Idle ==>
              t in w.returned && Reply(w.made, w.returned[t], asked[t], false)
  {
    FreshInv(p, threads);
    NoneAsked(p, threads, false);
    RunAnswers(Fresh(p, threads), map[], schedule, false);
    var (w, asked) := (Play(Fresh(p, threads), schedule), Asked(Fresh(p, threads), map[], schedule));
    if t < |w.pcs| {
      assert ThreadOk(w, asked, t, false);
    }
  }

  /** And aligned as asked, popped, carved or refilled, if the pool was and the run keeps it so. */
  lemma ThreadsAreServedAligned(p: Pool, threads: nat, schedule: seq<Move>, t: nat)
    requires WellFormed(p) && AlignedPool(p) && AnswerOwedRun(Fresh(p, threads), map[], schedule)
    ensures var (w, asked) := (Play(Fresh(p, threads), schedule), Asked(Fresh(p, threads), map[], schedule));
            t < |w.pcs| && t in asked && asked[t].CallMalloc? && w.pcs[t] == Idle ==>
              t in w.returned && Reply(w.made, w.returned[t], asked[t], true)
  {
    FreshInv(p, threads);
    FreshAligned(p, threads);
    NoneAsked(p, threads, true);
    RunAnswers(Fresh(p, threads), map[], schedule, true);
    var (w, asked) := (Play(Fresh(p, threads), schedule), Asked(Fresh(p, threads), map[], schedule));
    if t < |w.pcs| {
      assert ThreadOk(w, asked, t, true);
    }
  }

  /** Thread `t` returns the address of a node fit for its call, that is in the tree and nowhere else, and overlaps
      no other node there has ever been. */
  ghost predicate AnswersAlone(w: World, t: nat, c: Choice, call: Call)
    requires t < |w.pcs| && w.pcs[t].Leave? && w.pcs[t].section.InsertTree?
  {
    var n, w' := w.pcs[t].section.node, Advance(w, Move(t, c));
    && Serving(n, call, false)
    && t in w'.returned && w'.returned[t] == Address(n.address)
    && n in Bag(w'.pool.alloc) && All(w'.pool)[n] == 1 && w'.lost[n] == 0
    && (forall u | 0 <= u < |w'.pcs| :: InHand(w'.pcs[u]) != Some(n))
    && (forall y | y in w.made && y != n :: Disjoint(y.address, y.size, n.address, n.size))
  }

  /** So it is at the moment of every answer, from the seeded pool. */
  lemma AnsweredAlone(base: nat, length: nat, threads: nat, schedule: seq<Move>, t: nat, c: Choice)
    requires FirstBlock(base, length) && OwedRun(Fresh(FirstPool(base, length), threads), schedule, Whole)
    requires var w := Play(Fresh(FirstPool(base, length), threads), schedule);
             t < |w.pcs| && w.pcs[t].Leave? && w.pcs[t].section.InsertTree?
    ensures var w, asked := Play(Fresh(FirstPool(base, length), threads), schedule),
                            Asked(Fresh(FirstPool(base, length), threads), map[], schedule);
            t in asked && AnswersAlone(w, t, c, asked[t])
  {
    var w := Fresh(FirstPool(base, length), threads);
    FreshInv(FirstPool(base, length), threads);
    NoneAsked(FirstPool(base, length), threads, false);
    RunAnswers(w, map[], schedule, false);
    ThreadsAreSound(base, length, threads, schedule);
    AnswerInWorld(Play(w, schedule), Asked(w, map[], schedule), t, c);
  }

  lemma AnswerInWorld(w: World, asked: map<nat, Call>, t: nat, c: Choice)
    requires Inv(w) && Apart(w, Whole) && t < |w.pcs| && w.pcs[t].Leave? && w.pcs[t].section.InsertTree?
    requires Answers(w, asked, false)
    ensures t in asked && AnswersAlone(w, t, c, asked[t])
  {
    var pc, w' := w.pcs[t], Advance(w, Move(t, c));
    var n := pc.section.node;
    assert ThreadOk(w, asked, t, false);
    AdvanceKeeps(w, Move(t, c));
    OutMemory(w.(owner := w.owner - {LockOf(pc.section)}), t, pc.section, pc.got);
    OnlyInTree(w', n);
    TreeIsMade(w, n);
    forall y | y in w.made && y != n
      ensures Disjoint(y.address, y.size, n.address, n.size)
    {
      MadeApart(w, y, n);
    }
  }

  lemma OnlyInTree(w: World, n: Node)
    requires Accounted(w) && n in Bag(w.pool.alloc)
    ensures All(w.pool)[n] == 1 && w.lost[n] == 0
    ensures forall u | 0 <= u < |w.pcs| :: InHand(w.pcs[u]) != Some(n)
  {
    TreeIsMade(w, n);
    InOnePlace(w, n);
    forall u | 0 <= u < |w.pcs|
      ensures InHand(w.pcs[u]) != Some(n)
    {
      if InHand(w.pcs[u]) == Some(n) {
        HeldNotInPool(w, u, n);
      }
    }
  }
}
