/** A session: armed by a setup, committed to the coprocessor, polled for completion.  The coprocessor
    is the set of requests it has accepted and not yet answered; answering one sets the valid bit. */
module Session {
  import opened Chain

  datatype State = Invalid | Init | InitComplete | Inflight | InflightNoReturn | Complete

  /** `arms` counts the setups, `issued` the dispatches; a dispatch is known by its number. */
  datatype Device = Device(state: State, request: Request, arms: nat, issued: nat,
                           outstanding: set<nat>, answered: set<nat>)

  datatype Event =
    | Prep(last: bool, src: nat, srcSize: nat, tgt: nat, tgtSize: nat)
    | AddTarget(tgt: nat, tgtSize: nat, format: bv8)
    | Commit(accepted: bool)
    | Answer(id: nat)
    | Poll

  /** A session as its constructor leaves it, after a first setup that did not fail. */
  function Created(r: Request, src: nat, srcSize: nat, tgt: nat, tgtSize: nat, format: bv8): Device {
    Device(InitComplete, First(r, src, srcSize, tgt, tgtSize, format, FIRST).0, 1, 0, {}, {})
  }

  function Dispatched(d: Device, accepted: bool): Device {
    d.(state := Inflight, request := d.request.(valid := false), issued := d.issued + 1,
       outstanding := if accepted then d.outstanding + {d.issued} else d.outstanding)
  }

  /** What `cop_session_iscomplete` returns. */
  function Reported(s: State, valid: bool): int {
    if s == Complete || ((s == Inflight || s == InflightNoReturn) && valid) then 1 else 0
  }

  function Step(d: Device, e: Event): Device {
    match e
    case Prep(last, src, srcSize, tgt, tgtSize) =>
      d.(state := InitComplete, arms := d.arms + 1,
         request := Next(d.request, src, srcSize, tgt, tgtSize, if last then LAST else MIDDLE))
    case AddTarget(tgt, tgtSize, format) =>
      // armed even when the setup has refused the target
      d.(state := InitComplete, arms := d.arms + 1, request := Resume(d.request, tgt, tgtSize, format).0)
    case Commit(accepted) => if d.state == InitComplete then Dispatched(d, accepted) else d
    case Answer(id) =>
      if id in d.outstanding then
        d.(request := d.request.(valid := true), outstanding := d.outstanding - {id}, answered := d.answered + {id})
      else d
    case Poll => if Reported(d.state, d.request.valid) == 1 then d.(state := Complete) else d
  }

  function Run(d: Device, es: seq<Event>): Device {
    if |es| == 0 then d else Step(Run(d, es[..|es| - 1]), es[|es| - 1])
  }

  // ---------------------------------------------------------------- chaining

  predicate Preps(e: Event) {
    e.Prep?
  }

  predicate Resumes(e: Event) {
    e.AddTarget? && Given(e.tgt, e.tgtSize)
  }

  predicate SetsUp(e: Event) {
    Preps(e) || Resumes(e)
  }

  predicate GivesTarget(e: Event) {
    SetsUp(e) && Given(e.tgt, e.tgtSize)
  }

  predicate GivesSource(e: Event) {
    e.Prep? && Given(e.src, e.srcSize)
  }

  /** The last event of a kind, or -1. */
  function Latest(es: seq<Event>, kind: Event -> bool): (k: int)
    ensures -1 <= k < |es| && (k >= 0 ==> kind(es[k]))
    ensures forall i | k < i < |es| :: !kind(es[i])
  {
    if |es| == 0 then -1
    else if kind(es[|es| - 1]) then |es| - 1
    else Latest(es[..|es| - 1], kind)
  }

  function Count(es: seq<Event>, kind: Event -> bool): nat {
    if |es| == 0 then 0 else Count(es[..|es| - 1], kind) + (if kind(es[|es| - 1]) then 1 else 0)
  }

  predicate FormatsOnly(es: seq<Event>) {
    forall k | 0 <= k < |es| && es[k].AddTarget? :: IsFormat(es[k].format)
  }

  function Flag(on: bool, bit: bv8): bv8 {
    if on then bit else 0
  }

  function Combine(format: bv8, resumed: bool, targeted: bool): bv8 {
    format | Flag(resumed, 0x80) | Flag(targeted, 0x08)
  }

  lemma NextFlags(f: bv8, format: bv8, resumed: bool, targeted: bool, given: bool)
    requires IsFormat(format) && f == Combine(format, resumed, targeted)
    ensures (if given then f | DDE_PRESENT else f & !DDE_PRESENT) & !RESUME == Combine(format, false, given)
  {
  }

  lemma ResumeFlags(format: bv8)
    ensures RESUME | format | DDE_PRESENT == Combine(format, true, true)
  {
  }

  /** The format of the latest resume, or else of the first block. */
  function FormatAfter(format: bv8, es: seq<Event>): bv8 {
    var resume := Latest(es, Resumes);
    if resume == -1 then format else es[resume].format
  }

  /** Whether the latest setup was a resume. */
  predicate ResumedAfter(es: seq<Event>) {
    var setup := Latest(es, SetsUp);
    setup >= 0 && Resumes(es[setup])
  }

  /** Whether the latest setup, or else the first block, gave a target. */
  predicate TargetedAfter(es: seq<Event>) {
    var setup := Latest(es, SetsUp);
    setup == -1 || GivesTarget(es[setup])
  }

  lemma HistoryStep(format: bv8, es: seq<Event>)
    requires |es| > 0
    ensures var before, e := es[..|es| - 1], es[|es| - 1];
            && FormatAfter(format, es) == (if Resumes(e) then e.format else FormatAfter(format, before))
            && ResumedAfter(es) == (if SetsUp(e) then Resumes(e) else ResumedAfter(before))
            && TargetedAfter(es) == (if SetsUp(e) then Given(e.tgt, e.tgtSize) else TargetedAfter(before))
  {
  }

  lemma FormatIs(format: bv8, es: seq<Event>)
    requires IsFormat(format) && FormatsOnly(es)
    ensures IsFormat(FormatAfter(format, es))
  {
  }

  lemma StepFlags(d: Device, e: Event, format: bv8, resumed: bool, targeted: bool)
    requires IsFormat(format) && d.request.flags == Combine(format, resumed, targeted)
    ensures Step(d, e).request.flags ==
            if e.Prep? then Combine(format, false, Given(e.tgt, e.tgtSize))
            else if Resumes(e) then Combine(e.format, true, true)
            else Combine(format, resumed, targeted)
  {
    if e.Prep? {
      NextFlags(d.request.flags, format, resumed, targeted, Given(e.tgt, e.tgtSize));
    } else if Resumes(e) {
      ResumeFlags(e.format);
    }
  }

  /** The flags after any run: the format, RESUME exactly when the latest setup was a resume,
      DDE_PRESENT exactly when it gave a target, and nothing else. */
  lemma {:induction false} FlagsOfRun(d: Device, format: bv8, es: seq<Event>)
    requires IsFormat(format) && FormatsOnly(es) && d.request.flags == format | 0x08
    ensures Run(d, es).request.flags == Combine(FormatAfter(format, es), ResumedAfter(es), TargetedAfter(es))
  {
    if |es| > 0 {
      var before, e := es[..|es| - 1], es[|es| - 1];
      FlagsOfRun(d, format, before);
      FormatIs(format, before);
      HistoryStep(format, es);
      StepFlags(Run(d, before), e, FormatAfter(format, before), ResumedAfter(before), TargetedAfter(before));
    }
  }

  lemma CountUp(n: nat)
    ensures (n % 256 + 1) % 256 == (n + 1) % 256
  {
  }

  /** Sequence number and chain field after any run: the number of middle and last blocks modulo 256,
      and what the latest of them said; resumes change neither. */
  lemma {:induction false} OrderOfRun(d: Device, es: seq<Event>)
    requires d.request.seqNum < 256
    ensures var r, prep := Run(d, es).request, Latest(es, Preps);
            && r.seqNum == (d.request.seqNum + Count(es, Preps)) % 256
            && r.ch == (if prep == -1 then d.request.ch else if es[prep].last then 1 else 0)
            && r.statusCh == d.request.statusCh
  {
    if |es| > 0 {
      OrderOfRun(d, es[..|es| - 1]);
      CountUp(d.request.seqNum + Count(es[..|es| - 1], Preps));
    }
  }

  /** The descriptors after any run: each is what the latest event that gave it gave. */
  lemma {:induction false} DescriptorsOfRun(d: Device, es: seq<Event>)
    ensures var r, src, tgt := Run(d, es).request, Latest(es, GivesSource), Latest(es, GivesTarget);
            && r.src == (if src == -1 then d.request.src else Dde(es[src].src, es[src].srcSize % 0x1_0000_0000, 0))
            && r.tgt == (if tgt == -1 then d.request.tgt else Dde(es[tgt].tgt, es[tgt].tgtSize % 0x1_0000_0000, 0))
  {
    if |es| > 0 {
      DescriptorsOfRun(d, es[..|es| - 1]);
    }
  }

  /** A chained decompression, in any order of preparing, adding targets, committing, answering and
      polling. */
  lemma ChainRuns(r: Request, src: nat, srcSize: nat, tgt: nat, tgtSize: nat, format: bv8, es: seq<Event>)
    requires Given(src, srcSize) && Given(tgt, tgtSize) && IsFormat(format) && FormatsOnly(es)
    ensures var q, prep := Run(Created(r, src, srcSize, tgt, tgtSize, format), es).request, Latest(es, Preps);
            && q.seqNum == Count(es, Preps) % 256
            && q.ch == (if prep == -1 then 2 else if es[prep].last then 1 else 0)
            && q.statusCh == 1
            && q.src == (var k := Latest(es, GivesSource);
                         if k == -1 then Dde(src, srcSize % 0x1_0000_0000, 0)
                         else Dde(es[k].src, es[k].srcSize % 0x1_0000_0000, 0))
            && q.tgt == (var k := Latest(es, GivesTarget);
                         if k == -1 then Dde(tgt, tgtSize % 0x1_0000_0000, 0)
                         else Dde(es[k].tgt, es[k].tgtSize % 0x1_0000_0000, 0))
            && q.flags == Combine(FormatAfter(format, es), ResumedAfter(es), TargetedAfter(es))
    ensures (forall k | 0 <= k < |es| && es[k].AddTarget? :: es[k].format == format) ==>
              Run(Created(r, src, srcSize, tgt, tgtSize, format), es).request.flags & 0x30 == format
  {
    var d := Created(r, src, srcSize, tgt, tgtSize, format);
    FlagsOfRun(d, format, es);
    OrderOfRun(d, es);
    DescriptorsOfRun(d, es);
    FormatIs(format, es);
    FormatBits(FormatAfter(format, es), ResumedAfter(es), TargetedAfter(es));
  }

  lemma FormatBits(format: bv8, resumed: bool, targeted: bool)
    requires IsFormat(format)
    ensures Combine(format, resumed, targeted) & 0x30 == format
  {
  }

  predicate IsAnswer(e: Event) {
    e.Answer?
  }

  /** The valid bit is set only by an answer that has come since the latest setup. */
  lemma {:induction false} ValidIsAnswer(d: Device, es: seq<Event>)
    requires !d.request.valid
    ensures Run(d, es).request.valid ==> Latest(es, IsAnswer) > Latest(es, SetsUp)
  {
    if |es| > 0 {
      ValidIsAnswer(d, es[..|es| - 1]);
    }
  }

  // ---------------------------------------------------------------- dispatching

  ghost predicate Counted(d: Device) {
    && d.issued + (if d.state == InitComplete then 1 else 0) <= d.arms
    && (forall id | id in d.outstanding :: id < d.issued)
    && (forall id | id in d.answered :: id < d.issued)
    && d.outstanding !! d.answered
  }

  lemma StepCounted(d: Device, e: Event)
    requires Counted(d)
    ensures Counted(Step(d, e))
  {
  }

  /** Over every run dispatches never outnumber armings. */
  lemma {:induction false} RunCounted(d: Device, es: seq<Event>)
    requires Counted(d)
    ensures Counted(Run(d, es)) && Run(d, es).issued <= Run(d, es).arms
  {
    if |es| > 0 {
      RunCounted(d, es[..|es| - 1]);
      StepCounted(Run(d, es[..|es| - 1]), es[|es| - 1]);
    }
  }

  predicate Arms(e: Event) {
    e.Prep? || e.AddTarget?
  }

  predicate IsCommit(e: Event) {
    e.Commit?
  }

  /** Whether a session armed at the start is armed after these events: no commit since the latest setup, refused
      setups included. */
  predicate ArmedAfter(es: seq<Event>) {
    Latest(es, Arms) >= Latest(es, IsCommit)
  }

  /** The commits that dispatch. */
  function Dispatches(es: seq<Event>): nat {
    if |es| == 0 then 0
    else Dispatches(es[..|es| - 1]) + (if es[|es| - 1].Commit? && ArmedAfter(es[..|es| - 1]) then 1 else 0)
  }

  /** Every setup arms, given a target or not; exactly the first commit after one dispatches, accepted or not. */
  lemma {:induction false} ArmedIff(d: Device, es: seq<Event>)
    requires d.state == InitComplete
    ensures var q := Run(d, es);
            && (q.state == InitComplete <==> ArmedAfter(es))
            && q.arms == d.arms + Count(es, Arms) && q.issued == d.issued + Dispatches(es)
  {
    if |es| > 0 {
      ArmedIff(d, es[..|es| - 1]);
    }
  }

  /** A session is created armed once and with nothing dispatched. */
  lemma CreatedCounts(r: Request, src: nat, srcSize: nat, tgt: nat, tgtSize: nat, format: bv8, es: seq<Event>)
    ensures var q := Run(Created(r, src, srcSize, tgt, tgtSize, format), es);
            && (q.state == InitComplete <==> ArmedAfter(es))
            && q.arms == 1 + Count(es, Arms) && q.issued == Dispatches(es) <= q.arms
            && q.outstanding !! q.answered && forall id | id in q.outstanding + q.answered :: id < q.issued
  {
    ArmedIff(Created(r, src, srcSize, tgt, tgtSize, format), es);
    RunCounted(Created(r, src, srcSize, tgt, tgtSize, format), es);
  }

  /** A poll that reports completion records it, and nothing but a setup takes it back. */
  lemma {:induction false} FoundComplete(d: Device, es: seq<Event>)
    requires Reported(d.state, d.request.valid) == 1 && Armless(es)
    ensures Run(Step(d, Poll), es).state == Complete
  {
    if |es| > 0 {
      assert !Arms(es[|es| - 1]);
      FoundComplete(d, es[..|es| - 1]);
    }
  }

  /** The session is armed only while the coprocessor has nothing of it. */
  ghost predicate ArmedIdle(d: Device, es: seq<Event>) {
    forall k {:trigger es[k]} | 0 <= k < |es| && Arms(es[k]) :: Run(d, es[..k]).outstanding == {}
  }

  /** The latest dispatch is the only one that can be outstanding, and the valid bit, where a poll looks
      at it, is its answer. */
  ghost predicate Honest(d: Device) {
    && (d.state == InitComplete ==> d.outstanding == {})
    && (forall id | id in d.outstanding :: id + 1 == d.issued)
    && (Reported(d.state, d.request.valid) == 1 ==> d.issued > 0 && d.issued - 1 in d.answered)
  }

  lemma StepHonest(d: Device, e: Event)
    requires Honest(d) && (Arms(e) ==> d.outstanding == {})
    ensures Honest(Step(d, e))
  {
  }

  lemma PrefixArmedIdle(d: Device, es: seq<Event>)
    requires |es| > 0 && ArmedIdle(d, es)
    ensures ArmedIdle(d, es[..|es| - 1])
    ensures Arms(es[|es| - 1]) ==> Run(d, es[..|es| - 1]).outstanding == {}
  {
    var before := es[..|es| - 1];
    forall k | 0 <= k < |before| && Arms(before[k])
      ensures Run(d, before[..k]).outstanding == {}
    {
      assert before[k] == es[k] && before[..k] == es[..k];
    }
    assert Arms(es[|es| - 1]) ==> Run(d, es[..|es| - 1]).outstanding == {};
  }

  /** As long as it is armed only while idle, a session reports completion only when the coprocessor
      has answered its latest dispatch. */
  lemma {:induction false} ReportsAreHonest(d: Device, es: seq<Event>)
    requires Honest(d) && ArmedIdle(d, es)
    ensures Honest(Run(d, es))
    ensures Reported(Run(d, es).state, Run(d, es).request.valid) == 1 ==>
              Run(d, es).issued > 0 && Run(d, es).issued - 1 in Run(d, es).answered
  {
    if |es| > 0 {
      PrefixArmedIdle(d, es);
      ReportsAreHonest(d, es[..|es| - 1]);
      StepHonest(Run(d, es[..|es| - 1]), es[|es| - 1]);
    }
  }

  predicate Armless(es: seq<Event>) {
    forall k | 0 <= k < |es| :: !Arms(es[k])
  }

  lemma {:induction false} ArmlessIssues(d: Device, es: seq<Event>)
    requires d.state != InitComplete && Armless(es)
    ensures Run(d, es).issued == d.issued && Run(d, es).state != InitComplete
  {
    if |es| > 0 {
      assert !Arms(es[|es| - 1]);
      ArmlessIssues(d, es[..|es| - 1]);
    }
  }

  /** A committed request that has not been overtaken: in flight or found complete, its answer in the valid bit. */
  predicate Watched(d: Device, id: nat) {
    && (d.state == Inflight || d.state == Complete) && d.issued == id + 1
    && d.outstanding == (if id in d.answered then {} else {id})
    && (d.request.valid <==> id in d.answered)
    && (d.state == Complete ==> id in d.answered)
  }

  lemma {:induction false} StaysWatched(d: Device, es: seq<Event>, id: nat)
    requires Watched(d, id) && Armless(es)
    ensures Watched(Run(d, es), id)
  {
    if |es| > 0 {
      assert !Arms(es[|es| - 1]);
      StaysWatched(d, es[..|es| - 1], id);
    }
  }

  /** Committed while nothing is outstanding, and until it is armed again, a session is reported complete exactly when the
      coprocessor has answered: not earlier, and from then on by every poll. */
  lemma ReportsExactly(d: Device, es: seq<Event>)
    requires Counted(d) && d.state == InitComplete && d.outstanding == {} && Armless(es)
    ensures var q := Run(Step(d, Commit(true)), es);
            Reported(q.state, q.request.valid) == (if d.issued in q.answered then 1 else 0)
  {
    StaysWatched(Step(d, Commit(true)), es, d.issued);
  }

  /** After a commit and these events the session is reported complete although the dispatch just made has
      not been answered. */
  ghost predicate Stale(d: Device, es: seq<Event>) {
    var q := Run(Step(d, Commit(true)), es);
    Reported(q.state, q.request.valid) == 1 && d.issued !in q.answered
  }

  lemma IdleIsNotStale(d: Device, es: seq<Event>)
    requires Counted(d) && d.state == InitComplete && d.outstanding == {} && Armless(es)
    ensures !Stale(d, es)
  {
    var c := Step(d, Commit(true));
    StepHonest(d, Commit(true));
    ReportsAreHonest(c, es);
    ArmlessIssues(c, es);
  }

  /** And that is exact: a session committed from its armed state can come to be reported complete too early,
      before it is armed again, if and only if an earlier request is still outstanding. */
  lemma StaleIff(d: Device)
    requires Counted(d) && d.state == InitComplete
    ensures (exists es :: Armless(es) && Stale(d, es)) <==> d.outstanding != {}
  {
    if d.outstanding != {} {
      var id :| id in d.outstanding;
      var c, es := Step(d, Commit(true)), [Answer(id)];
      assert es[..0] == [] && Run(c, es[..0]) == c && Run(c, es) == Step(c, Answer(id));
      assert Armless(es) && Stale(d, es);
    } else {
      forall es | Armless(es)
        ensures !Stale(d, es)
      {
        IdleIsNotStale(d, es);
      }
    }
  }

  lemma RunMore(d: Device, es: seq<Event>, e: Event)
    ensures Run(d, es + [e]) == Step(Run(d, es), e)
  {
    assert (es + [e])[..|es|] == es;
  }

  lemma FourSteps(d: Device, a: Event, b: Event, c: Event, e: Event)
    ensures Run(d, [a, b, c, e]) == Step(Step(Step(Step(d, a), b), c), e)
  {
    RunMore(d, [], a);
    RunMore(d, [a], b);
    RunMore(d, [a, b], c);
    RunMore(d, [a, b, c], e);
    assert [] + [a] == [a] && [a] + [b] == [a, b] && [a, b] + [c] == [a, b, c] && [a, b, c] + [e] == [a, b, c, e];
  }

  /** Such a session: committed, prepared for the next block while the first is outstanding, committed again;
      the answer to the first request then counts for the second. */
  lemma StaleRun(r: Request, src: nat, srcSize: nat, tgt: nat, tgtSize: nat, format: bv8, next: Event)
    requires next.Prep?
    ensures var q := Run(Created(r, src, srcSize, tgt, tgtSize, format), [Commit(true), next, Commit(true), Answer(0)]);
            && Reported(q.state, q.request.valid) == 1
            && q.issued == 2 && 1 in q.outstanding && 1 !in q.answered
  {
    var d := Created(r, src, srcSize, tgt, tgtSize, format);
    FourSteps(d, Commit(true), next, Commit(true), Answer(0));
    var c := Step(Step(Step(d, Commit(true)), next), Commit(true));
    assert c.outstanding == {0, 1} && c.issued == 2 && c.state == Inflight && c.answered == {};
  }

  /** A refused dispatch is never reported complete, however long one polls, until the session is armed
      again. */
  lemma {:induction false} RefusedStaysInflight(d: Device, es: seq<Event>)
    requires d.state == InitComplete && d.outstanding == {} && Armless(es)
    ensures var q := Run(Step(d, Commit(false)), es);
            q.state == Inflight && !q.request.valid && q.outstanding == {} && Reported(q.state, q.request.valid) == 0
  {
    if |es| > 0 {
      assert !Arms(es[|es| - 1]);
      RefusedStaysInflight(d, es[..|es| - 1]);
    }
  }

  /** The session structure; what the coprocessor knows is kept as ghost state. */
  class CopSession {
    const crb: Crb
    var state: State
    ghost var arms: nat
    ghost var issued: nat
    ghost var outstanding: set<nat>
    ghost var answered: set<nat>

    ghost function View(): Device
      reads this, crb
    {
      Device(state, crb.View(), arms, issued, outstanding, answered)
    }

    // the constructor of a chained decompression, given a request block from the cache
    constructor (crb: Crb, src: nat, srcSize: nat, tgt: nat, tgtSize: nat, format: bv8)
      requires Given(src, srcSize) && Given(tgt, tgtSize)
      modifies crb
      ensures this.crb == crb && View() == Created(old(crb.View()), src, srcSize, tgt, tgtSize, format)
    {
      this.crb, state := crb, InitComplete;
      arms, issued, outstanding, answered := 1, 0, {}, {};
      new;
      var _ := crb.SetupFirst(src, srcSize, tgt, tgtSize, format, FIRST);
    }

    // cop_prep_next_decompression
    method PrepNext(last: bool, src: nat, srcSize: nat, tgt: nat, tgtSize: nat)
      modifies this, crb
      ensures View() == Step(old(View()), Prep(last, src, srcSize, tgt, tgtSize))
    {
      crb.SetupNext(src, srcSize, tgt, tgtSize, if last then LAST else MIDDLE);
      state, arms := InitComplete, arms + 1;
    }

    // cop_gunzip_add_tgt_buffer and its zlib and deflate twins
    method AddTargetBuffer(tgt: nat, tgtSize: nat, format: bv8)
      modifies this, crb
      ensures View() == Step(old(View()), AddTarget(tgt, tgtSize, format))
    {
      var _ := crb.SetupResume(tgt, tgtSize, format);
      state, arms := InitComplete, arms + 1;
    }

    // cop_commit_session_async: false is the source's NULL; `accepted` is what icswx comes to
    method CommitAsync(accepted: bool) returns (ok: bool)
      modifies this, crb
      ensures ok == (old(state) == InitComplete) && View() == Step(old(View()), Commit(accepted))
    {
      ok := false;
      if state == InitComplete {
        state := Inflight;
        crb.valid := false;
        outstanding := if accepted then outstanding + {issued} else outstanding;
        issued := issued + 1;
        ok := true;
      }
    }

    // cop_commit_session: the same, and a wait for the valid bit, set by the answer to some request
    method CommitAndWait(accepted: bool, ghost id: nat) returns (ok: bool)
      requires accepted && state == InitComplete ==> id in outstanding + {issued}
      modifies this, crb
      ensures ok == (old(state) == InitComplete)
      ensures View() == if ok && accepted then Step(Step(old(View()), Commit(accepted)), Answer(id))
                        else Step(old(View()), Commit(accepted))
    {
      ok := CommitAsync(accepted);
      if ok && accepted {
        Answered(id);
      }
    }

    // what the coprocessor does when it has processed a request
    method Answered(ghost id: nat)
      requires id in outstanding
      modifies this, crb
      ensures View() == Step(old(View()), Answer(id))
    {
      crb.valid := true;
      outstanding, answered := outstanding - {id}, answered + {id};
    }

    // cop_session_iscomplete
    method IsComplete() returns (r: int)
      modifies this
      ensures r == Reported(old(state), crb.valid) && View() == Step(old(View()), Poll)
    {
      if state == Complete {
        return 1;
      } else if state == Inflight || state == InflightNoReturn {
        if crb.valid {
          state := Complete;
          return 1;
        }
        return 0;
      }
      return 0;
    }
  }
}
