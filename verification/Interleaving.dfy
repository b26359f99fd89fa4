/** Any number of threads in malloc and free at once.  A step is what one thread does between two
    moments another may interfere: an unlocked look at a bucket's size, taking or releasing a lock,
    loading what the lock protects into the thread's own view, or storing back from that view. */
module Interleaving {
  import opened AllocTree
  import opened Buckets
  import opened Nodes
  import opened Pool
  import opened SizeClasses
  import opened Wrappers

  datatype Lock = RemainingLock | BucketLock(slot: nat) | TreeLock | BlockLock

  /** What a thread goes on to do when a leaf section is over; all but `Return` mean that it still
      holds the remaining lock. */
  datatype After = Return | Release | MapNext(size: nat) | ChunkNext(base: nat, size: nat)

  /** The pieces of code run under a leaf lock.  `first` tells the pop that follows the first look
      from the ones of the scan, which look again under the lock. */
  datatype Section =
    | Pop(size: nat, alignment: nat, bucket: nat, first: bool)
    | InsertTree(node: Node, after: After)
    | RemoveTree(address: nat)
    | InsertBucket(node: Node, after: After)
    | PushBlock(size: nat, supply: Option<nat>)

  datatype View = BucketView(nodes: seq<Node>) | TreeView(tree: Tree) | BlocksView(blocks: seq<Block>)

  datatype PC =
    | Idle
    | Test(size: nat, alignment: nat)
    | Scan(size: nat, alignment: nat, bucket: nat)
    | Want(section: Section)
    | Enter(section: Section)
    | Loaded(section: Section, view: View)
    | Leave(section: Section, got: Option<Node>)
    | WantRemaining(size: nat, alignment: nat)
    | Measure(size: nat, alignment: nat)
    | Measured(size: nat, alignment: nat, cursor: nat, remaining: nat)
    | SetChunk(base: nat, size: nat)
    | Unlock

  /** `made` is every node structure there has been, `lost` the ones no list and no thread has, and
      `returned` what each thread's latest malloc has to return. */
  datatype World = World(pool: Pool, owner: map<Lock, nat>, pcs: seq<PC>, made: multiset<Node>, lost: multiset<Node>,
                         returned: map<nat, Outcome>)

  datatype Call = CallMalloc(size: nat, alignment: nat) | CallFree(address: nat)

  /** What comes from outside: the next call of an idle thread, the system's answer to a refill. */
  datatype Choice = Choice(call: Call, supply: Option<nat>)

  // ---------------------------------------------------------------- the machine

  predicate Usable(alignment: nat) {
    0 < alignment <= MAX_ALIGNMENT
  }

  predicate NodeSane(n: Node) {
    n.cls < 4 && n.size >= 128
  }

  predicate SectionSane(s: Section) {
    match s
    case Pop(size, alignment, bucket, first) => bucket < 6 && Usable(alignment)
    case InsertTree(n, after) => NodeSane(n) && !after.MapNext?
    case RemoveTree(address) => true
    case InsertBucket(n, after) => NodeSane(n) && (after.Return? || after.MapNext?)
    case PushBlock(size, supply) => true
  }

  predicate PcSane(pc: PC) {
    match pc
    case Idle => true
    case Test(size, alignment) => Usable(alignment)
    case Scan(size, alignment, bucket) => bucket <= 6 && Usable(alignment)
    case Want(s) => SectionSane(s)
    case Enter(s) => SectionSane(s)
    case Loaded(s, view) =>
      && SectionSane(s)
      && (view.BucketView? <==> s.Pop? || s.InsertBucket?)
      && (view.TreeView? <==> s.InsertTree? || s.RemoveTree?)
      && (s.PushBlock? ==> s.supply.Some?)
    case Leave(s, got) => SectionSane(s) && (got.Some? ==> NodeSane(got.value) && (s.Pop? || s.RemoveTree?))
    case WantRemaining(size, alignment) => Usable(alignment)
    case Measure(size, alignment) => Usable(alignment)
    case Measured(size, alignment, cursor, remaining) => Usable(alignment)
    case SetChunk(base, size) => true
    case Unlock => true
  }

  function HomeSlot(n: Node): (s: nat)
    requires NodeSane(n)
    ensures s < SLOTS
  {
    Slot(n.cls, FitToBucket(n.size))
  }

  function PopSlot(alignment: nat, bucket: nat): (s: nat)
    requires bucket < 6
    ensures s < SLOTS
  {
    Slot(AlignmentToTree(alignment), bucket)
  }

  function LockOf(s: Section): Lock
    requires SectionSane(s)
  {
    match s
    case Pop(size, alignment, bucket, first) => BucketLock(PopSlot(alignment, bucket))
    case InsertTree(n, after) => TreeLock
    case RemoveTree(address) => TreeLock
    case InsertBucket(n, after) => BucketLock(HomeSlot(n))
    case PushBlock(size, supply) => BlockLock
  }

  function ViewOf(p: Pool, s: Section): View
    requires |p.free| == SLOTS && SectionSane(s)
  {
    match s
    case Pop(size, alignment, bucket, first) => BucketView(p.free[PopSlot(alignment, bucket)])
    case InsertTree(n, after) => TreeView(p.alloc)
    case RemoveTree(address) => TreeView(p.alloc)
    case InsertBucket(n, after) => BucketView(p.free[HomeSlot(n)])
    case PushBlock(size, supply) => BlocksView(p.blocks)
  }

  /** A store works from the thread's view alone, whatever the memory has become. */
  function Store(p: Pool, s: Section, v: View): Pool
    requires |p.free| == SLOTS && PcSane(Loaded(s, v))
  {
    match s
    case Pop(size, alignment, bucket, first) =>
      if v.nodes == [] then p else p.(free := p.free[PopSlot(alignment, bucket) := v.nodes[1..]])
    case InsertTree(n, after) => p.(alloc := Insert(v.tree, n))
    case RemoveTree(address) =>
      var f := Find(v.tree, address);
      if f.None? then p else p.(alloc := Remove(v.tree, f.value))
    case InsertBucket(n, after) => p.(free := p.free[HomeSlot(n) := BucketInsert(v.nodes, n)])
    case PushBlock(size, supply) => p.(blocks := [Block(supply.value, BlockSize(size))] + v.blocks)
  }

  /** What a store takes into the thread's hands. */
  function Grabbed(s: Section, v: View): Option<Node>
    requires PcSane(Loaded(s, v))
  {
    match s
    case Pop(size, alignment, bucket, first) => if v.nodes == [] then None else Some(v.nodes[0])
    case RemoveTree(address) => Find(v.tree, address)
    case _ => None
  }

  function Start(call: Call): PC {
    match call
    case CallMalloc(size, alignment) => if Usable(alignment) then Test(size, alignment) else Idle
    case CallFree(address) => Want(RemoveTree(address))
  }

  function AfterLeaf(after: After): PC {
    match after
    case Return => Idle
    case Release => Unlock
    case MapNext(size) => Want(PushBlock(size, None))
    case ChunkNext(base, size) => SetChunk(base, size)
  }

  /** A popped node that the scan finds too small is not put back. */
  predicate Loses(s: Section, got: Option<Node>) {
    s.Pop? && !s.first && got.Some? && got.value.size < s.size
  }

  function Goto(w: World, t: nat, pc: PC): World
    requires t < |w.pcs|
  {
    w.(pcs := w.pcs[t := pc])
  }

  function Answer(w: World, t: nat, r: Outcome): World {
    w.(returned := w.returned[t := r])
  }

  function Make(w: World, n: Node): World {
    w.(pool := w.pool.(next := w.pool.next + 1), made := w.made + multiset{n})
  }

  function Out(w: World, t: nat, s: Section, got: Option<Node>): World
    requires t < |w.pcs| && PcSane(Leave(s, got))
  {
    match s
    case Pop(size, alignment, bucket, first) =>
      if got.None? then Goto(w, t, if first then WantRemaining(size, alignment) else Scan(size, alignment, bucket + 1))
      else if Loses(s, got) then Goto(w, t, WantRemaining(size, alignment)).(lost := w.lost + multiset{got.value})
      else Goto(w, t, Want(InsertTree(got.value, Return)))
    case InsertTree(n, after) => Goto(Answer(w, t, Address(n.address)), t, AfterLeaf(after))
    case RemoveTree(address) => Goto(w, t, if got.None? then Idle else Want(InsertBucket(got.value, Return)))
    case InsertBucket(n, after) => Goto(w, t, AfterLeaf(after))
    case PushBlock(size, supply) =>
      if supply.None? then Goto(Answer(w, t, Null), t, Unlock)
      else
        var n := RefillNode(w.pool, supply.value, size);
        Goto(Make(w, n), t, Want(InsertTree(n, ChunkNext(supply.value, size))))
  }

  function MeasuredPool(p: Pool, cursor: nat, remaining: nat): Pool {
    p.(cursor := cursor, remaining := remaining)
  }

  /** Carving, or giving up the chunk: from the cursor and the size the thread has read. */
  function Cut(w: World, t: nat, size: nat, alignment: nat, cursor: nat, remaining: nat): World
    requires t < |w.pcs| && alignment > 0
  {
    var seen := MeasuredPool(w.pool, cursor, remaining);
    if Carves(seen, size, alignment) then
      var n := CarvedNode(seen, size, alignment);
      var cut, made := Carve(seen, size, alignment), Make(w, n);
      Goto(made, t, Want(InsertTree(n, Release))).(
        pool := made.pool.(cursor := cut.cursor, remaining := cut.remaining))
    else if Flushes(seen) then
      var n := FlushNode(seen);
      var made := Make(w, n);
      Goto(made, t, Want(InsertBucket(n, MapNext(size)))).(pool := made.pool.(cursor := 0, remaining := 0))
    else
      Goto(w, t, Want(PushBlock(size, None))).(pool := w.pool.(cursor := 0, remaining := 0))
  }

  predicate Enabled(w: World, t: nat)
    requires t < |w.pcs| && PcSane(w.pcs[t])
  {
    match w.pcs[t]
    case Want(s) => LockOf(s) !in w.owner
    case WantRemaining(size, alignment) => RemainingLock !in w.owner
    case _ => true
  }

  function Step(w: World, t: nat, c: Choice): World
    requires |w.pool.free| == SLOTS && t < |w.pcs| && PcSane(w.pcs[t])
  {
    if !Enabled(w, t) then w
    else
      match w.pcs[t]
      case Idle =>
        if c.call.CallMalloc? && c.call.alignment > MAX_ALIGNMENT then Answer(w, t, Null) else Goto(w, t, Start(c.call))
      case Test(size, alignment) =>
        var b := SizeToBucket(size);
        Goto(w, t, if w.pool.free[PopSlot(alignment, b)] != [] then Want(Pop(size, alignment, b, true))
                   else Scan(size, alignment, b))
      case Scan(size, alignment, b) =>
        Goto(w, t, if b == 6 then WantRemaining(size, alignment)
                   else if w.pool.free[PopSlot(alignment, b)] != [] then Want(Pop(size, alignment, b, false))
                   else Scan(size, alignment, b + 1))
      case Want(s) => Goto(w, t, Enter(s)).(owner := w.owner[LockOf(s) := t])
      case Enter(s) =>
        if s.PushBlock? then
          var s' := s.(supply := c.supply);
          Goto(w, t, if c.supply.Some? then Loaded(s', ViewOf(w.pool, s')) else Leave(s', None))
        else Goto(w, t, Loaded(s, ViewOf(w.pool, s)))
      case Loaded(s, v) => Goto(w, t, Leave(s, Grabbed(s, v))).(pool := Store(w.pool, s, v))
      case Leave(s, got) => Out(w.(owner := w.owner - {LockOf(s)}), t, s, got)
      case WantRemaining(size, alignment) => Goto(w, t, Measure(size, alignment)).(owner := w.owner[RemainingLock := t])
      case Measure(size, alignment) => Goto(w, t, Measured(size, alignment, w.pool.cursor, w.pool.remaining))
      case Measured(size, alignment, cursor, remaining) => Cut(w, t, size, alignment, cursor, remaining)
      case SetChunk(base, size) =>
        Goto(w, t, Unlock).(pool := w.pool.(cursor := base + size, remaining := BlockSize(size) - size))
      case Unlock => Goto(w, t, Idle).(owner := w.owner - {RemainingLock})
  }
}
