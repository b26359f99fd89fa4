/** Every byte is accounted for: in a free node, in an allocated node, in the chunk, skipped as
    padding, dropped with a chunk too small to file, or counted twice by the code itself. */
module PoolAccounts {
  import opened AllocTree
  import opened Buckets
  import opened Pool
  import opened PoolSafety
  import opened SizeClasses
  import opened Wrappers

  function Total(p: Pool): nat {
    FreeBytes(p.free) + Bytes(p.alloc) + p.remaining
  }

  /** What an operation skips as padding, drops, and maps, and the surplus of bytes it records over the
      bytes there are. */
  datatype Ledger = Ledger(skipped: nat, dropped: nat, mapped: nat, surplus: nat)

  function Plus(a: Ledger, b: Ledger): Ledger {
    Ledger(a.skipped + b.skipped, a.dropped + b.dropped, a.mapped + b.mapped, a.surplus + b.surplus)
  }

  const NOTHING: Ledger := Ledger(0, 0, 0, 0)

  function CarveEntry(p: Pool, size: nat, alignment: nat): Ledger
    requires alignment > 0
  {
    Ledger(Padding(p.cursor, p.remaining, SizeToBucketSize(size), alignment), 0, 0,
           Needed(p, size, alignment) - Needed(p, size, alignment) % WORD)
  }

  function RefillEntry(p: Pool, size: nat, supply: Option<nat>): Ledger {
    var dropped := if Flushes(p) then 0 else p.remaining;
    if supply.None? then Ledger(0, dropped, 0, 0)
    else
      BucketsFit(size, 0);
      Ledger(0, dropped, BlockSize(size), SizeToBucketSize(size) - size)
  }

  function Entry(p: Pool, op: Op): Ledger
    requires |p.free| == SLOTS
  {
    if op.FreeOp? then NOTHING
    else if Cuts(p, op.size, op.alignment) then CarveEntry(p, op.size, op.alignment)
    else if Refills(p, op.size, op.alignment) then RefillEntry(p, op.size, op.supply)
    else NOTHING
  }

  /** The books of one operation. */
  predicate Balances(before: nat, after: nat, e: Ledger) {
    after + e.skipped + e.dropped == before + e.mapped + e.surplus && e.dropped < 128
  }

  lemma CarveBytes(p: Pool, size: nat, alignment: nat)
    requires Carves(p, size, alignment)
    ensures Balances(Total(p), Total(Carve(p, size, alignment)), CarveEntry(p, size, alignment))
  {
    InsertBag(p.alloc, CarvedNode(p, size, alignment));
  }

  lemma FlushBytes(p: Pool)
    requires |p.free| == SLOTS
    ensures Total(Flush(p)) + (if Flushes(p) then 0 else p.remaining) == Total(p)
  {
    if Flushes(p) {
      PutFreeAll(p.(cursor := 0, remaining := 0), FlushNode(p));
    }
  }

  lemma AdoptBytes(p: Pool, base: nat, request: nat)
    requires p.remaining == 0
    ensures Total(Adopt(p, base, request)) == Total(p) + BlockSize(request) + SizeToBucketSize(request) - request
  {
    InsertBag(p.alloc, RefillNode(p, base, request));
  }

  lemma RefillBytes(p: Pool, size: nat, supply: Option<nat>)
    requires |p.free| == SLOTS && ChunkOk(p)
    ensures Balances(Total(p), Total(Refill(p, size, supply).0), RefillEntry(p, size, supply))
  {
    FlushBytes(p);
    if supply.Some? {
      AdoptBytes(Flush(p), supply.value, size);
    }
  }

  lemma ServeBytes(p: Pool, s: nat)
    requires WellFormed(p) && s < SLOTS && p.free[s] != []
    ensures Total(Serve(p, s)) == Total(p)
  {
    ServeKeeps(p, s);
  }

  lemma MallocBytes(p: Pool, size: nat, alignment: nat, supply: Option<nat>)
    requires WellFormed(p) && ChunkOk(p)
    ensures Balances(Total(p), Total(Malloc(p, size, alignment, supply).0), Entry(p, MallocOp(size, alignment, supply)))
  {
    MallocPaths(p, size, alignment, supply);
    if Cuts(p, size, alignment) {
      CarveBytes(p, size, alignment);
    } else if Refills(p, size, alignment) {
      RefillBytes(p, size, supply);
    } else if Malloc(p, size, alignment, supply).0 != p {
      ServeBytes(p, Slot(AlignmentToTree(alignment), Search(p.free, AlignmentToTree(alignment), size).bucket));
    }
  }

  /** One operation, whatever it is: bytes before, mapped and surplus equal bytes after, skipped and
      dropped; and what is dropped is always less than 128. */
  lemma StepBytes(p: Pool, op: Op)
    requires WellFormed(p) && ChunkOk(p)
    ensures Balances(Total(p), Total(Apply(p, op).0), Entry(p, op))
  {
    match op
    case FreeOp(address) => FreeKeeps(p, address);
    case MallocOp(size, alignment, supply) => MallocBytes(p, size, alignment, supply);
  }

  /** Conservation is exact if and only if a carve does not wrap and a refill does not round. */
  lemma NoSurplusIff(p: Pool, size: nat, alignment: nat, supply: Option<nat>)
    requires |p.free| == SLOTS
    ensures Entry(p, MallocOp(size, alignment, supply)).surplus == 0 <==> Harmless(p, size, alignment, supply)
  {
    BucketsFit(size, 0);
    if Cuts(p, size, alignment) {
      WholeWords(Needed(p, size, alignment));
    }
  }

  lemma WholeWords(n: nat)
    ensures n - n % WORD == 0 <==> n < WORD
  {
  }

  // ---------------------------------------------------------------- runs

  /** All that is asked of the system: blocks within the address space. */
  predicate AllAddressable(ops: seq<Op>) {
    forall k | 0 <= k < |ops| :: Addressable(ops[k])
  }

  ghost function RunLedger(p: Pool, ops: seq<Op>): Ledger
    requires WellFormed(p)
    decreases |ops|
  {
    if |ops| == 0 then NOTHING else Plus(Entry(p, ops[0]), RunLedger(Apply(p, ops[0]).0, ops[1..]))
  }

  /** Conservation over every run. */
  lemma {:induction false} RunBytes(p: Pool, ops: seq<Op>)
    requires WellFormed(p) && ChunkOk(p) && AllAddressable(ops)
    ensures var e := RunLedger(p, ops);
            Total(Run(p, ops)) + e.skipped + e.dropped == Total(p) + e.mapped + e.surplus
    decreases |ops|
  {
    if |ops| > 0 {
      StepChunkOk(p, ops[0]);
      StepBytes(p, ops[0]);
      RunBytes(Apply(p, ops[0]).0, ops[1..]);
    }
  }
}
