/** Operands laid out in slots: each right-justified in its own, over whatever was there. */
module AsymLayout {
  import opened Wrappers

  /** Where slot `k` starts. */
  function Offset(slots: seq<nat>, k: nat): nat
    requires k <= |slots|
  {
    if k == 0 then 0 else Offset(slots, k - 1) + slots[k - 1]
  }

  lemma {:induction false} OffsetGrows(slots: seq<nat>, j: nat, k: nat)
    requires j <= k <= |slots|
    ensures Offset(slots, j) <= Offset(slots, k)
    decreases k
  {
    if j < k {
      OffsetGrows(slots, j, k - 1);
    }
  }

  /** No operand is larger than its slot. */
  predicate Fitting(slots: seq<nat>, ops: seq<seq<byte>>) {
    |ops| == |slots| && forall k | 0 <= k < |ops| :: |ops[k]| <= slots[k]
  }

  function BigEndian(s: seq<byte>): nat {
    if |s| == 0 then 0 else 256 * BigEndian(s[..|s| - 1]) + s[|s| - 1]
  }

  lemma {:induction false} ZerosInFront(z: seq<byte>, s: seq<byte>)
    requires forall i | 0 <= i < |z| :: z[i] == 0
    ensures BigEndian(z + s) == BigEndian(s)
    decreases |z| + |s|
  {
    if |s| > 0 {
      ZerosInFront(z, s[..|s| - 1]);
      assert (z + s)[..|z + s| - 1] == z + s[..|s| - 1];
    } else if |z| > 0 {
      ZerosInFront(z[..|z| - 1], s);
      assert (z + s)[..|z + s| - 1] == z[..|z| - 1] + s;
    }
  }

  /** Slot `k` holds its operand right-justified over what was there before. */
  ghost predicate Slotted(before: seq<byte>, after: seq<byte>, slots: seq<nat>, ops: seq<seq<byte>>, k: nat)
    requires Fitting(slots, ops) && k < |ops|
  {
    var a, b := Offset(slots, k), Offset(slots, k + 1);
    && b <= |after| && |after| == |before|
    && after[a..b] == before[a..b - |ops[k]|] + ops[k]
  }

  // memcpy
  method CopyInto(a: array<byte>, at: nat, s: seq<byte>)
    requires at + |s| <= a.Length
    modifies a
    ensures a[..] == old(a[..at]) + s + old(a[at + |s|..])
  {
    forall i | 0 <= i < |s| {
      a[at + i] := s[i];
    }
  }

  lemma SlottedBelow(before: seq<byte>, was: seq<byte>, after: seq<byte>, slots: seq<nat>, ops: seq<seq<byte>>,
                     k: nat, at: nat)
    requires Fitting(slots, ops) && k < |ops|
    requires Slotted(before, was, slots, ops, k) && |after| == |was| && Offset(slots, k + 1) <= at <= |after|
    requires after[..at] == was[..at]
    ensures Slotted(before, after, slots, ops, k)
  {
    var a, b := Offset(slots, k), Offset(slots, k + 1);
    assert after[a..b] == after[..at][a..b] && was[a..b] == was[..at][a..b];
  }

  lemma SlottedNow(before: seq<byte>, was: seq<byte>, after: seq<byte>, slots: seq<nat>, ops: seq<seq<byte>>, k: nat)
    requires Fitting(slots, ops) && k < |ops| && |before| == |was|
    requires var a, b := Offset(slots, k), Offset(slots, k + 1);
             && b <= |was| && was[a..] == before[a..]
             && after == was[..b - |ops[k]|] + ops[k] + was[b..]
    ensures Slotted(before, after, slots, ops, k)
    ensures after[Offset(slots, k + 1)..] == before[Offset(slots, k + 1)..]
    ensures after[..Offset(slots, k)] == was[..Offset(slots, k)]
  {
    var a, b := Offset(slots, k), Offset(slots, k + 1);
    var c := b - |ops[k]|;
    assert was[a..c] == was[a..][..c - a] == before[a..][..c - a] == before[a..c];
    assert after[a..b] == was[a..c] + ops[k];
    assert after[b..] == was[b..] == was[a..][b - a..] == before[a..][b - a..] == before[b..];
  }

  /** The first `i` slots are filled and the rest is as it was. */
  ghost predicate Filled(before: seq<byte>, after: seq<byte>, slots: seq<nat>, ops: seq<seq<byte>>, i: nat)
    requires Fitting(slots, ops) && i <= |ops|
  {
    && |after| == |before| && Offset(slots, i) <= |after|
    && (forall k | 0 <= k < i :: Slotted(before, after, slots, ops, k))
    && after[Offset(slots, i)..] == before[Offset(slots, i)..]
  }

  lemma FilledNext(before: seq<byte>, was: seq<byte>, after: seq<byte>, slots: seq<nat>, ops: seq<seq<byte>>, i: nat)
    requires Fitting(slots, ops) && i < |ops| && Filled(before, was, slots, ops, i)
    requires var b := Offset(slots, i + 1); b <= |was| && after == was[..b - |ops[i]|] + ops[i] + was[b..]
    ensures Filled(before, after, slots, ops, i + 1)
  {
    SlottedNow(before, was, after, slots, ops, i);
    forall k | 0 <= k < i
      ensures Slotted(before, after, slots, ops, k)
    {
      OffsetGrows(slots, k + 1, i);
      SlottedBelow(before, was, after, slots, ops, k, Offset(slots, i));
    }
  }

  /** One operand into its slot. */
  method Place(a: array<byte>, opPos: nat, sizeQw: nat, ops: seq<seq<byte>>, i: nat,
               ghost before: seq<byte>, ghost slots: seq<nat>)
    requires Fitting(slots, ops) && i < |ops| && Filled(before, a[..], slots, ops, i)
    requires opPos == Offset(slots, i) && sizeQw == slots[i] && Offset(slots, i + 1) <= a.Length
    modifies a
    ensures Filled(before, a[..], slots, ops, i + 1) && Offset(slots, i + 1) == opPos + sizeQw
  {
    ghost var was := a[..];
    CopyInto(a, opPos + (sizeQw - |ops[i]|), ops[i]);
    FilledNext(before, was, a[..], slots, ops, i);
  }

  /** Over zeroed bytes each slot reads as its operand's value. */
  lemma SlotReads(before: seq<byte>, after: seq<byte>, slots: seq<nat>, ops: seq<seq<byte>>, k: nat)
    requires Fitting(slots, ops) && k < |ops|
    requires Slotted(before, after, slots, ops, k)
    requires forall i | Offset(slots, k) <= i < Offset(slots, k + 1) :: before[i] == 0
    ensures BigEndian(after[Offset(slots, k)..Offset(slots, k + 1)]) == BigEndian(ops[k])
  {
    var a, b := Offset(slots, k), Offset(slots, k + 1);
    ZerosInFront(before[a..b - |ops[k]|], ops[k]);
  }
}
