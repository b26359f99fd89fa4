/** Row selection for an operation's operands, the size of its result, and the setting up of its
    parameter block. */
module Asym {
  import opened AsymLayout
  import opened AsymTables
  import opened Wrappers

  const WORD: nat := 0x1_0000_0000_0000_0000
  const HUGE: nat := 0x2000_0000_0000_0000
  const EINVAL: int := 22
  const EFAULT: int := 14
  const OP_BYTES: nat := 1536

  /** `Null` is the source's null pointer; a number's size is the length of its bytes. */
  datatype BigNumber = Null | Number(bytes: seq<byte>)

  function CheckBigNumber(x: BigNumber): int {
    if x.Null? then -EINVAL else if |x.bytes| == 0 then -EFAULT else 0
  }

  /** A null pointer and an empty number are refused, each with its own error; everything else passes. */
  lemma CheckedIff(x: BigNumber)
    ensures CheckBigNumber(x) == -22 <==> x.Null?
    ensures CheckBigNumber(x) == -14 <==> x.Number? && x.bytes == []
    ensures CheckBigNumber(x) == 0 <==> x.Number? && |x.bytes| > 0
  {
  }

  // a left shift by 3 of a 64-bit size
  function Bits(x: seq<byte>): nat {
    (8 * |x|) % WORD
  }

  predicate RowFits(op: nat, ops: seq<seq<byte>>, row: nat)
    requires op < OPERATIONS && |ops| <= OPERANDS && row < ROWS
  {
    forall j | 0 <= j < |ops| :: Bits(ops[j]) <= Width(row, Column(op, j))
  }

  /** The least row that fits, or none when none does. */
  predicate Selects(op: nat, ops: seq<seq<byte>>, r: Option<nat>)
    requires op < OPERATIONS && |ops| <= OPERANDS
  {
    match r
    case None => forall i | 0 <= i < ROWS :: !RowFits(op, ops, i)
    case Some(row) => row < ROWS && RowFits(op, ops, row) && forall i | 0 <= i < row :: !RowFits(op, ops, i)
  }

  // determine_asym_encode_value
  method DetermineEncodeValue(op: nat, ops: seq<seq<byte>>) returns (r: Option<nat>)
    requires op < OPERATIONS && |ops| <= OPERANDS
    ensures Selects(op, ops, r)
  {
    var opsBits := new nat[8];
    for k := 0 to |ops|
      invariant forall m | 0 <= m < k :: opsBits[m] == Bits(ops[m])
    {
      opsBits[k] := (8 * |ops[k]|) % WORD;
    }
    var done := true;
    var i := 0;
    while i < ROWS
      invariant 0 <= i <= ROWS && (i == ROWS ==> !done)
      invariant forall m | 0 <= m < |ops| :: opsBits[m] == Bits(ops[m])
      invariant forall row | 0 <= row < i :: !RowFits(op, ops, row)
    {
      done := true;
      var j := 0;
      while j < |ops|
        invariant 0 <= j <= |ops| && done
        invariant forall m | 0 <= m < |ops| :: opsBits[m] == Bits(ops[m])
        invariant forall m | 0 <= m < j :: Bits(ops[m]) <= Width(i, Column(op, m))
      {
        if opsBits[j] > Width(i, Column(op, j)) {
          done := false;
          break;
        }
        j := j + 1;
      }
      if done {
        break;
      }
      i := i + 1;
    }
    r := if done then Some(i) else None;
  }

  function Payloads(ops: seq<BigNumber>): seq<seq<byte>>
    requires forall k | 0 <= k < |ops| :: ops[k].Number?
  {
    seq(|ops|, k requires 0 <= k < |ops| => ops[k].bytes)
  }

  predicate AllChecked(ops: seq<BigNumber>) {
    forall k | 0 <= k < |ops| :: ops[k].Number? && |ops[k].bytes| > 0
  }

  // cop_asymops_to_rcencode: a negative error, or the encode value and its row
  method ToRcEncode(op: nat, ops: seq<BigNumber>) returns (rc: int, index: nat)
    requires op < OPERATIONS && |ops| <= OPERANDS
    ensures rc == -22 || (0 <= rc && AllChecked(ops) && index < ROWS && rc == Width(index, ENCODE_COLUMN))
    ensures rc == -22 <==> !AllChecked(ops) || Selects(op, Payloads(ops), None)
    ensures rc != -22 ==> Selects(op, Payloads(ops), Some(index))
  {
    index := 0;
    for k := 0 to |ops|
      invariant forall m | 0 <= m < k :: ops[m].Number? && |ops[m].bytes| > 0
    {
      CheckedIff(ops[k]);
      if CheckBigNumber(ops[k]) != 0 {
        return -EINVAL, 0;
      }
    }
    var r := DetermineEncodeValue(op, Payloads(ops));
    if r.None? {
      return -EINVAL, 0;
    }
    NoneIsAlone(op, Payloads(ops), r.value);
    index := r.value;
    rc := Width(index, ENCODE_COLUMN);
  }

  lemma NoneIsAlone(op: nat, ops: seq<seq<byte>>, row: nat)
    requires op < OPERATIONS && |ops| <= OPERANDS && row < ROWS && RowFits(op, ops, row)
    ensures !Selects(op, ops, None)
  {
  }

  /** The encode value and the row determine each other. */
  lemma EncodeIsRow(row: nat)
    requires row < ROWS
    ensures Width(row, ENCODE_COLUMN) == 8 * row
  {
  }

  // ---------------------------------------------------------------- what a selected row means

  lemma WidthBound(row: nat, column: nat)
    requires row < ROWS && column < 8
    ensures Width(row, column) <= 4096
  {
  }

  /** Every operand is no wider than its column. */
  predicate Holds(op: nat, ops: seq<seq<byte>>, row: nat)
    requires op < OPERATIONS && |ops| <= OPERANDS && row < ROWS
  {
    forall j | 0 <= j < |ops| :: 8 * |ops[j]| <= Width(row, Column(op, j))
  }

  lemma BitsExact(x: seq<byte>)
    ensures |x| < HUGE ==> Bits(x) == 8 * |x|
  {
  }

  /** The selected row is wide enough if and only if no size has reached 2^61 bytes, where the shift
      drops bits; then its columns are never the empty ones, and no earlier row was wide enough. */
  lemma SelectedHoldsIff(op: nat, ops: seq<seq<byte>>, row: nat)
    requires op < OPERATIONS && |ops| <= OPERANDS && Selects(op, ops, Some(row))
    ensures Holds(op, ops, row) <==> forall j | 0 <= j < |ops| :: |ops[j]| < HUGE
    ensures Holds(op, ops, row) ==> forall i | 0 <= i < row :: !Holds(op, ops, i)
    ensures Holds(op, ops, row) ==> forall j | 0 <= j < |ops| && |ops[j]| > 0 :: Width(row, Column(op, j)) > 0
  {
    forall j | 0 <= j < |ops|
      ensures Bits(ops[j]) <= Width(row, Column(op, j)) <= 4096 && (|ops[j]| < HUGE ==> Bits(ops[j]) == 8 * |ops[j]|)
    {
      BitsExact(ops[j]);
      WidthBound(row, Column(op, j));
    }
    if Holds(op, ops, row) {
      forall i | 0 <= i < row
        ensures !Holds(op, ops, i)
      {
        assert !RowFits(op, ops, i);
      }
    }
  }

  /** What the shift does to such a size: the smallest row is taken for the largest operand. */
  lemma HugeOperandSelectsFirst(op: nat, x: seq<byte>)
    requires op < OPERATIONS && |x| == HUGE
    ensures Selects(op, [x], Some(0)) && !Holds(op, [x], 0)
  {
    assert Bits(x) == 0;
    WidthBound(0, Column(op, 0));
  }

  /** None fits exactly when some operand is wider than every row allows all of them to be. */
  lemma NoneSelectedIff(op: nat, ops: seq<seq<byte>>)
    requires op < OPERATIONS && |ops| <= OPERANDS && forall j | 0 <= j < |ops| :: |ops[j]| < HUGE
    ensures Selects(op, ops, None) <==> forall i | 0 <= i < ROWS :: !Holds(op, ops, i)
  {
    forall j | 0 <= j < |ops|
      ensures Bits(ops[j]) == 8 * |ops[j]|
    {
      BitsExact(ops[j]);
    }
    forall i | 0 <= i < ROWS
      ensures RowFits(op, ops, i) <==> Holds(op, ops, i)
    {
    }
  }

  // cop_asymops_rsize
  function ResultSize(op: nat, row: nat): nat
    requires op < OPERATIONS && row < ROWS
  {
    TableShape();
    RoundToQuadword(CeilByte(Width(row, OP_CLASS[op])))
  }

  /** The result is the least multiple of 16 bytes with room for the width of its class; so is every slot for its
      column's. */
  lemma SizesAreLeast(op: nat, row: nat, column: nat)
    requires op < OPERATIONS && row < ROWS && column < 8
    ensures ResultSize(op, row) % 16 == 0
    ensures Width(row, OP_CLASS[op]) <= 8 * ResultSize(op, row) < Width(row, OP_CLASS[op]) + 128
    ensures SlotSize(row, column) % 16 == 0
    ensures Width(row, column) <= 8 * SlotSize(row, column) < Width(row, column) + 128
  {
    TableShape();
    SlotIsLeast(Width(row, OP_CLASS[op]));
    SlotIsLeast(Width(row, column));
  }

  lemma CeilCovers(size: nat, width: nat)
    requires 8 * size <= width
    ensures size <= CeilByte(width) <= RoundToQuadword(CeilByte(width))
  {
  }

  lemma PrimeClass(op: nat, j: nat)
    requires op < OPERATIONS && j < Arity(op)
    ensures op < P2ADD ==> OP_CLASS[op] == Column(op, 0)
    ensures op >= P2ADD ==> OP_CLASS[op] == 3 && Column(op, 0) == 5
  {
  }

  /** Up to M2ADD the result is of the first operand's column, and has room for every operand of
      that column. */
  lemma ResultCovers(op: nat, ops: seq<seq<byte>>, row: nat, j: nat)
    requires op < P2ADD && |ops| <= Arity(op) && row < ROWS && Holds(op, ops, row)
    requires j < |ops| && Column(op, j) == OP_CLASS[op]
    ensures |ops[j]| <= ResultSize(op, row)
  {
    CeilCovers(|ops[j]|, Width(row, Column(op, j)));
  }

  lemma PointColumns(row: nat)
    requires row < ROWS && Width(row, 5) > 0
    ensures row != 0 ==> Width(row, 3) == 0
    ensures row == 0 ==> Width(row, 3) == 29 && Width(row, 5) == 56
  {
  }

  /** The binary point operations are classed under another column: their result has room for their
      first operand if and only if that fits the first row. */
  lemma PointResultCoversIff(op: nat, ops: seq<seq<byte>>, row: nat)
    requires P2ADD <= op < OPERATIONS && 0 < |ops| <= Arity(op) && row < ROWS && Holds(op, ops, row) && |ops[0]| > 0
    ensures |ops[0]| <= ResultSize(op, row) <==> row == 0
    ensures row != 0 ==> ResultSize(op, row) == 0
  {
    PrimeClass(op, 0);
    PointColumns(row);
  }

  // ---------------------------------------------------------------- layout

  /** The slots of the first `n` operands. */
  function Slots(op: nat, row: nat, n: nat): (s: seq<nat>)
    requires op < OPERATIONS && row < ROWS && n <= OPERANDS
    ensures |s| == n
  {
    seq(n, k requires 0 <= k < n => SlotSize(row, Column(op, k)))
  }

  lemma SlotsFit(op: nat, ops: seq<seq<byte>>, row: nat)
    requires op < OPERATIONS && |ops| <= OPERANDS && row < ROWS && Holds(op, ops, row)
    ensures Fitting(Slots(op, row, |ops|), ops)
  {
    forall k | 0 <= k < |ops|
      ensures |ops[k]| <= Slots(op, row, |ops|)[k]
    {
      CeilCovers(|ops[k]|, Width(row, Column(op, k)));
    }
  }

  lemma {:induction false} OffsetSteps(s: seq<nat>)
    requires |s| <= 6
    ensures Offset(s, |s|) == (if |s| > 0 then s[0] else 0) + (if |s| > 1 then s[1] else 0) + (if |s| > 2 then s[2] else 0)
                              + (if |s| > 3 then s[3] else 0) + (if |s| > 4 then s[4] else 0) + (if |s| > 5 then s[5] else 0)
  {
    if |s| > 0 { assert Offset(s, 1) == s[0]; }
    if |s| > 1 { assert Offset(s, 2) == s[0] + s[1]; }
    if |s| > 2 { assert Offset(s, 3) == s[0] + s[1] + s[2]; }
    if |s| > 3 { assert Offset(s, 4) == s[0] + s[1] + s[2] + s[3]; }
    if |s| > 4 { assert Offset(s, 5) == s[0] + s[1] + s[2] + s[3] + s[4]; }
  }

  lemma ColumnsOf(op: nat, k: nat)
    requires op < OPERATIONS && k < Arity(op) && op != MEXC
    ensures if op < MEXC then Column(op, k) == 1 else 4 <= Column(op, k) <= 7
  {
  }

  lemma SlotBound(op: nat, row: nat, k: nat)
    requires op < OPERATIONS && row < ROWS && k < Arity(op) && op != MEXC
    ensures SlotSize(row, Column(op, k)) <= if op < MEXC then 512 else 80
  {
    ColumnsOf(op, k);
    ColumnBound(row, Column(op, k));
  }

  /** No slot of a column other than the first three is over 80 bytes. */
  lemma ColumnBound(row: nat, column: nat)
    requires row < ROWS && 1 <= column < 8
    ensures SlotSize(row, column) <= if column <= 3 then 512 else 80
  {
    WideSlots(row);
    NarrowSlots(row);
  }

  lemma OtherLayouts(op: nat, row: nat, n: nat)
    requires op < OPERATIONS && row < ROWS && n <= Arity(op) && op != MEXC
    ensures Offset(Slots(op, row, n), n) <= OP_BYTES
  {
    var s := Slots(op, row, n);
    OffsetSteps(s);
    forall k | 0 <= k < n
      ensures s[k] <= if op < MEXC then 512 else 80
    {
      SlotBound(op, row, k);
    }
  }

  lemma MexcColumns()
    ensures Column(MEXC, 0) == 1 && Column(MEXC, 1) == 3 && Column(MEXC, 2) == 2
    ensures Column(MEXC, 3) == 3 && Column(MEXC, 4) == 2 && Column(MEXC, 5) == 3
  {
  }

  lemma MexcLayout(row: nat, n: nat)
    requires row < ROWS && n <= 6
    ensures Offset(Slots(MEXC, row, n), n) <= OP_BYTES <==> !(row == 14 && n >= 5)
  {
    var s := Slots(MEXC, row, n);
    MexcColumns();
    WideSlots(row);
    OffsetSteps(s);
  }

  /** The operands of an operation fit its block, whatever row is selected, except for one case: five
      or six operands of MEXC in the last row. */
  lemma LayoutFitsIff(op: nat, row: nat, n: nat)
    requires op < OPERATIONS && row < ROWS && n <= Arity(op)
    ensures Offset(Slots(op, row, n), n) <= OP_BYTES <==> !(op == MEXC && row == 14 && n >= 5)
  {
    if op == MEXC {
      MexcLayout(row, n);
    } else {
      OtherLayouts(op, row, n);
    }
  }

  /** Row 13 is wide enough for MEXC whenever any earlier row is. */
  lemma MexcRowsGrow(row: nat, column: nat)
    requires row <= 13 && 1 <= column <= 3
    ensures Width(row, column) <= Width(13, column)
  {
  }

  lemma MexcLastRowIff(ops: seq<seq<byte>>, row: nat)
    requires |ops| <= OPERANDS && row < ROWS && Best(MEXC, ops, row)
    ensures row == 14 <==> !Holds(MEXC, ops, 13)
  {
    if row < 14 {
      forall j | 0 <= j < |ops|
        ensures 8 * |ops[j]| <= Width(13, Column(MEXC, j))
      {
        MexcColumns();
        MexcRowsGrow(row, Column(MEXC, j));
      }
    }
  }

  /** Said of the operands: those of an operation fit its block in the row selected for them, except five or six
      of MEXC that do not all fit the 2048-bit row. */
  lemma OperandsFitIff(op: nat, ops: seq<seq<byte>>, row: nat)
    requires op < OPERATIONS && |ops| <= Arity(op) && row < ROWS && Best(op, ops, row)
    ensures Offset(Slots(op, row, |ops|), |ops|) <= OP_BYTES <==> !(op == MEXC && |ops| >= 5 && !Holds(MEXC, ops, 13))
  {
    LayoutFitsIff(op, row, |ops|);
    if op == MEXC {
      MexcLastRowIff(ops, row);
    }
  }

  lemma MexcWidths()
    ensures Width(14, 1) == 4096 && Width(14, 2) == 2048 && Width(14, 3) == 2049 && Width(13, 1) == 2048
  {
  }

  /** No layout of any operation in any row is longer than this. */
  const LARGEST: nat := 1840

  lemma LargestLayout(op: nat, row: nat, n: nat)
    requires op < OPERATIONS && row < ROWS && n <= Arity(op)
    ensures Offset(Slots(op, row, n), n) <= LARGEST
  {
    if op == MEXC {
      MexcColumns();
      WideSlots(row);
      OffsetSteps(Slots(op, row, n));
    } else {
      OtherLayouts(op, row, n);
    }
  }

  /** Six such operands: a first one of 512 bytes selects the last row, whatever the others, and the sixth slot
      then ends 304 bytes past the operand area. */
  lemma MexcOverruns(ops: seq<seq<byte>>)
    requires |ops| == 6 && |ops[0]| == 512 && forall k | 1 <= k < 6 :: 0 < |ops[k]| <= 256
    ensures Selects(MEXC, ops, Some(14)) && Best(MEXC, ops, 14)
    ensures Offset(Slots(MEXC, 14, 6), 6) == OP_BYTES + 304
  {
    MexcColumns();
    MexcWidths();
    WideSlots(14);
    OffsetSteps(Slots(MEXC, 14, 6));
    forall k | 0 <= k < 6
      ensures Bits(ops[k]) == 8 * |ops[k]|
    {
      BitsExact(ops[k]);
    }
    forall i | 0 <= i < 14
      ensures !Holds(MEXC, ops, i) && !RowFits(MEXC, ops, i)
    {
      MexcRowsGrow(i, 1);
    }
  }

  method SlotOf(op: nat, row: nat, k: nat, n: nat) returns (sizeQw: nat)
    requires op < OPERATIONS && row < ROWS && k < n <= OPERANDS
    ensures sizeQw == Slots(op, row, n)[k]
  {
    var sizeBytes := CeilByte(Width(row, Column(op, k)));
    sizeQw := RoundToQuadword(sizeBytes);
  }

  // cop_asym_cpb_setup
  method CpbSetup(opBytes: array<byte>, op: nat, ops: seq<seq<byte>>, row: nat)
    requires op < OPERATIONS && |ops| <= OPERANDS && row < ROWS && Holds(op, ops, row)
    requires Offset(Slots(op, row, |ops|), |ops|) <= opBytes.Length
    modifies opBytes
    ensures Fitting(Slots(op, row, |ops|), ops)
    ensures Filled(old(opBytes[..]), opBytes[..], Slots(op, row, |ops|), ops, |ops|)
  {
    var opPos := 0;
    ghost var before, slots := opBytes[..], Slots(op, row, |ops|);
    SlotsFit(op, ops, row);
    for i := 0 to |ops|
      invariant opPos == Offset(slots, i) && Filled(before, opBytes[..], slots, ops, i)
    {
      var sizeQw := SlotOf(op, row, i, |ops|);
      OffsetGrows(slots, i + 1, |ops|);
      Place(opBytes, opPos, sizeQw, ops, i, before, slots);
      opPos := opPos + sizeQw;
    }
  }

  datatype Setup = Invalid | Ready(rc: int, row: nat, resultSize: nat)

  /** Slot `k`, read as a big-endian number, is its operand's value. */
  ghost predicate ReadsSlot(block: seq<byte>, slots: seq<nat>, ops: seq<seq<byte>>, k: nat)
    requires k < |slots| == |ops|
  {
    var a, b := Offset(slots, k), Offset(slots, k + 1);
    a <= b <= |block| && BigEndian(block[a..b]) == BigEndian(ops[k])
  }

  /** The least row that is wide enough, if any is. */
  predicate Best(op: nat, ops: seq<seq<byte>>, row: nat)
    requires op < OPERATIONS && |ops| <= OPERANDS && row < ROWS
  {
    Holds(op, ops, row) && forall i | 0 <= i < row :: !Holds(op, ops, i)
  }

  // the row and the result size of cop_asym
  method ChooseRow(op: nat, ops: seq<BigNumber>) returns (r: Setup)
    requires op < OPERATIONS && |ops| <= OPERANDS
    requires forall k | 0 <= k < |ops| && ops[k].Number? :: |ops[k].bytes| < HUGE
    ensures r.Invalid? <==> !AllChecked(ops) || forall i | 0 <= i < ROWS :: !Holds(op, Payloads(ops), i)
    ensures r.Ready? ==> r.row < ROWS && r.rc == 8 * r.row && r.resultSize == ResultSize(op, r.row)
                         && Best(op, Payloads(ops), r.row)
  {
    var rc, row := ToRcEncode(op, ops);
    if AllChecked(ops) {
      NoneSelectedIff(op, Payloads(ops));
    }
    if rc < 0 {
      return Invalid;
    }
    SelectedHoldsIff(op, Payloads(ops), row);
    EncodeIsRow(row);
    r := Ready(rc, row, ResultSize(op, row));
  }

  // memset of the operand area
  method ClearArea(memory: array<byte>)
    requires memory.Length >= OP_BYTES
    modifies memory
    ensures memory[..] == Zeroed(old(memory[..]))
  {
    forall i | 0 <= i < OP_BYTES {
      memory[i] := 0;
    }
  }

  function Zeroed(memory: seq<byte>): seq<byte>
    requires |memory| >= OP_BYTES
  {
    seq(OP_BYTES, _ => 0 as byte) + memory[OP_BYTES..]
  }

  lemma FilledArea(was: seq<byte>, after: seq<byte>, slots: seq<nat>, ops: seq<seq<byte>>)
    requires |was| >= OP_BYTES && Fitting(slots, ops) && Filled(Zeroed(was), after, slots, ops, |ops|)
    ensures after[LastByte(slots)..] == was[LastByte(slots)..]
    ensures forall k | 0 <= k < |ops| && Offset(slots, k + 1) <= OP_BYTES :: ReadsSlot(after, slots, ops, k)
    ensures forall i | Offset(slots, |ops|) <= i < OP_BYTES :: after[i] == 0
  {
    var before, end, last := Zeroed(was), Offset(slots, |ops|), LastByte(slots);
    assert after[last..] == after[end..][last - end..] == before[end..][last - end..] == before[last..] == was[last..];
    forall k | 0 <= k < |ops| && Offset(slots, k + 1) <= OP_BYTES
      ensures ReadsSlot(after, slots, ops, k)
    {
      assert Slotted(before, after, slots, ops, k);
      SlotReads(before, after, slots, ops, k);
    }
    forall i | end <= i < OP_BYTES
      ensures after[i] == 0
    {
      assert after[i] == after[end..][i - end] == before[end..][i - end];
    }
  }

  /** Where the block ends or the layout does, whichever is later. */
  function LastByte(slots: seq<nat>): nat {
    var end := Offset(slots, |slots|);
    if end < OP_BYTES then OP_BYTES else end
  }

  // cop_asym: row, result size, zeroed block, layout.  `memory` is what there is from the operand area on: the
  // area is its first 1536 bytes, and nothing keeps the layout within them.
  method SetUp(op: nat, ops: seq<BigNumber>, memory: array<byte>) returns (r: Setup)
    requires op < OPERATIONS && |ops| <= Arity(op) && memory.Length >= LARGEST
    requires forall k | 0 <= k < |ops| && ops[k].Number? :: |ops[k].bytes| < HUGE
    modifies memory
    ensures r.Invalid? <==> !AllChecked(ops) || forall i | 0 <= i < ROWS :: !Holds(op, Payloads(ops), i)
    ensures r.Invalid? ==> memory[..] == old(memory[..])
    ensures r.Ready? ==>
              && r.row < ROWS && r.rc == 8 * r.row && r.resultSize == ResultSize(op, r.row)
              && Best(op, Payloads(ops), r.row)
              && var slots, numbers := Slots(op, r.row, |ops|), Payloads(ops);
              && Fitting(slots, numbers) && Filled(Zeroed(old(memory[..])), memory[..], slots, numbers, |ops|)
              && (forall k | 0 <= k < |ops| && Offset(slots, k + 1) <= OP_BYTES :: ReadsSlot(memory[..], slots, numbers, k))
              && memory[LastByte(slots)..] == old(memory[LastByte(slots)..])
              && (LastByte(slots) == OP_BYTES <==> !(op == MEXC && |ops| >= 5 && !Holds(MEXC, numbers, 13)))
  {
    r := ChooseRow(op, ops);
    if r.Ready? {
      ghost var was, slots := memory[..], Slots(op, r.row, |ops|);
      LargestLayout(op, r.row, |ops|);
      OperandsFitIff(op, Payloads(ops), r.row);
      ClearArea(memory);
      CpbSetup(memory, op, Payloads(ops), r.row);
      FilledArea(was, memory[..], slots, Payloads(ops));
    }
  }
}
