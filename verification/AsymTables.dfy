/** The operand tables of the asymmetric coprocessor, and the sizes that follow from them. */
module AsymTables {
  /** Columns of the encode table. */
  const ENCODE_COLUMN: nat := 0
  const ROWS: nat := 15
  const OPERATIONS: nat := 20
  const OPERANDS: nat := 6

  const MEXC: nat := 7
  const P2ADD: nat := 17

  /** Widths in bits, one row for each encode value: RC, ABNR, DqNq, DpNpU, XYKN, ABRXYK, N, A. */
  const ENCODE: seq<seq<nat>> := [
    [0, 56, 28, 29, 56, 56, 57, 56],
    [8, 0, 0, 0, 0, 163, 164, 56],
    [16, 192, 96, 97, 192, 0, 0, 0],
    [24, 224, 112, 113, 224, 0, 0, 0],
    [32, 0, 0, 0, 0, 233, 234, 56],
    [40, 256, 128, 129, 256, 0, 0, 0],
    [48, 0, 0, 0, 0, 283, 284, 56],
    [56, 384, 192, 193, 384, 0, 0, 0],
    [64, 0, 0, 0, 0, 409, 410, 56],
    [72, 512, 256, 257, 0, 0, 0, 0],
    [80, 521, 261, 262, 521, 0, 0, 0],
    [88, 0, 0, 0, 0, 571, 572, 56],
    [96, 1024, 512, 513, 0, 0, 0, 0],
    [104, 2048, 1024, 1025, 0, 0, 0, 0],
    [112, 4096, 2048, 2049, 0, 0, 0, 0]
  ]

  /** The column of each operand of each operation; 0 where there is no operand. */
  const OP_TYPES: seq<seq<nat>> := [
    [1, 1, 1, 0, 0, 0],
    [1, 1, 1, 0, 0, 0],
    [1, 1, 1, 0, 0, 0],
    [1, 1, 1, 0, 0, 0],
    [1, 1, 1, 0, 0, 0],
    [1, 1, 1, 0, 0, 0],
    [1, 1, 1, 0, 0, 0],
    [1, 3, 2, 3, 2, 3],
    [4, 4, 4, 4, 4, 0],
    [4, 4, 4, 0, 0, 0],
    [4, 4, 4, 4, 0, 0],
    [5, 5, 6, 0, 0, 0],
    [5, 5, 6, 0, 0, 0],
    [5, 5, 6, 0, 0, 0],
    [5, 6, 0, 0, 0, 0],
    [5, 6, 0, 0, 0, 0],
    [5, 5, 6, 0, 0, 0],
    [5, 5, 5, 5, 6, 7],
    [5, 5, 6, 7, 0, 0],
    [5, 5, 6, 7, 6, 0]
  ]

  /** The column of each operation's result. */
  const OP_CLASS: seq<nat> := [1, 1, 1, 1, 1, 1, 1, 1, 4, 4, 4, 5, 5, 5, 5, 5, 5, 3, 3, 3]

  lemma TableShape()
    ensures |ENCODE| == ROWS && |OP_TYPES| == OPERATIONS && |OP_CLASS| == OPERATIONS
    ensures forall i | 0 <= i < ROWS :: |ENCODE[i]| == 8
    ensures forall i | 0 <= i < OPERATIONS :: |OP_TYPES[i]| == OPERANDS
  {
  }

  function Width(row: nat, column: nat): nat
    requires row < ROWS && column < 8
  {
    TableShape();
    ENCODE[row][column]
  }

  function Column(op: nat, k: nat): (c: nat)
    requires op < OPERATIONS && k < OPERANDS
    ensures c < 8
  {
    TableShape();
    ColumnsInRange(op, k);
    OP_TYPES[op][k]
  }

  lemma ColumnsInRange(op: nat, k: nat)
    requires op < OPERATIONS && k < OPERANDS
    ensures |OP_TYPES[op]| == OPERANDS && OP_TYPES[op][k] < 8
  {
    TableShape();
  }

  function CeilByte(bits: nat): nat {
    if bits % 8 == 0 then bits / 8 else bits / 8 + 1
  }

  function RoundToQuadword(bytes: nat): nat {
    (bytes + 15) / 16 * 16
  }

  function SlotSize(row: nat, column: nat): nat
    requires row < ROWS && column < 8
  {
    RoundToQuadword(CeilByte(Width(row, column)))
  }

  function Arity(op: nat): nat
    requires op < OPERATIONS
  {
    if op <= 6 then 3 else if op == 7 then 6 else if op == 8 then 5 else if op == 9 then 3
    else if op == 10 then 4 else if op <= 13 then 3 else if op <= 15 then 2 else if op == 16 then 3
    else if op == 17 then 6 else if op == 18 then 4 else 5
  }

  lemma ArityIs(op: nat, k: nat)
    requires op < OPERATIONS && k < OPERANDS
    ensures Column(op, k) != 0 <==> k < Arity(op)
  {
  }

  /** A size in quadwords: the least multiple of 16 bytes that has room for the width. */
  lemma SlotIsLeast(width: nat)
    ensures var size := RoundToQuadword(CeilByte(width));
            size % 16 == 0 && width <= 8 * size < width + 128
  {
  }

  /** The operand size of each row in bits, as the curves and moduli give it. */
  const KEYS: seq<nat> := [56, 163, 192, 224, 233, 256, 283, 384, 409, 512, 521, 571, 1024, 2048, 4096]

  predicate Binary(key: nat) {
    key == 163 || key == 233 || key == 283 || key == 409 || key == 571
  }

  predicate Curve(key: nat) {
    key == 56 || key == 192 || key == 224 || key == 256 || key == 384 || key == 521
  }

  /** Every width of the table from the row's key: prime rows hold the key, its half, one bit more, and again the key on
      a curve; binary rows the key, one bit more, and the 56 bits of the curve parameter; the smallest row holds both. */
  lemma WidthsAre(row: nat)
    requires row < ROWS
    ensures var key := KEYS[row];
            && Width(row, 0) == 8 * row
            && Width(row, 1) == (if Binary(key) then 0 else key)
            && Width(row, 2) == (if Binary(key) then 0 else (key + 1) / 2)
            && Width(row, 3) == (if Binary(key) then 0 else (key + 1) / 2 + 1)
            && Width(row, 4) == (if Curve(key) then key else 0)
            && Width(row, 5) == (if Binary(key) || row == 0 then key else 0)
            && Width(row, 6) == (if Binary(key) || row == 0 then key + 1 else 0)
            && Width(row, 7) == (if Binary(key) || row == 0 then 56 else 0)
  {
  }

  /** Which columns an operation's operands are of: modular arithmetic takes whole operands, its exponentiation by the
      remainder theorem halves, prime points only prime columns, and the binary operations pairs before their modulus. */
  lemma ColumnsAre(op: nat, k: nat)
    requires op < OPERATIONS && k < Arity(op)
    ensures op < 7 ==> Column(op, k) == 1
    ensures op == 7 ==> Column(op, k) == if k == 0 then 1 else if k % 2 == 1 then 3 else 2
    ensures 8 <= op < 11 ==> Column(op, k) == 4
    ensures 11 <= op < 17 ==> Column(op, k) == if k == Arity(op) - 1 then 6 else 5
    ensures op == 17 ==> Column(op, k) == if k < 4 then 5 else if k == 4 then 6 else 7
    ensures op >= 18 ==> Column(op, k) == if k < 2 then 5 else if k == 3 then 7 else 6
    ensures OP_CLASS[op] == if op < 8 then 1 else if op < 11 then 4 else if op < 17 then 5 else 3
  {
  }

  lemma NarrowSlots(row: nat)
    requires row < ROWS
    ensures SlotSize(row, 4) <= 80 && SlotSize(row, 5) <= 80 && SlotSize(row, 6) <= 80 && SlotSize(row, 7) <= 16
  {
  }

  lemma WideSlots(row: nat)
    requires row < ROWS
    ensures SlotSize(row, 1) <= 512 && SlotSize(row, 2) <= 256 && SlotSize(row, 3) <= 272
    ensures row < 14 ==> SlotSize(row, 1) <= 256 && SlotSize(row, 2) <= 128 && SlotSize(row, 3) <= 144
    ensures row == 14 ==> SlotSize(row, 1) == 512 && SlotSize(row, 2) == 256 && SlotSize(row, 3) == 272
  {
  }
}
