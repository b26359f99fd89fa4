/** The case functions of the allocator: which class an alignment or an address belongs to,
    which bucket a request starts at, which bucket a free node is filed in, and the size a
    request is rounded to.  `size_t` and `unsigned long` are 64 bits wide. */
module SizeClasses {
  const WORD: nat := 0x1_0000_0000_0000_0000
  const MIB: nat := 1048576
  const REFILL: nat := 16 * MIB

  function AlignmentToTree(alignment: nat): (c: nat)
    ensures c < 4
  {
    if alignment <= 1 then 0
    else if alignment <= 16 then 1
    else if alignment <= 128 then 2
    else 3
  }

  function AlignmentToMask(alignment: nat): nat {
    if alignment <= 1 then WORD - 1
    else if alignment <= 16 then 0x0F
    else if alignment <= 128 then 0x7F
    else if alignment <= 4096 then 0xFFF
    else alignment - 1
  }

  // -1 is the source's "too small to file".
  function FitToBucket(size: nat): (b: int)
    ensures -1 <= b < 6 && (b == -1 <==> size < 128)
  {
    if size < 128 then -1
    else if size < 512 then 0
    else if size < 4096 then 1
    else if size < 64 * 1024 then 2
    else if size < MIB then 3
    else if size == MIB then 4
    else 5
  }

  function SizeToBucket(size: nat): (b: nat)
    ensures b < 6
  {
    if size <= 128 then 0
    else if size <= 512 then 1
    else if size <= 4096 then 2
    else if size <= 64 * 1024 then 3
    else if size <= MIB then 4
    else 5
  }

  function SizeToBucketSize(size: nat): nat {
    if size <= 128 then 128
    else if size <= 512 then 512
    else if size <= 4096 then 4096
    else if size <= 64 * 1024 then 64 * 1024
    else if size <= MIB then MIB
    else size
  }

  function AddressToTree(address: nat): (c: nat)
    ensures c < 4
  {
    if address % 4096 == 0 then 3
    else if address % 128 == 0 then 2
    else if address % 16 == 0 then 1
    else 0
  }

  /** The bitwise `&` of two naturals. */
  function BitAnd(a: nat, b: nat): nat {
    if a == 0 || b == 0 then 0
    else 2 * BitAnd(a / 2, b / 2) + (if a % 2 == 1 && b % 2 == 1 then 1 else 0)
  }

  predicate IsPow2(n: nat) {
    n == 1 || (n > 0 && n % 2 == 0 && IsPow2(n / 2))
  }

  /** The padding put before a carved node: the mask test first, the remainder only when that
      fails or the chunk is too small for the node anyway. */
  function Padding(cursor: nat, remaining: nat, rounded: nat, alignment: nat): nat
    requires alignment > 0
  {
    if BitAnd(cursor, AlignmentToMask(alignment)) == 0 && rounded <= remaining then 0
    else if cursor % alignment == 0 then 0
    else alignment - cursor % alignment
  }

  /** Rounding never shrinks a request, lands exactly on the bucket the search starts from, and
      any node filed at or above that bucket is large enough for a request of at most 1 MiB. */
  lemma BucketsFit(size: nat, filed: nat)
    ensures SizeToBucketSize(size) >= size && SizeToBucketSize(size) >= 128
    ensures FitToBucket(SizeToBucketSize(size)) == SizeToBucket(size)
    ensures size <= MIB && FitToBucket(filed) >= SizeToBucket(size) ==> filed >= size
  {
  }

  /** The bucket sizes, and the class alignments. */
  const SIZES: seq<nat> := [128, 512, 4096, 65536, 1048576]
  const ALIGNMENTS: seq<nat> := [1, 16, 128, 4096]

  /** The case functions, one against the other: a request starts at the first bucket size that holds it and is
      rounded to just that; a node is filed under the last bucket size it reaches, and past 1 MiB in the sixth. */
  lemma BucketsAre(size: nat, k: nat)
    requires k < 5
    ensures SizeToBucket(size) <= k <==> size <= SIZES[k]
    ensures FitToBucket(size) >= k <==> size >= SIZES[k]
    ensures FitToBucket(size) == 5 <==> size > 1048576
    ensures SizeToBucketSize(size) == if size <= 1048576 then SIZES[SizeToBucket(size)] else size
  {
    assert k == 0 || k == 1 || k == 2 || k == 3 || k == 4;
  }

  /** So for at most 1 MiB the nodes filed where a search may look are exactly those that hold the rounded request. */
  lemma RoundingIsExact(size: nat, s: nat)
    ensures size <= 1048576 ==> (FitToBucket(s) >= SizeToBucket(size) <==> s >= SizeToBucketSize(size))
    ensures size > 1048576 ==> SizeToBucketSize(size) == size
  {
    if size <= 1048576 {
      BucketsAre(s, SizeToBucket(size));
      BucketsAre(size, SizeToBucket(size));
    }
  }

  /** An alignment's class is the first whose alignment is no less, with everything over 128 in the last; an
      address's class is the last whose alignment divides it. */
  lemma ClassesAre(x: nat, c: nat)
    requires c < 4
    ensures c < 3 ==> (AlignmentToTree(x) <= c <==> x <= ALIGNMENTS[c])
    ensures AddressToTree(x) >= c <==> x % ALIGNMENTS[c] == 0
  {
    assert c == 0 || c == 1 || c == 2 || c == 3;
    LineOfPage(x);
  }

  lemma LineOfPage(x: nat)
    ensures x % 4096 == 0 ==> x % 128 == 0
    ensures x % 128 == 0 ==> x % 16 == 0
  {
    var q, r := x / 4096, x / 128;
    if x % 4096 == 0 {
      RemainderUnique(x, 128, 32 * q, 0);
    }
    if x % 128 == 0 {
      RemainderUnique(x, 16, 8 * r, 0);
    }
  }

  /** The mask of an alignment over 1 is one less than the class alignment that covers it, and over a page than the
      alignment itself; that of 0 and 1 has every bit. */
  lemma MasksAre(alignment: nat)
    ensures alignment <= 1 ==> AlignmentToMask(alignment) == 0xFFFF_FFFF_FFFF_FFFF
    ensures 1 < alignment <= 4096 ==>
              AlignmentToMask(alignment) + 1 == ALIGNMENTS[AlignmentToTree(alignment)]
    ensures alignment > 4096 ==> AlignmentToMask(alignment) + 1 == alignment
  {
  }

  lemma {:induction false} MaskIsRemainder(a: nat, m: nat)
    requires IsPow2(m)
    ensures BitAnd(a, m - 1) == a % m
  {
    if a != 0 && m != 1 {
      MaskIsRemainder(a / 2, m / 2);
      assert (m - 1) / 2 == m / 2 - 1;
      DoubleRemainder(a, m / 2);
    }
  }

  lemma DoubleRemainder(a: nat, h: nat)
    requires h > 0
    ensures a % (2 * h) == 2 * ((a / 2) % h) + a % 2
  {
    var q := (a / 2) / h;
    var r := (a / 2) % h;
    assert a / 2 == q * h + r;
    assert a == (2 * h) * q + (2 * r + a % 2);
    RemainderUnique(a, 2 * h, q, 2 * r + a % 2);
  }

  lemma RemainderUnique(a: nat, m: nat, q: nat, r: nat)
    requires 0 <= r < m && a == m * q + r
    ensures a % m == r && a / m == q
  {
    var q2 := a / m;
    assert a == m * q2 + a % m;
    if q2 < q {
      assert m * (q2 + 1) <= m * q by { MulMono(m, q2 + 1, q); }
      assert false;
    } else if q < q2 {
      assert m * (q + 1) <= m * q2 by { MulMono(m, q + 1, q2); }
      assert false;
    }
  }

  lemma MulMono(m: nat, x: nat, y: nat)
    requires x <= y
    ensures m * x <= m * y
  {
  }
}
