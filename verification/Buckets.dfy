/** The free lists as values: 4 alignment classes of 6 size buckets, each a stack of nodes with
    its head first.  `Slot(c, b)` is bucket `b` of class `c`. */
module Buckets {
  import opened Nodes
  import opened SizeClasses

  const SLOTS: nat := 24

  function Slot(c: nat, b: nat): (s: nat)
    requires c < 4 && b < 6
    ensures s < SLOTS && s / 6 == c && s % 6 == b
  {
    6 * c + b
  }

  /** Where the insertion walk stops: at the first cell not larger than `size`, but never past
      the last cell. */
  function InsertPosition(s: seq<Node>, size: nat): (i: nat)
    ensures i <= |s| && (|s| > 0 ==> i < |s|)
    ensures forall j | 0 <= j < i :: s[j].size > size
    ensures |s| > 0 ==> i == |s| - 1 || s[i].size <= size
  {
    if |s| > 1 && s[0].size > size then 1 + InsertPosition(s[1..], size) else 0
  }

  function BucketInsert(s: seq<Node>, n: Node): seq<Node> {
    var i := InsertPosition(s, n.size);
    s[..i] + [n] + s[i..]
  }

  ghost predicate Sorted(s: seq<Node>) {
    forall i, j | 0 <= i < j < |s| :: s[i].size >= s[j].size
  }

  ghost predicate SortedButLast(s: seq<Node>) {
    forall i, j | 0 <= i < j < |s| - 1 :: s[i].size >= s[j].size
  }

  lemma BucketInsertBag(s: seq<Node>, n: Node)
    ensures multiset(BucketInsert(s, n)) == multiset(s) + multiset{n}
    ensures SumSizes(BucketInsert(s, n)) == SumSizes(s) + n.size
  {
    var i := InsertPosition(s, n.size);
    assert s == s[..i] + s[i..];
    SumSizesConcat(s[..i], s[i..]);
    SumSizesConcat(s[..i] + [n], s[i..]);
    SumSizesConcat(s[..i], [n]);
  }

  lemma {:induction false} SumSizesConcat(a: seq<Node>, b: seq<Node>)
    ensures SumSizes(a + b) == SumSizes(a) + SumSizes(b)
  {
    if |a| == 0 {
      assert a + b == b;
    } else {
      SumSizesConcat(a[1..], b);
      assert (a + b)[1..] == a[1..] + b;
    }
  }

  /** The order every bucket really has: non-increasing except possibly for its last element. */
  lemma InsertKeepsOrder(s: seq<Node>, n: Node)
    requires SortedButLast(s)
    ensures SortedButLast(BucketInsert(s, n))
  {
    var i := InsertPosition(s, n.size);
    var r := BucketInsert(s, n);
    forall a, b | 0 <= a < b < |r| - 1
      ensures r[a].size >= r[b].size
    {
      if a == i {
        assert r[b] == s[b - 1] && i < |s| - 1;
        assert s[i].size >= s[b - 1].size;
      }
    }
  }

  /** Insertion is not a sorted insertion: it keeps a sorted bucket sorted exactly when the new
      node is not smaller than the last one. */
  lemma SortedIffNotSmallest(s: seq<Node>, n: Node)
    requires Sorted(s)
    ensures Sorted(BucketInsert(s, n)) <==> |s| == 0 || s[|s| - 1].size <= n.size
  {
    var i := InsertPosition(s, n.size);
    var r := BucketInsert(s, n);
    if |s| > 0 {
      assert r[i] == n && r[|r| - 1] == s[|s| - 1];
      if s[|s| - 1].size <= n.size {
        assert s[i].size <= n.size;
      }
    }
  }

  /** A popped head goes back exactly where it was. */
  lemma PopThenInsert(s: seq<Node>)
    requires |s| > 0 && SortedButLast(s)
    ensures BucketInsert(s[1..], s[0]) == s
  {
    if |s| > 2 {
      assert s[0].size >= s[1].size;
    }
    assert InsertPosition(s[1..], s[0].size) == 0;
  }

  function FreeBag(free: seq<seq<Node>>): multiset<Node> {
    if |free| == 0 then multiset{} else multiset(free[0]) + FreeBag(free[1..])
  }

  function FreeBytes(free: seq<seq<Node>>): nat {
    if |free| == 0 then 0 else SumSizes(free[0]) + FreeBytes(free[1..])
  }

  lemma {:induction false} FreeBagUpdate(free: seq<seq<Node>>, i: nat, s: seq<Node>)
    requires i < |free|
    ensures multiset(free[i]) <= FreeBag(free)
    ensures FreeBag(free[i := s]) + multiset(free[i]) == FreeBag(free) + multiset(s)
  {
    if i == 0 {
      assert free[i := s][1..] == free[1..];
    } else {
      FreeBagUpdate(free[1..], i - 1, s);
      var free' := free[i := s];
      assert free'[1..] == free[1..][i - 1 := s];
      var a, f, f' := multiset(free[0]), FreeBag(free[1..]), FreeBag(free'[1..]);
      assert f' + multiset(free[i]) == f + multiset(s);
      assert a + f' + multiset(free[i]) == a + (f' + multiset(free[i]));
      assert a + f + multiset(s) == a + (f + multiset(s));
    }
  }

  lemma {:induction false} FreeBytesUpdate(free: seq<seq<Node>>, i: nat, s: seq<Node>)
    requires i < |free|
    ensures FreeBytes(free[i := s]) + SumSizes(free[i]) == FreeBytes(free) + SumSizes(s)
  {
    if i == 0 {
      assert free[i := s][1..] == free[1..];
    } else {
      FreeBytesUpdate(free[1..], i - 1, s);
      assert free[i := s][1..] == free[1..][i - 1 := s];
    }
  }

  /** The outcome of the class search.  `Dropped` is the branch that pops a node found too small
      and returns NULL without putting it back. */
  datatype Hit = Missing | Taken(bucket: nat) | Dropped(bucket: nat)

  function FirstNonEmpty(free: seq<seq<Node>>, c: nat, b: nat): (r: nat)
    requires |free| == SLOTS && c < 4 && b <= 6
    ensures b <= r <= 6
    ensures forall i | b <= i < r :: free[Slot(c, i)] == []
    ensures r < 6 ==> free[Slot(c, r)] != []
    decreases 6 - b
  {
    if b == 6 || free[Slot(c, b)] != [] then b else FirstNonEmpty(free, c, b + 1)
  }

  function Search(free: seq<seq<Node>>, c: nat, size: nat): (h: Hit)
    requires |free| == SLOTS && c < 4
    ensures !h.Missing? ==> h.bucket < 6 && free[Slot(c, h.bucket)] != []
  {
    var k := SizeToBucket(size);
    if free[Slot(c, k)] != [] then Taken(k)
    else
      var b := FirstNonEmpty(free, c, k);
      if b == 6 then Missing
      else if free[Slot(c, b)][0].size < size then Dropped(b)
      else Taken(b)
  }

  /** Every filed node is in the bucket of its own class and size. */
  ghost predicate Filed(free: seq<seq<Node>>) {
    && |free| == SLOTS
    && forall s, n | 0 <= s < SLOTS && n in free[s] :: n.cls == s / 6 && FitToBucket(n.size) == s % 6
  }

  /** In a pool used by one thread at a time the search fails exactly when every bucket from the
      request's own up is empty in the class, never drops a node, and what it finds fits whenever
      the request is of at most 1 MiB, or in general unless it is the head of a non-empty last
      bucket that is too small. */
  lemma SearchSpec(free: seq<seq<Node>>, c: nat, size: nat)
    requires Filed(free) && c < 4
    ensures Search(free, c, size).Missing? <==> forall b | SizeToBucket(size) <= b < 6 :: free[Slot(c, b)] == []
    ensures !Search(free, c, size).Dropped?
    ensures Search(free, c, size).Taken? ==>
              var head := free[Slot(c, Search(free, c, size).bucket)][0];
              (head.size >= size <==> size <= MIB || free[Slot(c, 5)][0].size >= size)
  {
    var k := SizeToBucket(size);
    var b := FirstNonEmpty(free, c, k);
    if b < 6 {
      var head := free[Slot(c, b)][0];
      assert head in free[Slot(c, b)];
      BucketsFit(size, head.size);
    }
  }
}
