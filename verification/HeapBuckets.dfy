/** The free lists in memory: each bucket is a stack of node structures. */
module HeapBuckets {
  import opened Buckets
  import opened Deq
  import opened HeapTree
  import opened Nodes
  import opened Wrappers

  type Bucket = DecRoot<MappedNode>

  function Infos(s: seq<MappedNode>): (r: seq<Node>)
    ensures |r| == |s| && forall i | 0 <= i < |s| :: r[i] == s[i].info
  {
    seq(|s|, i requires 0 <= i < |s| => s[i].info)
  }

  lemma PositionUnique(s: seq<Node>, size: nat, i: nat)
    requires i <= |s| && (|s| > 0 ==> i < |s|)
    requires forall j | 0 <= j < i :: s[j].size > size
    requires |s| > 0 ==> i == |s| - 1 || s[i].size <= size
    ensures InsertPosition(s, size) == i
  {
  }

  // the stores that put `n` in front of `walker` and behind `last`
  method Link(d: Bucket, n: Cell<MappedNode>, walker: Cell?<MappedNode>, last: Cell?<MappedNode>)
    requires last != n && (last == null ==> d.root == walker) && (last != null ==> last.next == walker)
    modifies d`root, n`next, if last != null then {last} else {}
    ensures n.next == walker
    ensures last == null ==> d.root == n
    ensures last != null ==> last.next == n && d.root == old(d.root) && last.contents == old(last.contents)
  {
    if walker == null {
      n.next := null;
      if last != null {
        last.next := n;
      } else {
        d.root := n;
      }
    } else {
      if last != null {
        n.next := last.next;
        last.next := n;
      } else {
        n.next := d.root;
        d.root := n;
      }
    }
  }

  lemma ApartInsert(live: seq<Cell<MappedNode>>, spare: seq<Cell<MappedNode>>, n: Cell<MappedNode>, i: nat)
    requires Bucket.Apart(live, spare) && i <= |live| && n !in live && n !in spare
    ensures Bucket.Apart(live[..i] + [n] + live[i..], spare)
  {
    var r := live[..i] + [n] + live[i..];
    assert forall k | 0 <= k < |r| :: r[k] == if k < i then live[k] else if k == i then n else live[k - 1];
  }

  method Splice(d: Bucket, n: Cell<MappedNode>, walker: Cell?<MappedNode>, last: Cell?<MappedNode>, ghost i: nat,
                mn: MappedNode)
    requires d.Valid() && i <= |d.live| && n in d.cells && n !in d.live && n !in d.spare
    requires walker == Bucket.Nth(d.live, i) && last == (if i > 0 then d.live[i - 1] else null)
    modifies d, d.cells
    ensures d.Valid() && d.cells == old(d.cells)
    ensures d.items == old(d.items)[..i] + [mn] + old(d.items)[i..]
  {
    ghost var live, items := d.live, d.items;
    assert i > 0 ==> Bucket.Step(live, i - 1);
    ApartInsert(live, d.spare, n, i);
    d.size := d.size + 1;
    n.contents := Some(mn);
    Link(d, n, walker, last);
    d.live := live[..i] + [n] + live[i..];
    d.items := items[..i] + [mn] + items[i..];
    forall k | 0 <= k < |d.live|
      ensures Bucket.Step(d.live, k) && d.live[k] in d.cells && d.live[k].contents == Some(d.items[k])
    {
      if k < i {
        assert old(Bucket.Step(live, k)) && old(live[k].contents) == Some(items[k]);
      } else if k > i {
        assert old(Bucket.Step(live, k - 1)) && old(live[k - 1].contents) == Some(items[k - 1]);
      }
    }
    forall k | 0 <= k < |d.spare|
      ensures Bucket.Step(d.spare, k)
    {
      assert old(Bucket.Step(d.spare, k));
    }
  }

  // the insertion walk: past larger nodes, but never past the last cell
  method Walk(d: Bucket, size: nat)
    returns (walker: Cell?<MappedNode>, last: Cell?<MappedNode>)
    requires d.Valid()
    ensures var i := InsertPosition(Infos(d.items), size);
            walker == Bucket.Nth(d.live, i) && last == (if i > 0 then d.live[i - 1] else null)
  {
    ghost var i := 0;
    walker, last := d.root, null;
    while walker != null && walker.contents.value.info.size > size && walker.next != null
      invariant i <= |d.live| && (|d.live| > 0 ==> i < |d.live|)
      invariant walker == Bucket.Nth(d.live, i) && last == (if i > 0 then d.live[i - 1] else null)
      invariant forall j | 0 <= j < i :: Infos(d.items)[j].size > size
      decreases |d.live| - i
    {
      assert Bucket.Step(d.live, i) && d.live[i].contents == Some(d.items[i]);
      last := walker;
      walker := walker.next;
      i := i + 1;
    }
    if walker != null {
      assert Bucket.Step(d.live, i) && d.live[i].contents == Some(d.items[i]);
    }
    PositionUnique(Infos(d.items), size, i);
  }

  lemma InfosInsert(s: seq<MappedNode>, i: nat, mn: MappedNode)
    requires i <= |s|
    ensures Infos(s[..i] + [mn] + s[i..]) == Infos(s)[..i] + [mn.info] + Infos(s)[i..]
    ensures multiset(s[..i] + [mn] + s[i..]) == multiset(s) + multiset{mn}
  {
    assert s == s[..i] + s[i..];
  }

  method InsertNode(d: Bucket, mn: MappedNode)
    requires d.Valid()
    modifies d, d.cells
    ensures d.Valid() && fresh(d.cells - old(d.cells)) && old(d.cells) <= d.cells
    ensures Infos(d.items) == BucketInsert(Infos(old(d.items)), mn.info)
    ensures multiset(d.items) == multiset(old(d.items)) + multiset{mn}
  {
    var n := d.TakeCell();
    ghost var i := InsertPosition(Infos(d.items), mn.info.size);
    var walker, last := Walk(d, mn.info.size);
    InfosInsert(d.items, i, mn);
    Splice(d, n, walker, last, i, mn);
  }
}
