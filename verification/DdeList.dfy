/** The list of target buffers a decompression writes into, one after the other, read back as one. */
module DdeList {
  import opened Wrappers

  class DdeNode {
    const buffer: array<byte>
    const prev: DdeNode?
    var next: DdeNode?

    constructor (buffer: array<byte>, prev: DdeNode?)
      ensures this.buffer == buffer && this.prev == prev && next == null
    {
      this.buffer, this.prev, next := buffer, prev, null;
    }
  }

  /** All that the buffers hold, in list order. */
  ghost function Concat(ns: seq<DdeNode>): seq<byte>
    reads set n | n in ns :: n.buffer
  {
    if |ns| == 0 then [] else Concat(ns[..|ns| - 1]) + ns[|ns| - 1].buffer[..]
  }

  ghost function Sizes(ns: seq<DdeNode>): nat {
    if |ns| == 0 then 0 else Sizes(ns[..|ns| - 1]) + ns[|ns| - 1].buffer.Length
  }

  lemma {:induction false} ConcatLength(ns: seq<DdeNode>)
    ensures |Concat(ns)| == Sizes(ns)
  {
    if |ns| > 0 {
      ConcatLength(ns[..|ns| - 1]);
    }
  }

  lemma OneMore(ns: seq<DdeNode>, k: nat)
    requires k < |ns|
    ensures Concat(ns[..k + 1]) == Concat(ns[..k]) + ns[k].buffer[..]
    ensures Sizes(ns[..k + 1]) == Sizes(ns[..k]) + ns[k].buffer.Length
  {
    assert ns[..k + 1][..k] == ns[..k];
  }

  lemma {:induction false} PrefixOf(ns: seq<DdeNode>, k: nat)
    requires k <= |ns|
    ensures Concat(ns[..k]) <= Concat(ns) && Sizes(ns[..k]) <= Sizes(ns)
    decreases |ns| - k
  {
    if k == |ns| {
      assert ns[..k] == ns;
    } else {
      OneMore(ns, k);
      PrefixOf(ns, k + 1);
    }
  }

  function Min(a: nat, b: nat): nat {
    if a < b then a else b
  }

  class GatherList {
    var root: DdeNode?
    var last: DdeNode?
    var size: nat
    ghost var nodes: seq<DdeNode>

    static ghost function Nth(ns: seq<DdeNode>, i: int): DdeNode? {
      if 0 <= i < |ns| then ns[i] else null
    }

    static ghost predicate Linked(ns: seq<DdeNode>, i: nat)
      requires i < |ns|
      reads ns[i]
    {
      ns[i].next == Nth(ns, i + 1) && ns[i].prev == Nth(ns, i - 1)
    }

    /** The recorded size is the sum of the buffers', and `last` is the true tail. */
    ghost predicate Valid()
      reads this, nodes
    {
      && |nodes| > 0 && root == nodes[0] && last == nodes[|nodes| - 1]
      && (forall i, j | 0 <= i < j < |nodes| :: nodes[i] != nodes[j])
      && (forall i {:trigger Linked(nodes, i)} | 0 <= i < |nodes| :: Linked(nodes, i))
      && size == Sizes(nodes)
    }

    ghost function Buffers(): set<array<byte>>
      reads this
    {
      set n | n in nodes :: n.buffer
    }

    ghost function Contents(): seq<byte>
      reads this, Buffers()
    {
      Concat(nodes)
    }

    // the with_dde_list constructors, given their first target buffer
    constructor (target: array<byte>)
      ensures Valid() && fresh(nodes) && size == target.Length
      ensures Buffers() == {target} && Contents() == target[..]
    {
      var n := new DdeNode(target, null);
      root, last, size, nodes := n, n, target.Length, [n];
      new;
      assert Linked(nodes, 0);
      assert nodes[..0] == [];
      assert Concat(nodes[..0]) == [];
    }

    // the add_dde functions: a zeroed buffer goes to the end
    method Append(bytes: nat) returns (target: array<byte>)
      requires Valid()
      modifies this, last
      ensures Valid() && |nodes| == |old(nodes)| + 1 && nodes[..|old(nodes)|] == old(nodes) && fresh(nodes[|old(nodes)|])
      ensures size == old(size) + bytes && last.buffer == target && fresh(target) && target.Length == bytes
      ensures Contents() == old(Contents()) + target[..] && forall i | 0 <= i < bytes :: target[i] == 0
    {
      target := new byte[bytes](_ => 0);
      ghost var was := nodes;
      var t := new DdeNode(target, last);
      last.next := t;
      nodes := nodes + [t];
      last := t;
      size := size + bytes;
      Appended(was, t);
      forall i | 0 <= i < |nodes|
        ensures Linked(nodes, i)
      {
        assert i < |was| ==> old(Linked(nodes, i));
      }
    }

    lemma Appended(was: seq<DdeNode>, t: DdeNode)
      ensures (was + [t])[..|was|] == was
      ensures Concat(was + [t]) == Concat(was) + t.buffer[..] && Sizes(was + [t]) == Sizes(was) + t.buffer.Length
    {
      assert (was + [t])[..|was|] == was;
    }

    // one turn of the copying loop
    method CopyNode(t: DdeNode, buf: array<byte>, offset: nat, limit: nat, ghost k: nat, ghost was: seq<byte>)
      returns (s: nat)
      requires Valid() && k < |nodes| && t == nodes[k] && offset == Min(limit, Sizes(nodes[..k]))
      requires Min(limit, size) <= buf.Length == |was| && buf !in Buffers() && |Contents()| == size
      requires offset <= Min(limit, size)
      requires buf[..] == Contents()[..offset] + was[offset..]
      modifies buf
      ensures Contents() == old(Contents()) && offset + s <= |Contents()|
      ensures offset + s == Min(limit, Sizes(nodes[..k + 1])) <= Min(limit, size)
      ensures buf[..] == Contents()[..offset + s] + was[offset + s..]
    {
      Advance(k, offset, limit);
      s := if offset + t.buffer.Length > limit then limit - offset else t.buffer.Length;
      ghost var all, b, part := Contents(), buf[..], t.buffer[..s];
      CopyPart(buf, offset, t.buffer, s);
      Spliced(all, was, offset, b, part, buf[..]);
    }

    // cop_comp_copy_dde_list
    method Copy(buf: array<byte>, limit: nat)
      requires Valid() && Min(limit, size) <= buf.Length && buf !in Buffers()
      modifies buf
      ensures Contents() == old(Contents()) && |Contents()| == size
      ensures buf[..] == Contents()[..Min(limit, size)] + old(buf[..])[Min(limit, size)..]
    {
      Ends(limit);
      ghost var all, was := Contents(), buf[..];
      ghost var k := 0;
      var t, offset := root, 0;
      assert all[..0] + was[0..] == was;
      while t != null
        invariant k <= |nodes| && t == Nth(nodes, k)
        invariant Contents() == all && offset == Min(limit, Sizes(nodes[..k])) <= Min(limit, size)
        invariant buf[..] == all[..offset] + was[offset..]
        decreases |nodes| - k
      {
        assert Linked(nodes, k);
        var s := CopyNode(t, buf, offset, limit, k, was);
        offset := offset + s;
        t := t.next;
        k := k + 1;
      }
    }

    lemma Ends(limit: nat)
      requires Valid()
      ensures Min(limit, Sizes(nodes[..0])) == 0 && Min(limit, Sizes(nodes[..|nodes|])) == Min(limit, size)
      ensures |Contents()| == size
    {
      ConcatLength(nodes);
      assert nodes[..|nodes|] == nodes;
    }

    lemma Advance(k: nat, offset: nat, limit: nat)
      requires Valid() && k < |nodes| && offset == Min(limit, Sizes(nodes[..k]))
      ensures var s := if offset + nodes[k].buffer.Length > limit then limit - offset else nodes[k].buffer.Length;
              && offset + s == Min(limit, Sizes(nodes[..k + 1])) <= Min(limit, size)
              && offset + s <= |Contents()| && Contents()[offset..offset + s] == nodes[k].buffer[..s]
    {
      OneMore(nodes, k);
      PrefixOf(nodes, k + 1);
      ConcatLength(nodes[..k]);
      ConcatLength(nodes);
      var s := if offset + nodes[k].buffer.Length > limit then limit - offset else nodes[k].buffer.Length;
      var a := Sizes(nodes[..k]);
      if offset == a {
        assert Contents()[a..a + s] == Concat(nodes[..k + 1])[a..a + s] == nodes[k].buffer[..s];
      }
    }

    // cop_comp_copy_dde_list_with_offset: there is no bound check in it, so the slice must exist
    method CopyWithOffset(buf: array<byte>, bytes: nat, offset: nat) returns (n: nat)
      requires Valid() && bytes <= buf.Length && offset + bytes <= size && buf !in Buffers()
      modifies buf
      ensures n == bytes && Contents() == old(Contents()) && |Contents()| == size
      ensures buf[..] == Contents()[offset..offset + bytes] + old(buf[bytes..])
    {
      var tmp := new byte[size];
      Copy(tmp, size);
      assert tmp[..] == Contents();
      ghost var all := Contents();
      CopySlice(buf, tmp, offset, bytes);
      n := bytes;
    }

    // cop_free_comp_session: the buffers it gives back, in order
    method FreeAll() returns (freed: seq<array<byte>>)
      requires Valid()
      ensures |freed| == |nodes| && forall i | 0 <= i < |nodes| :: freed[i] == nodes[i].buffer
    {
      freed := [];
      var t := root;
      while t != null
        invariant |freed| <= |nodes| && t == Nth(nodes, |freed|)
        invariant forall i | 0 <= i < |freed| :: freed[i] == nodes[i].buffer
        decreases |nodes| - |freed|
      {
        assert Linked(nodes, |freed|);
        freed := freed + [t.buffer];
        t := t.next;
      }
    }
  }

  lemma Spliced(all: seq<byte>, was: seq<byte>, offset: nat, b: seq<byte>, part: seq<byte>, b': seq<byte>)
    requires offset + |part| <= |all| && offset + |part| <= |was| && |b| == |was|
    requires b == all[..offset] + was[offset..] && part == all[offset..offset + |part|]
    requires b' == b[..offset] + part + b[offset + |part|..]
    ensures b' == all[..offset + |part|] + was[offset + |part|..]
  {
    assert b[..offset] == all[..offset];
    assert b[offset + |part|..] == was[offset + |part|..];
  }

  // memcpy of the first `s` bytes of a buffer
  method CopyPart(buf: array<byte>, at: nat, from: array<byte>, s: nat)
    requires at + s <= buf.Length && s <= from.Length && buf != from
    modifies buf
    ensures buf[..] == old(buf[..at]) + from[..s] + old(buf[at + s..])
  {
    forall i | 0 <= i < s {
      buf[at + i] := from[i];
    }
  }

  method CopySlice(buf: array<byte>, from: array<byte>, offset: nat, s: nat)
    requires s <= buf.Length && offset + s <= from.Length && buf != from
    modifies buf
    ensures buf[..] == from[offset..offset + s] + old(buf[s..])
  {
    forall i | 0 <= i < s {
      buf[i] := from[offset + i];
    }
  }
}
