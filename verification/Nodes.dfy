/** The allocator's node.  `id` stands for the identity of the node structure itself (two
    structures are never the same, whatever they hold); the other fields are set when the
    structure is made and never written again. */
module Nodes {
  datatype Node = Node(id: nat, address: nat, size: nat, cls: nat)

  predicate Disjoint(a: nat, n: nat, b: nat, m: nat) {
    a + n <= b || b + m <= a
  }

  function SumSizes(s: seq<Node>): nat {
    if |s| == 0 then 0 else s[0].size + SumSizes(s[1..])
  }
}
