/** The tree of allocated nodes as a value: an unbalanced search tree on addresses. */
module AllocTree {
  import opened Nodes
  import opened Wrappers

  datatype Tree = Leaf | Br(left: Tree, node: Node, right: Tree)

  function Bag(t: Tree): multiset<Node> {
    match t
    case Leaf => multiset{}
    case Br(l, n, r) => Bag(l) + multiset{n} + Bag(r)
  }

  function Elems(t: Tree): set<Node> {
    if t.Leaf? then {} else Elems(t.left) + {t.node} + Elems(t.right)
  }

  lemma {:induction false} ElemsBag(t: Tree)
    ensures forall x :: x in Elems(t) <==> x in Bag(t)
  {
    if t.Br? {
      ElemsBag(t.left);
      ElemsBag(t.right);
    }
  }

  function Inorder(t: Tree): seq<Node> {
    match t
    case Leaf => []
    case Br(l, n, r) => Inorder(l) + [n] + Inorder(r)
  }

  function Bytes(t: Tree): nat {
    match t
    case Leaf => 0
    case Br(l, n, r) => Bytes(l) + n.size + Bytes(r)
  }

  ghost predicate Below(b: multiset<Node>, address: nat) {
    forall x | x in b :: x.address < address
  }

  ghost predicate NotBelow(b: multiset<Node>, address: nat) {
    forall x | x in b :: address <= x.address
  }

  // An equal address goes right, as in the source.
  ghost predicate Ordered(t: Tree) {
    match t
    case Leaf => true
    case Br(l, n, r) =>
      && Ordered(l) && Ordered(r)
      && Below(Bag(l), n.address) && NotBelow(Bag(r), n.address)
  }

  function Insert(t: Tree, x: Node): Tree {
    match t
    case Leaf => Br(Leaf, x, Leaf)
    case Br(l, n, r) => if x.address < n.address then Br(Insert(l, x), n, r) else Br(l, n, Insert(r, x))
  }

  function Find(t: Tree, address: nat): Option<Node> {
    match t
    case Leaf => None
    case Br(l, n, r) =>
      if n.address == address then Some(n)
      else if address < n.address then Find(l, address)
      else Find(r, address)
  }

  /** Hangs `l` under the leftmost node of `t`. */
  function Graft(t: Tree, l: Tree): Tree {
    match t
    case Leaf => l
    case Br(tl, n, tr) => Br(Graft(tl, l), n, tr)
  }

  /** What takes the place of a deleted node with these two subtrees. */
  function Join(l: Tree, r: Tree): Tree {
    if r.Leaf? then l else if l.Leaf? then r else Graft(r, l)
  }

  function Remove(t: Tree, x: Node): Tree {
    match t
    case Leaf => Leaf
    case Br(l, n, r) =>
      if n == x then Join(l, r)
      else if x in Elems(l) then Br(Remove(l, x), n, r)
      else Br(l, n, Remove(r, x))
  }

  lemma {:induction false} InsertBag(t: Tree, x: Node)
    ensures Bag(Insert(t, x)) == Bag(t) + multiset{x}
    ensures Bytes(Insert(t, x)) == Bytes(t) + x.size
  {
    if t.Br? {
      InsertBag(t.left, x);
      InsertBag(t.right, x);
    }
  }

  lemma AlsoBelow(b: multiset<Node>, x: Node, address: nat)
    ensures Below(b, address) && x.address < address ==> Below(b + multiset{x}, address)
    ensures NotBelow(b, address) && address <= x.address ==> NotBelow(b + multiset{x}, address)
  {
  }

  lemma {:induction false} InsertOrdered(t: Tree, x: Node)
    requires Ordered(t)
    ensures Ordered(Insert(t, x))
  {
    if t.Br? {
      if x.address < t.node.address {
        InsertOrdered(t.left, x);
        InsertBag(t.left, x);
        AlsoBelow(Bag(t.left), x, t.node.address);
      } else {
        InsertOrdered(t.right, x);
        InsertBag(t.right, x);
        AlsoBelow(Bag(t.right), x, t.node.address);
      }
    }
  }

  lemma {:induction false} GraftBag(t: Tree, l: Tree)
    ensures Bag(Graft(t, l)) == Bag(t) + Bag(l)
    ensures Bytes(Graft(t, l)) == Bytes(t) + Bytes(l)
  {
    if t.Br? {
      GraftBag(t.left, l);
    }
  }

  lemma {:induction false} GraftInorder(t: Tree, l: Tree)
    ensures Inorder(Graft(t, l)) == Inorder(l) + Inorder(t)
  {
    if t.Br? {
      GraftInorder(t.left, l);
    } else {
      assert Inorder(l) + [] == Inorder(l);
    }
  }

  lemma {:induction false} GraftOrdered(t: Tree, l: Tree)
    requires Ordered(t) && Ordered(l)
    requires forall x, y | x in Bag(l) && y in Bag(t) :: x.address < y.address
    ensures Ordered(Graft(t, l))
  {
    if t.Br? {
      GraftOrdered(t.left, l);
      GraftBag(t.left, l);
    }
  }

  lemma JoinBag(l: Tree, r: Tree)
    ensures Bag(Join(l, r)) == Bag(l) + Bag(r)
    ensures Bytes(Join(l, r)) == Bytes(l) + Bytes(r)
  {
    GraftBag(r, l);
    if r.Leaf? {
      assert Bag(l) + multiset{} == Bag(l);
    } else if l.Leaf? {
      assert multiset{} + Bag(r) == Bag(r);
    } else {
      assert Bag(r) + Bag(l) == Bag(l) + Bag(r);
    }
  }

  lemma JoinInorder(l: Tree, r: Tree)
    ensures Inorder(Join(l, r)) == Inorder(l) + Inorder(r)
  {
    GraftInorder(r, l);
    assert Inorder(l) + [] == Inorder(l);
  }

  lemma MinusLeft(a: multiset<Node>, b: multiset<Node>, c: multiset<Node>, x: Node)
    requires x in a
    ensures (a - multiset{x}) + b + c == a + b + c - multiset{x}
  {
  }

  lemma MinusRight(a: multiset<Node>, b: multiset<Node>, x: Node)
    requires x in b
    ensures a + (b - multiset{x}) == a + b - multiset{x}
  {
  }

  /** The way down to the leftmost node, with what hangs to the right of each. */
  function LeftSpine(t: Tree): seq<(Node, Tree)> {
    if t.Leaf? then [] else [(t.node, t.right)] + LeftSpine(t.left)
  }

  /** A deleted node is replaced by its right subtree, with the left one hung under the leftmost node and nothing else
      moved. */
  lemma {:induction false} GraftSpine(t: Tree, l: Tree)
    ensures LeftSpine(Graft(t, l)) == LeftSpine(t) + LeftSpine(l)
  {
    if t.Br? {
      GraftSpine(t.left, l);
    } else {
      assert [] + LeftSpine(l) == LeftSpine(l);
    }
  }

  lemma RemovedRoot(l: Tree, n: Node, r: Tree)
    ensures LeftSpine(Remove(Br(l, n, r), n)) == LeftSpine(r) + LeftSpine(l)
  {
    GraftSpine(r, l);
    assert [] + LeftSpine(l) == LeftSpine(l) && LeftSpine(r) + [] == LeftSpine(r);
  }

  lemma {:induction false} RemoveBag(t: Tree, x: Node)
    requires x in Bag(t)
    ensures Bag(Remove(t, x)) == Bag(t) - multiset{x}
    ensures Bytes(Remove(t, x)) == Bytes(t) - x.size
  {
    ElemsBag(t.left);
    if t.node == x {
      JoinBag(t.left, t.right);
    } else if x in Bag(t.left) {
      RemoveBag(t.left, x);
      MinusLeft(Bag(t.left), multiset{t.node}, Bag(t.right), x);
    } else {
      RemoveBag(t.right, x);
      MinusRight(Bag(t.left) + multiset{t.node}, Bag(t.right), x);
    }
  }

  lemma OrderedParts(t: Tree)
    requires t.Br? && Ordered(t)
    ensures forall x, y | x in Bag(t.left) && y in Bag(t.right) :: x.address < y.address
  {
  }

  lemma JoinOrdered(t: Tree)
    requires t.Br? && Ordered(t)
    ensures Ordered(Join(t.left, t.right))
  {
    if t.left.Br? && t.right.Br? {
      OrderedParts(t);
      GraftOrdered(t.right, t.left);
    }
  }

  lemma StillBelow(b: multiset<Node>, x: Node, address: nat)
    ensures Below(b, address) ==> Below(b - multiset{x}, address)
    ensures NotBelow(b, address) ==> NotBelow(b - multiset{x}, address)
  {
    assert forall y | y in b - multiset{x} :: y in b;
  }

  lemma {:induction false} RemoveOrdered(t: Tree, x: Node)
    requires Ordered(t) && x in Bag(t)
    ensures Ordered(Remove(t, x))
  {
    ElemsBag(t.left);
    if t.node == x {
      JoinOrdered(t);
    } else if x in Bag(t.left) {
      RemoveOrdered(t.left, x);
      RemoveBag(t.left, x);
      StillBelow(Bag(t.left), x, t.node.address);
    } else {
      RemoveOrdered(t.right, x);
      RemoveBag(t.right, x);
      StillBelow(Bag(t.right), x, t.node.address);
    }
  }

  lemma {:induction false} BagIsInorder(t: Tree)
    ensures Bag(t) == multiset(Inorder(t))
  {
    if t.Br? {
      BagIsInorder(t.left);
      BagIsInorder(t.right);
    }
  }

  ghost predicate InOrder(s: seq<Node>) {
    forall i, j | 0 <= i < j < |s| :: s[i].address <= s[j].address
  }

  lemma InOrderAround(l: seq<Node>, n: Node, r: seq<Node>)
    requires InOrder(l) && InOrder(r)
    requires forall i | 0 <= i < |l| :: l[i].address <= n.address
    requires forall i | 0 <= i < |r| :: n.address <= r[i].address
    ensures InOrder(l + [n] + r)
  {
  }

  /** Read from left to right, an ordered tree gives its addresses in order. */
  lemma {:induction false} OrderedIsSorted(t: Tree)
    requires Ordered(t)
    ensures InOrder(Inorder(t))
  {
    if t.Br? {
      OrderedIsSorted(t.left);
      OrderedIsSorted(t.right);
      BagIsInorder(t.left);
      BagIsInorder(t.right);
      var l, r := Inorder(t.left), Inorder(t.right);
      forall i | 0 <= i < |l|
        ensures l[i].address <= t.node.address
      {
        assert l[i] in multiset(l);
      }
      forall i | 0 <= i < |r|
        ensures t.node.address <= r[i].address
      {
        assert r[i] in multiset(r);
      }
      InOrderAround(l, t.node, r);
    }
  }

  /** `whole` with position `i` taken out is `rest`. */
  ghost predicate TakenOut(whole: seq<Node>, i: int, x: Node, rest: seq<Node>) {
    0 <= i < |whole| && whole[i] == x && rest == whole[..i] + whole[i + 1..]
  }

  lemma TakenOutOfLeft(a: seq<Node>, i: int, x: Node, a': seq<Node>, b: seq<Node>)
    requires TakenOut(a, i, x, a')
    ensures TakenOut(a + b, i, x, a' + b)
  {
    assert (a + b)[i + 1..] == a[i + 1..] + b;
  }

  lemma TakenOutOfRight(a: seq<Node>, b: seq<Node>, i: int, x: Node, b': seq<Node>)
    requires TakenOut(b, i, x, b')
    ensures TakenOut(a + b, |a| + i, x, a + b')
  {
    assert (a + b)[..|a| + i] == a + b[..i];
  }

  /** Deleting any node takes exactly that node out of the address order and moves nothing else. */
  lemma {:induction false} RemoveInorder(t: Tree, x: Node) returns (i: int)
    requires x in Elems(t)
    ensures TakenOut(Inorder(t), i, x, Inorder(Remove(t, x)))
  {
    var l, r := Inorder(t.left), Inorder(t.right);
    if t.node == x {
      JoinInorder(t.left, t.right);
      i := |l|;
      assert Inorder(t)[i + 1..] == r;
    } else if x in Elems(t.left) {
      i := RemoveInorder(t.left, x);
      TakenOutOfLeft(l, i, x, Inorder(Remove(t.left, x)), [t.node]);
      TakenOutOfLeft(l + [t.node], i, x, Inorder(Remove(t.left, x)) + [t.node], r);
    } else {
      var j := RemoveInorder(t.right, x);
      TakenOutOfRight(l + [t.node], r, j, x, Inorder(Remove(t.right, x)));
      i := |l + [t.node]| + j;
    }
  }

  /** A search finds an address exactly when some node of the tree has it. */
  lemma {:induction false} FindIffPresent(t: Tree, address: nat)
    requires Ordered(t)
    ensures Find(t, address).Some? <==> exists x :: x in Bag(t) && x.address == address
    ensures Find(t, address).Some? ==> Find(t, address).value in Bag(t) && Find(t, address).value.address == address
  {
    if t.Br? {
      FindIffPresent(t.left, address);
      FindIffPresent(t.right, address);
      if t.node.address == address {
        assert t.node in Bag(t);
      }
    }
  }

  /** A node just inserted under a new address is what the search finds, and deleting it gives
      the old tree back, shape and all. */
  lemma {:induction false} InsertThenRemove(t: Tree, x: Node)
    requires forall y | y in Bag(t) :: y.address != x.address
    ensures Find(Insert(t, x), x.address) == Some(x)
    ensures Remove(Insert(t, x), x) == t
  {
    if t.Br? {
      ElemsBag(t.left);
      ElemsBag(Insert(t.left, x));
      assert t.node in Bag(t);
      assert forall y | y in Bag(t.left) + Bag(t.right) :: y in Bag(t);
      if x.address < t.node.address {
        InsertThenRemove(t.left, x);
        InsertBag(t.left, x);
      } else {
        InsertThenRemove(t.right, x);
      }
    }
  }

  /** `m` is the bag of nodes read as a finite map from address to node: every node is under its
      address, and every entry is a node of the bag, once. */
  ghost predicate IsDictionary(b: multiset<Node>, m: map<nat, Node>) {
    && (forall x | x in b :: b[x] == 1 && x.address in m && m[x.address] == x)
    && (forall a | a in m :: m[a] in b && m[a].address == a)
  }

  lemma DictionaryPlus(b: multiset<Node>, m: map<nat, Node>, x: Node)
    requires IsDictionary(b, m) && x.address !in m
    ensures IsDictionary(b + multiset{x}, m[x.address := x])
  {
    assert x !in b;
  }

  lemma DictionaryMinus(b: multiset<Node>, m: map<nat, Node>, a: nat)
    requires IsDictionary(b, m) && a in m
    ensures IsDictionary(b - multiset{m[a]}, m - {a})
  {
    var b', m' := b - multiset{m[a]}, m - {a};
    forall x | x in b'
      ensures b'[x] == 1 && x.address in m' && m'[x.address] == x
    {
      assert x in b && x != m[a];
    }
  }

  /** Search, insertion under a new address and search-and-remove are lookup, update and deletion. */
  lemma InsertIsUpdate(t: Tree, m: map<nat, Node>, x: Node)
    requires Ordered(t) && IsDictionary(Bag(t), m) && x.address !in m
    ensures Ordered(Insert(t, x)) && IsDictionary(Bag(Insert(t, x)), m[x.address := x])
  {
    InsertBag(t, x);
    InsertOrdered(t, x);
    DictionaryPlus(Bag(t), m, x);
  }

  lemma FindIsLookup(t: Tree, m: map<nat, Node>, a: nat)
    requires Ordered(t) && IsDictionary(Bag(t), m)
    ensures Find(t, a) == if a in m then Some(m[a]) else None
  {
    FindIffPresent(t, a);
  }

  lemma SearchAndRemoveIsDeletion(t: Tree, m: map<nat, Node>, a: nat)
    requires Ordered(t) && IsDictionary(Bag(t), m) && a in m
    ensures Find(t, a) == Some(m[a])
    ensures Ordered(Remove(t, m[a])) && IsDictionary(Bag(Remove(t, m[a])), m - {a})
  {
    FindIsLookup(t, m, a);
    RemoveBag(t, m[a]);
    RemoveOrdered(t, m[a]);
    DictionaryMinus(Bag(t), m, a);
  }
}
